// A run in which nothing fails and a stored value is lost all the same: the first write of a session
// takes place before the node that the value belongs to has been attached.
module Loss {
  import opened Wrappers
  import opened Elements
  import opened KeyValue
  import opened Log
  import opened SeqStates
  import opened NodeSpec
  import opened ListSpec
  import opened Limits
  import opened Protocol
  import opened Ownership
  import opened Durability
  import opened Runs
  import opened Survival
  import opened Progress
  import opened Attaching

  // ---- building a run ----

  ghost function Last(r: Run): Sys
    requires r.states != []
  {
    r.states[|r.states| - 1]
  }

  /** Nothing fails in this run, and no power is lost. */
  ghost predicate Quiet(r: Run) {
    forall k :: 0 <= k < |r.events| ==> !r.events[k].PowerLoss? && !r.events[k].Reset? && !r.events[k].WriteFail?
  }

  ghost predicate Builds(r: Run, s: Sys, s': Sys) {
    IsRun(r) && r.states[0] == s && Last(r) == s' && Quiet(r)
  }

  lemma AddStep(r: Run, s0: Sys, s: Sys, e: Event, s': Sys) returns (r': Run)
    requires Builds(r, s0, s) && Next(s, e, s') && !e.PowerLoss? && !e.Reset? && !e.WriteFail?
    ensures Builds(r', s0, s')
  {
    hide Next, Booted;
    r' := Run(r.states + [s'], r.events + [e]);
    forall k | 0 <= k < |r'.events| ensures Next(r'.states[k], r'.events[k], r'.states[k + 1]) {
      if k < |r.events| {
        assert Next(r.states[k], r.events[k], r.states[k + 1]);
      }
    }
  }

  lemma AddPath(r: Run, s0: Sys, s: Sys, p: Path, l: ListId, s': Sys) returns (r': Run)
    requires Builds(r, s0, s) && Leads(p, l, s, s') && Plain(p)
    ensures Builds(r', s0, s')
  {
    hide Next, Booted;
    r' := Run(r.states + p.states[1..], r.events + p.events);
    forall k | 0 <= k < |r'.events| ensures Next(r'.states[k], r'.events[k], r'.states[k + 1]) {
      if k < |r.events| {
        assert Next(r.states[k], r.events[k], r.states[k + 1]);
      } else {
        var q := k - |r.events|;
        assert Next(p.states[q], p.events[q], p.states[q + 1]);
      }
    }
    forall k | 0 <= k < |r'.events|
      ensures !r'.events[k].PowerLoss? && !r'.events[k].Reset? && !r'.events[k].WriteFail?
    {
      if |r.events| <= k {
        assert IsWorkerEvent(p.events[k - |r.events|]);
      }
    }
  }

  lemma BuiltIsSound(r: Run, s0: Sys, s: Sys)
    requires Builds(r, s0, s)
    ensures OwnInv(s) && DataInv(s)
  {
    hide OwnInv, DataInv, IsRun;
    RunLength(r);
    InvariantsHold(r, |r.states| - 1);
  }

  lemma AttachIsPossible(r: Run, s0: Sys, s: Sys, t: TaskId, n: NodeId, l: ListId) returns (r': Run)
    requires Builds(r, s0, s) && Linkable(s) && t !in s.tasks && n in s.nodes && s.nodes[n].taken == 0 && Free(s, l)
    requires 2 <= l && !KeyInUse(s, l, s.nodes[n].node.key)
    ensures Builds(r', s0, Attached(s, t, n, l))
  {
    hide Builds, Linkable, KeyInUse, Taken, Attached, OwnInv, DataInv, Next;
    TakeStep(s, t, n, l);
    r' := AddStep(r, s0, s, AttachTake(t, n, l), Taken(s, t, n, l));
    BuiltIsSound(r', s0, Taken(s, t, n, l));
    OwnedIsLinkable(Taken(s, t, n, l));
    LinkStep(s, t, n, l);
    r' := AddStep(r', s0, Taken(s, t, n, l), AttachLink(t), Attached(s, t, n, l));
  }

  // ---- the run ----

  const A: NodeId := 0
  const B: NodeId := 1
  const LIST: ListId := 2

  /** A system that boots over a log whose one record holds `x` under the key `kb`, with room for `y`
      under the key `ka` in its buffer. */
  ghost function Start(ka: Key, kb: Key, codec: Codec, x: Value, y: Value): Sys
    requires Lawful(codec)
  {
    var items := OnlyRecord(Node(kb, codec, ValidNoWriteNeeded, Some(x))).items;
    Sys(map[A := Cell(Node(ka, codec, Initial, None), 0), B := Cell(Node(kb, codec, Initial, None), 0)],
        map[LIST := ListS([], EmptyCache(1), items, Idle, None, 1 + KeyLen(ka) + |codec.encode(y)|)],
        map[])
  }

  lemma StartIsBooted(ka: Key, kb: Key, codec: Codec, x: Value, y: Value)
    requires Lawful(codec)
    ensures Booted(Start(ka, kb, codec, x, y))
  {
    hide Lawful, LatestPayload, OnlyRecord, Coherent, Healthy, Durable;
    OnlyRecordIsCoherent(Node(kb, codec, ValidNoWriteNeeded, Some(x)));
  }

  lemma StartStores(ka: Key, kb: Key, codec: Codec, x: Value, y: Value)
    requires Lawful(codec) && ka != kb
    ensures Stored(Start(ka, kb, codec, x, y), LIST, kb, codec, x)
    ensures forall u :: !Stored(Start(ka, kb, codec, x, y), LIST, ka, codec, u)
  {
    hide Lawful, LatestPayload, OnlyRecord, ListInv, Coherent, EntryFor;
    var b := Node(kb, codec, ValidNoWriteNeeded, Some(x));
    OnlyRecordIsCoherent(b);
    OnlyEntry(b, ka);
    OnlyEntry(b, kb);
    DecodesBack(b);
  }

  lemma OnlyEntry(b: Node, key: Key)
    requires b.data.Some?
    ensures EntryFor([ElementOf(b)], key) == if key == b.key then Some(b.codec.encode(b.data.value)) else None
  {
    hide ElementOf;
    EntryOfElement(b, key);
    EntryForPush([], ElementOf(b), key);
    assert [] + [ElementOf(b)] == [ElementOf(b)];
  }

  lemma OnlyRecordIsRoomy(b: Node)
    requires WellFormed(b) && b.state.ValidNoWriteNeeded?
    ensures Roomy(OnlyRecord(b).items) && GoodRecords(OnlyRecord(b).items) != {}
  {
    hide Crc, Bytes, Lawful, Written;
    var w := OnlyRecord(b).items;
    RecordForIsRecord([b], 1);
    assert [] + w == w;
    CompletedWrite([], w);
    assert GoodRecords([]) == {};
  }

  /** The first node has been attached, read, and given its default. */
  ghost predicate Defaulted1(s0: Sys, s: Sys, y: Value) {
    && Linkable(s) && s.nodes.Keys == s0.nodes.Keys && s.lists.Keys == s0.lists.Keys
    && A in s.nodes && B in s.nodes && LIST in s.lists && A in s0.nodes && B in s0.nodes && LIST in s0.lists
    && s.nodes[B] == s0.nodes[B]
    && s.nodes[A].node == s0.nodes[A].node.(state := NeedsWrite, data := Some(y))
    && s.lists[LIST].linked == [A] && s.lists[LIST].bufLen == s0.lists[LIST].bufLen
    && s.lists[LIST].items == s0.lists[LIST].items
    && s.tasks.Keys == {0}
    && Free(s, LIST) && s.lists[LIST].phase.Idle?
    && s.lists[LIST].cache.next.Some? && s.lists[LIST].cache.next.value < MAX_SEQ
    && Highest(s.lists[LIST].cache.last).Some?
  }

  /** The first node has been attached and read, and is not in the log. */
  ghost predicate Read1(s0: Sys, s: Sys) {
    && Linkable(s) && s.nodes.Keys == s0.nodes.Keys && s.lists.Keys == s0.lists.Keys
    && A in s.nodes && B in s.nodes && LIST in s.lists && A in s0.nodes && B in s0.nodes && LIST in s0.lists
    && s.nodes[B] == s0.nodes[B]
    && s.nodes[A].node == s0.nodes[A].node.(state := NonResident)
    && s.lists[LIST].linked == [A] && s.lists[LIST].bufLen == s0.lists[LIST].bufLen
    && s.lists[LIST].items == s0.lists[LIST].items
    && s.tasks == map[0 := Waiting(A, LIST, false)]
    && Free(s, LIST) && s.lists[LIST].phase.Idle?
    && s.lists[LIST].cache.next.Some? && s.lists[LIST].cache.next.value < MAX_SEQ
    && Highest(s.lists[LIST].cache.last).Some?
  }

  lemma UpToTheRead(ka: Key, kb: Key, codec: Codec, x: Value, y: Value) returns (r: Run, s: Sys)
    requires Lawful(codec) && ka != kb
    ensures Builds(r, Start(ka, kb, codec, x, y), s) && Read1(Start(ka, kb, codec, x, y), s)
  {
    hide Builds, Booted, Stored, Roomy, GoodRecords, Lawful, OnlyRecord, OwnInv, DataInv, Reads, Ready, Next,
         WorkerStep;
    var s0 := Start(ka, kb, codec, x, y);
    StartIsBooted(ka, kb, codec, x, y);
    StartStores(ka, kb, codec, x, y);
    OnlyRecordIsRoomy(Node(kb, codec, ValidNoWriteNeeded, Some(x)));
    r := Run([s0], []);
    assert Builds(r, s0, s0) by { StartBuilds(s0); }
    r := AttachIsPossible(r, s0, s0, 0, A, LIST);
    var s2 := Attached(s0, 0, A, LIST);
    BuiltIsSound(r, s0, s2);
    OwnedIsLinkable(s2);
    assert Ready(s2, LIST) by { ReadyIntro(s2, LIST); }
    s := ReadIsEnabled(s2, LIST);
    r := AddStep(r, s0, s2, Read(LIST), s);
    AfterRead(s2, LIST, s);
    ReadIsLocal(s2, LIST, s);
    forall u ensures !Stored(s2, LIST, ka, codec, u) {
      SameItemsStore(s0, s2, LIST, ka, codec, u);
    }
    ReadDecidesA(s2, s);
  }

  lemma UpToTheDefault(ka: Key, kb: Key, codec: Codec, x: Value, y: Value) returns (r: Run, s: Sys)
    requires Lawful(codec) && ka != kb
    ensures Builds(r, Start(ka, kb, codec, x, y), s) && Defaulted1(Start(ka, kb, codec, x, y), s, y)
  {
    hide Builds, Lawful, OnlyRecord, OwnInv, DataInv, Start;
    var s0 := Start(ka, kb, codec, x, y);
    var s3;
    r, s3 := UpToTheRead(ka, kb, codec, x, y);
    var s4 := SetTask(s3, 0, Defaulting(A, LIST));
    r := AddStep(r, s0, s3, AttachObserve(0), s4);
    BuiltIsSound(r, s0, s4);
    OwnedIsLinkable(s4);
    s := SetTask(SetNode(s4, A, Defaulted(s4.nodes[A].node, y)), 0, Holding(A, LIST));
    r := AddStep(r, s0, s4, AttachDefault(0, y), s);
    BuiltIsSound(r, s0, s);
    OwnedIsLinkable(s);
  }

  /** The first node has been written, and with it a log without the second one. */
  ghost predicate Written1(s0: Sys, s: Sys) {
    && Linkable(s) && A in s.nodes && B in s.nodes && LIST in s.lists && B in s0.nodes
    && s.nodes[B] == s0.nodes[B] && s.lists[LIST].linked == [A] && s.tasks.Keys == {0}
    && Free(s, LIST) && s.lists[LIST].phase.Idle?
    && s.nodes[A].node.key != s.nodes[B].node.key
    && forall u :: !Stored(s, LIST, s.nodes[B].node.key, s.nodes[B].node.codec, u)
  }

  lemma UpToTheWrite(ka: Key, kb: Key, codec: Codec, x: Value, y: Value) returns (r: Run, s: Sys)
    requires Lawful(codec) && ka != kb
    ensures Builds(r, Start(ka, kb, codec, x, y), s) && Written1(Start(ka, kb, codec, x, y), s)
  {
    hide Builds, Lawful, OnlyRecord, OwnInv, DataInv, Ready, Next, Stored, Leads, Plain, WorkerStep, AllFit, Offered,
         MayWrite, NoStart, View, Linkable, Writes;
    var s0 := Start(ka, kb, codec, x, y);
    var s5;
    r, s5 := UpToTheDefault(ka, kb, codec, x, y);
    BuiltIsSound(r, s0, s5);
    assert Ready(s5, LIST) by { ReadyIntro(s5, LIST); }
    var p, s6 := CollectIfNeeded(s5, LIST);
    r := AddPath(r, s0, s5, p, LIST, s6);
    BuiltIsSound(r, s0, s6);
    OwnedIsLinkable(s6);
    assert Free(s6, LIST) && s6.lists[LIST].phase.Idle? by { ReadyElim(s6, LIST); }
    CoherentHasNoStart(s6, LIST);
    OneDirtyNode(s6, codec, ka, y);
    s := WriteIsEnabled(s6, LIST);
    r := AddStep(r, s0, s6, Write(LIST), s);
    WriteIsLocal(s6, LIST, s);
    assert LinkedIn(s6, A, LIST);
    forall u ensures !Stored(s, LIST, kb, codec, u) {
      VerifiedWriteStoresIff(s6, s, LIST, kb, codec, u);
      OnlyOneOffers(s6, kb, codec, u);
    }
  }

  lemma ReadyElim(s: Sys, l: ListId)
    requires Ready(s, l)
    ensures Free(s, l) && s.lists[l].phase.Idle?
  {
  }

  lemma WriteIsLocal(s: Sys, l: ListId, s': Sys)
    requires OwnInv(s) && Next(s, Write(l), s')
    ensures OnlyList(s, l, s') && WorkerStep(s, Write(l), s')
    ensures forall n :: LinkedIn(s, n, l) ==>
              n in s.nodes && n in s'.nodes && s'.nodes[n].node.key == s.nodes[n].node.key
  {
    hide OwnInv, Next, WorkerStep, WellFormed;
    WorkerStepFacts(s, Write(l), s');
    NextIsLinkable(s, Write(l), s');
    WorkerStepMoves(s, Write(l), s');
  }

  lemma OneDirtyNode(s: Sys, codec: Codec, ka: Key, y: Value)
    requires Linkable(s) && LIST in s.lists && s.lists[LIST].linked == [A] && A in s.nodes
    requires s.nodes[A].node == Node(ka, codec, NeedsWrite, Some(y))
    requires s.lists[LIST].cache.next.Some? && !s.lists[LIST].cache.needsGc
    requires s.lists[LIST].bufLen == 1 + KeyLen(ka) + |codec.encode(y)|
    ensures MayWrite(View(s, LIST)) && AllFit(View(s, LIST).nodes, s.lists[LIST].bufLen)
  {
    assert View(s, LIST).nodes == [s.nodes[A].node];
    assert View(s, LIST).nodes[0].state.NeedsWrite?;
  }

  lemma OnlyOneOffers(s: Sys, key: Key, codec: Codec, v: Value)
    requires LIST in s.lists && s.lists[LIST].linked == [A] && A in s.nodes && s.nodes[A].node.key != key
    ensures !Offered(s, LIST, key, codec, v)
  {
  }

  /** For any two keys and values: a run that boots over a log holding `x` under the key `kb`, in which
      nothing fails and no power is lost, and which ends with a node attached and read under that key and
      told that there is nothing for it. Its value is gone: the node was attached after the session's
      first write. */
  lemma ValueIsLost(ka: Key, kb: Key, codec: Codec, x: Value, y: Value) returns (r: Run)
    requires Lawful(codec) && ka != kb
    ensures IsRun(r) && Quiet(r) && Stored(r.states[0], LIST, kb, codec, x)
    ensures LinkedIn(Last(r), B, LIST) && B in Last(r).nodes
    ensures Last(r).nodes[B].node == Node(kb, codec, NonResident, None)
    ensures forall u :: !Stored(Last(r), LIST, kb, codec, u)
  {
    hide Lawful, OnlyRecord, OwnInv, DataInv, Ready, Next, Stored, WorkerStep, Linkable, View, Reads, Builds, Booted;
    var s0 := Start(ka, kb, codec, x, y);
    StartStores(ka, kb, codec, x, y);
    var s7;
    r, s7 := UpToTheWrite(ka, kb, codec, x, y);
    assert !KeyInUse(s7, LIST, kb);
    r := AttachIsPossible(r, s0, s7, 1, B, LIST);
    var s9 := Attached(s7, 1, B, LIST);
    BuiltIsSound(r, s0, s9);
    OwnedIsLinkable(s9);
    assert Ready(s9, LIST) by { ReadyIntro(s9, LIST); }
    var s10 := ReadIsEnabled(s9, LIST);
    r := AddStep(r, s0, s9, Read(LIST), s10);
    ReadIsLocal(s9, LIST, s10);
    forall u ensures !Stored(s9, LIST, kb, codec, u) {
      SameItemsStore(s7, s9, LIST, kb, codec, u);
    }
    assert LinkedIn(s9, B, LIST);
    ReadDecides(s9, s10, LIST, B);
    forall u ensures !Stored(s10, LIST, kb, codec, u) {
      ReadKeepsStored(s9, s10, LIST, kb, codec, u);
    }
    BuildsWhat(r, s0, s10);
  }

  lemma ReadKeepsStored(s: Sys, s': Sys, l: ListId, key: Key, codec: Codec, v: Value)
    requires OwnInv(s) && DataInv(s) && Next(s, Read(l), s') && l in s.lists
    ensures Stored(s', l, key, codec, v) <==> Stored(s, l, key, codec, v)
  {
    hide OwnInv, DataInv, Next, Stored;
    OtherStepStoresIff(s, Read(l), s', l, key, codec, v);
  }

  lemma BuildsWhat(r: Run, s0: Sys, s: Sys)
    requires Builds(r, s0, s)
    ensures IsRun(r) && Quiet(r) && r.states[0] == s0 && Last(r) == s
  {
  }

  lemma StartBuilds(s: Sys)
    requires Booted(s)
    ensures Builds(Run([s], []), s, s)
  {
    hide Booted;
  }

  lemma ReadDecidesA(s: Sys, s': Sys)
    requires OwnInv(s) && WorkerStep(s, Read(LIST), s') && LinkedIn(s, A, LIST) && A in s.nodes
    requires s.nodes[A].node.state.Initial?
    requires forall u :: !Stored(s, LIST, s.nodes[A].node.key, s.nodes[A].node.codec, u)
    ensures A in s'.nodes && s'.nodes[A].node == s.nodes[A].node.(state := NonResident)
  {
    hide OwnInv, WorkerStep, Stored, LinkedIn;
    ReadDecides(s, s', LIST, A);
  }
}
