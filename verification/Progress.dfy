// What a worker can reach: a scan has a result for every queue, and the steps of a worker can settle all
// nodes of its list under an exact condition.
module Progress {
  import opened Wrappers
  import opened Elements
  import opened Log
  import opened SeqStates
  import opened Collect
  import opened NodeSpec
  import opened ListSpec
  import opened Scan
  import opened Protocol
  import opened Ownership
  import opened Durability
  import opened Runs
  import opened Survival
  import opened Writing

  // ---- every scan has a result ----

  lemma InsertionExists(c: Cache, rec: Rec) returns (c': Cache)
    requires 0 < |c.last|
    ensures Inserted(c, rec, c')
  {
    if c.last[0].Some? && rec.seqNo < c.last[0].value.seqNo {
      c' := c;
    } else {
      var slots := SortedSlots(c.last[0 := Some(rec)]);
      c' := Cache(NextAfter(slots), slots, true);
    }
  }

  lemma {:induction false} ScanGetsTo(items: seq<Item>, k: nat, p: nat)
    returns (c: Cache, current: Option<(SeqNo, nat)>, crc: u32)
    requires 0 < k && p <= |items|
    ensures ScanState(items, p, c, current, crc) && |c.last| == k
  {
    hide ScanState, Inserted, Update, Finalize;
    if p == 0 {
      c, current, crc := EmptyCache(k), None, CRC_INIT;
      ScanStarts(items, k, crc);
    } else {
      var q := p - 1;
      var c0, current0, crc0 := ScanGetsTo(items, k, q);
      c, current, crc := c0, None, CRC_INIT;
      match items[q]
      case Junk(_) => ScanStepOther(items, q, c0, current0, crc0); crc := crc0;
      case Start(seqNo) => ScanStepOther(items, q, c0, current0, crc0); current := Some((seqNo, q));
      case Data(keyVal) =>
        current := current0;
        if current0.Some? {
          ScanStepData(items, q, c0, current0, crc0);
          crc := Update(crc0, keyVal);
        } else {
          ScanStepOther(items, q, c0, current0, crc0);
          crc := crc0;
        }
      case End(seqNo, _) =>
        if Accepts(items[q], current0, crc0) {
          c := InsertionExists(c0, Rec(seqNo, current0.value.1, q));
        }
        ScanStepEnd(items, q, c0, current0, crc0, c);
    }
  }

  /** Whatever the queue contains, a scan of it has a result. */
  lemma ScanExists(items: seq<Item>, k: nat) returns (c: Cache)
    requires 0 < k
    ensures Scanned(items, k, c)
  {
    hide ScanState, Scanned;
    var last, current, crc := ScanGetsTo(items, k, |items|);
    ScanEnds(items, last, current, crc);
    c := if Highest(last.last).None? then last.(next := Some(1)) else last;
  }

  /** ... and only one, up to the order among equal sequence numbers. */
  lemma ScanIsDetermined(items: seq<Item>, k: nat, c: Cache, c': Cache)
    requires 0 < k && Scanned(items, k, c) && Scanned(items, k, c')
    ensures c.next == c'.next && c.needsGc == c'.needsGc
    ensures forall m :: 0 <= m < k ==> Rank(c.last[m]) == Rank(c'.last[m])
    ensures DistinctSeqs(GoodRecords(items)) ==> c == c'
  {
    hide IsTopK, GoodRecords;
    TopKIsUnique(GoodRecords(items), c.last, c'.last);
    if Highest(c.last).Some? { assert Rank(Highest(c.last)) == Rank(Highest(c'.last)); }
    SlotFree(c.last[k - 1], c'.last[k - 1]);
  }

  lemma SlotFree(a: Option<Rec>, b: Option<Rec>)
    requires Rank(a) == Rank(b)
    ensures a.None? <==> b.None?
  {
  }

  // ---- paths ----

  datatype Path = Path(states: seq<Sys>, events: seq<Event>)

  /** A stretch of steps of the worker of `l` from `s` to `s'`. */
  ghost predicate Leads(p: Path, l: ListId, s: Sys, s': Sys) {
    && |p.states| == |p.events| + 1
    && p.states[0] == s && p.states[|p.events|] == s'
    && forall i :: 0 <= i < |p.events| ==>
         && IsWorkerEvent(p.events[i]) && ListOf(p.events[i]) == l
         && Next(p.states[i], p.events[i], p.states[i + 1])
  }

  /** No reset and no failed write among its steps. */
  ghost predicate Plain(p: Path) {
    forall i :: 0 <= i < |p.events| ==> !p.events[i].Reset? && !p.events[i].WriteFail?
  }

  lemma Stay(l: ListId, s: Sys) returns (p: Path)
    ensures Leads(p, l, s, s) && Plain(p)
  {
    p := Path([s], []);
  }

  lemma Extend(p: Path, l: ListId, s: Sys, s': Sys, e: Event, s'': Sys) returns (p': Path)
    requires Leads(p, l, s, s') && IsWorkerEvent(e) && ListOf(e) == l && Next(s', e, s'')
    ensures Leads(p', l, s, s'') && (Plain(p) && !e.Reset? && !e.WriteFail? ==> Plain(p'))
  {
    hide Next;
    p' := Path(p.states + [s''], p.events + [e]);
  }

  // ---- single steps ----

  /** The state in which every node of `l` has been changed by `f`, and its list as given. */
  ghost function Moved(s: Sys, l: ListId, f: Node -> Node, c: Cache, items: seq<Item>, phase: Phase): Sys
    requires l in s.lists
  {
    var nodes := map n | n in s.nodes ::
                   if n in s.lists[l].linked then s.nodes[n].(node := f(s.nodes[n].node)) else s.nodes[n];
    Sys(nodes, s.lists[l := s.lists[l].(cache := c, items := items, phase := phase)], s.tasks)
  }

  lemma MovedIsOnlyList(s: Sys, l: ListId, f: Node -> Node, c: Cache, items: seq<Item>, phase: Phase)
    requires Linkable(s) && l in s.lists
    ensures var s' := Moved(s, l, f, c, items, phase);
      && OnlyList(s, l, s') && Linkable(s')
      && View(s', l).cache == c && View(s', l).items == items && s'.lists[l].phase == phase
      && |View(s', l).nodes| == |View(s, l).nodes|
      && forall i :: 0 <= i < |View(s, l).nodes| ==> View(s', l).nodes[i] == f(View(s, l).nodes[i])
  {
  }

  ghost predicate Ready(s: Sys, l: ListId) {
    OwnInv(s) && DataInv(s) && Free(s, l) && s.lists[l].phase.Idle?
  }

  lemma StepKeepsReady(s: Sys, e: Event, s': Sys)
    requires OwnInv(s) && DataInv(s) && Next(s, e, s')
    ensures OwnInv(s') && DataInv(s')
  {
    hide OwnInv, DataInv, Next, Linkable;
    StepKeepsOwnership(s, e, s');
    StepKeepsData(s, e, s');
  }

  lemma ReadIsEnabled(s: Sys, l: ListId) returns (s': Sys)
    requires Ready(s, l)
    ensures Next(s, Read(l), s') && Free(s', l) && s'.lists[l].phase.Idle? && Linkable(s')
    ensures Reads(View(s, l), View(s', l))
  {
    hide TasksInv, NodesInv, LinksInv, ListsInv, Healthy, Coherent, LatestPayload, ReadNode, Scanned, Moved,
         OnlyList, Durable, AllWellFormed, UniqueKeys, View;
    var x := s.lists[l];
    assert ListInv(View(s, l)) && View(s, l).cache == x.cache && View(s, l).items == x.items by { ViewIs(s, l); }
    var c := x.cache;
    if c.next.None? { c := ScanExists(x.items, |x.cache.last|); }
    var latest := LatestPayload(x.items);
    s' := Moved(s, l, n => ReadNode(n, latest), c, x.items, Idle);
    MovedIsOnlyList(s, l, n => ReadNode(n, latest), c, x.items, Idle);
    StillFree(s, l, s');
  }

  lemma ViewIs(s: Sys, l: ListId)
    requires Linkable(s) && l in s.lists
    ensures View(s, l).cache == s.lists[l].cache && View(s, l).items == s.lists[l].items
  {
  }

  lemma StillFree(s: Sys, l: ListId, s': Sys)
    requires OnlyList(s, l, s') && Free(s, l)
    ensures Free(s', l)
  {
  }

  lemma WriteIsEnabled(s: Sys, l: ListId) returns (s': Sys)
    requires Ready(s, l) && MayWrite(View(s, l)) && s.lists[l].cache.next.value < MAX_SEQ
    requires NoStart(s.lists[l].items, s.lists[l].cache.next.value)
    requires AllFit(View(s, l).nodes, s.lists[l].bufLen)
    ensures Next(s, Write(l), s') && Free(s', l) && s'.lists[l].phase.Idle? && Linkable(s')
    ensures Writes(View(s, l), View(s', l))
  {
    hide TasksInv, NodesInv, LinksInv, ListsInv, Healthy, Coherent, Moved, OnlyList, Inserted, MayWrite, Durable,
         UniqueKeys, View, RecordFor, Flushed, WellFormed, NoStart, AllFit;
    var x, v := s.lists[l], View(s, l);
    assert ListInv(v) && v.cache == x.cache && v.items == x.items by { ViewIs(s, l); }
    HasNext(v);
    var w := RecordFor(v.nodes, x.cache.next.value);
    var c := InsertionExists(x.cache, Rec(x.cache.next.value, |x.items|, |x.items + w|));
    s' := Moved(s, l, n => Flushed(n), c, x.items + w, Idle);
    MovedIsOnlyList(s, l, n => Flushed(n), c, x.items + w, Idle);
    StillFree(s, l, s');
  }

  lemma HasNext(v: ListV)
    requires MayWrite(v)
    ensures v.cache.next.Some? && !v.cache.needsGc
  {
  }

  // ---- a whole collection ----

  /** `s'` differs from `s` in the cache, storage and phase of `l` only, and its lock is free. */
  ghost predicate SameNodesAs(s: Sys, l: ListId, s': Sys) {
    OwnInv(s') && DataInv(s') && Free(s', l) && OnlyCache(s, l, s')
  }

  ghost function SetList(s: Sys, l: ListId, c: Cache, items: seq<Item>, phase: Phase): Sys
    requires l in s.lists
  {
    s.(lists := s.lists[l := s.lists[l].(cache := c, items := items, phase := phase)])
  }

  lemma SetListIsOnlyCache(s0: Sys, s: Sys, l: ListId, c: Cache, items: seq<Item>, phase: Phase)
    requires l in s.lists && OnlyCache(s0, l, s) && Free(s, l)
    ensures var s' := SetList(s, l, c, items, phase);
      && OnlyCache(s, l, s') && OnlyCache(s0, l, s') && Free(s', l)
      && s'.lists[l] == s.lists[l].(cache := c, items := items, phase := phase)
  {
  }

  lemma {:induction false} SweepsTo(s: Sys, l: ListId, slots: Slots, m: nat) returns (p: Path, s': Sys)
    requires Ready(s, l) && s.lists[l].cache.needsGc && s.lists[l].cache.last == slots && m <= |s.lists[l].items|
    ensures Leads(p, l, s, s') && Plain(p) && SameNodesAs(s, l, s')
    ensures s'.lists[l].phase == Collecting(s.lists[l].items, slots, m)
    ensures s'.lists[l].cache == EmptyCache(|slots|)
    ensures s'.lists[l].items == Swept(s.lists[l].items, slots, m)
  {
    hide TasksInv, NodesInv, LinksInv, ListsInv, Linkable, DataInv, Swept, OnlyCache, SetList, Leads, Plain;
    var orig := s.lists[l].items;
    if m == 0 {
      SameAsSelf(s, l);
      SetListIsOnlyCache(s, s, l, EmptyCache(|slots|), orig, Collecting(orig, slots, 0));
      s' := SetList(s, l, EmptyCache(|slots|), orig, Collecting(orig, slots, 0));
      assert Next(s, GcTake(l), s');
      StepKeepsReady(s, GcTake(l), s');
      p := Stay(l, s);
      p := Extend(p, l, s, s, GcTake(l), s');
      SweepBounds(orig, slots, 0);
    } else {
      var p0, s0 := SweepsTo(s, l, slots, m - 1);
      SetListIsOnlyCache(s, s0, l, EmptyCache(|slots|), Swept(orig, slots, m), Collecting(orig, slots, m));
      s' := SetList(s0, l, EmptyCache(|slots|), Swept(orig, slots, m), Collecting(orig, slots, m));
      assert Next(s0, GcStep(l), s');
      StepKeepsReady(s0, GcStep(l), s');
      p := Extend(p0, l, s, s0, GcStep(l), s');
    }
  }

  lemma SameAsSelf(s: Sys, l: ListId)
    requires l in s.lists
    ensures OnlyCache(s, l, s)
  {
  }

  lemma CollectionCompletes(s: Sys, l: ListId) returns (p: Path, s': Sys)
    requires Ready(s, l) && s.lists[l].cache.needsGc && s.lists[l].cache.next.Some?
    ensures Leads(p, l, s, s') && Plain(p) && Ready(s', l) && OnlyCache(s, l, s')
    ensures !s'.lists[l].cache.needsGc && s'.lists[l].cache.next == s.lists[l].cache.next
    ensures Highest(s'.lists[l].cache.last).Some?
  {
    hide TasksInv, NodesInv, LinksInv, ListsInv, Linkable, Swept, OnlyCache, SetList, Leads, Plain, Scanned,
         Healthy, IsTopK, Relocated, View, ListInv;
    var x := s.lists[l];
    var slots, orig := x.cache.last, x.items;
    assert 0 < |slots| && Healthy(orig) && x.cache.next == NextSeq(slots) && Coherent(x.cache, orig) by {
      ViewIs(s, l);
      ListHasSlots(View(s, l));
    }
    var p0, s0 := SweepsTo(s, l, slots, |orig|);
    var g := s0.lists[l].items;
    var c := ScanExists(g, |slots|);
    var c' := c.(needsGc := false);
    assert c'.(needsGc := c.needsGc) == c;
    CollectedIsCoherent(orig, slots, c');
    SameHighest(orig, slots);
    RescannedKeepsShape(g, |slots|, c');
    SetListIsOnlyCache(s, s0, l, c', g, Idle);
    s' := SetList(s0, l, c', g, Idle);
    assert Next(s0, GcFinish(l), s') by { FinishStep(s0, l, s'); }
    StepKeepsReady(s0, GcFinish(l), s');
    p := Extend(p0, l, s, s0, GcFinish(l), s');
  }

  lemma FinishStep(s: Sys, l: ListId, s': Sys)
    requires Linkable(s) && OnlyCache(s, l, s') && Free(s, l) && s.lists[l].phase.Collecting? && s'.lists[l].phase.Idle?
    requires s.lists[l].phase.n == |s.lists[l].phase.orig|
    requires s'.lists[l].items == s.lists[l].items
    requires Rescanned(s.lists[l].items, |s.lists[l].cache.last|, s'.lists[l].cache)
    ensures Next(s, GcFinish(l), s')
  {
    hide Linkable, OnlyCache, Rescanned;
  }

  // ---- everything can be flushed ----

  lemma Join(p: Path, p': Path, l: ListId, s: Sys, s': Sys, s'': Sys) returns (q: Path)
    requires Leads(p, l, s, s') && Leads(p', l, s', s'')
    ensures Leads(q, l, s, s'') && (Plain(p) && Plain(p') ==> Plain(q))
  {
    hide Next;
    q := Path(p.states + p'.states[1..], p.events + p'.events);
  }

  lemma WorkerStepFacts(s: Sys, e: Event, s': Sys)
    requires OwnInv(s) && Next(s, e, s') && IsWorkerEvent(e)
    ensures WorkerStep(s, e, s') && OnlyList(s, ListOf(e), s')
  {
    hide OwnInv, Next, WorkerStep, OnlyList, WorkerMoves, Linkable;
    NextIsLinkable(s, e, s');
    WorkerStepMoves(s, e, s');
  }

  /** What a stretch of worker steps keeps. */
  lemma {:induction false} PathKeeps(p: Path, l: ListId, s: Sys, s': Sys, k: nat)
    requires OwnInv(s) && DataInv(s) && Leads(p, l, s, s') && l in s.lists && k <= |p.events|
    ensures OwnInv(p.states[k]) && DataInv(p.states[k])
    ensures l in p.states[k].lists && p.states[k].lists[l].linked == s.lists[l].linked
    ensures forall n, key, codec, v :: Held(s, n, l, key, codec, v) ==> Held(p.states[k], n, l, key, codec, v)
  {
    hide OwnInv, DataInv, Next, WorkerStep, Held, Linkable;
    if k > 0 {
      PathKeeps(p, l, s, s', k - 1);
      var a, e, b := p.states[k - 1], p.events[k - 1], p.states[k - 1 + 1];
      assert Next(a, e, b) && IsWorkerEvent(e) && ListOf(e) == l;
      StepKeepsReady(a, e, b);
      WorkerStepFacts(a, e, b);
      forall n, key, codec, v | Held(s, n, l, key, codec, v) ensures Held(b, n, l, key, codec, v) {
        WorkerKeepsHeld(a, e, b, n, l, key, codec, v);
      }
    }
  }

  /** The nodes of a list as a read leaves them. */
  ghost function ReadNodes(v: ListV): seq<Node> {
    seq(|v.nodes|, i requires 0 <= i < |v.nodes| => ReadNode(v.nodes[i], LatestPayload(v.items)))
  }

  lemma ReadsGivesReadNodes(v: ListV, v': ListV)
    requires Reads(v, v')
    ensures v'.nodes == ReadNodes(v)
  {
    hide ReadNode, LatestPayload, Populated;
  }

  lemma ReadNodesOfDecided(v: ListV)
    requires NoneInitial(v.nodes)
    ensures ReadNodes(v) == v.nodes
  {
    hide EntryFor, LatestPayload;
  }

  predicate NoneDirty(nodes: seq<Node>) {
    forall i :: 0 <= i < |nodes| ==> !nodes[i].state.NeedsWrite?
  }

  /** No node has to be written, or all the nodes that a write would serialize fit the worker's buffer,
      those included that a read is yet to fill. */
  ghost predicate Flushable(s: Sys, l: ListId) {
    && Linkable(s) && l in s.lists
    && (NoneDirty(View(s, l).nodes) || AllFit(ReadNodes(View(s, l)), s.lists[l].bufLen))
  }

  /** They can be, and either none has to be written, or no interrupted first write is in the way. */
  ghost predicate FlushableAlone(s: Sys, l: ListId) {
    Flushable(s, l) && (NoneDirty(View(s, l).nodes) || !Blocked(s.lists[l].items))
  }

  /** Two sequence numbers are still free. */
  ghost predicate Roomy(items: seq<Item>) {
    forall r :: r in GoodRecords(items) ==> r.seqNo + 1 < MAX_SEQ
  }

  lemma NextIsLow(c: Cache, items: seq<Item>)
    requires Coherent(c, items) && c.next.Some? && Roomy(items)
    ensures c.next.value < MAX_SEQ
  {
    hide Good, Sorted, Distinct, GoodRecords;
    var exact := Trimmed(c.last, |items|);
    if Highest(c.last).Some? {
      assert exact[|exact| - 1].value in GoodRecords(items);
    }
  }

  /** The queue holds no valid record but a start with the first sequence number: what an interrupted
      very first write leaves. */
  ghost predicate Blocked(items: seq<Item>) {
    GoodRecords(items) == {} && !NoStart(items, 1)
  }

  lemma EmptyCacheMeansNoRecord(c: Cache, items: seq<Item>)
    requires Coherent(c, items) && c.next.Some? && Highest(c.last).None?
    ensures GoodRecords(items) == {} && c.next == Some(1) && !c.needsGc
  {
    hide Good, Sorted, Distinct, GoodRecords;
    forall r | r in GoodRecords(items) ensures false {
      NextIsAboveAll(GoodRecords(items), Trimmed(c.last, |items|), r);
    }
  }

  /** What the read at the start of the stretch achieves. */
  lemma AfterRead(s: Sys, l: ListId, s': Sys)
    requires Ready(s, l) && Linkable(s') && l in s'.lists && Reads(View(s, l), View(s', l)) && Roomy(s.lists[l].items)
    ensures NoneInitial(View(s', l).nodes) && s'.lists[l].items == s.lists[l].items
    ensures View(s', l).nodes == ReadNodes(View(s, l))
    ensures s'.lists[l].cache.next.Some? && s'.lists[l].cache.next.value < MAX_SEQ
    ensures Highest(s'.lists[l].cache.last).None? ==>
              GoodRecords(s.lists[l].items) == {} && s'.lists[l].cache.next == Some(1) && !s'.lists[l].cache.needsGc
  {
    hide TasksInv, NodesInv, LinksInv, ListsInv, ListInv, Coherent, Reads, Roomy, NoneInitial, View, ReadNodes;
    ViewIs(s, l);
    ViewIs(s', l);
    ReadsKeepsInv(View(s, l), View(s', l));
    ReadKeepsItems(View(s, l), View(s', l));
    ReadsGivesReadNodes(View(s, l), View(s', l));
    NextIsLow(s'.lists[l].cache, s'.lists[l].items);
    if Highest(s'.lists[l].cache.last).None? {
      EmptyCacheMeansNoRecord(s'.lists[l].cache, s'.lists[l].items);
    }
  }

  lemma ReadKeepsItems(v: ListV, v': ListV)
    requires Reads(v, v')
    ensures v'.items == v.items
  {
  }

  lemma CollectIfNeeded(s: Sys, l: ListId) returns (p: Path, s': Sys)
    requires Ready(s, l) && s.lists[l].cache.next.Some?
    ensures Leads(p, l, s, s') && Plain(p) && Ready(s', l) && OnlyCache(s, l, s')
    ensures !s'.lists[l].cache.needsGc && s'.lists[l].cache.next == s.lists[l].cache.next
    ensures s' == s || Highest(s'.lists[l].cache.last).Some?
  {
    hide OwnInv, DataInv, Leads, Plain, OnlyCache;
    if s.lists[l].cache.needsGc {
      p, s' := CollectionCompletes(s, l);
    } else {
      p := Stay(l, s);
      s' := s;
      SameAsSelf(s, l);
    }
  }

  predicate AllSettled(nodes: seq<Node>) {
    forall i :: 0 <= i < |nodes| ==> !nodes[i].state.Initial? && !nodes[i].state.NeedsWrite?
  }

  lemma WriteIfNeeded(s: Sys, l: ListId) returns (p: Path, s': Sys)
    requires Ready(s, l) && Linkable(s) && NoneInitial(View(s, l).nodes)
    requires s.lists[l].cache.next.Some? && s.lists[l].cache.next.value < MAX_SEQ && !s.lists[l].cache.needsGc
    requires Highest(s.lists[l].cache.last).None? ==> NoStart(s.lists[l].items, s.lists[l].cache.next.value)
    requires AllFit(View(s, l).nodes, s.lists[l].bufLen)
    ensures Leads(p, l, s, s') && Plain(p) && Linkable(s') && l in s'.lists && AllSettled(View(s', l).nodes)
  {
    hide OwnInv, DataInv, Leads, Plain, Linkable, View, Writes, AllFit;
    ViewIs(s, l);
    if MayWrite(View(s, l)) {
      if Highest(s.lists[l].cache.last).Some? { CoherentHasNoStart(s, l); }
      s' := WriteIsEnabled(s, l);
      p := Stay(l, s);
      p := Extend(p, l, s, s, Write(l), s');
      WritesSettle(View(s, l), View(s', l));
    } else {
      p := Stay(l, s);
      s' := s;
    }
  }

  lemma CoherentHasNoStart(s: Sys, l: ListId)
    requires Ready(s, l) && s.lists[l].cache.next.Some? && !s.lists[l].cache.needsGc
    requires Highest(s.lists[l].cache.last).Some?
    ensures NoStart(s.lists[l].items, s.lists[l].cache.next.value)
  {
    hide OwnInv, IsTopK, ListInv, NoStart;
  }

  lemma WritesSettle(v: ListV, v': ListV)
    requires Writes(v, v')
    ensures AllSettled(v'.nodes)
  {
    hide RecordFor, Inserted, WellFormed;
  }

  lemma SettledNode(s: Sys, l: ListId, n: NodeId)
    requires Linkable(s) && LinkedIn(s, n, l) && AllSettled(View(s, l).nodes)
    ensures n in s.nodes && s.nodes[n].node.state !in {Initial, NeedsWrite}
  {
    var k :| 0 <= k < |s.lists[l].linked| && s.lists[l].linked[k] == n;
    assert View(s, l).nodes[k] == s.nodes[n].node;
  }

  lemma CollectionKeepsNodes(s: Sys, l: ListId, s': Sys)
    requires Linkable(s) && Linkable(s') && OnlyCache(s, l, s')
    ensures View(s', l).nodes == View(s, l).nodes && s'.lists[l].bufLen == s.lists[l].bufLen
  {
    SameNodes(s, l, s');
  }

  /** If nothing has to be written, a read settles everything. */
  lemma ReadSettles(s: Sys, l: ListId) returns (p: Path, s': Sys)
    requires Ready(s, l) && Linkable(s) && NoneDirty(View(s, l).nodes)
    ensures Leads(p, l, s, s') && Plain(p) && Linkable(s') && l in s'.lists && AllSettled(View(s', l).nodes)
  {
    hide TasksInv, NodesInv, LinksInv, ListsInv, DataInv, Leads, Plain, Next, Reads, View, Linkable, NoneDirty,
         AllSettled;
    s' := ReadIsEnabled(s, l);
    CleanReadSettles(View(s, l), View(s', l));
    p := Stay(l, s);
    p := Extend(p, l, s, s, Read(l), s');
  }

  lemma CleanReadSettles(v: ListV, v': ListV)
    requires NoneDirty(v.nodes) && Reads(v, v')
    ensures AllSettled(v'.nodes)
  {
    hide EntryFor, LatestPayload, Populated;
  }

  lemma BufferStays(s: Sys, e: Event, s': Sys)
    requires OwnInv(s) && Next(s, e, s') && IsWorkerEvent(e)
    ensures ListOf(e) in s.lists && ListOf(e) in s'.lists
    ensures s'.lists[ListOf(e)].bufLen == s.lists[ListOf(e)].bufLen
  {
    hide OwnInv, Next, WorkerStep, ListOf;
    WorkerStepFacts(s, e, s');
  }

  lemma SettlingPath(s: Sys, l: ListId) returns (p: Path, s': Sys)
    requires Ready(s, l) && Roomy(s.lists[l].items) && !Blocked(s.lists[l].items)
    requires Linkable(s) && AllFit(ReadNodes(View(s, l)), s.lists[l].bufLen)
    ensures Leads(p, l, s, s') && Plain(p) && Linkable(s') && l in s'.lists && AllSettled(View(s', l).nodes)
  {
    hide TasksInv, NodesInv, LinksInv, ListsInv, DataInv, Leads, Plain, Next, Reads, OnlyCache, View, Linkable,
         NoneInitial, AllSettled, GoodRecords, NoStart, Roomy, AllFit, ReadNodes;
    var s1 := ReadIsEnabled(s, l);
    AfterRead(s, l, s1);
    StepKeepsReady(s, Read(l), s1);
    BufferStays(s, Read(l), s1);
    p := Stay(l, s);
    p := Extend(p, l, s, s, Read(l), s1);
    var p2, s2 := CollectIfNeeded(s1, l);
    CollectionKeepsNodes(s1, l, s2);
    p := Join(p, p2, l, s, s1, s2);
    var p3;
    p3, s' := WriteIfNeeded(s2, l);
    p := Join(p, p3, l, s, s2, s');
  }

  /** The write that the stale start keeps from being verified has pushed a valid record; once the cache
      has been reset, nothing is in the way any more. */
  lemma UnblockingPath(s: Sys, l: ListId) returns (p: Path, s': Sys)
    requires Ready(s, l) && Blocked(s.lists[l].items)
    requires Linkable(s) && AllFit(ReadNodes(View(s, l)), s.lists[l].bufLen)
    ensures Leads(p, l, s, s') && Ready(s', l) && Roomy(s'.lists[l].items) && !Blocked(s'.lists[l].items)
    ensures Linkable(s') && AllFit(ReadNodes(View(s', l)), s'.lists[l].bufLen)
  {
    hide TasksInv, NodesInv, LinksInv, ListsInv, DataInv, Leads, Plain, Next, Reads, OnlyCache, View, Linkable,
         NoneInitial, GoodRecords, NoStart, Roomy, AllFit, ReadNodes;
    var s1 := ReadIsEnabled(s, l);
    assert Roomy(s.lists[l].items) by { NoRecordIsRoomy(s.lists[l].items); }
    AfterRead(s, l, s1);
    StepKeepsReady(s, Read(l), s1);
    BufferStays(s, Read(l), s1);
    FilledCacheMeansRecord(s1, l);
    p := Stay(l, s);
    p := Extend(p, l, s, s, Read(l), s1);
    var s2 := FailedWrite(s1, l);
    p := Extend(p, l, s, s1, WriteFail(l), s2);
    s' := ResetIsEnabled(s2, l);
    p := Extend(p, l, s, s2, Reset(l), s');
    CollectionKeepsNodes(s1, l, s2);
    CollectionKeepsNodes(s2, l, s');
    ReadNodesOfDecided(View(s', l));
  }

  lemma NoRecordIsRoomy(items: seq<Item>)
    requires GoodRecords(items) == {}
    ensures Roomy(items)
  {
    hide GoodRecords;
  }

  lemma FilledCacheMeansRecord(s: Sys, l: ListId)
    requires Ready(s, l) && s.lists[l].cache.next.Some? && GoodRecords(s.lists[l].items) == {}
    ensures Highest(s.lists[l].cache.last).None?
  {
    hide OwnInv, ListInv, GoodRecords, IsTopK;
    var x := s.lists[l];
    assert Coherent(x.cache, x.items);
    NothingToCache(Trimmed(x.cache.last, |x.items|));
  }

  /** A write all of whose pushes take place, since every node fits, and whose check fails. */
  lemma FailedWrite(s: Sys, l: ListId) returns (s': Sys)
    requires Ready(s, l) && Linkable(s) && NoneInitial(View(s, l).nodes) && GoodRecords(s.lists[l].items) == {}
    requires s.lists[l].cache.next == Some(1) && !s.lists[l].cache.needsGc && Highest(s.lists[l].cache.last).None?
    requires AllFit(View(s, l).nodes, s.lists[l].bufLen)
    ensures Next(s, WriteFail(l), s') && OwnInv(s') && DataInv(s') && Free(s', l) && s'.lists[l].phase.Suspect?
    ensures Linkable(s') && OnlyCache(s, l, s')
    ensures Roomy(s'.lists[l].items) && !Blocked(s'.lists[l].items)
  {
    hide TasksInv, NodesInv, LinksInv, ListsInv, Linkable, OnlyCache, SetList, View, ListInv, GoodRecords,
         NoStart, RecordFor, Coherent, Roomy, AllFit;
    var x, v := s.lists[l], View(s, l);
    ViewIs(s, l);
    OneRecordIsRoomy(v);
    var items := x.items + RecordFor(v.nodes, 1);
    SameAsSelf(s, l);
    SetListIsOnlyCache(s, s, l, x.cache, items, Suspect);
    s' := SetList(s, l, x.cache, items, Suspect);
    SetListIsLinkable(s, l, s');
    OwnView(s, l, s');
    WriteFailsAfterAll(v, View(s', l));
    assert Next(s, WriteFail(l), s');
    StepKeepsReady(s, WriteFail(l), s');
  }

  lemma SetListIsLinkable(s: Sys, l: ListId, s': Sys)
    requires Linkable(s) && OnlyCache(s, l, s')
    ensures Linkable(s')
  {
  }

  lemma OneRecordIsRoomy(v: ListV)
    requires ListInv(v) && Coherent(v.cache, v.items) && v.cache.next == Some(1) && !v.cache.needsGc
    requires GoodRecords(v.items) == {}
    ensures AllWellFormed(v.nodes)
    ensures var items := v.items + RecordFor(v.nodes, 1); Roomy(items) && !Blocked(items)
  {
    hide Good, Coherent, RecordFor, Healthy;
    AppendedIsLatest(v.cache, v.items, v.nodes);
  }

  lemma ResetIsEnabled(s: Sys, l: ListId) returns (s': Sys)
    requires OwnInv(s) && DataInv(s) && Free(s, l) && !s.lists[l].phase.Collecting?
    ensures Next(s, Reset(l), s') && Ready(s', l) && s'.lists[l].items == s.lists[l].items
    ensures OnlyCache(s, l, s')
  {
    hide TasksInv, NodesInv, LinksInv, ListsInv, Linkable, OnlyCache, SetList, DataInv;
    var c := EmptyCache(|s.lists[l].cache.last|);
    SameAsSelf(s, l);
    SetListIsOnlyCache(s, s, l, c, s.lists[l].items, Idle);
    s' := SetList(s, l, c, s.lists[l].items, Idle);
    assert Next(s, Reset(l), s');
    StepKeepsReady(s, Reset(l), s');
  }

  lemma FlushingPath(s: Sys, l: ListId) returns (p: Path, s': Sys)
    requires Ready(s, l) && Roomy(s.lists[l].items) && Flushable(s, l)
    ensures Leads(p, l, s, s') && Linkable(s') && l in s'.lists && AllSettled(View(s', l).nodes)
    ensures FlushableAlone(s, l) ==> Plain(p)
  {
    hide OwnInv, DataInv, Leads, Plain, Next, View, Linkable, AllSettled, GoodRecords, NoStart, Roomy, Blocked, AllFit,
         ReadNodes, NoneDirty;
    if NoneDirty(View(s, l).nodes) {
      p, s' := ReadSettles(s, l);
    } else if Blocked(s.lists[l].items) {
      var p1, s1 := UnblockingPath(s, l);
      var p2;
      p2, s' := SettlingPath(s1, l);
      p := Join(p1, p2, l, s, s1, s');
    } else {
      p, s' := SettlingPath(s, l);
    }
  }

  /** No node of the list waits for a read or a write. */
  ghost predicate Settled(s: Sys, l: ListId) {
    forall n :: LinkedIn(s, n, l) ==> n in s.nodes && s.nodes[n].node.state !in {Initial, NeedsWrite}
  }

  /** From every reachable state in which the worker of `l` is idle, the list's lock is free and the
      nodes can be flushed, some steps of that worker alone lead to a state in which every node of the
      list is settled, and every value that was in an attached node is stored. A reset is among them
      only where an interrupted first write stands in the way. */
  lemma CanFlush(r: Run, i: nat, l: ListId) returns (p: Path, s': Sys)
    requires IsRun(r) && i < |r.states| && Free(r.states[i], l) && r.states[i].lists[l].phase.Idle?
    requires Roomy(r.states[i].lists[l].items) && Flushable(r.states[i], l)
    ensures Leads(p, l, r.states[i], s') && (FlushableAlone(r.states[i], l) ==> Plain(p))
    ensures Settled(s', l) && forall n :: LinkedIn(r.states[i], n, l) ==> LinkedIn(s', n, l)
    ensures forall n, key, codec, v :: Held(r.states[i], n, l, key, codec, v) ==>
              Held(s', n, l, key, codec, v) && Stored(s', l, key, codec, v)
  {
    hide TasksInv, NodesInv, LinksInv, ListsInv, DataInv, Linkable, Next, AllSettled, View, IsRun, Roomy, Stored,
         Plain, Blocked, Flushable, FlushableAlone;
    var s := r.states[i];
    InvariantsHold(r, i);
    p, s' := FlushingPath(s, l);
    PathKeeps(p, l, s, s', |p.events|);
    forall n | LinkedIn(s', n, l) ensures n in s'.nodes && s'.nodes[n].node.state !in {Initial, NeedsWrite} {
      SettledNode(s', l, n);
    }
    forall n, key, codec, v | Held(s, n, l, key, codec, v) ensures Stored(s', l, key, codec, v) {
      assert Held(s', n, l, key, codec, v);
      CleanIsStored(s', l, n);
    }
  }

  // ---- and nothing else can ----

  /** `v` is what worker steps other than writes can make of `v0`: each node is as it was or as the first
      read has left it, and as long as one still waits, the latest record holds what it held. */
  ghost predicate Behind(v0: ListV, v: ListV) {
    && |v.nodes| == |v0.nodes|
    && (forall i :: 0 <= i < |v.nodes| ==>
          v.nodes[i] == v0.nodes[i] || v.nodes[i] == ReadNode(v0.nodes[i], LatestPayload(v0.items)))
    && (NoneInitial(v.nodes) || LatestPayload(v.items) == LatestPayload(v0.items))
  }

  /** Reading a node, even in part, decides it as the whole read would, or leaves it. */
  lemma PartlyRead(n: Node, payload: seq<Item>, k: nat)
    requires k <= |payload|
    ensures Hydrated(n, payload[..k]) in {n, ReadNode(n, Some(payload))}
  {
    hide EntryOf;
    assert payload[..k] + payload[k..] == payload;
    if n.state.Initial? && EntryFor(payload[..k], n.key).Some? {
      FirstEntryStays(payload[..k], payload[k..], n.key);
    }
  }

  lemma ReadAgain(n: Node, latest: Option<seq<Item>>)
    ensures ReadNode(ReadNode(n, latest), latest) == ReadNode(n, latest)
    ensures !ReadNode(n, latest).state.Initial? && (!n.state.Initial? ==> ReadNode(n, latest) == n)
    ensures ReadNode(n, latest).state.NeedsWrite? <==> n.state.NeedsWrite?
  {
    hide EntryFor;
  }

  lemma DecidedStays(n: Node, latest: Option<seq<Item>>, payload: seq<Item>)
    requires !n.state.Initial?
    ensures ReadNode(n, latest) == n && Hydrated(n, payload) == n
  {
  }

  lemma ReadsStayBehind(v0: ListV, v: ListV, v': ListV)
    requires Behind(v0, v) && Reads(v, v')
    ensures Behind(v0, v')
  {
    hide ReadNode, LatestPayload, Populated;
    forall i | 0 <= i < |v.nodes|
      ensures v'.nodes[i] == v0.nodes[i] || v'.nodes[i] == ReadNode(v0.nodes[i], LatestPayload(v0.items))
    {
      ReadAgain(v0.nodes[i], LatestPayload(v0.items));
      if NoneInitial(v.nodes) { DecidedStays(v.nodes[i], LatestPayload(v.items), []); }
    }
    forall i | 0 <= i < |v.nodes| ensures !v'.nodes[i].state.Initial? {
      ReadAgain(v.nodes[i], LatestPayload(v.items));
    }
  }

  lemma ReadsPartlyStayBehind(v0: ListV, v: ListV, v': ListV, k: nat)
    requires Behind(v0, v) && ReadsPartly(v, v', k)
    ensures Behind(v0, v')
  {
    hide ReadNode, LatestPayload, Populated, Hydrated;
    var payload := LatestPayload(v.items).value;
    forall i | 0 <= i < |v.nodes|
      ensures v'.nodes[i] == v0.nodes[i] || v'.nodes[i] == ReadNode(v0.nodes[i], LatestPayload(v0.items))
      ensures NoneInitial(v.nodes) ==> v'.nodes[i] == v.nodes[i]
    {
      if NoneInitial(v.nodes) {
        DecidedStays(v.nodes[i], None, payload[..k]);
      } else {
        PartlyRead(v.nodes[i], payload, k);
        ReadAgain(v0.nodes[i], LatestPayload(v0.items));
      }
    }
  }

  lemma SameStaysBehind(v0: ListV, v: ListV, v': ListV)
    requires Behind(v0, v) && v'.nodes == v.nodes
    requires NoneInitial(v.nodes) || LatestPayload(v'.items) == LatestPayload(v.items)
    ensures Behind(v0, v')
  {
    hide ReadNode, LatestPayload;
  }

  lemma StepStaysBehind(v0: ListV, s: Sys, e: Event, s': Sys)
    requires OwnInv(s) && DataInv(s) && OwnInv(s') && Next(s, e, s') && IsWorkerEvent(e) && !e.Write?
    requires ListOf(e) in s.lists && Behind(v0, View(s, ListOf(e)))
    ensures ListOf(e) in s'.lists && Behind(v0, View(s', ListOf(e)))
  {
    hide TasksInv, NodesInv, LinksInv, ListsInv, Linkable, DataInv, Behind, Reads, ReadsPartly, View, LatestPayload,
         NoneInitial, OnlyList, WriteAborts, PartlyScanned, Rescanned, WorkerStep;
    var l := ListOf(e);
    NextIsLinkable(s, e, s');
    WorkerStepFacts(s, e, s');
    if e.Read? {
      ReadStep(s, l, s');
      ReadsStayBehind(v0, View(s, l), View(s', l));
    } else if e.ExtractFail? {
      var k := ExtractFailStep(s, l, s');
      ReadsPartlyStayBehind(v0, View(s, l), View(s', l), k);
    } else {
      OtherStep(s, e, s');
      SameStaysBehind(v0, View(s, l), View(s', l));
    }
  }

  lemma ReadStep(s: Sys, l: ListId, s': Sys)
    requires Linkable(s) && WorkerStep(s, Read(l), s')
    ensures l in s.lists && l in s'.lists && Linkable(s') && Reads(View(s, l), View(s', l))
  {
    hide Linkable, Reads, View;
  }

  lemma ExtractFailStep(s: Sys, l: ListId, s': Sys) returns (k: nat)
    requires Linkable(s) && WorkerStep(s, ExtractFail(l), s')
    ensures l in s.lists && l in s'.lists && Linkable(s') && ReadsPartly(View(s, l), View(s', l), k)
  {
    hide Linkable, ReadsPartly, View;
    k :| ReadsPartly(View(s, l), View(s', l), k);
  }

  lemma OtherStep(s: Sys, e: Event, s': Sys)
    requires OwnInv(s) && DataInv(s) && OwnInv(s') && Next(s, e, s') && WorkerStep(s, e, s')
    requires IsWorkerEvent(e) && !e.Write? && !e.Read? && !e.ExtractFail?
    ensures ListOf(e) in s.lists && ListOf(e) in s'.lists
    ensures View(s', ListOf(e)).nodes == View(s, ListOf(e)).nodes
    ensures || NoneInitial(View(s, ListOf(e)).nodes)
            || LatestPayload(View(s', ListOf(e)).items) == LatestPayload(View(s, ListOf(e)).items)
  {
    hide TasksInv, NodesInv, LinksInv, ListsInv, Linkable, DataInv, LatestPayload, NoneInitial, WorkerStep, View,
         OnlyCache, Next;
    var l := ListOf(e);
    NodesStay(s, e, s');
    WorkerStepFacts(s, e, s');
    SameNodes(s, l, s');
    ViewIs(s, l);
    ViewIs(s', l);
    if e.WriteFail? {
      AbortedWriteStep(s, l, s');
    } else if e.GcStep? {
      GcStepKeepsPayload(s, s', l);
    } else {
      OtherStepKeepsItems(s, e, s', l);
    }
  }

  lemma AbortedWriteStep(s: Sys, l: ListId, s': Sys)
    requires Linkable(s) && WorkerStep(s, WriteFail(l), s')
    ensures l in s.lists && NoneInitial(View(s, l).nodes)
  {
    hide View, NoneInitial, NeedsWriting, RecordFor, Linkable;
  }

  lemma {:induction false} PathStaysBehind(p: Path, l: ListId, s: Sys, s': Sys, k: nat)
    requires OwnInv(s) && DataInv(s) && Leads(p, l, s, s') && l in s.lists && k <= |p.events|
    requires forall q :: 0 <= q < k ==> !p.events[q].Write?
    ensures OwnInv(p.states[k]) && DataInv(p.states[k]) && l in p.states[k].lists
    ensures Behind(View(s, l), View(p.states[k], l)) && p.states[k].lists[l].bufLen == s.lists[l].bufLen
  {
    hide TasksInv, NodesInv, LinksInv, ListsInv, DataInv, Next, Behind, View, Linkable, Held;
    PathKeeps(p, l, s, s', k);
    if k == 0 {
      StartsBehind(View(s, l));
    } else {
      PathStaysBehind(p, l, s, s', k - 1);
      var a, e, b := p.states[k - 1], p.events[k - 1], p.states[k - 1 + 1];
      assert Next(a, e, b) && IsWorkerEvent(e) && ListOf(e) == l;
      StepStaysBehind(View(s, l), a, e, b);
      BufferStays(a, e, b);
    }
  }

  lemma StartsBehind(v: ListV)
    ensures Behind(v, v)
  {
  }

  /** Where a write takes place, all nodes have been decided, and all fit. */
  lemma WriteMeansFit(v0: ListV, v: ListV, bufLen: nat)
    requires Behind(v0, v) && NoneInitial(v.nodes) && AllFit(v.nodes, bufLen)
    ensures AllFit(ReadNodes(v0), bufLen)
  {
    hide ReadNode, LatestPayload, Fits;
    forall i | 0 <= i < |v0.nodes| ensures v.nodes[i] == ReadNodes(v0)[i] {
      ReadAgain(v0.nodes[i], LatestPayload(v0.items));
    }
  }

  lemma WriteStep(s: Sys, l: ListId, s': Sys)
    requires Linkable(s) && WorkerStep(s, Write(l), s')
    ensures l in s.lists && NoneInitial(View(s, l).nodes) && AllFit(View(s, l).nodes, s.lists[l].bufLen)
  {
    hide View, NoneInitial, NeedsWriting, RecordFor, Linkable, AllFit, Inserted;
  }

  /** Without a write, what has to be written stays so. */
  lemma DirtyStaysDirty(v0: ListV, s: Sys, l: ListId)
    requires Linkable(s) && l in s.lists && Behind(v0, View(s, l)) && Settled(s, l)
    ensures NoneDirty(v0.nodes)
  {
    hide ReadNode, LatestPayload;
    forall i | 0 <= i < |v0.nodes| ensures !v0.nodes[i].state.NeedsWrite? {
      ReadAgain(v0.nodes[i], LatestPayload(v0.items));
      assert LinkedIn(s, s.lists[l].linked[i], l);
    }
  }

  lemma FirstWrite(p: Path) returns (k: nat)
    ensures k <= |p.events| && (k < |p.events| ==> p.events[k].Write?)
    ensures forall q :: 0 <= q < k ==> !p.events[q].Write?
  {
    k := 0;
    while k < |p.events| && !p.events[k].Write?
      invariant 0 <= k <= |p.events|
      invariant forall q :: 0 <= q < k ==> !p.events[q].Write?
    {
      k := k + 1;
    }
  }

  lemma OnlyIfFlushable(p: Path, l: ListId, s: Sys, s': Sys)
    requires OwnInv(s) && DataInv(s) && l in s.lists && Leads(p, l, s, s') && Settled(s', l)
    ensures Flushable(s, l)
  {
    hide TasksInv, NodesInv, LinksInv, ListsInv, DataInv, Behind, View, Linkable, NoneInitial, AllFit, ReadNodes,
         NoneDirty, Next, WorkerStep, Settled;
    var k := FirstWrite(p);
    PathStaysBehind(p, l, s, s', k);
    if k < |p.events| {
      var a, e, b := p.states[k], p.events[k], p.states[k + 1];
      assert Next(a, e, b) && IsWorkerEvent(e) && ListOf(e) == l;
      NextIsLinkable(a, e, b);
      WriteStep(a, l, b);
      WriteMeansFit(View(s, l), View(a, l), s.lists[l].bufLen);
    } else {
      DirtyStaysDirty(View(s, l), s', l);
    }
  }

  // ---- and without a reset ----

  ghost predicate NoReset(p: Path) {
    forall i :: 0 <= i < |p.events| ==> !p.events[i].Reset?
  }

  /** Without a reset and without a verified write, a queue that is blocked stays as it is, until a write
      has failed; from then on, nothing more is done with it. */
  ghost predicate StaysBlocked(items: seq<Item>, x: ListS) {
    x.phase.Suspect? || (x.phase.Idle? && x.items == items)
  }

  lemma NoRecordNeedsNoGc(s: Sys, l: ListId)
    requires Linkable(s) && DataInv(s) && l in s.lists && s.lists[l].phase.Idle? && GoodRecords(s.lists[l].items) == {}
    ensures !s.lists[l].cache.needsGc
    ensures s.lists[l].cache.next.Some? ==> s.lists[l].cache.next == Some(1)
  {
    hide ListInv, GoodRecords, IsTopK;
    assert PhaseInv(s.lists[l]);
    var x := s.lists[l];
    if x.cache.next.Some? { NothingToCache(Trimmed(x.cache.last, |x.items|)); }
  }

  lemma StepStaysBlocked(items: seq<Item>, s: Sys, e: Event, s': Sys)
    requires Linkable(s) && DataInv(s) && WorkerStep(s, e, s') && IsWorkerEvent(e) && !e.Write? && !e.Reset?
    requires ListOf(e) in s.lists && StaysBlocked(items, s.lists[ListOf(e)]) && GoodRecords(items) == {}
    ensures ListOf(e) in s'.lists && StaysBlocked(items, s'.lists[ListOf(e)])
  {
    hide Linkable, DataInv, GoodRecords, Scanned, PartlyScanned, Rescanned, WriteAborts, Hydrated, ReadNode,
         LatestPayload, Populated, Swept;
    var l := ListOf(e);
    if s.lists[l].phase.Idle? { NoRecordNeedsNoGc(s, l); }
  }

  lemma BlockedIsNotWritten(items: seq<Item>, s: Sys, l: ListId, s': Sys)
    requires Linkable(s) && DataInv(s) && l in s.lists && StaysBlocked(items, s.lists[l]) && Blocked(items)
    ensures !WorkerStep(s, Write(l), s')
  {
    hide Linkable, DataInv, GoodRecords, RecordFor, Inserted, AllFit, NeedsWriting, NoneInitial, NoStart;
    if s.lists[l].phase.Idle? { NoRecordNeedsNoGc(s, l); }
  }

  lemma {:induction false} PathStaysBlocked(p: Path, l: ListId, s: Sys, s': Sys, k: nat)
    requires OwnInv(s) && DataInv(s) && Leads(p, l, s, s') && l in s.lists && k <= |p.events|
    requires forall q :: 0 <= q < k ==> !p.events[q].Write?
    requires NoReset(p) && s.lists[l].phase.Idle? && GoodRecords(s.lists[l].items) == {}
    ensures OwnInv(p.states[k]) && DataInv(p.states[k]) && l in p.states[k].lists
    ensures StaysBlocked(s.lists[l].items, p.states[k].lists[l])
  {
    hide TasksInv, NodesInv, LinksInv, ListsInv, DataInv, Next, Linkable, Held, WorkerStep, GoodRecords;
    PathKeeps(p, l, s, s', k);
    if k > 0 {
      PathStaysBlocked(p, l, s, s', k - 1);
      var a, e, b := p.states[k - 1], p.events[k - 1], p.states[k - 1 + 1];
      assert Next(a, e, b) && IsWorkerEvent(e) && ListOf(e) == l;
      NextIsLinkable(a, e, b);
      StepStaysBlocked(s.lists[l].items, a, e, b);
    }
  }

  lemma OnlyIfFlushableAlone(p: Path, l: ListId, s: Sys, s': Sys)
    requires OwnInv(s) && DataInv(s) && l in s.lists && s.lists[l].phase.Idle?
    requires Leads(p, l, s, s') && NoReset(p) && Settled(s', l)
    ensures FlushableAlone(s, l)
  {
    hide TasksInv, NodesInv, LinksInv, ListsInv, DataInv, Behind, View, Linkable, NoneInitial, AllFit, ReadNodes,
         NoneDirty, Next, WorkerStep, Settled, GoodRecords, NoStart, StaysBlocked;
    OnlyIfFlushable(p, l, s, s');
    if Blocked(s.lists[l].items) {
      var k := FirstWrite(p);
      PathStaysBehind(p, l, s, s', k);
      PathStaysBlocked(p, l, s, s', k);
      if k < |p.events| {
        var a, e, b := p.states[k], p.events[k], p.states[k + 1];
        assert Next(a, e, b) && IsWorkerEvent(e) && ListOf(e) == l;
        NextIsLinkable(a, e, b);
        BlockedIsNotWritten(s.lists[l].items, a, l, b);
      } else {
        DirtyStaysDirty(View(s, l), s', l);
      }
    }
  }

  lemma PlainHasNoReset(p: Path)
    requires Plain(p)
    ensures NoReset(p)
  {
  }

  /** The operations that the worker of a list calls can settle all its nodes if and only if none of them
      has to be written, or all that a write would serialize fit the buffer and no interrupted first
      write is in the way; whether or not some of the writes on the way fail. */
  lemma CanSettleIff(r: Run, i: nat, l: ListId)
    requires IsRun(r) && i < |r.states| && Free(r.states[i], l) && r.states[i].lists[l].phase.Idle?
    requires Roomy(r.states[i].lists[l].items)
    ensures FlushableAlone(r.states[i], l) <==>
              exists p, s' :: Leads(p, l, r.states[i], s') && Plain(p) && Settled(s', l)
    ensures FlushableAlone(r.states[i], l) <==>
              exists p, s' :: Leads(p, l, r.states[i], s') && NoReset(p) && Settled(s', l)
  {
    hide OwnInv, DataInv, IsRun, Roomy, Leads, Settled, FlushableAlone, Held, Stored, Plain, NoReset;
    InvariantsHold(r, i);
    if FlushableAlone(r.states[i], l) {
      AloneIsFlushable(r.states[i], l);
      var p, s' := CanFlush(r, i, l);
      PlainHasNoReset(p);
    }
    forall p, s' | Leads(p, l, r.states[i], s') && NoReset(p) && Settled(s', l) ensures FlushableAlone(r.states[i], l) {
      OnlyIfFlushableAlone(p, l, r.states[i], s');
    }
    forall p | Plain(p) ensures NoReset(p) {
      PlainHasNoReset(p);
    }
  }

  lemma AloneIsFlushable(s: Sys, l: ListId)
    requires FlushableAlone(s, l)
    ensures Flushable(s, l)
  {
    hide Flushable;
  }

  /** With resets of the cache among the steps, an interrupted first write is no obstacle: they can settle
      all nodes if and only if none has to be written, or all that a write would serialize fit. */
  lemma CanSettleWithResetIff(r: Run, i: nat, l: ListId)
    requires IsRun(r) && i < |r.states| && Free(r.states[i], l) && r.states[i].lists[l].phase.Idle?
    requires Roomy(r.states[i].lists[l].items)
    ensures (exists p, s' :: Leads(p, l, r.states[i], s') && Settled(s', l)) <==> Flushable(r.states[i], l)
  {
    hide OwnInv, DataInv, IsRun, Roomy, Leads, Settled, Flushable, Held, Stored, Blocked, Plain;
    InvariantsHold(r, i);
    if Flushable(r.states[i], l) {
      var p, s' := CanFlush(r, i, l);
    }
    forall p, s' | Leads(p, l, r.states[i], s') && Settled(s', l) ensures Flushable(r.states[i], l) {
      OnlyIfFlushable(p, l, r.states[i], s');
    }
  }

  // ---- from any state at all ----

  lemma ExtendRun(r: Run, i: nat, e: Event, s': Sys) returns (r': Run)
    requires IsRun(r) && i < |r.states| && Next(r.states[i], e, s')
    ensures IsRun(r') && r'.states == r.states[..i + 1] + [s'] && r'.events == r.events[..i] + [e]
  {
    hide Next, Booted;
    r' := Run(r.states[..i + 1] + [s'], r.events[..i] + [e]);
    forall k | 0 <= k < |r'.events| ensures Next(r'.states[k], r'.events[k], r'.states[k + 1]) {
      if k < i {
        assert Next(r.states[k], r.events[k], r.states[k + 1]);
      }
    }
  }

  /** The task that holds the lock of `l` can finish its locked section. */
  lemma HolderFinishes(s: Sys, l: ListId) returns (e: Event, s': Sys)
    requires OwnInv(s) && l in s.lists && s.lists[l].holder.Some?
    ensures Next(s, e, s') && (e.AttachLink? || e.DetachFinish?) && Free(s', l)
    ensures s'.lists[l].phase == s.lists[l].phase && s'.lists[l].items == s.lists[l].items
    ensures s'.lists[l].cache == s.lists[l].cache && s'.lists[l].bufLen == s.lists[l].bufLen
  {
    hide NodesInv, LinksInv, Unlinked, WellFormed, NoDuplicates, KeyInUse;
    var t := s.lists[l].holder.value;
    assert HolderInv(s, l) && TaskInv(s, t);
    match s.tasks[t]
    case Attaching(n, _, again) =>
      e := AttachLink(t);
      s' := if again then SetHolder(SetTask(s, t, Waiting(n, l, true)), l, None)
            else if KeyInUse(s, l, s.nodes[n].node.key) then SetHolder(EndTask(SetTaken(s, n, 0), t), l, None)
            else SetHolder(SetTask(SetLinked(s, l, [n] + s.lists[l].linked), t, Waiting(n, l, false)), l, None);
    case Detaching(n, _) =>
      e := DetachFinish(t);
      var s1 := SetLinked(s, l, Unlinked(s.lists[l].linked, n));
      s' := SetHolder(EndTask(SetTaken(SetNode(s1, n, Cleared(s.nodes[n].node)), n, 0), t), l, None);
  }

  /** A collection can be given up, and a cache that is suspect can be reset. */
  lemma WorkerComesToRest(s: Sys, l: ListId) returns (e: Event, s': Sys)
    requires OwnInv(s) && DataInv(s) && Free(s, l) && !s.lists[l].phase.Idle?
    ensures Next(s, e, s') && e == (if s.lists[l].phase.Suspect? then Reset(l) else GcAbort(l))
    ensures Free(s', l) && s'.lists[l].phase.Idle? && s'.lists[l].items == s.lists[l].items
  {
    hide TasksInv, NodesInv, LinksInv, ListsInv, Linkable, OnlyCache, SetList, DataInv;
    if s.lists[l].phase.Suspect? {
      e := Reset(l);
      s' := ResetIsEnabled(s, l);
    } else {
      e := GcAbort(l);
      SameAsSelf(s, l);
      SetListIsOnlyCache(s, s, l, s.lists[l].cache, s.lists[l].items, Idle);
      s' := SetList(s, l, s.lists[l].cache, s.lists[l].items, Idle);
    }
  }

  /** Every run can be continued, after every state, by at most two steps to one in which the lock of `l`
      is free and its worker idle, over the same queue: where the results above take over. */
  lemma CanComeToRest(r: Run, i: nat, l: ListId) returns (r': Run)
    requires IsRun(r) && i < |r.states| && l in r.states[i].lists
    ensures IsRun(r') && i < |r'.states| <= i + 3 && r'.states[..i + 1] == r.states[..i + 1]
    ensures forall k :: i <= k < |r'.events| ==>
              r'.events[k].AttachLink? || r'.events[k].DetachFinish? || r'.events[k].GcAbort? || r'.events[k].Reset?
    ensures var s := r'.states[|r'.events|];
      Free(s, l) && s.lists[l].phase.Idle? && s.lists[l].items == r.states[i].lists[l].items
  {
    hide OwnInv, DataInv, Booted, Next;
    InvariantsHold(r, i);
    r' := Run(r.states[..i + 1], r.events[..i]);
    CutRun(r, i);
    if r.states[i].lists[l].holder.Some? {
      var e, s' := HolderFinishes(r.states[i], l);
      r' := ExtendRun(r', i, e, s');
    }
    var j := |r'.events|;
    InvariantsHold(r', j);
    if !r'.states[j].lists[l].phase.Idle? {
      var e, s' := WorkerComesToRest(r'.states[j], l);
      r' := ExtendRun(r', j, e, s');
    }
  }

  lemma CutRun(r: Run, i: nat)
    requires IsRun(r) && i < |r.states|
    ensures IsRun(Run(r.states[..i + 1], r.events[..i]))
  {
    hide Next, Booted;
    var r' := Run(r.states[..i + 1], r.events[..i]);
    forall k | 0 <= k < |r'.events| ensures Next(r'.states[k], r'.events[k], r'.states[k + 1]) {
      assert Next(r.states[k], r.events[k], r.states[k + 1]);
    }
  }
}
