// What becomes of one value over a run: it is not lost between the handle and the log, and not
// lost in the log between runs of the program.
module Survival {
  import opened Wrappers
  import opened KeyValue
  import opened Log
  import opened SeqStates
  import opened Collect
  import opened NodeSpec
  import opened ListSpec
  import opened Scan
  import opened Protocol
  import opened Ownership
  import opened Durability
  import opened Runs

  // ---- in the log ----

  /** An attached node has the key, the codec and the value in question. */
  ghost predicate Held(s: Sys, n: NodeId, l: ListId, key: Key, codec: Codec, v: Value) {
    && LinkedIn(s, n, l) && n in s.nodes
    && s.nodes[n].node.key == key && s.nodes[n].node.codec == codec
    && Initialised(s.nodes[n].node.state) && s.nodes[n].node.data == Some(v)
  }

  /** An attached, initialised node under the key has a value whose encoding this codec decodes to `v`. */
  ghost predicate Offered(s: Sys, l: ListId, key: Key, codec: Codec, v: Value) {
    exists n :: LinkedIn(s, n, l) && n in s.nodes && OffersOne(s.nodes[n].node, key, codec, v)
  }

  ghost predicate IsWrite(e: Event, l: ListId) {
    e == Write(l) || e == WriteFail(l)
  }

  /** In this step a write of `l` pushes the end of its record, whether it is verified or not. */
  ghost predicate EndPushed(s: Sys, e: Event, l: ListId, s': Sys) {
    && IsWrite(e, l) && Linkable(s) && l in s.lists && l in s'.lists
    && AllWellFormed(View(s, l).nodes) && s.lists[l].cache.next.Some?
    && s'.lists[l].items == s.lists[l].items + RecordFor(View(s, l).nodes, s.lists[l].cache.next.value)
  }

  lemma SamePayloadStores(s: Sys, s': Sys, l: ListId, key: Key, codec: Codec, v: Value)
    requires l in s.lists && l in s'.lists
    requires LatestPayload(s'.lists[l].items) == LatestPayload(s.lists[l].items)
    ensures Stored(s', l, key, codec, v) <==> Stored(s, l, key, codec, v)
  {
  }

  lemma OfferedIsOffers(s: Sys, l: ListId, key: Key, codec: Codec, v: Value)
    requires Linkable(s) && l in s.lists
    ensures Offered(s, l, key, codec, v) <==> Offers(View(s, l).nodes, key, codec, v)
  {
    hide OffersOne;
    if n :| LinkedIn(s, n, l) && n in s.nodes && OffersOne(s.nodes[n].node, key, codec, v) {
      var i :| 0 <= i < |s.lists[l].linked| && s.lists[l].linked[i] == n;
      assert OffersOne(View(s, l).nodes[i], key, codec, v);
    }
    if i :| 0 <= i < |View(s, l).nodes| && OffersOne(View(s, l).nodes[i], key, codec, v) {
      assert LinkedIn(s, s.lists[l].linked[i], l);
    }
  }

  lemma VerifiedWriteStoresIff(s: Sys, s': Sys, l: ListId, key: Key, codec: Codec, v: Value)
    requires Linkable(s) && DataInv(s) && WorkerStep(s, Write(l), s')
    ensures EndPushed(s, Write(l), l, s')
    ensures Stored(s', l, key, codec, v) <==> Offered(s, l, key, codec, v)
  {
    hide ListInv, Coherent, Inserted, RecordFor, StoredIn, Offers, NeedsWriting, NoneInitial, AllFit, NoStart, Linkable;
    assert ListInv(View(s, l)) && PhaseInv(s.lists[l]);
    HasNodes(View(s, l));
    WritesStoreIff(View(s, l), View(s', l), key, codec, v);
    OfferedIsOffers(s, l, key, codec, v);
  }

  lemma FailedWriteStoresIff(s: Sys, s': Sys, l: ListId, key: Key, codec: Codec, v: Value)
    requires Linkable(s) && DataInv(s) && WorkerStep(s, WriteFail(l), s')
    ensures l in s.lists && l in s'.lists
    ensures Stored(s', l, key, codec, v)
       <==> if EndPushed(s, WriteFail(l), l, s') then Offered(s, l, key, codec, v) else Stored(s, l, key, codec, v)
  {
    hide ListInv, Coherent, RecordFor, StoredIn, Offers, NeedsWriting, NoneInitial, Linkable;
    assert ListInv(View(s, l)) && PhaseInv(s.lists[l]);
    var before, after := View(s, l), View(s', l);
    HasNodes(before);
    var n: nat :| WriteFails(before, after, n);
    WriteFailsStoreIff(before, after, n, key, codec, v);
    OfferedIsOffers(s, l, key, codec, v);
    var w := RecordFor(before.nodes, before.cache.next.value);
    assert n == |after.items| - |before.items|;
    if n == |w| { assert w[..n] == w; }
  }

  lemma HasNodes(v: ListV)
    requires ListInv(v)
    ensures AllWellFormed(v.nodes)
  {
  }

  lemma GcStepKeepsPayload(s: Sys, s': Sys, l: ListId)
    requires Linkable(s) && DataInv(s) && WorkerStep(s, GcStep(l), s')
    ensures l in s.lists && l in s'.lists
    ensures LatestPayload(s'.lists[l].items) == LatestPayload(s.lists[l].items)
  {
    hide Healthy, IsTopK, Swept, LatestPayload, GoodRecords, Trimmed;
    assert ListInv(View(s, l)) && PhaseInv(s.lists[l]);
    var Collecting(orig, slots, n) := s.lists[l].phase;
    SweepKeepsLatest(orig, slots, n);
    SweepKeepsLatest(orig, slots, n + 1);
  }

  lemma WorkerKeepsItems(s: Sys, e: Event, s': Sys, l: ListId)
    requires Linkable(s) && WorkerStep(s, e, s') && l in s.lists && !IsWrite(e, l) && e != GcStep(l)
    ensures l in s'.lists && s'.lists[l].items == s.lists[l].items
  {
    hide Scanned, PartlyScanned, Rescanned, Writes, WriteAborts, Hydrated, ReadNode, LatestPayload, Populated;
  }

  lemma TaskKeepsItems(s: Sys, e: Event, s': Sys, l: ListId)
    requires Next(s, e, s') && l in s.lists && !IsWorkerEvent(e)
    ensures l in s'.lists && s'.lists[l].items == s.lists[l].items
  {
    hide Linkable, KeyInUse, Unlinked;
  }

  lemma OtherStepKeepsItems(s: Sys, e: Event, s': Sys, l: ListId)
    requires Next(s, e, s') && l in s.lists && !IsWrite(e, l) && e != GcStep(l)
    ensures l in s'.lists && s'.lists[l].items == s.lists[l].items
  {
    hide WorkerStep, Next;
    NextIsLinkable(s, e, s');
    if IsWorkerEvent(e) {
      WorkerKeepsItems(s, e, s', l);
    } else {
      TaskKeepsItems(s, e, s', l);
    }
  }

  lemma OtherStepStoresIff(s: Sys, e: Event, s': Sys, l: ListId, key: Key, codec: Codec, v: Value)
    requires OwnInv(s) && DataInv(s) && Next(s, e, s') && l in s.lists && !IsWrite(e, l)
    ensures Stored(s', l, key, codec, v) <==> Stored(s, l, key, codec, v)
  {
    hide OwnInv, DataInv, Next, WorkerStep, Linkable, Stored, LatestPayload;
    if e == GcStep(l) {
      NextIsLinkable(s, e, s');
      GcStepKeepsPayload(s, s', l);
    } else {
      OtherStepKeepsItems(s, e, s', l);
    }
    SamePayloadStores(s, s', l, key, codec, v);
  }

  /** What one step does to what is stored: a write of the list that pushes its end stores exactly what is
      offered by the attached nodes; nothing else, neither a write cut short, nor other lists,
      collections, failed scans and reads, nor a power loss, changes anything. */
  lemma StepStoresIff(s: Sys, e: Event, s': Sys, l: ListId, key: Key, codec: Codec, v: Value)
    requires OwnInv(s) && DataInv(s) && Next(s, e, s') && l in s.lists
    ensures l in s'.lists
    ensures Stored(s', l, key, codec, v)
       <==> if EndPushed(s, e, l, s') then Offered(s, l, key, codec, v) else Stored(s, l, key, codec, v)
  {
    hide OwnInv, DataInv, Next, WorkerStep, Linkable, Stored, EndPushed, Offered;
    NextIsLinkable(s, e, s');
    ListsStay(s, e, s');
    if e == Write(l) {
      VerifiedWriteStoresIff(s, s', l, key, codec, v);
    } else if e == WriteFail(l) {
      FailedWriteStoresIff(s, s', l, key, codec, v);
    } else {
      OtherStepStoresIff(s, e, s', l, key, codec, v);
      NoEndPushed(s, e, l, s');
    }
  }

  lemma NoEndPushed(s: Sys, e: Event, l: ListId, s': Sys)
    requires !IsWrite(e, l)
    ensures !EndPushed(s, e, l, s')
  {
  }

  lemma ListsStay(s: Sys, e: Event, s': Sys)
    requires Next(s, e, s')
    ensures s'.lists.Keys == s.lists.Keys
  {
    hide Linkable, KeyInUse, Unlinked, Reads, ReadsPartly, Writes, WriteAborts, PartlyScanned, Rescanned, Swept,
         AllFit, NoStart, View;
  }

  /** The last write of `l` that pushed its end between the states `i` and `j` of a run. */
  ghost function LastEnd(r: Run, l: ListId, i: nat, j: nat): (k: Option<nat>)
    requires i <= j < |r.states| && |r.states| == |r.events| + 1
    ensures k.Some? ==> i <= k.value < j && EndPushed(r.states[k.value], r.events[k.value], l, r.states[k.value + 1])
    ensures forall q :: i <= q < j && (k.Some? ==> k.value < q) ==>
              !EndPushed(r.states[q], r.events[q], l, r.states[q + 1])
  {
    if i == j then None
    else if EndPushed(r.states[j - 1], r.events[j - 1], l, r.states[j - 1 + 1]) then Some(j - 1)
    else LastEnd(r, l, i, j - 1)
  }

  /** What is stored depends on the last write that pushed its end, and on nothing else that has happened
      since: a value is stored if and only if an attached node offered it then; without such a write, if
      and only if it was stored before. */
  lemma {:induction false} StoredIff(r: Run, i: nat, j: nat, l: ListId, key: Key, codec: Codec, v: Value)
    requires IsRun(r) && i <= j < |r.states| && l in r.states[i].lists
    ensures l in r.states[j].lists
    ensures Stored(r.states[j], l, key, codec, v)
       <==> match LastEnd(r, l, i, j)
            case None => Stored(r.states[i], l, key, codec, v)
            case Some(k) => Offered(r.states[k], l, key, codec, v)
  {
    hide OwnInv, DataInv, Booted, Next, Linkable, Stored, Offered, EndPushed;
    if i < j {
      StoredIff(r, i, j - 1, l, key, codec, v);
      InvariantsHold(r, j - 1);
      assert Next(r.states[j - 1], r.events[j - 1], r.states[j - 1 + 1]);
      StepStoresIff(r.states[j - 1], r.events[j - 1], r.states[j], l, key, codec, v);
    }
  }

  /** Reading decides every waiting node: it gets the stored value, or becomes non-resident if the
      latest record has no entry for its key or one that does not decode. Other nodes stay. */
  lemma ReadDecides(s: Sys, s': Sys, l: ListId, n: NodeId)
    requires OwnInv(s) && WorkerStep(s, Read(l), s') && LinkedIn(s, n, l)
    ensures n in s.nodes && n in s'.nodes
    ensures var x := s.nodes[n].node;
      && (!x.state.Initial? ==> s'.nodes[n].node == x)
      && (x.state.Initial? ==>
           && (forall v :: Stored(s, l, x.key, x.codec, v) ==>
                 s'.nodes[n].node == x.(state := ValidNoWriteNeeded, data := Some(v)))
           && ((forall v :: !Stored(s, l, x.key, x.codec, v)) ==> s'.nodes[n].node == x.(state := NonResident)))
  {
    hide LatestPayload, EntryFor, TasksInv, NodesInv, LinksInv, ListsInv, Populated;
    var k :| 0 <= k < |s.lists[l].linked| && s.lists[l].linked[k] == n;
    assert View(s, l).nodes[k] == s.nodes[n].node && View(s', l).nodes[k] == s'.nodes[n].node;
    var x, latest := s.nodes[n].node, LatestPayload(s.lists[l].items);
    if latest.Some? && EntryFor(latest.value, x.key).Some? {
      var d := x.codec.decode(EntryFor(latest.value, x.key).value);
      if d.Some? {
        assert Stored(s, l, x.key, x.codec, d.value);
      }
    }
  }

  // ---- between the handle and the log ----

  /** The steps that may take the value of node `n` away: a write through its handle, a default, the
      end of a detach, a power loss. */
  ghost predicate Touches(s: Sys, e: Event, n: NodeId) {
    || e.PowerLoss?
    || ((e.HandleWrite? || e.AttachDefault? || e.DetachFinish?) && e.t in s.tasks && s.tasks[e.t].n == n)
  }

  lemma WorkerKeepsHeld(s: Sys, e: Event, s': Sys, n: NodeId, l: ListId, key: Key, codec: Codec, v: Value)
    requires OwnInv(s) && WorkerStep(s, e, s') && Held(s, n, l, key, codec, v)
    ensures Held(s', n, l, key, codec, v)
  {
    hide OwnInv, WorkerStep, WorkerMoves, Linkable, Held, OnlyList, ListOf;
    OwnedIsLinkable(s);
    WorkerStepMoves(s, e, s');
    MovedKeepsHeld(s, ListOf(e), s', n, l, key, codec, v);
  }

  lemma MovedKeepsHeld(s: Sys, k: ListId, s': Sys, n: NodeId, l: ListId, key: Key, codec: Codec, v: Value)
    requires OnlyList(s, k, s') && Held(s, n, l, key, codec, v)
    requires LinkedIn(s, n, k) ==> WorkerMoves(s.nodes[n].node, s'.nodes[n].node)
    ensures Held(s', n, l, key, codec, v)
  {
    hide WorkerMoves;
    if LinkedIn(s, n, k) {
      MoveKeepsValue(s.nodes[n].node, s'.nodes[n].node);
    }
  }

  lemma MoveKeepsValue(x: Node, x': Node)
    requires WorkerMoves(x, x') && Initialised(x.state)
    ensures x'.key == x.key && x'.codec == x.codec && Initialised(x'.state) && x'.data == x.data
  {
  }

  lemma DetachKeepsHeld(s: Sys, e: Event, s': Sys, n: NodeId, l: ListId, key: Key, codec: Codec, v: Value)
    requires OwnInv(s) && e.DetachFinish? && DoDetachFinish(s, s', e.t)
    requires Held(s, n, l, key, codec, v) && !Touches(s, e, n)
    ensures Held(s', n, l, key, codec, v)
  {
    hide TasksInv, NodesInv, LinksInv, ListsInv, Linkable, WellFormed, NoDuplicates, Unlinked;
    OwnerFacts(s, e.t);
    UnlinkedRemoves(s.lists[s.tasks[e.t].l].linked, s.tasks[e.t].n);
  }

  lemma TaskKeepsHeld(s: Sys, e: Event, s': Sys, n: NodeId, l: ListId, key: Key, codec: Codec, v: Value)
    requires OwnInv(s) && Next(s, e, s') && !IsWorkerEvent(e) && Held(s, n, l, key, codec, v) && !Touches(s, e, n)
    ensures Held(s', n, l, key, codec, v)
  {
    hide TasksInv, NodesInv, LinksInv, ListsInv, Linkable, KeyInUse, DoDetachFinish, DoPowerLoss;
    if e.DetachFinish? {
      DetachKeepsHeld(s, e, s', n, l, key, codec, v);
    }
  }

  lemma {:induction false} HeldStays(r: Run, i: nat, j: nat, n: NodeId, l: ListId, key: Key, codec: Codec, v: Value)
    requires IsRun(r) && i <= j < |r.states| && Held(r.states[i], n, l, key, codec, v)
    requires forall k :: i <= k < j ==> !Touches(r.states[k], r.events[k], n)
    ensures Held(r.states[j], n, l, key, codec, v)
  {
    hide OwnInv, DataInv, Booted, Linkable, Held, Touches, Next, IsWorkerEvent, WorkerStep;
    if i < j {
      HeldStays(r, i, j - 1, n, l, key, codec, v);
      InvariantsHold(r, j - 1);
      var s, e, s' := r.states[j - 1], r.events[j - 1], r.states[j - 1 + 1];
      assert Next(s, e, s');
      NextIsLinkable(s, e, s');
      if IsWorkerEvent(e) {
        WorkerKeepsHeld(s, e, s', n, l, key, codec, v);
      } else {
        TaskKeepsHeld(s, e, s', n, l, key, codec, v);
      }
    }
  }

  lemma HandleWriteStep(s: Sys, t: TaskId, v: Value, s': Sys)
    requires OwnInv(s) && DoHandleWrite(s, s', t, v)
    ensures t in s.tasks && s.tasks[t].Holding? && s.tasks[t].n in s.nodes && s.tasks[t].n in s'.nodes
    ensures var n, l := s.tasks[t].n, s.tasks[t].l;
      && s'.tasks == s.tasks && s'.nodes[n].node.state == NeedsWrite
      && forall u :: Held(s', n, l, s.nodes[n].node.key, s.nodes[n].node.codec, u) <==> u == v
  {
    hide TasksInv, NodesInv, LinksInv, ListsInv, Linkable, WellFormed, HolderInv, NoDuplicates;
    OwnerFacts(s, t);
  }

  /** A write through a handle always succeeds: its node then holds exactly that value, under its own key,
      codec and list, and has to be written. */
  lemma HandleWriteIsHeld(r: Run, i: nat, t: TaskId, v: Value)
    requires IsRun(r) && i < |r.events| && r.events[i] == HandleWrite(t, v)
    ensures t in r.states[i].tasks && r.states[i].tasks[t].Holding? && r.states[i].tasks[t].n in r.states[i].nodes
    ensures var s, s' := r.states[i], r.states[i + 1];
      var n, l := s.tasks[t].n, s.tasks[t].l;
      && s'.tasks == s.tasks && n in s'.nodes && s'.nodes[n].node.state == NeedsWrite
      && forall u :: Held(s', n, l, s.nodes[n].node.key, s.nodes[n].node.codec, u) <==> u == v
  {
    hide OwnInv, DataInv, Booted, DoHandleWrite, Held;
    InvariantsHold(r, i);
    assert Next(r.states[i], r.events[i], r.states[i + 1]);
    HandleWriteStep(r.states[i], t, v, r.states[i + 1]);
  }

  /** No update is marked as flushed without being in the log: a value put into an attached node is
      still there until something replaces it, and when the node is found clean, it is stored. */
  lemma UpdateIsNotLost(r: Run, i: nat, j: nat, n: NodeId, l: ListId, key: Key, codec: Codec, v: Value)
    requires IsRun(r) && i <= j < |r.states| && Held(r.states[i], n, l, key, codec, v)
    requires forall k :: i <= k < j ==> !Touches(r.states[k], r.events[k], n)
    ensures Held(r.states[j], n, l, key, codec, v)
    ensures r.states[j].nodes[n].node.state.NeedsWrite? || Stored(r.states[j], l, key, codec, v)
  {
    hide IsRun, Touches, Stored;
    HeldStays(r, i, j, n, l, key, codec, v);
    CleanMeansDurable(r, j, l, n);
  }

  /** From the write through a handle on: the value stays in the node until something replaces it, and once
      the node is clean, it is in the log. */
  lemma HandleWriteIsNotLost(r: Run, i: nat, j: nat, t: TaskId, v: Value)
    requires IsRun(r) && i < j < |r.states| && r.events[i] == HandleWrite(t, v)
    requires t in r.states[i].tasks && r.states[i].tasks[t].n in r.states[i].nodes
    requires forall k :: i < k < j ==> !Touches(r.states[k], r.events[k], r.states[i].tasks[t].n)
    ensures var n, l := r.states[i].tasks[t].n, r.states[i].tasks[t].l;
      var x := r.states[i].nodes[n].node;
      && Held(r.states[j], n, l, x.key, x.codec, v)
      && (r.states[j].nodes[n].node.state.NeedsWrite? || Stored(r.states[j], l, x.key, x.codec, v))
  {
    hide IsRun, Touches, Stored, Held;
    RunLength(r);
    HandleWriteIsHeld(r, i, t, v);
    var n, l := r.states[i].tasks[t].n, r.states[i].tasks[t].l;
    var x := r.states[i].nodes[n].node;
    UpdateIsNotLost(r, i + 1, j, n, l, x.key, x.codec, v);
  }

  lemma RunLength(r: Run)
    requires IsRun(r)
    ensures |r.states| == |r.events| + 1
  {
  }

  /** The whole way: a value is in an attached node at `i` that is found clean at `j`. Whatever happens
      from then on, power losses and collections cut short included, the next read at `k` gives that
      value to a node waiting under the same key with the same codec, if and only if the last write that
      pushed its end in between, if there was one, found the value in an attached node. */
  lemma ValueSurvives(r: Run, i: nat, j: nat, k: nat, n: NodeId, m: NodeId, l: ListId, key: Key, codec: Codec, v: Value)
    requires IsRun(r) && i <= j <= k < |r.events| && Held(r.states[i], n, l, key, codec, v)
    requires forall q :: i <= q < j ==> !Touches(r.states[q], r.events[q], n)
    requires n in r.states[j].nodes && r.states[j].nodes[n].node.state.ValidNoWriteNeeded?
    requires r.events[k] == Read(l) && LinkedIn(r.states[k], m, l) && m in r.states[k].nodes
    requires r.states[k].nodes[m].node.key == key && r.states[k].nodes[m].node.codec == codec
    requires r.states[k].nodes[m].node.state.Initial?
    ensures m in r.states[k + 1].nodes
    ensures (r.states[k + 1].nodes[m].node.state.ValidNoWriteNeeded? && r.states[k + 1].nodes[m].node.data == Some(v))
       <==> match LastEnd(r, l, j, k)
            case None => true
            case Some(q) => Offered(r.states[q], l, key, codec, v)
  {
    hide OwnInv, DataInv, Booted, Linkable, Offered, Stored, Touches, WorkerStep, LinkedIn, EndPushed;
    UpdateIsNotLost(r, i, j, n, l, key, codec, v);
    StoredIsListed(r.states[j], l, key, codec, v);
    StoredIff(r, j, k, l, key, codec, v);
    InvariantsHold(r, k);
    assert Next(r.states[k], r.events[k], r.states[k + 1]);
    ReadDecides(r.states[k], r.states[k + 1], l, m);
    ReadGivesIff(r.states[k], r.states[k + 1], l, m, v);
  }

  lemma StoredIsListed(s: Sys, l: ListId, key: Key, codec: Codec, v: Value)
    requires Stored(s, l, key, codec, v)
    ensures l in s.lists
  {
  }

  lemma ReadGivesIff(s: Sys, s': Sys, l: ListId, m: NodeId, v: Value)
    requires OwnInv(s) && WorkerStep(s, Read(l), s') && LinkedIn(s, m, l)
    requires m in s.nodes && s.nodes[m].node.state.Initial?
    ensures m in s'.nodes
    ensures Stored(s, l, s.nodes[m].node.key, s.nodes[m].node.codec, v)
       <==> s'.nodes[m].node.state.ValidNoWriteNeeded? && s'.nodes[m].node.data == Some(v)
  {
    hide OwnInv, WorkerStep, LinkedIn, Stored;
    ReadDecides(s, s', l, m);
    var x := s.nodes[m].node;
    if u :| Stored(s, l, x.key, x.codec, u) {
      assert s'.nodes[m].node.data == Some(u);
    }
  }
}
