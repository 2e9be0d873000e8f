// What holds in every state of every run of the whole system.
module Runs {
  import opened KeyValue
  import opened Log
  import opened SeqStates
  import opened Collect
  import opened NodeSpec
  import opened ListSpec
  import opened Protocol
  import opened Ownership
  import opened Durability
  import opened Recovery

  /** A system that has just started, over storages left behind by earlier runs. */
  ghost predicate Booted(s: Sys) {
    && s.tasks == map[]
    && (forall n :: n in s.nodes ==>
          s.nodes[n].taken == 0 && s.nodes[n].node.state.Initial? && WellFormed(s.nodes[n].node))
    && (forall l :: l in s.lists ==>
          && 2 <= l && l % 2 == 0
          && s.lists[l].linked == [] && s.lists[l].holder.None? && s.lists[l].phase.Idle?
          && 0 < |s.lists[l].cache.last| && s.lists[l].cache == EmptyCache(|s.lists[l].cache.last|)
          && Healthy(s.lists[l].items))
  }

  datatype Run = Run(states: seq<Sys>, events: seq<Event>)

  /** Any interleaving of any number of tasks and workers, power losses included. */
  ghost predicate IsRun(r: Run) {
    && |r.states| == |r.events| + 1
    && Booted(r.states[0])
    && forall i :: 0 <= i < |r.events| ==> Next(r.states[i], r.events[i], r.states[i + 1])
  }

  // ---- the invariants hold throughout ----

  lemma BootedOwns(s: Sys)
    requires Booted(s)
    ensures OwnInv(s)
  {
    hide WellFormed, Healthy;
    assert forall n, l :: !LinkedIn(s, n, l);
    EmptyLinks(s);
    LinksMakeLinkable(s);
    EmptyTasks(s);
  }

  lemma BootedHasData(s: Sys)
    requires Booted(s) && Linkable(s)
    ensures DataInv(s)
  {
    hide Healthy, LatestPayload, IsTopK;
    forall l | l in s.lists ensures ListInv(View(s, l)) && PhaseInv(s.lists[l]) {
      EmptyIsCoherent(|s.lists[l].cache.last|, s.lists[l].items);
      assert View(s, l).nodes == [];
    }
  }

  /** Every state of every run satisfies the ownership and the data invariant. */
  lemma {:induction false} InvariantsHold(r: Run, i: nat)
    requires IsRun(r) && i < |r.states|
    ensures OwnInv(r.states[i]) && DataInv(r.states[i])
  {
    hide OwnInv, DataInv, Booted, Next, Linkable;
    if i == 0 {
      BootedOwns(r.states[0]);
      OwnedIsLinkable(r.states[0]);
      BootedHasData(r.states[0]);
    } else {
      InvariantsHold(r, i - 1);
      var s, e, s' := r.states[i - 1], r.events[i - 1], r.states[i - 1 + 1];
      assert Next(s, e, s');
      StepKeepsOwnership(s, e, s');
      StepKeepsData(s, e, s');
    }
  }

  lemma OwnedIsLinkable(s: Sys)
    requires OwnInv(s)
    ensures Linkable(s)
  {
  }

  // ---- what they say ----

  lemma CleanIsStored(s: Sys, l: ListId, n: NodeId)
    requires OwnInv(s) && DataInv(s) && LinkedIn(s, n, l)
    ensures n in s.nodes
    ensures s.nodes[n].node.state.ValidNoWriteNeeded? ==>
              && s.nodes[n].node.data.Some?
              && Stored(s, l, s.nodes[n].node.key, s.nodes[n].node.codec, s.nodes[n].node.data.value)
  {
    hide Healthy, LatestPayload, EntryFor, TasksInv, LinksInv, ListsInv, NodesInv, PhaseInv;
    var k :| 0 <= k < |s.lists[l].linked| && s.lists[l].linked[k] == n;
    assert View(s, l).nodes[k] == s.nodes[n].node;
    assert WellFormed(View(s, l).nodes[k]) && Clean(View(s, l).nodes[k], LatestPayload(s.lists[l].items));
  }

  /** Clean means durable: a linked node that needs no write holds exactly the value that the first
      entry for its key in the latest valid record of its list's storage decodes to. */
  lemma CleanMeansDurable(r: Run, i: nat, l: ListId, n: NodeId)
    requires IsRun(r) && i < |r.states| && LinkedIn(r.states[i], n, l)
    ensures var s := r.states[i];
      && n in s.nodes
      && (s.nodes[n].node.state.ValidNoWriteNeeded? ==>
           && s.nodes[n].node.data.Some?
           && Stored(s, l, s.nodes[n].node.key, s.nodes[n].node.codec, s.nodes[n].node.data.value))
  {
    hide OwnInv, DataInv, IsRun, Stored;
    InvariantsHold(r, i);
    CleanIsStored(r.states[i], l, n);
  }

  /** The latest valid record of the storage of `l` gives a node with this key and codec the value `v`. */
  ghost predicate Stored(s: Sys, l: ListId, key: Key, codec: Codec, v: Value) {
    && l in s.lists
    && StoredIn(s.lists[l].items, key, codec, v)
  }

  /** The cache of an idle worker agrees with the storage, in every reachable state: it holds what a
      fresh scan would find, and the next sequence number is above every valid record. */
  lemma CacheIsCoherent(r: Run, i: nat, l: ListId, rec: Rec)
    requires IsRun(r) && i < |r.states| && l in r.states[i].lists && r.states[i].lists[l].phase.Idle?
    requires r.states[i].lists[l].cache.next.Some?
    ensures var x := r.states[i].lists[l];
      && IsTopK(GoodRecords(x.items), Trimmed(x.cache.last, |x.items|))
      && (rec in GoodRecords(x.items) ==> rec.seqNo < x.cache.next.value)
  {
    hide Good, TasksInv, LinksInv, ListsInv, NodesInv, IsRun, IsTopK;
    InvariantsHold(r, i);
    var s := r.states[i];
    assert ListInv(View(s, l)) && PhaseInv(s.lists[l]);
    var x := s.lists[l];
    if rec in GoodRecords(x.items) {
      NextIsAboveAll(GoodRecords(x.items), Trimmed(x.cache.last, |x.items|), rec);
    }
  }

  /** A fresh scan at that moment would find in every slot the record that is cached there: the same
      sequence number, the same start, and the same end unless the cached range is the newest one,
      which may be one too long. It would also count on from the same sequence number. */
  lemma CacheMatchesFreshScan(r: Run, i: nat, l: ListId, c: Cache, k: nat)
    requires IsRun(r) && i < |r.states| && l in r.states[i].lists && r.states[i].lists[l].phase.Idle?
    requires r.states[i].lists[l].cache.next.Some?
    requires Scanned(r.states[i].lists[l].items, |r.states[i].lists[l].cache.last|, c) && k < |c.last|
    ensures var cached := r.states[i].lists[l].cache;
      && c.next == cached.next
      && (c.last[k].Some? <==> cached.last[k].Some?)
      && (c.last[k].Some? ==>
           && c.last[k].value.seqNo == cached.last[k].value.seqNo
           && c.last[k].value.start == cached.last[k].value.start
           && (c.last[k].value.end == cached.last[k].value.end
               || (k == |c.last| - 1 && cached.needsGc && c.last[k].value.end + 1 == cached.last[k].value.end)))
  {
    hide Good, TasksInv, LinksInv, ListsInv, NodesInv, IsRun, IsTopK;
    InvariantsHold(r, i);
    var s := r.states[i];
    assert ListInv(View(s, l)) && PhaseInv(s.lists[l]);
    var x := s.lists[l];
    TopKIsUnique(GoodRecords(x.items), c.last, Trimmed(x.cache.last, |x.items|));
  }

  /** In every state in the middle of a collection, after however many removals, a fresh scan would find in
      every slot the record that was cached when the collection began, with the entries it had then, and
      count on from the same number: a power loss at that moment loses none of them. */
  lemma CollectionIsSafeThroughout(r: Run, i: nat, l: ListId, c: Cache, k: nat)
    requires IsRun(r) && i < |r.states| && l in r.states[i].lists && r.states[i].lists[l].phase.Collecting?
    requires var x := r.states[i].lists[l]; Scanned(x.items, |x.phase.slots|, c) && k < |x.phase.slots|
    ensures var Collecting(orig, slots, n) := r.states[i].lists[l].phase;
      && c.next == NextSeq(slots)
      && (c.last[k].Some? <==> slots[k].Some?)
      && (slots[k].Some? ==>
           && c.last[k].value.seqNo == slots[k].value.seqNo
           && Trimmed(slots, |orig|)[k].Some? && IsGood(orig, Trimmed(slots, |orig|)[k].value)
           && Holds(r.states[i].lists[l].items, c.last[k].value, Slice(orig, Trimmed(slots, |orig|)[k].value)))
  {
    hide Good, TasksInv, LinksInv, ListsInv, NodesInv, IsRun, IsTopK, Scanned, Swept, Holds, Trimmed, ListInv,
         GoodRecords;
    InvariantsHold(r, i);
    var s := r.states[i];
    assert PhaseInv(s.lists[l]);
    var Collecting(orig, slots, n) := s.lists[l].phase;
    DistinctOfHealthy(orig);
    CollectionIsCrashSafe(orig, slots, n, c, k);
  }

  /** At most one live handle per node, and no other task is doing anything with its node. */
  lemma OneHandlePerNode(r: Run, i: nat, t: TaskId, t': TaskId)
    requires IsRun(r) && i < |r.states| && t in r.states[i].tasks && t' in r.states[i].tasks
    requires r.states[i].tasks[t].Holding? && r.states[i].tasks[t'].n == r.states[i].tasks[t].n
    ensures t == t'
  {
    hide Linkable, LinksInv, ListsInv, NodesInv, DataInv, IsRun, TaskInv;
    InvariantsHold(r, i);
  }

  /** A live handle is one to a linked, initialised node: loading through it finds a value, and
      writing through it takes the lock of the node's own list and finds no invalid state. */
  lemma HandleIsUsable(r: Run, i: nat, t: TaskId)
    requires IsRun(r) && i < |r.states| && t in r.states[i].tasks && r.states[i].tasks[t].Holding?
    ensures var s := r.states[i];
      var n, l := s.tasks[t].n, s.tasks[t].l;
      && LinkedIn(s, n, l) && n in s.nodes && s.nodes[n].taken - 1 == l
      && s.nodes[n].node.state in {ValidNoWriteNeeded, NeedsWrite} && s.nodes[n].node.data.Some?
  {
    hide TasksInv, LinksInv, ListsInv, NodesInv, DataInv, IsRun, Linkable;
    InvariantsHold(r, i);
    OwnerFacts(r.states[i], t);
  }

  /** A task that waits for a first attach never meets a node to be written, and a re-attach never
      meets one without data: the unreachable arms of the attach loop are unreachable. */
  lemma AttachNeverPanics(r: Run, i: nat, t: TaskId)
    requires IsRun(r) && i < |r.states| && t in r.states[i].tasks && r.states[i].tasks[t].Waiting?
    ensures r.states[i].tasks[t].n in r.states[i].nodes
    ensures var state := r.states[i].nodes[r.states[i].tasks[t].n].node.state;
      if r.states[i].tasks[t].again then state in {ValidNoWriteNeeded, NeedsWrite} else state != NeedsWrite
  {
    hide TasksInv, LinksInv, ListsInv, NodesInv, DataInv, IsRun, Linkable;
    InvariantsHold(r, i);
    OwnerFacts(r.states[i], t);
  }

  /** Outside the locked sections of attach and detach, a node is linked in a list exactly when its
      pointer names that list. */
  lemma LinkedIffPointed(r: Run, i: nat, n: NodeId, l: ListId)
    requires IsRun(r) && i < |r.states| && n in r.states[i].nodes && l in r.states[i].lists
    requires forall t :: t in r.states[i].tasks && r.states[i].tasks[t].n == n ==>
               !r.states[i].tasks[t].Attaching? && !r.states[i].tasks[t].Detaching?
    ensures LinkedIn(r.states[i], n, l) <==> r.states[i].nodes[n].taken in {l, l + 1}
  {
    hide IsRun, DataInv, Linkable, TaskInv, WellFormed;
    InvariantsHold(r, i);
    var s := r.states[i];
    assert CellInv(s, n) && 2 <= l && l % 2 == 0;
    if LinkedIn(s, n, l) {
      assert LinkInv(s, n, l);
    }
  }

  /** No two nodes of a list have the same key, and no node is in two lists. */
  lemma KeysAreUnique(r: Run, i: nat, m: NodeId, n: NodeId, k: ListId, l: ListId)
    requires IsRun(r) && i < |r.states| && LinkedIn(r.states[i], m, k) && LinkedIn(r.states[i], n, l)
    ensures m in r.states[i].nodes && n in r.states[i].nodes
    ensures m == n ==> k == l
    ensures k == l && r.states[i].nodes[m].node.key == r.states[i].nodes[n].node.key ==> m == n
  {
    hide IsRun, TasksInv, ListsInv, NodesInv, LinksInv, PhaseInv, Healthy, Durable, AllWellFormed;
    InvariantsHold(r, i);
    var s := r.states[i];
    if m == n {
      OneList(s, n, k, l);
    }
    var a :| 0 <= a < |s.lists[k].linked| && s.lists[k].linked[a] == m;
    var b :| 0 <= b < |s.lists[l].linked| && s.lists[l].linked[b] == n;
    assert View(s, k).nodes[a] == s.nodes[m].node && View(s, l).nodes[b] == s.nodes[n].node;
    assert UniqueKeys(View(s, k).nodes);
  }

  /** At most one task is in a locked section of a list. */
  lemma LockIsExclusive(r: Run, i: nat, t: TaskId, t': TaskId)
    requires IsRun(r) && i < |r.states| && t in r.states[i].tasks && t' in r.states[i].tasks
    requires r.states[i].tasks[t].Attaching? || r.states[i].tasks[t].Detaching?
    requires r.states[i].tasks[t'].Attaching? || r.states[i].tasks[t'].Detaching?
    requires r.states[i].tasks[t].l == r.states[i].tasks[t'].l
    ensures t == t'
  {
    hide IsRun, ListsInv, NodesInv, LinksInv, DataInv, Linkable;
    InvariantsHold(r, i);
    assert TaskInv(r.states[i], t) && TaskInv(r.states[i], t');
  }

  // ---- when a worker writes ----

  lemma WriteHasReason(s: Sys, l: ListId, s': Sys)
    requires Linkable(s) && (WorkerStep(s, Write(l), s') || WorkerStep(s, WriteFail(l), s'))
    ensures l in s.lists && s.lists[l].cache.next.Some? && !s.lists[l].cache.needsGc
    ensures forall n :: LinkedIn(s, n, l) ==> n in s.nodes && s.nodes[n].node.state != Initial
    ensures || (exists n :: LinkedIn(s, n, l) && n in s.nodes && s.nodes[n].node.state == NeedsWrite)
            || Highest(s.lists[l].cache.last).None?
  {
    hide RecordFor, Inserted, AllFit, NoStart;
    var v := View(s, l);
    forall n | LinkedIn(s, n, l) ensures n in s.nodes && s.nodes[n].node.state != Initial {
      var i :| 0 <= i < |s.lists[l].linked| && s.lists[l].linked[i] == n;
      assert v.nodes[i] == s.nodes[n].node;
    }
    if i :| 0 <= i < |v.nodes| && v.nodes[i].state.NeedsWrite? {
      assert LinkedIn(s, s.lists[l].linked[i], l);
    }
  }

  lemma HighestFree(s: Sys, l: ListId)
    requires Linkable(s) && DataInv(s) && l in s.lists && s.lists[l].phase.Idle? && s.lists[l].cache.next.Some?
    requires Highest(s.lists[l].cache.last).None?
    ensures forall k :: 0 <= k < |s.lists[l].cache.last| ==> s.lists[l].cache.last[k].None?
  {
    hide ListInv, GoodRecords;
    assert PhaseInv(s.lists[l]);
    var slots := s.lists[l].cache.last;
    forall k | 0 <= k < |slots| ensures slots[k].None? {
      assert Rank(slots[k]) <= Rank(slots[|slots| - 1]);
    }
  }

  /** A worker pushes a record only when no node of its list waits for its first read, and one has changed
      since it was last written or no record is cached. */
  lemma OnlyChangesAreWritten(r: Run, i: nat, l: ListId)
    requires IsRun(r) && i < |r.events| && (r.events[i] == Write(l) || r.events[i] == WriteFail(l))
    ensures l in r.states[i].lists
    ensures forall n :: LinkedIn(r.states[i], n, l) ==>
              n in r.states[i].nodes && r.states[i].nodes[n].node.state in {NonResident, ValidNoWriteNeeded, NeedsWrite}
    ensures || (exists n :: LinkedIn(r.states[i], n, l) && n in r.states[i].nodes
                 && r.states[i].nodes[n].node.state == NeedsWrite)
            || (forall k :: 0 <= k < |r.states[i].lists[l].cache.last| ==> r.states[i].lists[l].cache.last[k].None?)
  {
    hide OwnInv, DataInv, Booted, WorkerStep, Linkable, LinkedIn;
    InvariantsHold(r, i);
    var s, s' := r.states[i], r.states[i + 1];
    assert Next(s, r.events[i], s');
    WriteHasReason(s, l, s');
    WritesWhenIdle(s, l, s');
    if Highest(s.lists[l].cache.last).None? {
      HighestFree(s, l);
    }
  }

  lemma WritesWhenIdle(s: Sys, l: ListId, s': Sys)
    requires Linkable(s) && (WorkerStep(s, Write(l), s') || WorkerStep(s, WriteFail(l), s'))
    ensures l in s.lists && s.lists[l].phase.Idle?
  {
    hide Writes, WriteAborts;
  }

  // ---- cancelled attaches ----

  /** The pointer of a node says that a handle is live, but no task has anything to do with the node. */
  ghost predicate Orphaned(s: Sys, n: NodeId) {
    && n in s.nodes && 1 < s.nodes[n].taken && s.nodes[n].taken % 2 == 1
    && forall t :: t in s.tasks ==> s.tasks[t].n != n
  }

  lemma CancelOrphans(s: Sys, t: TaskId, s': Sys)
    requires OwnInv(s) && DoAttachCancel(s, s', t)
    ensures Orphaned(s', s.tasks[t].n)
  {
    hide TasksInv, NodesInv, LinksInv, ListsInv, Linkable, WellFormed, HolderInv, LinkedIn;
    OwnerFacts(s, t);
  }

  /** An orphaned node stays so in every step but a power loss, and attaches and detaches are refused. */
  lemma TaskStepKeepsOrphan(s: Sys, e: Event, s': Sys, n: NodeId)
    requires OwnInv(s) && Next(s, e, s') && !IsWorkerEvent(e) && !e.PowerLoss? && Orphaned(s, n)
    ensures Orphaned(s', n) && s'.nodes[n].taken == s.nodes[n].taken
    ensures (e.AttachTake? || e.DetachTake?) && e.n == n ==> s' == s
  {
    hide TasksInv, NodesInv, LinksInv, HolderInv, NoDuplicates, Linkable, KeyInUse, Unlinked;
    if e.AttachTake? || e.DetachTake? {
      assert e.l % 2 == 0 && 2 <= e.l;
    }
  }

  lemma WorkerStepKeepsOrphan(s: Sys, e: Event, s': Sys, n: NodeId)
    requires OwnInv(s) && WorkerStep(s, e, s') && Orphaned(s, n)
    ensures Orphaned(s', n) && s'.nodes[n].taken == s.nodes[n].taken
  {
    hide TasksInv, NodesInv, LinksInv, ListsInv, WorkerStep, WorkerMoves;
    WorkerStepMoves(s, e, s');
  }

  lemma StepKeepsOrphan(s: Sys, e: Event, s': Sys, n: NodeId)
    requires OwnInv(s) && Next(s, e, s') && !e.PowerLoss? && Orphaned(s, n)
    ensures Orphaned(s', n) && s'.nodes[n].taken == s.nodes[n].taken
    ensures (e.AttachTake? || e.DetachTake?) && e.n == n ==> s' == s
  {
    hide OwnInv, Next, WorkerStep, Orphaned;
    NextIsLinkable(s, e, s');
    if IsWorkerEvent(e) {
      WorkerStepKeepsOrphan(s, e, s', n);
    } else {
      TaskStepKeepsOrphan(s, e, s', n);
    }
  }

  lemma {:induction false} OrphanStays(r: Run, i: nat, j: nat, n: NodeId)
    requires IsRun(r) && i <= j < |r.states| && Orphaned(r.states[i], n)
    requires forall k :: i <= k < j ==> !r.events[k].PowerLoss?
    ensures Orphaned(r.states[j], n)
  {
    hide OwnInv, DataInv, Booted, Next, Orphaned;
    if i < j {
      OrphanStays(r, i, j - 1, n);
      InvariantsHold(r, j - 1);
      assert Next(r.states[j - 1], r.events[j - 1], r.states[j - 1 + 1]);
      StepKeepsOrphan(r.states[j - 1], r.events[j - 1], r.states[j], n);
    }
  }

  /** A node whose attach has been cancelled while it waited can be neither attached nor detached any
      more: every attempt leaves the system as it is, until a power loss frees the node. */
  lemma CancelledAttachIsStuck(r: Run, i: nat, j: nat, t: TaskId)
    requires IsRun(r) && i < j < |r.events| && r.events[i] == AttachCancel(t) && t in r.states[i].tasks
    requires forall k :: i < k < j ==> !r.events[k].PowerLoss?
    ensures var n, e := r.states[i].tasks[t].n, r.events[j];
      && ((e.AttachTake? || e.DetachTake?) && e.n == n ==> r.states[j + 1] == r.states[j])
      && (e.PowerLoss? ==> n in r.states[j + 1].nodes && r.states[j + 1].nodes[n].taken == 0)
  {
    hide OwnInv, DataInv, Booted, Orphaned, WorkerStep;
    var n := r.states[i].tasks[t].n;
    InvariantsHold(r, i);
    assert Next(r.states[i], r.events[i], r.states[i + 1]);
    CancelOrphans(r.states[i], t, r.states[i + 1]);
    OrphanStays(r, i + 1, j, n);
    InvariantsHold(r, j);
    assert Next(r.states[j], r.events[j], r.states[j + 1]);
    if r.events[j].PowerLoss? {
      OrphanIsNode(r.states[j], n);
    } else {
      StepKeepsOrphan(r.states[j], r.events[j], r.states[j + 1], n);
    }
  }

  lemma OrphanIsNode(s: Sys, n: NodeId)
    requires Orphaned(s, n)
    ensures n in s.nodes
  {
  }

  // ---- the six transitions ----

  /** The documented transitions of a node's state. The last is the detach. */
  predicate Documented(from: State, to: State) {
    || (from.Initial? && to.NonResident?)
    || (from.Initial? && to.ValidNoWriteNeeded?)
    || (from.NonResident? && to.NeedsWrite?)
    || (from.NeedsWrite? && to.ValidNoWriteNeeded?)
    || (from.ValidNoWriteNeeded? && to.NeedsWrite?)
    || (Initialised(from) && to.Initial?)
  }

  lemma WorkerMovesAreDocumented(s: Sys, e: Event, s': Sys, n: NodeId)
    requires Linkable(s) && WorkerStep(s, e, s') && n in s.nodes
    ensures n in s'.nodes
    ensures s'.nodes[n].node.state != s.nodes[n].node.state ==>
              Documented(s.nodes[n].node.state, s'.nodes[n].node.state)
  {
    hide WorkerStep, Linkable, WellFormed;
    WorkerStepMoves(s, e, s');
    if LinkedIn(s, n, ListOf(e)) {
      assert WorkerMoves(s.nodes[n].node, s'.nodes[n].node);
    }
  }

  lemma TaskMovesAreDocumented(s: Sys, e: Event, s': Sys, n: NodeId)
    requires OwnInv(s) && Next(s, e, s') && !IsWorkerEvent(e) && !e.PowerLoss? && n in s.nodes
    ensures n in s'.nodes
    ensures s'.nodes[n].node.state != s.nodes[n].node.state ==>
              Documented(s.nodes[n].node.state, s'.nodes[n].node.state)
  {
    hide TasksInv, LinksInv, ListsInv, NodesInv, Linkable, WellFormed, HolderInv, LinkedIn, KeyInUse, NoDuplicates,
         Unlinked;
    if e.AttachDefault? || e.HandleWrite? || e.DetachFinish? {
      OwnerFacts(s, e.t);
    }
  }

  /** Between power losses, a node's state only ever changes by a documented transition. */
  lemma OnlyDocumentedTransitions(r: Run, i: nat, n: NodeId)
    requires IsRun(r) && i < |r.events| && !r.events[i].PowerLoss? && n in r.states[i].nodes
    ensures n in r.states[i + 1].nodes
    ensures r.states[i + 1].nodes[n].node.state != r.states[i].nodes[n].node.state ==>
              Documented(r.states[i].nodes[n].node.state, r.states[i + 1].nodes[n].node.state)
  {
    hide OwnInv, Booted, DataInv, Linkable;
    InvariantsHold(r, i);
    var s, e, s' := r.states[i], r.events[i], r.states[i + 1];
    assert Next(s, e, s');
    NextIsLinkable(s, e, s');
    if IsWorkerEvent(e) {
      WorkerMovesAreDocumented(s, e, s', n);
    } else {
      TaskMovesAreDocumented(s, e, s', n);
    }
  }

  lemma NextIsLinkable(s: Sys, e: Event, s': Sys)
    requires Next(s, e, s')
    ensures Linkable(s)
    ensures IsWorkerEvent(e) ==> WorkerStep(s, e, s')
  {
    hide Linkable, WorkerStep, DoAttachTake, DoAttachLink, DoAttachObserve, DoAttachDefault, DoAttachCancel,
         DoHandleWrite, DoHandleDrop, DoDetachTake, DoDetachFinish, DoPowerLoss;
  }
}
