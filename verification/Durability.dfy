// What every list's nodes, cache and storage keep, in every reachable state of the whole system.
module Durability {
  import opened Elements
  import opened Log
  import opened SeqStates
  import opened Collect
  import opened NodeSpec
  import opened ListSpec
  import opened Scan
  import opened Protocol
  import opened Ownership

  /** How the cache of a list and its storage are related while its worker is idle, collecting, or
      has failed. */
  ghost predicate PhaseInv(x: ListS) {
    match x.phase
    case Idle => Coherent(x.cache, x.items) && NextUnused(x.cache, x.items)
    case Suspect => true
    case Collecting(orig, slots, n) =>
      && x.cache == EmptyCache(|x.cache.last|)
      && n <= |orig| && |slots| == |x.cache.last|
      && Healthy(orig)
      && IsTopK(GoodRecords(orig), Trimmed(slots, |orig|))
      && x.items == Swept(orig, slots, n)
  }

  ghost predicate DataInv(s: Sys)
    requires Linkable(s)
  {
    forall l :: l in s.lists ==> ListInv(View(s, l)) && PhaseInv(s.lists[l])
  }

  // ---- steps that change no node and no list content ----

  ghost predicate SameData(s: Sys, s': Sys) {
    && s'.nodes.Keys == s.nodes.Keys && s'.lists.Keys == s.lists.Keys
    && (forall n :: n in s.nodes ==> s'.nodes[n].node == s.nodes[n].node)
    && (forall l :: l in s.lists ==> s'.lists[l] == s.lists[l].(holder := s'.lists[l].holder))
  }

  lemma SameDataKeeps(s: Sys, s': Sys)
    requires Linkable(s) && Linkable(s') && DataInv(s) && SameData(s, s')
    ensures DataInv(s')
  {
    hide ListInv, Coherent, Healthy, IsTopK;
    forall l | l in s'.lists ensures ListInv(View(s', l)) && PhaseInv(s'.lists[l]) {
      assert View(s', l).nodes == View(s, l).nodes;
    }
  }

  // ---- steps that leave one node to be written ----

  /** Node `n` gets a value that has to be written; nothing else changes in nodes and lists. */
  ghost predicate Dirties(s: Sys, s': Sys, n: NodeId) {
    && n in s.nodes
    && s'.nodes.Keys == s.nodes.Keys && s'.lists == s.lists
    && (forall m :: m in s.nodes && m != n ==> s'.nodes[m].node == s.nodes[m].node)
    && s'.nodes[n].node.key == s.nodes[n].node.key && s'.nodes[n].node.codec == s.nodes[n].node.codec
    && s'.nodes[n].node.state.NeedsWrite? && s'.nodes[n].node.data.Some?
  }

  lemma DirtiesKeeps(s: Sys, s': Sys, n: NodeId)
    requires Linkable(s) && Linkable(s') && DataInv(s) && Dirties(s, s', n)
    ensures DataInv(s')
  {
    hide Coherent, Healthy, IsTopK, Lawful, EntryFor, LatestPayload;
    forall l | l in s'.lists ensures ListInv(View(s', l)) && PhaseInv(s'.lists[l]) {
      var v, v' := View(s, l), View(s', l);
      forall i | 0 <= i < |v.nodes|
        ensures v'.nodes[i].key == v.nodes[i].key && WellFormed(v'.nodes[i])
        ensures Clean(v'.nodes[i], LatestPayload(v.items))
      {
        assert WellFormed(v.nodes[i]) && Clean(v.nodes[i], LatestPayload(v.items));
        var m := s.lists[l].linked[i];
        if m != n {
          assert v'.nodes[i] == v.nodes[i];
        }
      }
    }
  }

  // ---- linking and unlinking ----

  /** Attaching a node that waits for its data, under a key that is not in use. */
  lemma LinkedKeepsListInv(v: ListV, n: Node)
    requires ListInv(v) && WellFormed(n) && n.state.Initial?
    requires forall i :: 0 <= i < |v.nodes| ==> v.nodes[i].key != n.key
    ensures ListInv(v.(nodes := [n] + v.nodes))
  {
    hide Healthy, LatestPayload, EntryFor, Lawful;
  }

  lemma LinkNodeKeepsData(s: Sys, s': Sys, t: TaskId)
    requires OwnInv(s) && DataInv(s) && DoAttachLink(s, s', t) && LinksNode(s, t) && Linkable(s')
    ensures DataInv(s')
  {
    hide TasksInv, NodesInv, LinksInv, ListsInv, Coherent, Healthy, IsTopK, ListInv, WellFormed;
    OwnerFacts(s, t);
    var n, l := s.tasks[t].n, s.tasks[t].l;
    forall k | k in s'.lists ensures ListInv(View(s', k)) && PhaseInv(s'.lists[k]) {
      if k == l {
        LinkedKeepsListInv(View(s, l), s.nodes[n].node);
        assert View(s', l).nodes == [s.nodes[n].node] + View(s, l).nodes;
      } else {
        assert View(s', k).nodes == View(s, k).nodes;
      }
    }
  }

  lemma UnlinkedKeepsListInv(v: ListV, i: nat)
    requires ListInv(v) && i < |v.nodes|
    ensures ListInv(v.(nodes := v.nodes[..i] + v.nodes[i + 1..]))
  {
    hide Healthy, LatestPayload, EntryFor, Lawful, WellFormed, Clean;
    var ns := v.nodes[..i] + v.nodes[i + 1..];
    forall k | 0 <= k < |ns| ensures WellFormed(ns[k]) && Clean(ns[k], LatestPayload(v.items)) {
      assert ns[k] == v.nodes[if k < i then k else k + 1];
    }
  }

  lemma DetachFinishKeepsData(s: Sys, s': Sys, t: TaskId)
    requires OwnInv(s) && DataInv(s) && DoDetachFinish(s, s', t) && Linkable(s')
    ensures DataInv(s')
  {
    hide OwnInv, ListInv, PhaseInv, DoDetachFinish, Linkable;
    assert t in s.tasks by { DetachFinishEnds(s, s', t); }
    var l := s.tasks[t].l;
    DetachFinishKeepsOwn(s, s', t);
    forall k | k in s'.lists && k != l ensures ListInv(View(s', k)) && PhaseInv(s'.lists[k]) {
      DetachFinishKeepsOther(s, s', t, k);
    }
  }

  lemma DetachFinishEnds(s: Sys, s': Sys, t: TaskId)
    requires DoDetachFinish(s, s', t)
    ensures t in s.tasks
  {
  }

  lemma DetachFinishKeepsOwn(s: Sys, s': Sys, t: TaskId)
    requires OwnInv(s) && DataInv(s) && DoDetachFinish(s, s', t) && Linkable(s')
    ensures s.tasks[t].l in s'.lists && ListInv(View(s', s.tasks[t].l)) && PhaseInv(s'.lists[s.tasks[t].l])
  {
    hide TasksInv, NodesInv, LinksInv, ListsInv, Coherent, Healthy, IsTopK, ListInv, WellFormed, NoDuplicates,
         HolderInv;
    OwnerFacts(s, t);
    var n, l := s.tasks[t].n, s.tasks[t].l;
    var ids := s.lists[l].linked;
    UnlinkedRemoves(ids, n);
    var i :| 0 <= i < |ids| && ids[i] == n;
    FirstIs(ids, i);
    UnlinkedIs(ids, n, i);
    UnlinkedKeepsListInv(View(s, l), i);
    RestIsSame(s, s', l, n, i);
  }

  lemma FirstIs(ids: seq<NodeId>, i: nat)
    requires NoDuplicates(ids) && i < |ids|
    ensures forall k :: 0 <= k < i ==> ids[k] != ids[i]
  {
  }

  lemma DetachFinishKeepsOther(s: Sys, s': Sys, t: TaskId, k: ListId)
    requires OwnInv(s) && DataInv(s) && DoDetachFinish(s, s', t) && Linkable(s')
    requires k in s'.lists && k != s.tasks[t].l
    ensures ListInv(View(s', k)) && PhaseInv(s'.lists[k])
  {
    hide TasksInv, NodesInv, LinksInv, ListsInv, Coherent, Healthy, IsTopK, ListInv, WellFormed, NoDuplicates,
         HolderInv, Unlinked;
    OwnerFacts(s, t);
    assert !LinkedIn(s, s.tasks[t].n, k);
    assert View(s', k).nodes == View(s, k).nodes;
  }

  lemma RestIsSame(s: Sys, s': Sys, l: ListId, n: NodeId, i: nat)
    requires Linkable(s) && Linkable(s') && l in s.lists && l in s'.lists
    requires i < |s.lists[l].linked| && s'.lists[l].linked == s.lists[l].linked[..i] + s.lists[l].linked[i + 1..]
    requires NoDuplicates(s.lists[l].linked) && n in s.lists[l].linked && n !in s'.lists[l].linked
    requires forall m :: m in s.nodes && m != n ==> m in s'.nodes && s'.nodes[m].node == s.nodes[m].node
    ensures View(s', l).nodes == View(s, l).nodes[..i] + View(s, l).nodes[i + 1..]
  {
    var ids, ids' := s.lists[l].linked, s'.lists[l].linked;
    forall k | 0 <= k < |ids'|
      ensures View(s', l).nodes[k] == (View(s, l).nodes[..i] + View(s, l).nodes[i + 1..])[k]
    {
      assert ids'[k] == ids[if k < i then k else k + 1];
      assert ids'[k] in ids';
    }
  }

  // ---- steps of the workers ----

  /** A scan that stopped before it found a record leaves the cache as good as new. */
  lemma StoppedScan(items: seq<Item>, c: Cache)
    requires PartlyScanned(items, c) && Healthy(items) && c.next.None?
    ensures Coherent(c, items)
  {
    hide Good, IsTopK;
    var p, current, crc :| ScanState(items, p, c, current, crc);
    SeenIsThere(items, p, c);
    forall k | 0 <= k < |c.last| ensures c.last[k].None? {
      assert Rank(c.last[k]) <= Rank(c.last[|c.last| - 1]);
    }
  }

  lemma SeenIsThere(items: seq<Item>, p: nat, c: Cache)
    requires p <= |items| && 0 < |c.last| && IsTopK(GoodRecords(items[..p]), c.last)
    ensures Sorted(c.last)
    ensures Highest(c.last).Some? ==> Highest(c.last).value in GoodRecords(items)
  {
    hide Good;
    if Highest(c.last).Some? {
      assert c.last[|c.last| - 1].value in GoodRecords(items[..p]);
      PushKeeps(items[..p], items[p..], Highest(c.last).value);
      assert items == items[..p] + items[p..];
    }
  }

  lemma WriteAbortsKeepsInv(v: ListV, v': ListV)
    requires ListInv(v) && Coherent(v.cache, v.items) && MayWrite(v) && v.cache.next.value < MAX_SEQ
    requires WriteAborts(v, v')
    ensures ListInv(v')
  {
    hide ListInv, Coherent, WriteFails;
    var n :| WriteFails(v, v', n);
    WriteFailsKeepsInv(v, v', n);
  }

  lemma NewItemsKeepListInv(v: ListV, items: seq<Item>, c: Cache)
    requires ListInv(v) && Healthy(items) && LatestPayload(items) == LatestPayload(v.items) && 0 < |c.last|
    ensures ListInv(ListV(v.nodes, c, items))
  {
    hide Healthy, LatestPayload, Clean, WellFormed;
  }

  lemma EmptyIsCoherent(k: nat, items: seq<Item>)
    requires 0 < k
    ensures Coherent(EmptyCache(k), items) && NextUnused(EmptyCache(k), items)
  {
  }

  /** What a worker step keeps of its own list. */
  lemma WorkerStepKeepsOwn(s: Sys, e: Event, s': Sys)
    requires Linkable(s) && Linkable(s') && DataInv(s) && WorkerStep(s, e, s')
    requires e.Read? || e.ExtractFail? || e.Write?
    ensures ListOf(e) in s'.lists && ListInv(View(s', ListOf(e))) && PhaseInv(s'.lists[ListOf(e)])
  {
    hide ListInv, Coherent, Reads, ReadsPartly, Writes;
    var l := ListOf(e);
    var v, v' := View(s, l), View(s', l);
    match e
    case Read(_) => ReadsKeepsInv(v, v');
    case ExtractFail(_) =>
      var n :| ReadsPartly(v, v', n);
      ReadsPartlyKeepsInv(v, v', n);
    case Write(_) => WritesKeepsInv(v, v');
  }

  lemma FailedStepKeepsOwn(s: Sys, e: Event, s': Sys)
    requires Linkable(s) && Linkable(s') && DataInv(s) && WorkerStep(s, e, s')
    requires e.ScanFail? || e.WriteFail? || e.Reset?
    ensures ListOf(e) in s'.lists && ListInv(View(s', ListOf(e))) && PhaseInv(s'.lists[ListOf(e)])
  {
    hide ListInv, Coherent, WriteAborts, PartlyScanned, MayWrite, View, Linkable;
    var l := ListOf(e);
    var v, v' := View(s, l), View(s', l);
    OwnView(s, l, s');
    match e
    case ScanFail(_) =>
      CacheKeepsListInv(v, v');
      if s'.lists[l].phase.Idle? { ScanFailIsCoherent(v, v'.cache); }
    case WriteFail(_) =>
      AbortMayWrite(v, v');
      WriteAbortsKeepsInv(v, v');
    case Reset(_) => ResetKeeps(v, v', s.lists[l], s'.lists[l]);
  }

  lemma AbortMayWrite(v: ListV, v': ListV)
    requires WriteAborts(v, v')
    ensures MayWrite(v)
  {
  }

  lemma SameNodes(s: Sys, l: ListId, s': Sys)
    requires Linkable(s) && Linkable(s') && OnlyCache(s, l, s')
    ensures View(s', l).nodes == View(s, l).nodes
  {
  }

  lemma CacheKeepsListInv(v: ListV, v': ListV)
    requires ListInv(v) && v'.nodes == v.nodes && v'.items == v.items && |v'.cache.last| == |v.cache.last|
    ensures ListInv(v')
  {
  }

  lemma ScanFailIsCoherent(v: ListV, c: Cache)
    requires ListInv(v) && PartlyScanned(v.items, c) && AfterScan(c).Idle?
    ensures Coherent(c, v.items)
  {
    StoppedScan(v.items, c);
  }

  lemma ResetKeeps(v: ListV, v': ListV, x: ListS, x': ListS)
    requires ListInv(v) && v.cache == x.cache && v.items == x.items && PhaseInv(x)
    requires v' == ListV(v.nodes, x'.cache, x'.items)
    requires x'.items == x.items && x'.cache == EmptyCache(|x.cache.last|)
    requires x'.phase == (if x.phase.Collecting? then x.phase else Idle)
    ensures ListInv(v') && PhaseInv(x')
  {
    hide Healthy, IsTopK, Coherent, Swept;
    EmptyIsCoherent(|x.cache.last|, x.items);
  }

  // ---- collection ----

  lemma GcTakeKeeps(v: ListV, v': ListV, x: ListS, x': ListS)
    requires ListInv(v) && v.cache == x.cache && v.items == x.items && PhaseInv(x) && x.phase.Idle?
    requires x.cache.needsGc
    requires v' == ListV(v.nodes, x'.cache, x'.items)
    requires x'.items == x.items && x'.cache == EmptyCache(|x.cache.last|)
    requires x'.phase == Collecting(x.items, x.cache.last, 0)
    ensures ListInv(v') && PhaseInv(x')
  {
    hide Healthy, IsTopK;
    SweepBounds(x.items, x.cache.last, 0);
  }

  lemma GcStepKeeps(v: ListV, v': ListV, x: ListS, x': ListS)
    requires ListInv(v) && v.cache == x.cache && v.items == x.items && PhaseInv(x) && x.phase.Collecting?
    requires x.phase.n < |x.phase.orig|
    requires v' == ListV(v.nodes, x'.cache, x'.items)
    requires x'.cache == x.cache && x'.items == Swept(x.phase.orig, x.phase.slots, x.phase.n + 1)
    requires x'.phase == Collecting(x.phase.orig, x.phase.slots, x.phase.n + 1)
    ensures ListInv(v') && PhaseInv(x')
  {
    hide ListInv, Healthy, IsTopK, Swept, LatestPayload, GoodRecords, Trimmed;
    var Collecting(orig, slots, n) := x.phase;
    ListHasSlots(v);
    SweepKeepsLatest(orig, slots, n);
    SweepKeepsLatest(orig, slots, n + 1);
    NewItemsKeepListInv(v, x'.items, x'.cache);
  }

  lemma ListHasSlots(v: ListV)
    requires ListInv(v)
    ensures 0 < |v.cache.last| && Healthy(v.items)
  {
  }

  lemma GcFinishKeeps(v: ListV, v': ListV, x: ListS, x': ListS)
    requires ListInv(v) && v.cache == x.cache && v.items == x.items && PhaseInv(x) && x.phase.Collecting?
    requires x.phase.n == |x.phase.orig|
    requires v' == ListV(v.nodes, x'.cache, x'.items)
    requires x'.items == x.items && Rescanned(x.items, |x.cache.last|, x'.cache) && x'.phase.Idle?
    ensures ListInv(v') && PhaseInv(x')
  {
    hide ListInv, Healthy, IsTopK, Swept, LatestPayload, GoodRecords, Trimmed, Coherent, Scanned;
    ListHasSlots(v);
    CollectedIsCoherent(x.phase.orig, x.phase.slots, x'.cache);
    RescannedLength(x.items, |x.cache.last|, x'.cache);
    CacheKeepsListInv(v, v');
  }

  lemma RescannedLength(items: seq<Item>, k: nat, c: Cache)
    requires Rescanned(items, k, c)
    ensures |c.last| == k
  {
    hide IsTopK;
  }

  lemma CollectionStepKeepsOwn(s: Sys, e: Event, s': Sys)
    requires Linkable(s) && Linkable(s') && DataInv(s) && WorkerStep(s, e, s')
    requires IsCollection(e) && !e.GcFinish? && !e.GcFinishFail?
    ensures ListOf(e) in s'.lists && ListInv(View(s', ListOf(e))) && PhaseInv(s'.lists[ListOf(e)])
  {
    hide ListInv, Coherent, Rescanned, PartlyScanned, Healthy, IsTopK, Swept, View, Linkable;
    var l := ListOf(e);
    var v, v' := View(s, l), View(s', l);
    OwnView(s, l, s');
    match e
    case GcTake(_) => GcTakeKeeps(v, v', s.lists[l], s'.lists[l]);
    case GcStep(_) => GcStepKeeps(v, v', s.lists[l], s'.lists[l]);
    case GcAbort(_) =>
      CacheKeepsListInv(v, v');
      ListHasSlots(v);
      EmptyIsCoherent(|v.cache.last|, v.items);
  }

  lemma FinishStepKeepsOwn(s: Sys, e: Event, s': Sys)
    requires Linkable(s) && Linkable(s') && DataInv(s) && WorkerStep(s, e, s')
    requires e.GcFinish? || e.GcFinishFail?
    ensures ListOf(e) in s'.lists && ListInv(View(s', ListOf(e))) && PhaseInv(s'.lists[ListOf(e)])
  {
    hide ListInv, Coherent, Rescanned, PartlyScanned, Healthy, IsTopK, Swept, View, Linkable;
    var l := ListOf(e);
    var v, v' := View(s, l), View(s', l);
    OwnView(s, l, s');
    if e.GcFinish? {
      GcFinishKeeps(v, v', s.lists[l], s'.lists[l]);
    } else {
      CacheKeepsListInv(v, v');
      if s'.lists[l].phase.Idle? { ScanFailIsCoherent(v, v'.cache); }
    }
  }

  lemma OwnView(s: Sys, l: ListId, s': Sys)
    requires Linkable(s) && Linkable(s') && OnlyCache(s, l, s')
    ensures View(s, l).cache == s.lists[l].cache && View(s, l).items == s.lists[l].items
    ensures View(s', l) == ListV(View(s, l).nodes, s'.lists[l].cache, s'.lists[l].items)
  {
    SameNodes(s, l, s');
  }

  /** The other lists are not touched: a node is linked in one list only. */
  lemma WorkerStepKeepsOthers(s: Sys, l: ListId, s': Sys, k: ListId)
    requires OwnInv(s) && Linkable(s') && DataInv(s) && OnlyList(s, l, s') && k in s'.lists && k != l
    ensures ListInv(View(s', k)) && PhaseInv(s'.lists[k])
  {
    hide ListInv, Coherent, Healthy, IsTopK, Swept, TasksInv, NodesInv, LinksInv, ListsInv;
    forall i | 0 <= i < |s.lists[k].linked| ensures s.lists[k].linked[i] !in s.lists[l].linked {
      if s.lists[k].linked[i] in s.lists[l].linked {
        OneList(s, s.lists[k].linked[i], k, l);
      }
    }
    assert View(s', k).nodes == View(s, k).nodes;
  }

  lemma OneList(s: Sys, n: NodeId, k: ListId, l: ListId)
    requires OwnInv(s) && LinkedIn(s, n, k) && LinkedIn(s, n, l)
    ensures k == l
  {
    hide NodesInv, TaskInv, NoDuplicates, HolderInv, Linkable;
    assert LinkInv(s, n, k) && LinkInv(s, n, l);
  }

  predicate IsCollection(e: Event) {
    e.GcTake? || e.GcStep? || e.GcAbort? || e.GcFinish? || e.GcFinishFail?
  }

  lemma WorkerStepKeepsData(s: Sys, e: Event, s': Sys)
    requires OwnInv(s) && Linkable(s) && Linkable(s') && DataInv(s) && WorkerStep(s, e, s')
    ensures DataInv(s')
  {
    hide OwnInv, ListInv, PhaseInv, WorkerStep, OnlyList, WorkerMoves, Linkable, View;
    WorkerStepMoves(s, e, s');
    if e.GcFinish? || e.GcFinishFail? {
      FinishStepKeepsOwn(s, e, s');
    } else if IsCollection(e) {
      CollectionStepKeepsOwn(s, e, s');
    } else if e.ScanFail? || e.WriteFail? || e.Reset? {
      FailedStepKeepsOwn(s, e, s');
    } else {
      WorkerStepKeepsOwn(s, e, s');
    }
    assert ListOf(e) in s'.lists;
    forall k | k in s'.lists && k != ListOf(e) ensures ListInv(View(s', k)) && PhaseInv(s'.lists[k]) {
      WorkerStepKeepsOthers(s, ListOf(e), s', k);
    }
  }

  lemma PowerLossKeepsData(s: Sys, s': Sys)
    requires Linkable(s) && Linkable(s') && DataInv(s) && DoPowerLoss(s, s')
    ensures DataInv(s')
  {
    hide Healthy, IsTopK, Swept, Coherent, LatestPayload;
    forall l | l in s'.lists ensures ListInv(View(s', l)) && PhaseInv(s'.lists[l]) {
      assert ListInv(View(s, l));
      EmptyIsCoherent(|s.lists[l].cache.last|, s.lists[l].items);
      assert View(s', l).nodes == [];
    }
  }

  /** The task steps that move a pointer, a lock or a task, and no data. */
  predicate IsQuiet(e: Event) {
    e.AttachTake? || e.AttachObserve? || e.AttachCancel? || e.HandleDrop? || e.DetachTake?
  }

  lemma QuietKeepsData(s: Sys, e: Event, s': Sys)
    requires Linkable(s) && Linkable(s') && DataInv(s) && Next(s, e, s') && IsQuiet(e)
    ensures DataInv(s')
  {
    hide DataInv, Linkable, WorkerStep, DoPowerLoss, DoDetachFinish, DoAttachLink, DoAttachDefault, DoHandleWrite;
    SameDataKeeps(s, s');
  }

  lemma AttachLinkKeepsData(s: Sys, s': Sys, t: TaskId)
    requires OwnInv(s) && Linkable(s') && DataInv(s) && DoAttachLink(s, s', t)
    ensures DataInv(s')
  {
    hide DataInv, Linkable, ListsInv, TasksInv, NodesInv, LinksInv, KeyInUse;
    if LinksNode(s, t) { LinkNodeKeepsData(s, s', t); } else { SameDataKeeps(s, s'); }
  }

  lemma DirtyingKeepsData(s: Sys, e: Event, s': Sys)
    requires Linkable(s) && Linkable(s') && DataInv(s) && Next(s, e, s') && (e.AttachDefault? || e.HandleWrite?)
    ensures DataInv(s')
  {
    hide DataInv, Linkable, WorkerStep, DoPowerLoss, DoDetachFinish, DoAttachLink;
    if s' != s { DirtiesKeeps(s, s', s.tasks[e.t].n); }
  }

  /** Every step of every task and every worker keeps the data invariant. */
  lemma StepKeepsData(s: Sys, e: Event, s': Sys)
    requires OwnInv(s) && OwnInv(s') && DataInv(s) && Next(s, e, s')
    ensures DataInv(s')
  {
    hide DataInv, ListsInv, TasksInv, NodesInv, LinksInv, Linkable, WorkerStep, DoAttachTake, DoAttachLink,
         DoAttachObserve, DoAttachDefault, DoAttachCancel, DoHandleWrite, DoHandleDrop, DoDetachTake, DoDetachFinish,
         DoPowerLoss;
    match e
    case AttachLink(t) => AttachLinkKeepsData(s, s', t);
    case AttachDefault(_, _) => DirtyingKeepsData(s, e, s');
    case HandleWrite(_, _) => DirtyingKeepsData(s, e, s');
    case DetachFinish(t) => DetachFinishKeepsData(s, s', t);
    case PowerLoss => PowerLossKeepsData(s, s');
    case AttachTake(_, _, _) => QuietKeepsData(s, e, s');
    case AttachObserve(_) => QuietKeepsData(s, e, s');
    case AttachCancel(_) => QuietKeepsData(s, e, s');
    case HandleDrop(_) => QuietKeepsData(s, e, s');
    case DetachTake(_, _, _) => QuietKeepsData(s, e, s');
    case _ => WorkerStepKeepsData(s, e, s');
  }
}
