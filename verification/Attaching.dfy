// When attaches and detaches are granted, and what they lead to.
module Attaching {
  import opened Wrappers
  import opened KeyValue
  import opened NodeSpec
  import opened ListSpec
  import opened Protocol
  import opened Ownership
  import opened Durability
  import opened Runs
  import opened Survival
  import opened Progress

  // ---- steps ----

  /** A first attach, up to the point where it waits. */
  ghost function Attached(s: Sys, t: TaskId, n: NodeId, l: ListId): Sys
    requires n in s.nodes && l in s.lists
  {
    Sys(s.nodes[n := s.nodes[n].(taken := l + 1)],
        s.lists[l := s.lists[l].(linked := [n] + s.lists[l].linked)],
        s.tasks[t := Waiting(n, l, false)])
  }

  /** Between the two halves of an attach. */
  ghost function Taken(s: Sys, t: TaskId, n: NodeId, l: ListId): Sys
    requires n in s.nodes && l in s.lists
  {
    SetHolder(SetTask(SetTaken(s, n, l + 1), t, Attaching(n, l, false)), l, Some(t))
  }

  lemma TakeStep(s: Sys, t: TaskId, n: NodeId, l: ListId)
    requires Linkable(s) && t !in s.tasks && n in s.nodes && s.nodes[n].taken == 0 && Free(s, l) && 2 <= l
    ensures Next(s, AttachTake(t, n, l), Taken(s, t, n, l))
  {
    hide Linkable;
  }

  lemma LinkStep(s: Sys, t: TaskId, n: NodeId, l: ListId)
    requires Linkable(s) && n in s.nodes && Free(s, l) && Linkable(Taken(s, t, n, l))
    requires !KeyInUse(s, l, s.nodes[n].node.key)
    ensures Next(Taken(s, t, n, l), AttachLink(t), Attached(s, t, n, l))
  {
    hide Linkable, KeyInUse;
    var s1, s2 := Taken(s, t, n, l), Attached(s, t, n, l);
    SameKeysInUse(s, s1, l, s.nodes[n].node.key);
    assert s2.lists == SetHolder(SetLinked(s1, l, [n] + s1.lists[l].linked), l, None).lists;
    assert s2 == SetHolder(SetTask(SetLinked(s1, l, [n] + s1.lists[l].linked), t, Waiting(n, l, false)), l, None);
  }

  lemma SameKeysInUse(s: Sys, s': Sys, l: ListId, key: Key)
    requires Linkable(s) && Linkable(s') && l in s.lists && l in s'.lists && s'.lists[l].linked == s.lists[l].linked
    requires forall n :: n in s.nodes ==> n in s'.nodes && s'.nodes[n].node.key == s.nodes[n].node.key
    ensures KeyInUse(s', l, key) ==> KeyInUse(s, l, key)
  {
  }

  lemma ReadyIntro(s: Sys, l: ListId)
    requires OwnInv(s) && DataInv(s) && Free(s, l) && s.lists[l].phase.Idle?
    ensures Ready(s, l)
  {
  }

  lemma ReadIsLocal(s: Sys, l: ListId, s': Sys)
    requires OwnInv(s) && Next(s, Read(l), s')
    ensures OnlyList(s, l, s') && WorkerStep(s, Read(l), s')
  {
    hide OwnInv, Next, WorkerStep, OnlyList;
    WorkerStepFacts(s, Read(l), s');
  }

  /** An attach changes something exactly if the pointer is null or names the list without a handle. */
  lemma AttachIsGrantedIff(s: Sys, s': Sys, t: TaskId, n: NodeId, l: ListId)
    requires OwnInv(s) && DoAttachTake(s, s', t, n, l)
    ensures s' != s <==> s.nodes[n].taken == 0 || s.nodes[n].taken == l
    ensures s' != s ==> t in s'.tasks && s'.tasks[t] == Attaching(n, l, s.nodes[n].taken != 0)
    ensures s' != s ==> s'.nodes[n].taken == l + 1
  {
    hide TasksInv, NodesInv, LinksInv, Linkable, HolderInv, NoDuplicates;
    assert 2 <= l;
  }

  /** A detach does exactly if it names the list without a handle. */
  lemma DetachIsGrantedIff(s: Sys, s': Sys, t: TaskId, n: NodeId, l: ListId)
    requires OwnInv(s) && DoDetachTake(s, s', t, n, l)
    ensures s' != s <==> s.nodes[n].taken == l
    ensures s' != s ==> t in s'.tasks && s'.tasks[t] == Detaching(n, l) && s'.nodes[n].taken == 1
  {
    hide TasksInv, NodesInv, LinksInv, Linkable, HolderInv, NoDuplicates;
    assert 2 <= l;
  }

  // ---- attaching again ----

  /** A linked node whose pointer is even has no live handle, and its pointer names the list. */
  lemma UnhandledFacts(s: Sys, n: NodeId, l: ListId)
    requires OwnInv(s) && LinkedIn(s, n, l) && n in s.nodes && s.nodes[n].taken % 2 == 0
    ensures s.nodes[n].taken == l && 2 <= l && l % 2 == 0 && Initialised(s.nodes[n].node.state)
    ensures s.nodes[n].node.data.Some? && forall u :: u in s.tasks ==> s.tasks[u].n != n
  {
    hide TasksInv, HolderInv, NoDuplicates, Linkable, Lawful;
    assert LinkInv(s, n, l) && CellInv(s, n);
    UntakenFacts(s, n, l);
  }

  /** The state after a node has been attached again. */
  ghost function Reattached(s: Sys, t: TaskId, n: NodeId, l: ListId, task: Task): Sys
    requires n in s.nodes
  {
    Sys(s.nodes[n := s.nodes[n].(taken := l + 1)], s.lists, s.tasks[t := task])
  }

  lemma ReattachSteps(s: Sys, t: TaskId, n: NodeId, l: ListId)
    requires OwnInv(s) && LinkedIn(s, n, l) && n in s.nodes && s.nodes[n].taken % 2 == 0 && Free(s, l) && t !in s.tasks
    ensures var s1 := SetHolder(Reattached(s, t, n, l, Attaching(n, l, true)), l, Some(t));
      && Next(s, AttachTake(t, n, l), s1)
      && (Linkable(s1) ==> Next(s1, AttachLink(t), Reattached(s, t, n, l, Waiting(n, l, true))))
  {
    hide TasksInv, NodesInv, LinksInv, ListsInv, Linkable, KeyInUse;
    UnhandledFacts(s, n, l);
    var s1 := SetHolder(Reattached(s, t, n, l, Attaching(n, l, true)), l, Some(t));
    var s2 := Reattached(s, t, n, l, Waiting(n, l, true));
    assert s1 == SetHolder(SetTask(SetTaken(s, n, l + 1), t, Attaching(n, l, true)), l, Some(t));
    assert s2.lists == SetHolder(s1, l, None).lists;
    assert s2 == SetHolder(SetTask(s1, t, Waiting(n, l, true)), l, None);
  }

  lemma ObserveAgain(s: Sys, t: TaskId, n: NodeId, l: ListId)
    requires n in s.nodes && Initialised(s.nodes[n].node.state) && Linkable(Reattached(s, t, n, l, Waiting(n, l, true)))
    ensures Next(Reattached(s, t, n, l, Waiting(n, l, true)), AttachObserve(t), Reattached(s, t, n, l, Holding(n, l)))
  {
    hide Linkable;
    var s2 := Reattached(s, t, n, l, Waiting(n, l, true));
    assert Reattached(s, t, n, l, Holding(n, l)) == SetTask(s2, t, Holding(n, l));
  }

  /** In every reachable state in which a node is linked in a list, no handle to it is live and the list's
      lock is free, any task that is doing nothing else can attach it again, in three steps, and then
      holds a handle to the same node with the value it had. */
  lemma CanReattach(r: Run, i: nat, t: TaskId, n: NodeId, l: ListId) returns (r': Run)
    requires IsRun(r) && i < |r.states| && t !in r.states[i].tasks && LinkedIn(r.states[i], n, l)
    requires n in r.states[i].nodes && r.states[i].nodes[n].taken % 2 == 0 && Free(r.states[i], l)
    ensures IsRun(r') && |r'.states| == i + 4 && r'.states[..i + 1] == r.states[..i + 1]
    ensures r'.events == r.events[..i] + [AttachTake(t, n, l), AttachLink(t), AttachObserve(t)]
    ensures var s, s' := r.states[i], r'.states[i + 3];
      && t in s'.tasks && s'.tasks[t] == Holding(n, l)
      && n in s'.nodes && s'.nodes[n].node == s.nodes[n].node && s'.nodes[n].taken == l + 1
      && s.nodes[n].node.data.Some?
  {
    hide OwnInv, DataInv, Booted, Next, Linkable, LinkedIn, IsRun;
    RunLength(r);
    var s := r.states[i];
    InvariantsHold(r, i);
    UnhandledFacts(s, n, l);
    ReattachSteps(s, t, n, l);
    var s1 := SetHolder(Reattached(s, t, n, l, Attaching(n, l, true)), l, Some(t));
    r' := ExtendRun(r, i, AttachTake(t, n, l), s1);
    InvariantsHold(r', i + 1);
    OwnedIsLinkable(s1);
    r' := ExtendRun(r', i + 1, AttachLink(t), Reattached(s, t, n, l, Waiting(n, l, true)));
    InvariantsHold(r', i + 2);
    OwnedIsLinkable(Reattached(s, t, n, l, Waiting(n, l, true)));
    ObserveAgain(s, t, n, l);
    r' := ExtendRun(r', i + 2, AttachObserve(t), Reattached(s, t, n, l, Holding(n, l)));
  }

  // ---- attaching for the first time ----

  lemma LinkedForTheFirstTime(r: Run, i: nat, t: TaskId, n: NodeId, l: ListId) returns (r': Run)
    requires IsRun(r) && i < |r.states| && t !in r.states[i].tasks && n in r.states[i].nodes
    requires r.states[i].nodes[n].taken == 0 && Free(r.states[i], l)
    requires forall m :: LinkedIn(r.states[i], m, l) && m in r.states[i].nodes ==>
               r.states[i].nodes[m].node.key != r.states[i].nodes[n].node.key
    ensures IsRun(r') && |r'.states| == i + 3 && r'.states[..i + 1] == r.states[..i + 1]
    ensures r'.states[i + 2] == Attached(r.states[i], t, n, l)
    ensures r.states[i].nodes[n].node.state.Initial? && r.states[i].nodes[n].node.data.None?
  {
    hide OwnInv, DataInv, Booted, Next, Linkable, IsRun, Taken, Attached;
    RunLength(r);
    var s := r.states[i];
    InvariantsHold(r, i);
    OwnedIsLinkable(s);
    FirstAttachFacts(s, n, l);
    TakeStep(s, t, n, l);
    r' := ExtendRun(r, i, AttachTake(t, n, l), Taken(s, t, n, l));
    InvariantsHold(r', i + 1);
    OwnedIsLinkable(Taken(s, t, n, l));
    LinkStep(s, t, n, l);
    r' := ExtendRun(r', i + 1, AttachLink(t), Attached(s, t, n, l));
  }

  /** In every reachable state in which a node is in no list, its key is not in use in a list, and that
      list's lock is free and its worker idle, any task that is doing nothing else can attach it, the
      worker reading once: then it holds a handle, to the stored value if there is one, and otherwise to
      its default. */
  lemma CanAttach(r: Run, i: nat, t: TaskId, n: NodeId, l: ListId, v: Value) returns (r': Run)
    requires IsRun(r) && i < |r.states| && t !in r.states[i].tasks && n in r.states[i].nodes
    requires r.states[i].nodes[n].taken == 0 && Free(r.states[i], l) && r.states[i].lists[l].phase.Idle?
    requires forall m :: LinkedIn(r.states[i], m, l) && m in r.states[i].nodes ==>
               r.states[i].nodes[m].node.key != r.states[i].nodes[n].node.key
    ensures IsRun(r') && i + 5 <= |r'.states| <= i + 6 && r'.states[..i + 1] == r.states[..i + 1]
    ensures var x, s' := r.states[i].nodes[n].node, r'.states[|r'.events|];
      && t in s'.tasks && s'.tasks[t] == Holding(n, l) && n in s'.nodes
      && s'.nodes[n].node.key == x.key && s'.nodes[n].node.codec == x.codec
      && (forall u :: Stored(r.states[i], l, x.key, x.codec, u) ==>
            s'.nodes[n].node.data == Some(u) && s'.nodes[n].node.state == ValidNoWriteNeeded)
      && ((forall u :: !Stored(r.states[i], l, x.key, x.codec, u)) ==>
            s'.nodes[n].node.data == Some(v) && s'.nodes[n].node.state == NeedsWrite)
  {
    hide OwnInv, DataInv, Booted, Next, Linkable, IsRun, Stored, Reads, WorkerStep;
    var s := r.states[i];
    var x, s2 := s.nodes[n].node, Attached(s, t, n, l);
    var r2 := LinkedForTheFirstTime(r, i, t, n, l);
    InvariantsHold(r2, i + 2);
    ReadyIntro(s2, l);
    var s3 := ReadIsEnabled(s2, l);
    var r3 := ExtendRun(r2, i + 2, Read(l), s3);
    ReadIsLocal(s2, l, s3);
    ReadDecides(s2, s3, l, n);
    forall u ensures Stored(s2, l, x.key, x.codec, u) <==> Stored(s, l, x.key, x.codec, u) {
      SameItemsStore(s, s2, l, x.key, x.codec, u);
    }
    r' := ObserveAndDefault(r3, i + 3, t, n, l, v);
    SamePrefix(r.states, r2.states, i + 1, i + 3);
    SamePrefix(r2.states, r3.states, i + 1, i + 3);
    SamePrefix(r3.states, r'.states, i + 1, i + 4);
  }

  lemma SamePrefix(a: seq<Sys>, b: seq<Sys>, k: nat, m: nat)
    requires k <= m && k <= |a| && m <= |b|
    ensures m <= |a| && b[..m] == a[..m] ==> b[..k] == a[..k]
  {
    if m <= |a| && b[..m] == a[..m] {
      assert b[..k] == b[..m][..k] && a[..k] == a[..m][..k];
    }
  }

  lemma FirstAttachFacts(s: Sys, n: NodeId, l: ListId)
    requires OwnInv(s) && n in s.nodes && s.nodes[n].taken == 0 && l in s.lists
    requires forall m :: LinkedIn(s, m, l) && m in s.nodes ==> s.nodes[m].node.key != s.nodes[n].node.key
    ensures 2 <= l && !KeyInUse(s, l, s.nodes[n].node.key) && s.nodes[n].node.state.Initial?
    ensures s.nodes[n].node.data.None?
  {
    hide TasksInv, HolderInv, NoDuplicates, Lawful, LinksInv;
    assert CellInv(s, n);
    forall k | 0 <= k < |s.lists[l].linked| ensures s.nodes[s.lists[l].linked[k]].node.key != s.nodes[n].node.key {
      assert LinkedIn(s, s.lists[l].linked[k], l);
    }
  }

  lemma SameItemsStore(s: Sys, s': Sys, l: ListId, key: Key, codec: Codec, v: Value)
    requires l in s.lists && l in s'.lists && s'.lists[l].items == s.lists[l].items
    ensures Stored(s', l, key, codec, v) <==> Stored(s, l, key, codec, v)
  {
  }

  /** A waiting task looks at a node that has been read, and stores the default if that is needed. */
  lemma ObserveAndDefault(r: Run, i: nat, t: TaskId, n: NodeId, l: ListId, v: Value) returns (r': Run)
    requires IsRun(r) && i < |r.states| && t in r.states[i].tasks && r.states[i].tasks[t] == Waiting(n, l, false)
    requires n in r.states[i].nodes && Free(r.states[i], l)
    requires r.states[i].nodes[n].node.state in {NonResident, ValidNoWriteNeeded}
    ensures IsRun(r') && i + 2 <= |r'.states| <= i + 3 && r'.states[..i + 1] == r.states[..i + 1]
    ensures var s, s' := r.states[i], r'.states[|r'.events|];
      && t in s'.tasks && s'.tasks[t] == Holding(n, l) && n in s'.nodes
      && s'.nodes[n].node == if s.nodes[n].node.state == ValidNoWriteNeeded then s.nodes[n].node
                             else s.nodes[n].node.(state := NeedsWrite, data := Some(v))
  {
    hide OwnInv, DataInv, Booted, Linkable, IsRun;
    RunLength(r);
    var s := r.states[i];
    InvariantsHold(r, i);
    OwnedIsLinkable(s);
    if s.nodes[n].node.state == ValidNoWriteNeeded {
      r' := ExtendRun(r, i, AttachObserve(t), SetTask(s, t, Holding(n, l)));
    } else {
      var s1 := SetTask(s, t, Defaulting(n, l));
      r' := ExtendRun(r, i, AttachObserve(t), s1);
      InvariantsHold(r', i + 1);
      OwnedIsLinkable(s1);
      var s2 := SetTask(SetNode(s1, n, Defaulted(s.nodes[n].node, v)), t, Holding(n, l));
      r' := ExtendRun(r', i + 1, AttachDefault(t, v), s2);
      RunLength(r');
    }
  }

  // ---- detaching ----

  /** In every reachable state in which a node is linked in a list, no handle to it is live and the list's
      lock is free, any task that is doing nothing else can detach it, in two steps: then it is in no
      list, empty and free, and nothing else has changed. */
  lemma CanDetach(r: Run, i: nat, t: TaskId, n: NodeId, l: ListId) returns (r': Run)
    requires IsRun(r) && i < |r.states| && t !in r.states[i].tasks && LinkedIn(r.states[i], n, l)
    requires n in r.states[i].nodes && r.states[i].nodes[n].taken % 2 == 0 && Free(r.states[i], l)
    ensures IsRun(r') && |r'.states| == i + 3 && r'.states[..i + 1] == r.states[..i + 1]
    ensures r'.events == r.events[..i] + [DetachTake(t, n, l), DetachFinish(t)]
    ensures var s, s' := r.states[i], r'.states[i + 2];
      && s'.tasks == s.tasks && n in s'.nodes && s'.nodes[n].taken == 0
      && s'.nodes[n].node == s.nodes[n].node.(state := Initial, data := None)
      && (forall m :: m != n && m in s.nodes ==> m in s'.nodes && s'.nodes[m] == s.nodes[m])
      && (forall m, k :: LinkedIn(s', m, k) <==> LinkedIn(s, m, k) && m != n)
  {
    hide OwnInv, DataInv, Booted, Linkable, IsRun, Next;
    RunLength(r);
    var s := r.states[i];
    InvariantsHold(r, i);
    UnhandledFacts(s, n, l);
    OwnedIsLinkable(s);
    var s1 := SetHolder(SetTask(SetTaken(s, n, 1), t, Detaching(n, l)), l, Some(t));
    assert Next(s, DetachTake(t, n, l), s1) by { DetachStep(s, t, n, l); }
    r' := ExtendRun(r, i, DetachTake(t, n, l), s1);
    InvariantsHold(r', i + 1);
    OwnedIsLinkable(s1);
    var s2 := Detached(s, n, l);
    assert Next(s1, DetachFinish(t), s2) by { FinishDetachStep(s, t, n, l); }
    r' := ExtendRun(r', i + 1, DetachFinish(t), s2);
    DetachedLinks(s, n, l);
  }

  ghost function Detached(s: Sys, n: NodeId, l: ListId): Sys
    requires n in s.nodes && l in s.lists
  {
    Sys(s.nodes[n := Cell(s.nodes[n].node.(state := Initial, data := None), 0)],
        s.lists[l := s.lists[l].(linked := Unlinked(s.lists[l].linked, n))], s.tasks)
  }

  lemma DetachStep(s: Sys, t: TaskId, n: NodeId, l: ListId)
    requires Linkable(s) && t !in s.tasks && n in s.nodes && s.nodes[n].taken == l && Free(s, l)
    ensures Next(s, DetachTake(t, n, l), SetHolder(SetTask(SetTaken(s, n, 1), t, Detaching(n, l)), l, Some(t)))
  {
    hide Linkable;
  }

  lemma FinishDetachStep(s: Sys, t: TaskId, n: NodeId, l: ListId)
    requires t !in s.tasks && n in s.nodes && Free(s, l)
    requires Linkable(SetHolder(SetTask(SetTaken(s, n, 1), t, Detaching(n, l)), l, Some(t)))
    ensures var s1 := SetHolder(SetTask(SetTaken(s, n, 1), t, Detaching(n, l)), l, Some(t));
      Next(s1, DetachFinish(t), Detached(s, n, l))
  {
    hide Linkable, Unlinked;
    var s1, s2 := SetHolder(SetTask(SetTaken(s, n, 1), t, Detaching(n, l)), l, Some(t)), Detached(s, n, l);
    var a := SetNode(SetLinked(s1, l, Unlinked(s.lists[l].linked, n)), n, Cleared(s.nodes[n].node));
    assert s2.nodes == SetTaken(a, n, 0).nodes;
    assert s2.tasks == EndTask(a, t).tasks;
    assert s2.lists == SetHolder(a, l, None).lists;
    assert s2 == SetHolder(EndTask(SetTaken(a, n, 0), t), l, None);
  }

  lemma DetachedLinks(s: Sys, n: NodeId, l: ListId)
    requires OwnInv(s) && n in s.nodes && l in s.lists && s.nodes[n].taken == l
    ensures forall m, k :: LinkedIn(Detached(s, n, l), m, k) <==> LinkedIn(s, m, k) && m != n
  {
    hide TasksInv, NodesInv, LinksInv, Linkable, HolderInv, Unlinked;
    UntakenFacts(s, n, l);
    UnlinkedRemoves(s.lists[l].linked, n);
  }
}
