// The ownership of nodes: list pointers, handles, locks and lists agree in every reachable state.
module Ownership {
  import opened Wrappers
  import opened NodeSpec
  import opened ListSpec
  import opened Scan
  import opened Protocol

  // ---- the invariant ----

  ghost predicate LinkedIn(s: Sys, n: NodeId, l: ListId) {
    l in s.lists && n in s.lists[l].linked
  }

  ghost predicate LinkedNowhere(s: Sys, n: NodeId) {
    forall l :: l in s.lists ==> n !in s.lists[l].linked
  }

  /** A task past the exchange of the pointer owns the pointer, the list's lock while it is in a
      locked section, and knows how far the node has got. */
  ghost predicate TaskInv(s: Sys, t: TaskId)
    requires t in s.tasks
  {
    && s.tasks[t].n in s.nodes && s.tasks[t].l in s.lists
    && var c := s.nodes[s.tasks[t].n];
       match s.tasks[t]
       case Attaching(n, l, again) =>
         && c.taken == l + 1 && s.lists[l].holder == Some(t)
         && (again ==> LinkedIn(s, n, l) && Initialised(c.node.state))
         && (!again ==> LinkedNowhere(s, n) && c.node.state.Initial?)
       case Waiting(n, l, again) =>
         && c.taken == l + 1 && LinkedIn(s, n, l)
         && (again ==> Initialised(c.node.state))
         && (!again ==> !c.node.state.NeedsWrite?)
       case Defaulting(n, l) => c.taken == l + 1 && LinkedIn(s, n, l) && c.node.state.NonResident?
       case Holding(n, l) => c.taken == l + 1 && LinkedIn(s, n, l) && Initialised(c.node.state)
       case Detaching(n, l) =>
         && c.taken == 1 && LinkedIn(s, n, l) && s.lists[l].holder == Some(t)
         && Initialised(c.node.state)
  }

  ghost predicate TasksInv(s: Sys) {
    && (forall t :: t in s.tasks ==> TaskInv(s, t))
    && (forall t, t' :: t in s.tasks && t' in s.tasks && t != t' ==> s.tasks[t].n != s.tasks[t'].n)
  }

  /** What a pointer says about its node. A pointer with a live handle whose task is gone belongs to
      a cancelled attach. */
  ghost predicate CellInv(s: Sys, n: NodeId)
    requires n in s.nodes
  {
    var c := s.nodes[n];
    && WellFormed(c.node)
    && (c.taken == 0 ==> c.node.state.Initial? && LinkedNowhere(s, n))
    && (c.taken == 1 ==> exists t :: t in s.tasks && s.tasks[t].Detaching? && s.tasks[t].n == n)
    && (1 < c.taken && c.taken % 2 == 0 ==> LinkedIn(s, n, c.taken) && Initialised(c.node.state))
    && (1 < c.taken && c.taken % 2 == 1 ==>
         LinkedIn(s, n, c.taken - 1) || exists t :: t in s.tasks && s.tasks[t] == Attaching(n, c.taken - 1, false))
  }

  /** A node is in the one list that its pointer names; during a detach the task names it. */
  ghost predicate LinkInv(s: Sys, n: NodeId, l: ListId)
    requires n in s.nodes
  {
    || s.nodes[n].taken == l
    || s.nodes[n].taken == l + 1
    || (s.nodes[n].taken == 1 && exists t :: t in s.tasks && s.tasks[t] == Detaching(n, l))
  }

  /** The lock of a list is held exactly by the task in a locked section of it. */
  ghost predicate HolderInv(s: Sys, l: ListId)
    requires l in s.lists
  {
    s.lists[l].holder.Some? ==>
      var t := s.lists[l].holder.value;
      t in s.tasks && (s.tasks[t].Attaching? || s.tasks[t].Detaching?) && s.tasks[t].l == l
  }

  predicate NoDuplicates(ids: seq<NodeId>) {
    forall i, j :: 0 <= i < j < |ids| ==> ids[i] != ids[j]
  }

  ghost predicate ListsInv(s: Sys) {
    forall l :: l in s.lists ==> 2 <= l && l % 2 == 0 && HolderInv(s, l) && NoDuplicates(s.lists[l].linked)
  }

  ghost predicate NodesInv(s: Sys) {
    forall n :: n in s.nodes ==> CellInv(s, n)
  }

  ghost predicate LinksInv(s: Sys) {
    forall n, l :: LinkedIn(s, n, l) ==> n in s.nodes && LinkInv(s, n, l)
  }

  ghost predicate OwnInv(s: Sys) {
    Linkable(s) && ListsInv(s) && TasksInv(s) && NodesInv(s) && LinksInv(s)
  }

  // ---- steps that concern one task, one node and one list ----

  /** From `s` to `s'` only task `t`, node `n` and list `l` change; no other task has to do with `n`,
      and the lock of `l` is not another task's. */
  ghost predicate Local(s: Sys, s': Sys, t: TaskId, n: NodeId, l: ListId) {
    && n in s.nodes && l in s.lists
    && s'.nodes.Keys == s.nodes.Keys && s'.lists.Keys == s.lists.Keys
    && (forall m :: m in s.nodes && m != n ==> s'.nodes[m] == s.nodes[m])
    && (forall k :: k in s.lists && k != l ==> s'.lists[k] == s.lists[k])
    && (forall m :: m != n ==> (m in s'.lists[l].linked <==> m in s.lists[l].linked))
    && (forall u :: u != t ==> (u in s'.tasks <==> u in s.tasks))
    && (forall u :: u != t && u in s.tasks ==> s'.tasks[u] == s.tasks[u])
    && (forall u :: u != t && u in s.tasks ==> s.tasks[u].n != n)
    && (t in s.tasks ==> s.tasks[t].n == n)
    && (t in s'.tasks ==> s'.tasks[t].n == n)
    && (s'.lists[l].holder == s.lists[l].holder
        || (s.lists[l].holder in {None, Some(t)} && s'.lists[l].holder in {None, Some(t)}))
  }

  lemma LocalKeepsLinks(s: Sys, s': Sys, t: TaskId, n: NodeId, l: ListId, m: NodeId, k: ListId)
    requires Local(s, s', t, n, l) && m != n
    ensures LinkedIn(s', m, k) <==> LinkedIn(s, m, k)
  {
  }

  lemma LocalKeepsTask(s: Sys, s': Sys, t: TaskId, n: NodeId, l: ListId, u: TaskId)
    requires OwnInv(s) && Local(s, s', t, n, l) && u in s'.tasks && u != t
    ensures TaskInv(s', u)
  {
    hide OwnInv, WellFormed;
    OwnTask(s, u);
    var m, k := s.tasks[u].n, s.tasks[u].l;
    forall k' ensures LinkedIn(s', m, k') <==> LinkedIn(s, m, k') {
      LocalKeepsLinks(s, s', t, n, l, m, k');
    }
    if LinkedNowhere(s, m) {
      forall k' | k' in s'.lists ensures m !in s'.lists[k'].linked {
        assert !LinkedIn(s, m, k') && (LinkedIn(s', m, k') <==> LinkedIn(s, m, k'));
      }
    }
  }

  lemma OwnTask(s: Sys, u: TaskId)
    requires OwnInv(s) && u in s.tasks
    ensures TaskInv(s, u) && s.tasks[u].n in s.nodes && s.tasks[u].l in s.lists
  {
  }

  lemma LocalKeepsCell(s: Sys, s': Sys, t: TaskId, n: NodeId, l: ListId, m: NodeId)
    requires OwnInv(s) && Local(s, s', t, n, l) && m in s'.nodes && m != n
    ensures CellInv(s', m)
  {
    hide TasksInv, LinksInv, ListsInv, WellFormed;
    assert CellInv(s, m);
    var c := s.nodes[m];
    forall k ensures LinkedIn(s', m, k) <==> LinkedIn(s, m, k) {
      LocalKeepsLinks(s, s', t, n, l, m, k);
    }
    if LinkedNowhere(s, m) {
      forall k | k in s'.lists ensures m !in s'.lists[k].linked {
        assert !LinkedIn(s, m, k) && (LinkedIn(s', m, k) <==> LinkedIn(s, m, k));
      }
    }
    forall u | u in s.tasks && s.tasks[u].n == m ensures u in s'.tasks && s'.tasks[u] == s.tasks[u] {
    }
  }

  lemma LocalKeepsLink(s: Sys, s': Sys, t: TaskId, n: NodeId, l: ListId, m: NodeId, k: ListId)
    requires OwnInv(s) && Local(s, s', t, n, l) && m != n && LinkedIn(s', m, k)
    ensures m in s'.nodes && LinkInv(s', m, k)
  {
    hide TasksInv, NodesInv, ListsInv, WellFormed;
    LocalKeepsLinks(s, s', t, n, l, m, k);
    forall u | u in s.tasks && s.tasks[u].n == m ensures u in s'.tasks && s'.tasks[u] == s.tasks[u] {
    }
  }

  lemma LocalKeepsHolder(s: Sys, s': Sys, t: TaskId, n: NodeId, l: ListId, k: ListId)
    requires OwnInv(s) && Local(s, s', t, n, l) && k in s'.lists && k != l
    requires t in s.tasks ==> s.tasks[t].l == l
    ensures HolderInv(s', k)
  {
    hide TasksInv, NodesInv, LinksInv;
    assert HolderInv(s, k);
  }

  /** Such a step keeps the invariant if it keeps it for its own task, node and list. */
  lemma LocalKeeps(s: Sys, s': Sys, t: TaskId, n: NodeId, l: ListId)
    requires OwnInv(s) && Local(s, s', t, n, l)
    requires t in s.tasks ==> s.tasks[t].l == l
    requires t in s'.tasks ==> TaskInv(s', t)
    requires CellInv(s', n)
    requires forall k :: LinkedIn(s', n, k) ==> LinkInv(s', n, k)
    requires HolderInv(s', l) && NoDuplicates(s'.lists[l].linked)
    ensures OwnInv(s')
  {
    hide CellInv, LinkInv, HolderInv, TaskInv, Linkable;
    forall u | u in s'.tasks && u != t ensures TaskInv(s', u) {
      LocalKeepsTask(s, s', t, n, l, u);
    }
    forall m | m in s'.nodes && m != n ensures CellInv(s', m) {
      LocalKeepsCell(s, s', t, n, l, m);
    }
    forall m, k | LinkedIn(s', m, k) && m != n ensures m in s'.nodes && LinkInv(s', m, k) {
      LocalKeepsLink(s, s', t, n, l, m, k);
    }
    forall k | k in s'.lists && k != l ensures HolderInv(s', k) {
      LocalKeepsHolder(s, s', t, n, l, k);
    }
    LinksMakeLinkable(s');
  }

  lemma LinksMakeLinkable(s: Sys)
    requires LinksInv(s)
    ensures Linkable(s)
  {
    forall l, i | l in s.lists && 0 <= i < |s.lists[l].linked| ensures s.lists[l].linked[i] in s.nodes {
      assert LinkedIn(s, s.lists[l].linked[i], l);
    }
  }

  // ---- every step keeps it ----

  lemma UntakenHasNoTask(s: Sys, n: NodeId, l: ListId, u: TaskId)
    requires OwnInv(s) && n in s.nodes && l in s.lists && s.nodes[n].taken in {0, l} && u in s.tasks
    ensures s.tasks[u].n != n
  {
    hide WellFormed, NodesInv, LinksInv, HolderInv, NoDuplicates, Linkable, LinkedIn, LinkedNowhere;
    assert TaskInv(s, u);
  }

  lemma UntakenLinks(s: Sys, n: NodeId, l: ListId, k: ListId)
    requires OwnInv(s) && n in s.nodes && l in s.lists && s.nodes[n].taken in {0, l} && LinkedIn(s, n, k)
    ensures k == l && s.nodes[n].taken == l
  {
    hide WellFormed, NodesInv, TasksInv, HolderInv, NoDuplicates, Linkable;
    assert LinkInv(s, n, k);
  }

  /** A pointer that is null, or names a list without a handle, belongs to no task. */
  lemma UntakenFacts(s: Sys, n: NodeId, l: ListId)
    requires OwnInv(s) && n in s.nodes && l in s.lists && s.nodes[n].taken in {0, l}
    ensures CellInv(s, n) && forall u :: u in s.tasks ==> s.tasks[u].n != n
    ensures 2 <= l && l % 2 == 0 && NoDuplicates(s.lists[l].linked)
    ensures forall k :: LinkedIn(s, n, k) ==> k == l && s.nodes[n].taken == l
  {
    hide CellInv, TasksInv, LinksInv, HolderInv, NoDuplicates, Linkable, LinkedIn;
    forall u | u in s.tasks ensures s.tasks[u].n != n {
      UntakenHasNoTask(s, n, l, u);
    }
    forall k | LinkedIn(s, n, k) ensures k == l && s.nodes[n].taken == l {
      UntakenLinks(s, n, l, k);
    }
  }

  /** What the invariant says from the point of view of one task. */
  lemma OwnerFacts(s: Sys, t: TaskId)
    requires OwnInv(s) && t in s.tasks
    ensures TaskInv(s, t) && s.tasks[t].n in s.nodes && s.tasks[t].l in s.lists
    ensures var n, l := s.tasks[t].n, s.tasks[t].l;
      && WellFormed(s.nodes[n].node) && HolderInv(s, l)
      && 2 <= l && l % 2 == 0 && NoDuplicates(s.lists[l].linked)
      && (forall u :: u in s.tasks && u != t ==> s.tasks[u].n != n)
      && (forall k :: LinkedIn(s, n, k) ==> k == l)
  {
    hide WellFormed, NoDuplicates;
    assert TaskInv(s, t);
    var n, l := s.tasks[t].n, s.tasks[t].l;
    assert CellInv(s, n);
    forall k | LinkedIn(s, n, k) ensures k == l {
      assert LinkInv(s, n, k);
    }
  }

  /** Taking a free list's lock and a node's pointer for a new task. */
  lemma TakeIsLocal(s: Sys, s': Sys, t: TaskId, task: Task, n: NodeId, taken: nat, l: ListId)
    requires n in s.nodes && Free(s, l) && t !in s.tasks && task.n == n
    requires forall u :: u in s.tasks ==> s.tasks[u].n != n
    requires s' == SetHolder(SetTask(SetTaken(s, n, taken), t, task), l, Some(t))
    ensures Local(s, s', t, n, l)
    ensures forall k :: LinkedIn(s', n, k) <==> LinkedIn(s, n, k)
    ensures t in s'.tasks && s'.tasks[t] == task && s'.nodes[n] == s.nodes[n].(taken := taken)
    ensures s'.lists[l] == s.lists[l].(holder := Some(t)) && (LinkedNowhere(s, n) ==> LinkedNowhere(s', n))
  {
    forall k ensures LinkedIn(s', n, k) <==> LinkedIn(s, n, k) {
    }
  }

  lemma AttachTakeKeeps(s: Sys, s': Sys, t: TaskId, n: NodeId, l: ListId)
    requires OwnInv(s) && DoAttachTake(s, s', t, n, l)
    ensures OwnInv(s')
  {
    hide TasksInv, NodesInv, LinksInv, ListsInv, Linkable, WellFormed, NoDuplicates, Local, LinkedIn, LinkedNowhere,
         SetHolder, SetTask, SetTaken;
    if s' != s {
      UntakenFacts(s, n, l);
      TakeIsLocal(s, s', t, Attaching(n, l, s.nodes[n].taken == l), n, l + 1, l);
      LocalKeeps(s, s', t, n, l);
    }
  }

  /** The step of `DoAttachLink` that links the node. */
  ghost predicate LinksNode(s: Sys, t: TaskId)
    requires Linkable(s) && t in s.tasks && s.tasks[t].n in s.nodes && s.tasks[t].l in s.lists
  {
    s.tasks[t].Attaching? && !s.tasks[t].again && !KeyInUse(s, s.tasks[t].l, s.nodes[s.tasks[t].n].node.key)
  }

  lemma LinkNodeKeeps(s: Sys, s': Sys, t: TaskId)
    requires OwnInv(s) && DoAttachLink(s, s', t) && LinksNode(s, t)
    ensures OwnInv(s')
  {
    hide TasksInv, NodesInv, LinksInv, ListsInv, Linkable, WellFormed, KeyInUse;
    OwnerFacts(s, t);
    var n, l := s.tasks[t].n, s.tasks[t].l;
    assert s'.lists[l].linked == [n] + s.lists[l].linked;
    forall k ensures LinkedIn(s', n, k) <==> k == l {
      assert !LinkedIn(s, n, k);
    }
    LocalKeeps(s, s', t, n, l);
  }

  lemma AttachLinkKeeps(s: Sys, s': Sys, t: TaskId)
    requires OwnInv(s) && DoAttachLink(s, s', t)
    ensures OwnInv(s')
  {
    hide TasksInv, NodesInv, LinksInv, ListsInv, Linkable, WellFormed, KeyInUse, NoDuplicates;
    if LinksNode(s, t) {
      LinkNodeKeeps(s, s', t);
    } else {
      OwnerFacts(s, t);
      var n, l := s.tasks[t].n, s.tasks[t].l;
      assert forall k :: LinkedIn(s', n, k) <==> LinkedIn(s, n, k);
      LocalKeeps(s, s', t, n, l);
    }
  }

  lemma AttachObserveKeeps(s: Sys, s': Sys, t: TaskId)
    requires OwnInv(s) && DoAttachObserve(s, s', t)
    ensures OwnInv(s')
  {
    hide TasksInv, NodesInv, LinksInv, ListsInv, Linkable, WellFormed, NoDuplicates;
    OwnerFacts(s, t);
    assert forall k :: LinkedIn(s', s.tasks[t].n, k) <==> LinkedIn(s, s.tasks[t].n, k);
    LocalKeeps(s, s', t, s.tasks[t].n, s.tasks[t].l);
  }

  lemma AttachDefaultKeeps(s: Sys, s': Sys, t: TaskId, v: Value)
    requires OwnInv(s) && DoAttachDefault(s, s', t, v)
    ensures OwnInv(s')
  {
    hide TasksInv, NodesInv, LinksInv, ListsInv, Linkable, NoDuplicates;
    OwnerFacts(s, t);
    assert forall k :: LinkedIn(s', s.tasks[t].n, k) <==> LinkedIn(s, s.tasks[t].n, k);
    LocalKeeps(s, s', t, s.tasks[t].n, s.tasks[t].l);
  }

  lemma AttachCancelKeeps(s: Sys, s': Sys, t: TaskId)
    requires OwnInv(s) && DoAttachCancel(s, s', t)
    ensures OwnInv(s')
  {
    hide TasksInv, NodesInv, LinksInv, ListsInv, Linkable, WellFormed, NoDuplicates;
    OwnerFacts(s, t);
    assert forall k :: LinkedIn(s', s.tasks[t].n, k) <==> LinkedIn(s, s.tasks[t].n, k);
    LocalKeeps(s, s', t, s.tasks[t].n, s.tasks[t].l);
  }

  lemma HandleWriteKeeps(s: Sys, s': Sys, t: TaskId, v: Value)
    requires OwnInv(s) && DoHandleWrite(s, s', t, v)
    ensures OwnInv(s')
  {
    hide TasksInv, NodesInv, LinksInv, ListsInv, Linkable, NoDuplicates;
    OwnerFacts(s, t);
    assert forall k :: LinkedIn(s', s.tasks[t].n, k) <==> LinkedIn(s, s.tasks[t].n, k);
    LocalKeeps(s, s', t, s.tasks[t].n, s.tasks[t].l);
  }

  lemma HandleDropKeeps(s: Sys, s': Sys, t: TaskId)
    requires OwnInv(s) && DoHandleDrop(s, s', t)
    ensures OwnInv(s')
  {
    hide TasksInv, NodesInv, LinksInv, ListsInv, Linkable, WellFormed, NoDuplicates;
    OwnerFacts(s, t);
    assert forall k :: LinkedIn(s', s.tasks[t].n, k) <==> LinkedIn(s, s.tasks[t].n, k);
    LocalKeeps(s, s', t, s.tasks[t].n, s.tasks[t].l);
  }

  lemma DetachTakeKeeps(s: Sys, s': Sys, t: TaskId, n: NodeId, l: ListId)
    requires OwnInv(s) && DoDetachTake(s, s', t, n, l)
    ensures OwnInv(s')
  {
    hide TasksInv, NodesInv, LinksInv, ListsInv, Linkable, WellFormed, NoDuplicates, Local, LinkedIn, LinkedNowhere,
         SetHolder, SetTask, SetTaken;
    if s' != s {
      UntakenFacts(s, n, l);
      TakeIsLocal(s, s', t, Detaching(n, l), n, 1, l);
      LocalKeeps(s, s', t, n, l);
    }
  }

  lemma {:induction false} UnlinkedRemoves(ids: seq<NodeId>, n: NodeId)
    requires NoDuplicates(ids)
    ensures NoDuplicates(Unlinked(ids, n))
    ensures forall m :: m in Unlinked(ids, n) <==> m in ids && m != n
  {
    if ids != [] && ids[0] != n {
      UnlinkedRemoves(ids[1..], n);
      var rest := Unlinked(ids[1..], n);
      assert forall m :: m in ids <==> m == ids[0] || m in ids[1..];
      assert ids[0] !in ids[1..];
      assert Unlinked(ids, n) == [ids[0]] + rest;
    } else if ids != [] {
      assert forall m :: m in ids <==> m == ids[0] || m in ids[1..];
    }
  }

  lemma DetachFinishKeeps(s: Sys, s': Sys, t: TaskId)
    requires OwnInv(s) && DoDetachFinish(s, s', t)
    ensures OwnInv(s')
  {
    hide TasksInv, NodesInv, LinksInv, ListsInv, Linkable, NoDuplicates;
    OwnerFacts(s, t);
    var n, l := s.tasks[t].n, s.tasks[t].l;
    UnlinkedRemoves(s.lists[l].linked, n);
    forall k ensures !LinkedIn(s', n, k) {
      assert LinkedIn(s, n, k) ==> k == l;
    }
    assert LinkedNowhere(s', n) by {
      forall k | k in s'.lists ensures n !in s'.lists[k].linked {
        assert !LinkedIn(s', n, k);
      }
    }
    LocalKeeps(s, s', t, n, l);
  }

  // ---- steps of the workers ----

  /** What a worker may do to a node. */
  ghost predicate WorkerMoves(n: Node, n': Node) {
    && n'.key == n.key && n'.codec == n.codec
    && (WellFormed(n) ==> WellFormed(n'))
    && (Initialised(n.state) ==> n'.data == n.data)
    && (n'.state == n.state
        || (n.state.Initial? && n'.state.NonResident?)
        || (n.state.Initial? && n'.state.ValidNoWriteNeeded?)
        || (n.state.NeedsWrite? && n'.state.ValidNoWriteNeeded?))
  }

  lemma WorkerKeeps(s: Sys, l: ListId, s': Sys)
    requires OwnInv(s) && OnlyList(s, l, s')
    requires forall n :: LinkedIn(s, n, l) ==> n in s.nodes && WorkerMoves(s.nodes[n].node, s'.nodes[n].node)
    ensures OwnInv(s')
  {
    hide CellInv, TaskInv, WorkerMoves, NoDuplicates, NodesInv;
    forall t | t in s'.tasks ensures TaskInv(s', t) {
      WorkerKeepsTask(s, l, s', t);
    }
    assert NodesInv(s') by {
      WorkerKeepsNodes(s, l, s');
    }
    forall n, k | LinkedIn(s', n, k) ensures n in s'.nodes && LinkInv(s', n, k) {
      assert LinkedIn(s, n, k) && LinkInv(s, n, k);
    }
    LinksMakeLinkable(s');
    forall k | k in s'.lists ensures 2 <= k && k % 2 == 0 && HolderInv(s', k) && NoDuplicates(s'.lists[k].linked) {
      assert HolderInv(s, k);
    }
  }

  lemma WorkerKeepsLinks(s: Sys, l: ListId, s': Sys, n: NodeId)
    requires OnlyList(s, l, s')
    ensures forall k :: LinkedIn(s', n, k) <==> LinkedIn(s, n, k)
    ensures LinkedNowhere(s, n) <==> LinkedNowhere(s', n)
  {
    forall k ensures LinkedIn(s', n, k) <==> LinkedIn(s, n, k) {
    }
  }

  lemma WorkerKeepsTask(s: Sys, l: ListId, s': Sys, t: TaskId)
    requires OwnInv(s) && OnlyList(s, l, s') && t in s'.tasks
    requires forall n :: LinkedIn(s, n, l) ==> n in s.nodes && WorkerMoves(s.nodes[n].node, s'.nodes[n].node)
    ensures TaskInv(s', t)
  {
    hide WellFormed, NodesInv, LinksInv, ListsInv, Linkable, LinkedNowhere;
    assert TaskInv(s, t);
    var n := s.tasks[t].n;
    WorkerKeepsLinks(s, l, s', n);
    NowhereIsNot(s, n, l);
    if LinkedIn(s, n, l) {
      assert WorkerMoves(s.nodes[n].node, s'.nodes[n].node);
    }
  }

  lemma WorkerKeepsNodes(s: Sys, l: ListId, s': Sys)
    requires OwnInv(s) && OnlyList(s, l, s')
    requires forall n :: LinkedIn(s, n, l) ==> n in s.nodes && WorkerMoves(s.nodes[n].node, s'.nodes[n].node)
    ensures NodesInv(s')
  {
    hide TasksInv, LinksInv, ListsInv, Linkable, CellInv, WorkerMoves;
    forall n | n in s'.nodes ensures CellInv(s', n) {
      assert CellInv(s, n);
      WorkerKeepsCell(s, l, s', n);
    }
  }

  lemma WorkerKeepsCell(s: Sys, l: ListId, s': Sys, n: NodeId)
    requires OnlyList(s, l, s') && n in s.nodes && CellInv(s, n)
    requires LinkedIn(s, n, l) ==> WorkerMoves(s.nodes[n].node, s'.nodes[n].node)
    ensures CellInv(s', n)
  {
    hide WellFormed, LinkedNowhere;
    WorkerKeepsLinks(s, l, s', n);
    NowhereIsNot(s, n, l);
    if !LinkedIn(s, n, l) {
      assert s'.nodes[n] == s.nodes[n];
    }
  }

  lemma NowhereIsNot(s: Sys, n: NodeId, l: ListId)
    ensures LinkedNowhere(s, n) ==> !LinkedIn(s, n, l)
  {
  }

  ghost predicate AllMove(v: ListV, v': ListV) {
    |v'.nodes| == |v.nodes| && forall i :: 0 <= i < |v.nodes| ==> WorkerMoves(v.nodes[i], v'.nodes[i])
  }

  lemma ReadsMove(v: ListV, v': ListV)
    requires Reads(v, v')
    ensures AllMove(v, v')
  {
    hide EntryFor, LatestPayload, Populated, Lawful;
  }

  lemma ReadsPartlyMove(v: ListV, v': ListV, n: nat)
    requires ReadsPartly(v, v', n)
    ensures AllMove(v, v')
  {
    hide EntryFor, LatestPayload, Populated, Lawful;
  }

  lemma WritesMove(v: ListV, v': ListV)
    requires Writes(v, v')
    ensures AllMove(v, v')
  {
    hide RecordFor, MayWrite, Lawful;
  }

  lemma ViewsMove(s: Sys, l: ListId, s': Sys)
    requires Linkable(s) && Linkable(s') && OnlyList(s, l, s') && AllMove(View(s, l), View(s', l))
    ensures forall n :: LinkedIn(s, n, l) ==> WorkerMoves(s.nodes[n].node, s'.nodes[n].node)
  {
    hide WorkerMoves;
    forall n | LinkedIn(s, n, l) ensures WorkerMoves(s.nodes[n].node, s'.nodes[n].node) {
      var i :| 0 <= i < |s.lists[l].linked| && s.lists[l].linked[i] == n;
      assert View(s, l).nodes[i] == s.nodes[n].node && View(s', l).nodes[i] == s'.nodes[n].node;
    }
  }

  function ListOf(e: Event): ListId
    requires IsWorkerEvent(e)
  {
    match e
    case Read(l) => l
    case ScanFail(l) => l
    case ExtractFail(l) => l
    case Write(l) => l
    case WriteFail(l) => l
    case GcTake(l) => l
    case GcStep(l) => l
    case GcAbort(l) => l
    case GcFinish(l) => l
    case GcFinishFail(l) => l
    case Reset(l) => l
    case _ => 0
  }

  predicate IsWorkerEvent(e: Event) {
    || e.Read? || e.ScanFail? || e.ExtractFail? || e.Write? || e.WriteFail? || e.GcTake? || e.GcStep?
    || e.GcAbort? || e.GcFinish? || e.GcFinishFail? || e.Reset?
  }

  lemma NodesMove(s: Sys, e: Event, s': Sys)
    requires Linkable(s) && WorkerStep(s, e, s') && (e.Read? || e.ExtractFail? || e.Write?)
    ensures OnlyList(s, ListOf(e), s') && Linkable(s') && AllMove(View(s, ListOf(e)), View(s', ListOf(e)))
  {
    hide Reads, ReadsPartly, Writes, Linkable, View, AllMove;
    var l := ListOf(e);
    match e
    case Read(_) => ReadsMove(View(s, l), View(s', l));
    case ExtractFail(_) =>
      var n :| ReadsPartly(View(s, l), View(s', l), n);
      ReadsPartlyMove(View(s, l), View(s', l), n);
    case Write(_) => WritesMove(View(s, l), View(s', l));
  }

  lemma NodesStay(s: Sys, e: Event, s': Sys)
    requires Linkable(s) && WorkerStep(s, e, s') && !e.Read? && !e.ExtractFail? && !e.Write?
    ensures IsWorkerEvent(e) && OnlyCache(s, ListOf(e), s')
  {
    hide Rescanned, PartlyScanned, WriteAborts, Linkable, View, OnlyCache;
  }

  /** A worker step moves only the nodes of its list, and only as workers may. */
  lemma WorkerStepMoves(s: Sys, e: Event, s': Sys)
    requires Linkable(s) && WorkerStep(s, e, s')
    ensures IsWorkerEvent(e) && OnlyList(s, ListOf(e), s')
    ensures forall n :: LinkedIn(s, n, ListOf(e)) ==> n in s.nodes && WorkerMoves(s.nodes[n].node, s'.nodes[n].node)
  {
    hide WorkerStep, WellFormed, AllMove, View, ListOf;
    if e.Read? || e.ExtractFail? || e.Write? {
      NodesMove(s, e, s');
      ViewsMove(s, ListOf(e), s');
    } else {
      NodesStay(s, e, s');
    }
  }

  lemma WorkerStepKeeps(s: Sys, e: Event, s': Sys)
    requires OwnInv(s) && WorkerStep(s, e, s')
    ensures OwnInv(s')
  {
    hide TasksInv, NodesInv, LinksInv, ListsInv, WorkerStep;
    WorkerStepMoves(s, e, s');
    WorkerKeeps(s, ListOf(e), s');
  }

  lemma PowerLossKeeps(s: Sys, s': Sys)
    requires OwnInv(s) && DoPowerLoss(s, s')
    ensures OwnInv(s')
  {
    hide TasksInv, LinksInv, Linkable, ListsInv, WellFormed;
    forall n | n in s'.nodes ensures CellInv(s', n) {
      assert CellInv(s, n);
      ResetIsWellFormed(s.nodes[n].node);
    }
    forall n, l ensures !LinkedIn(s', n, l) {
    }
    NothingLinked(s, s');
  }

  lemma ResetIsWellFormed(n: Node)
    requires WellFormed(n)
    ensures WellFormed(Cleared(n))
  {
  }

  lemma NothingLinked(s: Sys, s': Sys)
    requires OwnInv(s) && DoPowerLoss(s, s')
    ensures Linkable(s') && ListsInv(s') && TasksInv(s') && LinksInv(s')
  {
    hide TasksInv, LinksInv, NodesInv, Linkable;
    assert forall n, l :: !LinkedIn(s', n, l);
    assert LinksInv(s') by { EmptyLinks(s'); }
    LinksMakeLinkable(s');
    assert TasksInv(s') by { EmptyTasks(s'); }
  }

  lemma EmptyLinks(s: Sys)
    requires forall n, l :: !LinkedIn(s, n, l)
    ensures LinksInv(s)
  {
  }

  lemma EmptyTasks(s: Sys)
    requires s.tasks == map[]
    ensures TasksInv(s)
  {
  }

  /** Every step of every task and every worker keeps the ownership invariant. */
  lemma StepKeepsOwnership(s: Sys, e: Event, s': Sys)
    requires OwnInv(s) && Next(s, e, s')
    ensures OwnInv(s')
  {
    hide OwnInv, WorkerStep, DoAttachTake, DoAttachLink, DoAttachObserve, DoAttachDefault, DoAttachCancel,
         DoHandleWrite, DoHandleDrop, DoDetachTake, DoDetachFinish, DoPowerLoss;
    match e
    case AttachTake(t, n, l) => AttachTakeKeeps(s, s', t, n, l);
    case AttachLink(t) => AttachLinkKeeps(s, s', t);
    case AttachObserve(t) => AttachObserveKeeps(s, s', t);
    case AttachDefault(t, v) => AttachDefaultKeeps(s, s', t, v);
    case AttachCancel(t) => AttachCancelKeeps(s, s', t);
    case HandleWrite(t, v) => HandleWriteKeeps(s, s', t, v);
    case HandleDrop(t) => HandleDropKeeps(s, s', t);
    case DetachTake(t, n, l) => DetachTakeKeeps(s, s', t, n, l);
    case DetachFinish(t) => DetachFinishKeeps(s, s', t);
    case PowerLoss => PowerLossKeeps(s, s');
    case _ => WorkerStepKeeps(s, e, s');
  }
}
