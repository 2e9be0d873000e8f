// The whole system: nodes, lists, storages, and the tasks that attach, use and detach nodes while
// the workers of the lists read, write and collect garbage. Every step is one atomic section of the
// source: what happens under one lock, or one atomic access to a node's list pointer.
module Protocol {
  import opened Wrappers
  import opened Elements
  import opened KeyValue
  import opened SeqStates
  import opened Collect
  import opened NodeSpec
  import opened ListSpec
  import opened Scan

  type NodeId = nat
  type TaskId = nat

  /** A list is named by its address, which is even and not null. */
  type ListId = nat

  /** A node with its list pointer: 0 when it is in no list, the address of its list while no handle
      is live, that address plus one while a handle is live, and 1 during a detach. */
  datatype Cell = Cell(node: Node, taken: nat)

  /** How far a task has got with a node. A task that is doing none of this is absent. */
  datatype Task =
    | Attaching(n: NodeId, l: ListId, again: bool)  // pointer taken, lock held
    | Waiting(n: NodeId, l: ListId, again: bool)    // waiting for the node to leave Initial
    | Defaulting(n: NodeId, l: ListId)              // has seen NonResident
    | Holding(n: NodeId, l: ListId)                 // owns the live handle
    | Detaching(n: NodeId, l: ListId)               // pointer is 1, lock held

  /** What the worker of a list is in the middle of. `Suspect` follows an operation that failed in
      a way that leaves cache and storage apart; it lasts until the cache is reset. */
  datatype Phase = Idle | Collecting(orig: seq<Item>, slots: Slots, n: nat) | Suspect

  /** `bufLen` is the length of the scratch buffer that the worker passes to the operations. */
  datatype ListS = ListS(linked: seq<NodeId>, cache: Cache, items: seq<Item>, phase: Phase, holder: Option<TaskId>,
                         bufLen: nat)

  datatype Sys = Sys(nodes: map<NodeId, Cell>, lists: map<ListId, ListS>, tasks: map<TaskId, Task>)

  datatype Event =
    | AttachTake(t: TaskId, n: NodeId, l: ListId)
    | AttachLink(t: TaskId)
    | AttachObserve(t: TaskId)
    | AttachDefault(t: TaskId, v: Value)
    | AttachCancel(t: TaskId)
    | HandleWrite(t: TaskId, v: Value)
    | HandleDrop(t: TaskId)
    | DetachTake(t: TaskId, n: NodeId, l: ListId)
    | DetachFinish(t: TaskId)
    | Read(l: ListId)
    | ScanFail(l: ListId)
    | ExtractFail(l: ListId)
    | Write(l: ListId)
    | WriteFail(l: ListId)
    | GcTake(l: ListId)
    | GcStep(l: ListId)
    | GcAbort(l: ListId)
    | GcFinish(l: ListId)
    | GcFinishFail(l: ListId)
    | Reset(l: ListId)
    | PowerLoss

  // ---- views ----

  ghost predicate Linkable(s: Sys) {
    forall l, i :: l in s.lists && 0 <= i < |s.lists[l].linked| ==> s.lists[l].linked[i] in s.nodes
  }

  ghost function NodesOf(s: Sys, ids: seq<NodeId>): seq<Node>
    requires forall i :: 0 <= i < |ids| ==> ids[i] in s.nodes
  {
    seq(|ids|, i requires 0 <= i < |ids| => s.nodes[ids[i]].node)
  }

  /** A list as its operations see it. */
  ghost function View(s: Sys, l: ListId): ListV
    requires Linkable(s) && l in s.lists
  {
    ListV(NodesOf(s, s.lists[l].linked), s.lists[l].cache, s.lists[l].items)
  }

  // ---- what the atomic accesses do to one node ----

  /** The pointer exchange of an attach: from null, or from this list without a handle, to this list
      with a live handle. It fails for any other pointer. */
  function TakenByAttach(taken: nat, l: ListId): Option<nat> {
    if taken == 0 || taken == l then Some(l + 1) else None
  }

  /** The pointer exchange of a detach: from this list without a handle to 1. */
  function TakenByDetach(taken: nat, l: ListId): Option<nat> {
    if taken == l then Some(1) else None
  }

  function Defaulted(n: Node, v: Value): Node {
    n.(state := NeedsWrite, data := Some(v))
  }

  /** A write through a handle; it fails while the value cell is not initialised. */
  function HandleWritten(n: Node, v: Value): Option<Node> {
    if Initialised(n.state) then Some(n.(state := NeedsWrite, data := Some(v))) else None
  }

  function Cleared(n: Node): Node {
    n.(state := Initial, data := None)
  }

  function Unlinked<T(==)>(ids: seq<T>, n: T): seq<T> {
    if ids == [] then []
    else if ids[0] == n then ids[1..]
    else [ids[0]] + Unlinked(ids[1..], n)
  }

  /** Unlinking removes the first occurrence. */
  lemma {:induction false} UnlinkedIs<T>(ids: seq<T>, n: T, i: nat)
    requires i < |ids| && ids[i] == n && forall k :: 0 <= k < i ==> ids[k] != n
    ensures Unlinked(ids, n) == ids[..i] + ids[i + 1..]
  {
    if i > 0 {
      UnlinkedIs(ids[1..], n, i - 1);
      assert ids[..i] == [ids[0]] + ids[1..][..i - 1];
    }
  }

  // ---- steps of the tasks ----

  ghost predicate Free(s: Sys, l: ListId) {
    l in s.lists && s.lists[l].holder.None?
  }

  function SetTask(s: Sys, t: TaskId, task: Task): Sys {
    s.(tasks := s.tasks[t := task])
  }

  function EndTask(s: Sys, t: TaskId): Sys {
    s.(tasks := s.tasks - {t})
  }

  function SetTaken(s: Sys, n: NodeId, taken: nat): Sys
    requires n in s.nodes
  {
    s.(nodes := s.nodes[n := s.nodes[n].(taken := taken)])
  }

  function SetNode(s: Sys, n: NodeId, node: Node): Sys
    requires n in s.nodes
  {
    s.(nodes := s.nodes[n := s.nodes[n].(node := node)])
  }

  function SetHolder(s: Sys, l: ListId, holder: Option<TaskId>): Sys
    requires l in s.lists
  {
    s.(lists := s.lists[l := s.lists[l].(holder := holder)])
  }

  function SetLinked(s: Sys, l: ListId, linked: seq<NodeId>): Sys
    requires l in s.lists
  {
    s.(lists := s.lists[l := s.lists[l].(linked := linked)])
  }

  /** Attach, first half: under the lock, move the pointer from null or this list to this list with
      a live handle. Any other pointer makes the attach fail. */
  ghost predicate DoAttachTake(s: Sys, s': Sys, t: TaskId, n: NodeId, l: ListId) {
    && t !in s.tasks && n in s.nodes && Free(s, l)
    && match TakenByAttach(s.nodes[n].taken, l)
       case None => s' == s
       case Some(taken) =>
         s' == SetHolder(SetTask(SetTaken(s, n, taken), t, Attaching(n, l, s.nodes[n].taken == l)), l, Some(t))
  }

  ghost predicate KeyInUse(s: Sys, l: ListId, key: Key)
    requires Linkable(s) && l in s.lists
  {
    exists i :: 0 <= i < |s.lists[l].linked| && s.nodes[s.lists[l].linked[i]].node.key == key
  }

  /** Attach, second half: unless the node is re-attached, check the key and link the node. */
  ghost predicate DoAttachLink(s: Sys, s': Sys, t: TaskId)
    requires Linkable(s)
  {
    && t in s.tasks && s.tasks[t].Attaching? && s.tasks[t].n in s.nodes && s.tasks[t].l in s.lists
    && var Attaching(n, l, again) := s.tasks[t];
       if again then s' == SetHolder(SetTask(s, t, Waiting(n, l, true)), l, None)
       else if KeyInUse(s, l, s.nodes[n].node.key) then
         s' == SetHolder(EndTask(SetTaken(s, n, 0), t), l, None)
       else
         s' == SetHolder(SetTask(SetLinked(s, l, [n] + s.lists[l].linked), t, Waiting(n, l, false)), l, None)
  }

  /** The waiting task sees that the node has left Initial. A first attach that sees NeedsWrite
      would panic; that is no step. */
  ghost predicate DoAttachObserve(s: Sys, s': Sys, t: TaskId) {
    && t in s.tasks && s.tasks[t].Waiting? && s.tasks[t].n in s.nodes
    && var Waiting(n, l, again) := s.tasks[t];
       match s.nodes[n].node.state
       case Initial => false
       case NonResident => s' == SetTask(s, t, Defaulting(n, l))
       case NeedsWrite => again && s' == SetTask(s, t, Holding(n, l))
       case ValidNoWriteNeeded => s' == SetTask(s, t, Holding(n, l))
  }

  /** Under the lock, store a default value. The state is not looked at again. */
  ghost predicate DoAttachDefault(s: Sys, s': Sys, t: TaskId, v: Value) {
    && t in s.tasks && s.tasks[t].Defaulting? && s.tasks[t].n in s.nodes && Free(s, s.tasks[t].l)
    && var n := s.tasks[t].n;
       s' == SetTask(SetNode(s, n, Defaulted(s.nodes[n].node, v)), t, Holding(n, s.tasks[t].l))
  }

  /** The attach is cancelled while it waits: its future is dropped, the pointer stays taken. */
  ghost predicate DoAttachCancel(s: Sys, s': Sys, t: TaskId) {
    t in s.tasks && (s.tasks[t].Waiting? || s.tasks[t].Defaulting?) && s' == EndTask(s, t)
  }

  /** Write through a handle, under the lock of the list that the node is tagged with. */
  ghost predicate DoHandleWrite(s: Sys, s': Sys, t: TaskId, v: Value) {
    && t in s.tasks && s.tasks[t].Holding? && s.tasks[t].n in s.nodes
    && var n := s.tasks[t].n;
       && 0 < s.nodes[n].taken && Free(s, s.nodes[n].taken - 1)
       && match HandleWritten(s.nodes[n].node, v)
          case None => s' == s
          case Some(node) => s' == SetNode(s, n, node)
  }

  ghost predicate DoHandleDrop(s: Sys, s': Sys, t: TaskId) {
    && t in s.tasks && s.tasks[t].Holding? && s.tasks[t].n in s.nodes
    && var n := s.tasks[t].n;
       0 < s.nodes[n].taken && s' == EndTask(SetTaken(s, n, s.nodes[n].taken - 1), t)
  }

  /** Detach, first half: under the lock, exchange this list's pointer for 1. */
  ghost predicate DoDetachTake(s: Sys, s': Sys, t: TaskId, n: NodeId, l: ListId) {
    && t !in s.tasks && n in s.nodes && Free(s, l)
    && match TakenByDetach(s.nodes[n].taken, l)
       case None => s' == s
       case Some(taken) => s' == SetHolder(SetTask(SetTaken(s, n, taken), t, Detaching(n, l)), l, Some(t))
  }

  /** Detach, second half: unlink the node and reset it. */
  ghost predicate DoDetachFinish(s: Sys, s': Sys, t: TaskId) {
    && t in s.tasks && s.tasks[t].Detaching? && s.tasks[t].n in s.nodes && s.tasks[t].l in s.lists
    && var Detaching(n, l) := s.tasks[t];
       var s1 := SetLinked(s, l, Unlinked(s.lists[l].linked, n));
       var s2 := SetNode(s1, n, Cleared(s.nodes[n].node));
       s' == SetHolder(EndTask(SetTaken(s2, n, 0), t), l, None)
  }

  // ---- steps of the workers ----

  /** Nothing changes but the nodes linked in `l`, and the cache, storage and phase of `l`. */
  ghost predicate OnlyList(s: Sys, l: ListId, s': Sys) {
    && l in s.lists
    && s'.tasks == s.tasks
    && s'.nodes.Keys == s.nodes.Keys
    && s'.lists.Keys == s.lists.Keys
    && (forall k :: k in s.lists && k != l ==> s'.lists[k] == s.lists[k])
    && s'.lists[l].linked == s.lists[l].linked
    && s'.lists[l].holder == s.lists[l].holder
    && s'.lists[l].bufLen == s.lists[l].bufLen
    && (forall n :: n in s.nodes ==> s'.nodes[n].taken == s.nodes[n].taken)
    && (forall n :: n in s.nodes && n !in s.lists[l].linked ==> s'.nodes[n] == s.nodes[n])
  }

  /** `OnlyList`, and no node changes either. */
  ghost predicate OnlyCache(s: Sys, l: ListId, s': Sys) {
    OnlyList(s, l, s') && s'.nodes == s.nodes
  }

  /** After a scan that has stopped, only an empty cache can be relied on. */
  function AfterScan(c: Cache): Phase {
    if c.next.None? then Idle else Suspect
  }

  ghost predicate WorkerStep(s: Sys, e: Event, s': Sys)
    requires Linkable(s)
  {
    match e
    case Read(l) =>
      && OnlyList(s, l, s') && Linkable(s') && Free(s, l) && s.lists[l].phase.Idle? && s'.lists[l].phase.Idle?
      && Reads(View(s, l), View(s', l))
    case ScanFail(l) =>
      && OnlyCache(s, l, s') && Free(s, l) && s.lists[l].phase.Idle?
      && s.lists[l].cache.next.None?
      && s'.lists[l].items == s.lists[l].items
      && PartlyScanned(s.lists[l].items, s'.lists[l].cache)
      && |s'.lists[l].cache.last| == |s.lists[l].cache.last|
      && s'.lists[l].phase == AfterScan(s'.lists[l].cache)
    case ExtractFail(l) =>
      && OnlyList(s, l, s') && Linkable(s') && Free(s, l) && s.lists[l].phase.Idle? && s'.lists[l].phase.Idle?
      && exists n :: ReadsPartly(View(s, l), View(s', l), n)
    case Write(l) =>
      && OnlyList(s, l, s') && Linkable(s') && Free(s, l) && s.lists[l].phase.Idle? && s'.lists[l].phase.Idle?
      && Writes(View(s, l), View(s', l))
      && s.lists[l].cache.next.value < MAX_SEQ
      && NoStart(s.lists[l].items, s.lists[l].cache.next.value)
      && AllFit(View(s, l).nodes, s.lists[l].bufLen)
    case WriteFail(l) =>
      && OnlyCache(s, l, s') && Free(s, l) && s.lists[l].phase.Idle? && s'.lists[l].phase.Suspect?
      && Linkable(s') && WriteAborts(View(s, l), View(s', l))
      && s.lists[l].cache.next.value < MAX_SEQ
    case GcTake(l) =>
      && OnlyCache(s, l, s') && Free(s, l) && s.lists[l].phase.Idle? && s.lists[l].cache.needsGc
      && s'.lists[l].items == s.lists[l].items
      && s'.lists[l].cache == EmptyCache(|s.lists[l].cache.last|)
      && s'.lists[l].phase == Collecting(s.lists[l].items, s.lists[l].cache.last, 0)
    case GcStep(l) =>
      && OnlyCache(s, l, s') && s.lists[l].phase.Collecting?
      && s'.lists[l].cache == s.lists[l].cache
      && var Collecting(orig, slots, n) := s.lists[l].phase;
         && n < |orig|
         && s'.lists[l].items == Swept(orig, slots, n + 1)
         && s'.lists[l].phase == Collecting(orig, slots, n + 1)
    case GcAbort(l) =>
      && OnlyCache(s, l, s') && s.lists[l].phase.Collecting? && s'.lists[l].phase.Idle?
      && s'.lists[l].cache == s.lists[l].cache && s'.lists[l].items == s.lists[l].items
    case GcFinish(l) =>
      && OnlyCache(s, l, s') && Free(s, l) && s.lists[l].phase.Collecting? && s'.lists[l].phase.Idle?
      && s.lists[l].phase.n == |s.lists[l].phase.orig|
      && s'.lists[l].items == s.lists[l].items
      && Rescanned(s.lists[l].items, |s.lists[l].cache.last|, s'.lists[l].cache)
    case GcFinishFail(l) =>
      && OnlyCache(s, l, s') && Free(s, l) && s.lists[l].phase.Collecting?
      && s'.lists[l].items == s.lists[l].items
      && PartlyScanned(s.lists[l].items, s'.lists[l].cache)
      && |s'.lists[l].cache.last| == |s.lists[l].cache.last|
      && s'.lists[l].phase == AfterScan(s'.lists[l].cache)
    case Reset(l) =>
      && OnlyCache(s, l, s') && Free(s, l)
      && s'.lists[l].items == s.lists[l].items
      && s'.lists[l].cache == EmptyCache(|s.lists[l].cache.last|)
      && s'.lists[l].phase == (if s.lists[l].phase.Collecting? then s.lists[l].phase else Idle)
    case _ => false
  }

  /** Power loss: the storages survive, everything else is gone. */
  ghost predicate DoPowerLoss(s: Sys, s': Sys) {
    && s'.tasks == map[]
    && s'.nodes.Keys == s.nodes.Keys
    && (forall n :: n in s.nodes ==>
          s'.nodes[n] == Cell(Cleared(s.nodes[n].node), 0))
    && s'.lists.Keys == s.lists.Keys
    && (forall l :: l in s.lists ==>
          var ListS(_, cache, items, _, _, bufLen) := s.lists[l];
          s'.lists[l] == ListS([], EmptyCache(|cache.last|), items, Idle, None, bufLen))
  }

  ghost predicate Next(s: Sys, e: Event, s': Sys) {
    Linkable(s) &&
    match e
    case AttachTake(t, n, l) => DoAttachTake(s, s', t, n, l)
    case AttachLink(t) => DoAttachLink(s, s', t)
    case AttachObserve(t) => DoAttachObserve(s, s', t)
    case AttachDefault(t, v) => DoAttachDefault(s, s', t, v)
    case AttachCancel(t) => DoAttachCancel(s, s', t)
    case HandleWrite(t, v) => DoHandleWrite(s, s', t, v)
    case HandleDrop(t) => DoHandleDrop(s, s', t)
    case DetachTake(t, n, l) => DoDetachTake(s, s', t, n, l)
    case DetachFinish(t) => DoDetachFinish(s, s', t)
    case PowerLoss => DoPowerLoss(s, s')
    case _ => WorkerStep(s, e, s')
  }
}
