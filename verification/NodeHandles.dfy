// The user's side of a node (storage_node.rs): the atomic sections of attach and detach, and the
// handle. Each does to its node what the steps of `Protocol` do.
module NodeHandles {
  import opened Wrappers
  import opened KeyValue
  import opened NodeSpec
  import opened StorageNode
  import opened StorageLists
  import opened Protocol

  class StorageListNode {
    const inner: NodeCell
    /** The tagged pointer. */
    var takenForList: nat

    constructor (key: Key, codec: Codec)
      ensures takenForList == 0 && fresh(inner) && inner.View() == Node(key, codec, Initial, None)
    {
      inner := new NodeCell(key, codec);
      takenForList := 0;
    }

    // ---- attach ----

    /** Take the pointer for list `l`. Returns whether the node had been attached to it already. */
    method TakeForAttach(l: ListId) returns (r: Result<bool>)
      requires l != 0
      modifies this`takenForList
      ensures r.Ok? <==> old(takenForList) == 0 || old(takenForList) == l
      ensures r.Ok? ==> takenForList == l + 1 && (r.value <==> old(takenForList) == l)
      ensures match TakenByAttach(old(takenForList), l)
              case Some(taken) => takenForList == taken && r == Ok(old(takenForList) == l)
              case None =>
                && takenForList == old(takenForList)
                && r == Err(AppError(if old(takenForList) == l + 1 then AlreadyTaken else NodeInOtherList))
    {
      var taken := takenForList;
      if taken == 0 || taken == l {
        takenForList := l + 1;
        return Ok(taken != 0);
      }
      r := Err(AppError(if taken == l + 1 then AlreadyTaken else NodeInOtherList));
    }

    /** Link a node that is attached for the first time, unless its key is in use in the list. */
    method LinkIn(list: StorageListInner, alreadyAttached: bool) returns (r: Result<()>)
      requires list.Valid() && WellFormed(inner.View())
      modifies this`takenForList, list`list
      ensures list.Valid()
      ensures r.Err? <==>
                && !alreadyAttached
                && exists i :: 0 <= i < |old(list.list)| && old(list.list[i]).key == inner.key
      ensures r.Err? ==> r.error == AppError(DuplicateKey) && takenForList == 0 && list.list == old(list.list)
      ensures r.Ok? ==> takenForList == old(takenForList)
      ensures r.Ok? ==> list.list == if alreadyAttached then old(list.list) else [inner] + old(list.list)
    {
      if !alreadyAttached {
        ghost var before := list.Nodes();
        var found := list.FindNode(inner.key);
        if found.Some? {
          takenForList := 0;
          return Err(AppError(DuplicateKey));
        }
        forall i | 0 <= i < |list.list| ensures before[i].key == list.list[i].key {
        }
        list.list := [inner] + list.list;
        assert list.Nodes() == [inner.View()] + before;
      }
      r := Ok(());
    }

    /** One look at the state while waiting: `None` is to wait on, otherwise whether the node needs its
        default value. The state that would panic cannot be seen. */
    method Observe(alreadyAttached: bool) returns (needsDefault: Option<bool>)
      requires !alreadyAttached ==> !inner.state.NeedsWrite?
      ensures needsDefault.None? <==> inner.state.Initial?
      ensures needsDefault == Some(true) <==> inner.state.NonResident?
    {
      match inner.state
      case Initial => needsDefault := None;
      case NonResident => needsDefault := Some(true);
      case NeedsWrite => needsDefault := Some(false);
      case ValidNoWriteNeeded => needsDefault := Some(false);
    }

    method StoreDefault(v: Value)
      modifies inner
      ensures inner.View() == Defaulted(old(inner.View()), v)
      ensures inner.data == Some(v) && inner.state == NeedsWrite
    {
      inner.data := Some(v);
      inner.state := NeedsWrite;
    }

    // ---- the handle ----

    method Load() returns (v: Value)
      requires WellFormed(inner.View()) && Initialised(inner.state)
      ensures inner.data == Some(v)
    {
      v := inner.data.value;
    }

    method Write(v: Value) returns (r: Result<()>)
      modifies inner
      ensures old(inner.state) in {ValidNoWriteNeeded, NeedsWrite} ==>
                r == Ok(()) && inner.data == Some(v) && inner.state == NeedsWrite
      ensures old(inner.state) in {Initial, NonResident} ==>
                r == Err(AppError(InvalidState)) && inner.data == old(inner.data) && inner.state == old(inner.state)
      ensures match HandleWritten(old(inner.View()), v)
              case Some(node) => r.Ok? && inner.View() == node
              case None => r == Err(AppError(InvalidState)) && inner.View() == old(inner.View())
    {
      match inner.state
      case Initial => r := Err(AppError(InvalidState));
      case NonResident => r := Err(AppError(InvalidState));
      case _ =>
        inner.data := Some(v);
        inner.state := NeedsWrite;
        r := Ok(());
    }

    method Drop()
      requires 0 < takenForList
      modifies this`takenForList
      ensures takenForList == old(takenForList) - 1
    {
      takenForList := takenForList - 1;
    }

    // ---- detach ----

    /** Take the pointer away. Returns whether there is anything to detach. */
    method TakeForDetach(l: ListId) returns (r: Result<bool>)
      requires l != 0
      modifies this`takenForList
      ensures r == Ok(true) <==> old(takenForList) == l
      ensures takenForList == if old(takenForList) == l then 1 else old(takenForList)
      ensures match TakenByDetach(old(takenForList), l)
              case Some(taken) => takenForList == taken && r == Ok(true)
              case None =>
                && takenForList == old(takenForList)
                && r == if old(takenForList) == l + 1 then Err(AppError(AlreadyTaken))
                        else if old(takenForList) == 0 then Ok(false)
                        else Err(AppError(NodeInOtherList))
    {
      var taken := takenForList;
      if taken == l {
        takenForList := 1;
        return Ok(true);
      }
      r := if taken == l + 1 then Err(AppError(AlreadyTaken))
           else if taken == 0 then Ok(false)
           else Err(AppError(NodeInOtherList));
    }

    /** Where the node is in the list. */
    method Position(cells: seq<NodeCell>) returns (i: nat)
      requires inner in cells
      ensures i < |cells| && cells[i] == inner
      ensures Unlinked(cells, inner) == cells[..i] + cells[i + 1..]
    {
      i := 0;
      while cells[i] != inner
        invariant 0 <= i < |cells| && forall k :: 0 <= k < i ==> cells[k] != inner
        decreases |cells| - i
      {
        i := i + 1;
      }
      UnlinkedIs(cells, inner, i);
    }

    method Unlink(list: StorageListInner)
      requires list.Valid() && inner in list.list
      modifies list`list
      ensures list.Valid() && list.list == Unlinked(old(list.list), inner) && inner !in list.list
    {
      hide WellFormed, Unlinked;
      var all := list.list;
      ghost var before := list.Nodes();
      var i := Position(all);
      forall k | 0 <= k < |all| && k != i ensures all[k] != inner {
        if k < i { list.DistinctCells(k, i); } else { list.DistinctCells(i, k); }
      }
      list.list := all[..i] + all[i + 1..];
      assert list.Nodes() == before[..i] + before[i + 1..];
    }

    /** Unlink the node, drop its value and give it free. */
    method FinishDetach(list: StorageListInner)
      requires list.Valid() && inner in list.list
      modifies this`takenForList, list`list, inner
      ensures list.Valid() && list.list == Unlinked(old(list.list), inner) && inner !in list.list
      ensures inner.View() == Cleared(old(inner.View())) && takenForList == 0
      ensures inner.state == Initial && inner.data == None
    {
      hide WellFormed, Unlinked;
      Unlink(list);
      ghost var nodes := list.Nodes();
      inner.data := None;
      inner.state := Initial;
      takenForList := 0;
      assert list.Nodes() == nodes;
    }
  }
}
