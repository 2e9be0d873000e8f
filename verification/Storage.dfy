// The storage: a queue of entries that is appended to, iterated in order, and pruned
// (NdlDataStorage, NdlElemIter and NdlElemIterNode of lib.rs, TestStorage of test_utils.rs).
module Storage {
  import opened Wrappers
  import opened Elements

  // ---- the contract of every storage ----

  /** Starting an iteration fails only on a faulty storage. */
  ghost predicate IterContract<T>(faulty: bool, r: Result<T>) {
    r.Err? ==> faulty && r.error == FlashRead
  }

  /** An iteration yields the entries in order, and then nothing. */
  ghost predicate NextContract(items: seq<Item>, pos: nat, faulty: bool, r: Result<Option<Item>>) {
    && (r.Err? ==> faulty && r.error == FlashRead)
    && (r.Ok? ==> r.value == if pos < |items| then Some(items[pos]) else None)
  }

  /** A push puts the element at the end. A push that fails may or may not have stored it. */
  ghost predicate PushContract(before: seq<Item>, item: Item, size: nat, faulty: bool, r: Result<nat>,
                               after: seq<Item>)
  {
    && (r.Ok? ==> r.value == size && after == before + [item])
    && (r.Err? ==> faulty && r.error == FlashWrite && after in {before, before + [item]})
  }

  /** An invalidation takes exactly that entry away. One that fails may or may not have done so. */
  ghost predicate InvalidateContract(before: seq<Item>, pos: nat, faulty: bool, r: Result<()>, after: seq<Item>)
    requires pos < |before|
  {
    var rest := before[..pos] + before[pos + 1..];
    && (r.Ok? ==> after == rest)
    && (r.Err? ==> faulty && r.error == FlashWrite && after in {before, rest})
  }

  /** Whether an operation fails this time. */
  method Fails(faulty: bool) returns (fails: bool)
    ensures fails ==> faulty
  {
    if faulty {
      fails := *;
    } else {
      fails := false;
    }
  }

  class DataStorage {
    var items: seq<Item>
    /** Size in bytes that an entry takes, with any overhead. */
    const size: Item -> nat
    /** Whether operations may fail. */
    const faulty: bool

    constructor (items: seq<Item>, size: Item -> nat, faulty: bool)
      ensures this.items == items && this.size == size && this.faulty == faulty
    {
      this.items, this.size, this.faulty := items, size, faulty;
    }

    method IterElems() returns (r: Result<()>)
      ensures IterContract(faulty, r)
    {
      var fails := Fails(faulty);
      r := if fails then Err(FlashRead) else Ok(());
    }

    /** The entry at position `pos` of an iteration, or `None` at the end. */
    method Next(pos: nat) returns (r: Result<Option<Item>>)
      requires pos <= |items|
      ensures NextContract(items, pos, faulty, r)
    {
      var fails := Fails(faulty);
      if fails {
        return Err(FlashRead);
      }
      r := Ok(if pos < |items| then Some(items[pos]) else None);
    }

    /** Push an element. */
    method Push(item: Item) returns (r: Result<nat>)
      modifies this
      ensures PushContract(old(items), item, size(item), faulty, r, items)
    {
      var fails := Fails(faulty);
      if fails {
        var stored := Fails(faulty);
        if stored {
          items := items + [item];
        }
        return Err(FlashWrite);
      }
      items := items + [item];
      r := Ok(size(item));
    }

    /** Invalidate the entry an iteration stands on; it is never returned again. */
    method Invalidate(pos: nat) returns (r: Result<()>)
      requires pos < |items|
      modifies this
      ensures InvalidateContract(old(items), pos, faulty, r, items)
    {
      var fails := Fails(faulty);
      if fails {
        var done := Fails(faulty);
        if done {
          items := items[..pos] + items[pos + 1..];
        }
        return Err(FlashWrite);
      }
      items := items[..pos] + items[pos + 1..];
      r := Ok(());
    }
  }
}
