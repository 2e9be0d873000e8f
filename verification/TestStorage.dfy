// The in-memory storage (test_utils.rs): elements with a counter, iterated over a copy and removed by
// counter, and a builder for valid write records.
module TestStorages {
  import opened Wrappers
  import opened Elements
  import opened KeyValue
  import opened Log
  import opened Storage
  import opened Flash

  /** Counters are 64-bit; running out of them is a panic. */
  const MAX_CTR: nat := 0xFFFF_FFFF_FFFF_FFFF

  datatype TestItem = TestItem(ctr: nat, elem: Item)

  predicate Ascending(items: seq<TestItem>) {
    forall i, j :: 0 <= i < j < |items| ==> items[i].ctr < items[j].ctr
  }

  function ElemsOf(items: seq<TestItem>): (elems: seq<Item>)
    ensures |elems| == |items|
  {
    seq(|items|, i requires 0 <= i < |items| => items[i].elem)
  }

  /** Length of an element in this storage. A data element's header is counted twice. */
  function LenOf(elem: Item): nat {
    match elem
    case Start(_) => 5
    case Data(keyVal) => 1 + (1 + |keyVal|)
    case End(_, _) => 9
    case Junk(raw) => |raw|
  }

  /** It is the length of the element's bytes on a device, and one more for a data element. */
  lemma LenOfIsLength(elem: Item)
    requires !elem.Junk?
    ensures elem == Data([]) || exists raw :: OnDevice(raw, elem)
    ensures forall raw :: OnDevice(raw, elem) ==> LenOf(elem) == |raw| + (if elem.Data? then 1 else 0)
  {
    hide Encode, Decode;
    EncodesTo(elem);
  }

  class TestStorage {
    var ctr: nat
    var items: seq<TestItem>
    var forcedError: bool

    constructor ()
      ensures Valid() && Elems() == [] && !forcedError && ctr == 0
    {
      ctr, items, forcedError := 0, [], false;
    }

    ghost predicate Valid()
      reads this
    {
      && Ascending(items)
      && (forall i :: 0 <= i < |items| ==> items[i].ctr < ctr)
      && (forall i :: 0 <= i < |items| ==> !items[i].elem.Junk?)
    }

    ghost function Elems(): seq<Item>
      reads this
    {
      ElemsOf(items)
    }

    method NextCtr() returns (c: nat)
      requires Valid() && ctr < MAX_CTR
      modifies this`ctr
      ensures Valid() && ctr == old(ctr) + 1
      ensures c == old(ctr)
    {
      c := ctr;
      ctr := ctr + 1;
    }

    method Append(elem: Item)
      requires Valid() && ctr < MAX_CTR && !elem.Junk?
      modifies this`ctr, this`items
      ensures Valid() && ctr == old(ctr) + 1 && Elems() == old(Elems()) + [elem]
      ensures |items| == |old(items)| + 1 && items[..|old(items)|] == old(items)
    {
      var c := NextCtr();
      items := items + [TestItem(c, elem)];
    }

    method Push(elem: Item) returns (r: Result<nat>)
      requires Valid() && ctr < MAX_CTR && !elem.Junk?
      modifies this`ctr, this`items
      ensures Valid() && PushContract(old(Elems()), elem, LenOf(elem), forcedError, r, Elems())
      ensures forcedError ==> r.Err? && Elems() == old(Elems()) && ctr == old(ctr)
      ensures !forcedError ==> r.Ok? && ctr == old(ctr) + 1
    {
      if forcedError {
        return Err(FlashWrite);
      }
      Append(elem);
      r := Ok(LenOf(elem));
    }

    method IterElems() returns (r: Result<TestStorageIter>)
      requires Valid()
      ensures IterContract(forcedError, r) && (r.Err? <==> forcedError)
      ensures r.Ok? ==> fresh(r.value) && r.value.sto == this && r.value.Valid()
      ensures r.Ok? ==> r.value.kept == [] && r.value.remain == items
    {
      if forcedError {
        return Err(FlashRead);
      }
      var iter := new TestStorageIter(this);
      r := Ok(iter);
    }

    /** Keep the items with another counter. */
    method RetainOthers(c: nat, ghost p: nat)
      requires Valid() && p < |items| && items[p].ctr == c
      modifies this`items
      ensures Valid() && items == old(items[..p] + items[p + 1..])
    {
      var all, left, i := items, [], 0;
      while i < |all|
        invariant 0 <= i <= |all|
        invariant left == if i <= p then all[..i] else all[..p] + all[p + 1..i]
      {
        if all[i].ctr != c {
          left := left + [all[i]];
        }
        i := i + 1;
      }
      items := left;
      assert forall k :: 0 <= k < |left| ==> left[k] == all[if k < p then k else k + 1];
    }
  }

  /** What an iteration yields, counters aside. */
  function ElemOf(r: Result<Option<TestItem>>): Result<Option<Item>> {
    match r
    case Err(error) => Err(error)
    case Ok(None) => Ok(None)
    case Ok(Some(item)) => Ok(Some(item.elem))
  }

  /** An iteration: what it has yet to yield is a copy made at its start. `kept` is what it has
      yielded and not removed. */
  class TestStorageIter {
    const sto: TestStorage
    var remain: seq<TestItem>
    ghost var kept: seq<TestItem>

    constructor (sto: TestStorage)
      requires sto.Valid()
      ensures this.sto == sto && Valid() && kept == [] && remain == sto.items
    {
      this.sto := sto;
      remain := sto.items;
      kept := [];
    }

    ghost predicate Valid()
      reads this, sto
    {
      sto.Valid() && sto.items == kept + remain
    }

    /** Yields the storage's elements in order: what has not been seen yet is what the storage holds
        behind the kept ones, removals notwithstanding. */
    method Next() returns (r: Result<Option<TestItem>>)
      requires Valid()
      modifies this
      ensures Valid() && (r.Err? <==> sto.forcedError)
      ensures NextContract(sto.Elems(), |old(kept)|, sto.forcedError, ElemOf(r))
      ensures r.Ok? && r.value.Some? ==> |old(kept)| < |sto.items| && r.value.value == sto.items[|old(kept)|]
      ensures kept == if r.Ok? && r.value.Some? then old(kept) + [r.value.value] else old(kept)
    {
      if sto.forcedError {
        return Err(FlashRead);
      }
      if remain == [] {
        return Ok(None);
      }
      r := Ok(Some(remain[0]));
      kept := kept + [remain[0]];
      remain := remain[1..];
    }

    /** Remove the item yielded last. It is exactly that position which goes: counters are unique. */
    method Invalidate(item: TestItem) returns (r: Result<()>)
      requires Valid() && kept != [] && kept[|kept| - 1] == item
      modifies sto`items, this`kept
      ensures Valid() && (r.Err? <==> sto.forcedError)
      ensures InvalidateContract(old(sto.Elems()), |old(kept)| - 1, sto.forcedError, r, sto.Elems())
      ensures kept == if r.Ok? then old(kept)[..|old(kept)| - 1] else old(kept)
    {
      if sto.forcedError {
        return Err(FlashWrite);
      }
      ghost var p := |kept| - 1;
      assert sto.items[p] == item;
      sto.RetainOthers(item.ctr, p);
      kept := kept[..p];
      r := Ok(());
    }
  }

  /** Writes a valid record: a start, data elements, and an end with the running checksum. */
  class RecordWriter {
    const sto: TestStorage
    const seqNo: SeqNo
    var crc: u32
    /** The elements the storage held before, and the data elements so far. */
    ghost const before: seq<Item>
    ghost var body: seq<Item>

    ghost predicate Valid()
      reads this, sto
    {
      && sto.Valid()
      && sto.Elems() == before + [Start(seqNo)] + body
      && (forall k :: 0 <= k < |body| ==> body[k].Data?)
      && crc == Update(CRC_INIT, Bytes(body))
    }

    constructor (sto: TestStorage, seqNo: SeqNo)
      requires sto.Valid() && sto.ctr < MAX_CTR
      modifies sto`ctr, sto`items
      ensures Valid() && this.sto == sto && this.seqNo == seqNo && before == old(sto.Elems()) && body == []
      ensures sto.ctr == old(sto.ctr) + 1
    {
      this.sto, this.seqNo, crc, before, body := sto, seqNo, CRC_INIT, sto.Elems(), [];
      new;
      sto.Append(Start(seqNo));
      assert Bytes(body) == [];
    }

    /** Add a data element with this key and this encoded value. The checksum covers both. */
    method AddDataElem(key: Key, value: seq<byte>)
      requires Valid() && sto.ctr < MAX_CTR
      modifies this, sto`ctr, sto`items
      ensures Valid() && sto.ctr == old(sto.ctr) + 1 && body == old(body) + [Data(EncodeKey(key) + value)]
    {
      hide EncodeKey, CrcStep;
      var encoded := EncodeKey(key);
      UpdateAppend(crc, encoded, value);
      UpdateAppend(CRC_INIT, Bytes(body), encoded + value);
      BytesOfPushed(body, Data(encoded + value));
      crc := Update(crc, encoded);
      crc := Update(crc, value);
      sto.Append(Data(encoded + value));
      body := body + [Data(encoded + value)];
    }

    /** Finish the record. It is one that a scan accepts, behind whatever was there before. */
    method EndWriteRecord()
      requires Valid() && sto.ctr < MAX_CTR
      modifies sto`ctr, sto`items
      ensures sto.Valid()
      ensures var w := [Start(seqNo)] + body + [End(seqNo, Crc(Bytes(body)))];
                && IsRecord(w) && sto.Elems() == before + w
                && GoodRecords(sto.Elems()) == GoodRecords(before) + {Appended(before, w)}
    {
      hide Bytes, Update;
      sto.Append(End(seqNo, Finalize(crc)));
      ghost var w := [Start(seqNo)] + body + [End(seqNo, Crc(Bytes(body)))];
      assert w[1..|w| - 1] == body;
      assert sto.Elems() == before + w;
      CompletedWrite(before, w);
    }
  }

  lemma BytesOfPushed(items: seq<Item>, item: Item)
    requires item.Data?
    ensures Bytes(items + [item]) == Bytes(items) + item.keyVal
  {
    assert (items + [item])[..|items|] == items;
  }
}
