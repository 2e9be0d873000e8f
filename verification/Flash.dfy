// The byte form of the log (flash.rs, consts and SerData of lib.rs): elements as byte strings in a
// flash queue.
module Flash {
  import opened Wrappers
  import opened Elements
  import opened KeyValue
  import opened Log
  import opened NodeSpec
  import opened ListSpec
  import opened Storage

  const ELEM_VERSION_V0: byte := 0x00
  const V0_START: byte := ELEM_VERSION_V0 + 0
  const V0_DATA: byte := ELEM_VERSION_V0 + 1
  const V0_END: byte := ELEM_VERSION_V0 + 2

  // ---- 32-bit integers, least significant byte first ----

  function LittleEndian(n: u32): (s: seq<byte>)
    ensures |s| == 4
  {
    [n % 0x100, n / 0x100 % 0x100, n / 0x100 / 0x100 % 0x100, n / 0x100 / 0x100 / 0x100]
  }

  function FromLittleEndian(s: seq<byte>): u32
    requires |s| == 4
  {
    Above(s[0], Above(s[1], Above(s[2], s[3])))
  }

  /** `low` in front of the number `high`. */
  function Above(low: byte, high: nat): (n: nat)
    ensures n % 0x100 == low && n / 0x100 == high
  {
    0x100 * high + low
  }

  lemma SplitLowest(n: nat)
    ensures Above(n % 0x100, n / 0x100) == n
  {
  }

  lemma LittleEndianRoundTrip(n: u32)
    ensures FromLittleEndian(LittleEndian(n)) == n
  {
    SplitLowest(n);
    SplitLowest(n / 0x100);
    SplitLowest(n / 0x100 / 0x100);
  }

  lemma FromLittleEndianRoundTrip(s: seq<byte>)
    requires |s| == 4
    ensures LittleEndian(FromLittleEndian(s)) == s
  {
    hide Above;
    var c := Above(s[2], s[3]);
    var b := Above(s[1], c);
    assert FromLittleEndian(s) == Above(s[0], b);
  }

  // ---- elements ----

  /** The bytes that are queued for an element, and those behind an undecodable entry. */
  function Encode(item: Item): seq<byte> {
    match item
    case Start(seqNo) => [V0_START] + LittleEndian(seqNo)
    case Data(keyVal) => [V0_DATA] + keyVal
    case End(seqNo, calcCrc) => [V0_END] + LittleEndian(seqNo) + LittleEndian(calcCrc)
    case Junk(raw) => raw
  }

  /** HalfElem::from_bytes, and the element it stands for. */
  function Decode(raw: seq<byte>): Item {
    if raw == [] then Junk(raw)
    else
      var rest := raw[1..];
      if raw[0] == V0_START then
        if |rest| == 4 && FromLittleEndian(rest) != 0 then Start(FromLittleEndian(rest)) else Junk(raw)
      else if raw[0] == V0_DATA then
        if rest == [] then Junk(raw) else Data(rest)
      else if raw[0] == V0_END then
        if |rest| == 8 && FromLittleEndian(rest[..4]) != 0
        then End(FromLittleEndian(rest[..4]), FromLittleEndian(rest[4..8]))
        else Junk(raw)
      else Junk(raw)
  }

  /** Decoding what is queued for an element gives it back, for every start, every end, and every data
      element but the one without key and value, which is undecodable. */
  lemma DecodeEncode(item: Item)
    requires !item.Junk?
    ensures Decode(Encode(item)) == if item == Data([]) then Junk(Encode(item)) else item
  {
    hide LittleEndian, FromLittleEndian;
    var raw := Encode(item);
    match item
    case Start(seqNo) =>
      LittleEndianRoundTrip(seqNo);
      assert raw[1..] == LittleEndian(seqNo);
    case End(seqNo, calcCrc) =>
      LittleEndianRoundTrip(seqNo);
      LittleEndianRoundTrip(calcCrc);
      var rest := raw[1..];
      assert rest == LittleEndian(seqNo) + LittleEndian(calcCrc);
      assert rest[..4] == LittleEndian(seqNo) && rest[4..8] == LittleEndian(calcCrc);
    case Data(keyVal) =>
      assert raw[1..] == keyVal;
  }

  /** Encoding whatever some bytes decode to gives the bytes back: nothing that is read is ambiguous. */
  lemma EncodeDecode(raw: seq<byte>)
    ensures Encode(Decode(raw)) == raw
  {
    hide LittleEndian, FromLittleEndian;
    if raw != [] {
      var rest := raw[1..];
      assert raw == [raw[0]] + rest;
      if |rest| == 4 { FromLittleEndianRoundTrip(rest); }
      if |rest| == 8 {
        FromLittleEndianRoundTrip(rest[..4]);
        FromLittleEndianRoundTrip(rest[4..8]);
        assert rest == rest[..4] + rest[4..8];
      }
    }
  }

  /** The number that four bytes stand for, least significant first. */
  function Number(b0: int, b1: int, b2: int, b3: int): int {
    b0 + 0x100 * b1 + 0x1_0000 * b2 + 0x100_0000 * b3
  }

  /** What a device holds for an element, byte by byte. */
  predicate OnDevice(raw: seq<byte>, item: Item) {
    match item
    case Start(seqNo) =>
      |raw| == 5 && raw[0] == 0x00 && seqNo == Number(raw[1], raw[2], raw[3], raw[4])
    case Data(keyVal) =>
      2 <= |raw| && raw[0] == 0x01 && keyVal == raw[1..]
    case End(seqNo, calcCrc) =>
      && |raw| == 9 && raw[0] == 0x02
      && seqNo == Number(raw[1], raw[2], raw[3], raw[4]) && calcCrc == Number(raw[5], raw[6], raw[7], raw[8])
    case Junk(_) => false
  }

  lemma FromLittleEndianIsNumber(s: seq<byte>)
    requires |s| == 4
    ensures FromLittleEndian(s) == Number(s[0], s[1], s[2], s[3])
  {
  }

  /** Bytes are decoded to an element exactly if they are what a device holds for it; all other bytes are
      undecodable. */
  lemma DecodesIff(raw: seq<byte>, item: Item)
    ensures Decode(raw) == item && !item.Junk? <==> OnDevice(raw, item)
  {
    hide FromLittleEndian;
    if raw != [] {
      var rest := raw[1..];
      if |rest| == 4 { FromLittleEndianIsNumber(rest); }
      if |rest| == 8 {
        FromLittleEndianIsNumber(rest[..4]);
        FromLittleEndianIsNumber(rest[4..8]);
      }
    }
  }

  /** The bytes queued for an element are those, except for a data element without content, for which only
      the header is. */
  lemma EncodesTo(item: Item)
    requires !item.Junk?
    ensures if item == Data([]) then Encode(item) == [0x01] else OnDevice(Encode(item), item)
  {
    hide Decode, LittleEndian;
    DecodeEncode(item);
    DecodesIff(Encode(item), item);
  }

  /** A node's element survives the queue, and its key and value survive the framing. */
  lemma NodeElementRoundTrip(n: Node)
    requires n.data.Some?
    ensures Decode(Encode(ElementOf(n))) == ElementOf(n)
    ensures SplitKeyValue(ElementOf(n).keyVal) == Some(KvPair(n.key, n.codec.encode(n.data.value)))
  {
    hide Encode, Decode, SplitKeyValue;
    SplitOfEntry(n.key, n.codec.encode(n.data.value));
    EncodedKeyIsNotEmpty(n.key);
    DecodeEncode(ElementOf(n));
  }

  function Encoded(items: seq<Item>): (queue: seq<seq<byte>>)
    ensures |queue| == |items|
  {
    seq(|items|, i requires 0 <= i < |items| => Encode(items[i]))
  }

  lemma {:induction false} WrittenIsDecodable(nodes: seq<Node>)
    requires AllWellFormed(nodes)
    ensures forall k :: 0 <= k < |Written(nodes)| ==> Decode(Encode(Written(nodes)[k])) == Written(nodes)[k]
  {
    hide Encode, Decode, ElementOf, WellFormed;
    if nodes != [] {
      WrittenIsDecodable(nodes[..|nodes| - 1]);
      var last := nodes[|nodes| - 1];
      if Initialised(last.state) {
        HasData(last);
        NodeElementRoundTrip(last);
      }
    }
  }

  lemma HasData(n: Node)
    requires WellFormed(n) && Initialised(n.state)
    ensures n.data.Some?
  {
  }

  /** A whole record survives the queue: what a write pushes is read back element for element. */
  lemma RecordRoundTrip(nodes: seq<Node>, s: SeqNo)
    requires AllWellFormed(nodes)
    ensures Decoded(Encoded(RecordFor(nodes, s))) == RecordFor(nodes, s)
  {
    hide Encode, Decode, Written, Crc, Bytes;
    var w, written := RecordFor(nodes, s), Written(nodes);
    WrittenIsDecodable(nodes);
    WrittenIsData(nodes);
    forall k | 0 <= k < |w| ensures Decode(Encode(w[k])) == w[k] {
      if 0 < k < |w| - 1 {
        assert w[k] == written[k - 1];
      } else {
        DecodeEncode(w[k]);
      }
    }
  }

  lemma EncodedKeyIsNotEmpty(key: Key)
    ensures EncodeKey(key) != []
  {
  }

  /** SerData::new: mark the first byte of a buffer as the header of a data element. */
  method NewSerData(data: array<byte>) returns (r: Option<Item>)
    modifies data
    ensures r.None? <==> data.Length == 0
    ensures r.Some? ==> r.value == Data(old(data[1..])) && Encode(r.value) == data[..]
    ensures r.Some? ==> data[0] == 0x01 && data[1..] == old(data[1..])
  {
    if data.Length == 0 {
      return None;
    }
    ghost var rest := data[1..];
    data[0] := V0_DATA;
    assert data[..] == [V0_DATA] + data[1..] && data[1..] == rest;
    r := Some(Data(data[1..]));
  }

  // ---- sizes ----

  function Max(a: nat, b: nat): (r: nat)
    ensures r == a || r == b
    ensures a <= r && b <= r
  {
    if a > b then a else b
  }

  function NextMultipleOf(n: nat, k: nat): (r: nat)
    requires 0 < k
    ensures n <= r < n + k && r % k == 0
  {
    MultipleMod(k, (n + k - 1) / k);
    k * ((n + k - 1) / k)
  }

  lemma MulMonotone(k: nat, a: int, b: int)
    requires a <= b
    ensures k * a <= k * b
  {
  }

  lemma MultipleMod(k: nat, q: nat)
    requires 0 < k
    ensures (k * q) % k == 0
  {
    var m := k * q;
    var d := q - m / k;
    assert k * d == m % k;
    if 1 <= d { MulMonotone(k, 1, d); }
    if d <= -1 { MulMonotone(k, d, -1); }
  }

  lemma LeastMultiple(n: nat, k: nat, d: nat)
    requires 0 < k && n <= k * d
    ensures NextMultipleOf(n, k) <= k * d
  {
    var q := (n + k - 1) / k;
    if d < q {
      MulMonotone(k, d, q - 1);
    }
  }

  /** A flash device: its erase size, its word sizes, and what the queue adds to each entry. */
  datatype Geometry = Geometry(eraseSize: nat, writeSize: nat, readSize: nat, itemOverhead: nat) {
    predicate Valid() {
      && 0 < writeSize && 0 < readSize
      && eraseSize % Word() == 0 && itemOverhead % Word() == 0
      && 2 * Word() + itemOverhead <= eraseSize
    }

    function Word(): (w: nat)
      ensures w == writeSize || w == readSize
      ensures writeSize <= w && readSize <= w
    {
      Max(writeSize, readSize)
    }

    function SizeWithOverhead(len: nat): (size: nat)
      requires 0 < writeSize
      ensures itemOverhead + len <= size < itemOverhead + len + Word() && (size - itemOverhead) % Word() == 0
    {
      itemOverhead + NextMultipleOf(len, Word())
    }

    function MaxElemSize(): nat
      requires Valid()
    {
      eraseSize - 2 * Word() - itemOverhead
    }
  }

  /** An element takes up no more than a sector, next to the sector's own two words, exactly if it is no
      longer than the maximum. */
  lemma MaxElemSizeIsExact(g: Geometry, len: nat)
    requires g.Valid()
    ensures len <= g.MaxElemSize() <==> 2 * g.Word() + g.SizeWithOverhead(len) <= g.eraseSize
  {
    var k := g.Word();
    var e, o := g.eraseSize / k, g.itemOverhead / k;
    assert g.eraseSize == k * e && g.itemOverhead == k * o;
    if len <= g.MaxElemSize() {
      assert g.MaxElemSize() == k * (e - 2 - o);
      assert 0 <= e - 2 - o by {
        if e - 2 - o < 0 { MulMonotone(k, e - 2 - o, -1); }
      }
      LeastMultiple(len, k, e - 2 - o);
    }
  }

  /** check_node_size. */
  ghost predicate CheckNodeSize(g: Geometry, n: Node)
    requires g.Valid() && n.data.Some?
  {
    1 + KeyLen(n.key) + |n.codec.encode(n.data.value)| <= g.MaxElemSize()
  }

  /** A node that passes the check can be serialized into any buffer of the maximum size, its queued
      bytes are at most that long, and they fit into a sector. */
  lemma CheckedNodeFits(g: Geometry, n: Node, bufLen: nat)
    requires g.Valid() && n.data.Some? && g.MaxElemSize() <= bufLen
    ensures CheckNodeSize(g, n) ==> Fits(n, bufLen)
    ensures CheckNodeSize(g, n) <==> 2 * g.Word() + g.SizeWithOverhead(|Encode(ElementOf(n))|) <= g.eraseSize
  {
    KeyLenIsLength(n.key);
    MaxElemSizeIsExact(g, |Encode(ElementOf(n))|);
  }

  lemma KeyLenIsLength(key: Key)
    ensures |EncodeKey(key)| == KeyLen(key)
  {
  }

  // ---- the queue ----

  /** The entries of a queue of byte strings. */
  function Decoded(queue: seq<seq<byte>>): (items: seq<Item>)
    ensures |items| == |queue|
  {
    seq(|queue|, i requires 0 <= i < |queue| => Decode(queue[i]))
  }

  /** What an iteration yields, sizes aside. */
  function ItemOf(r: Result<Option<(Item, nat)>>): Result<Option<Item>> {
    match r
    case Err(error) => Err(error)
    case Ok(None) => Ok(None)
    case Ok(Some(entry)) => Ok(Some(entry.0))
  }

  class FlashQueue {
    var queue: seq<seq<byte>>
    const geometry: Geometry
    /** Whether the device may fail. */
    const faulty: bool

    constructor (geometry: Geometry, faulty: bool)
      ensures queue == [] && this.geometry == geometry && this.faulty == faulty
    {
      this.queue, this.geometry, this.faulty := [], geometry, faulty;
    }

    function Items(): seq<Item>
      reads this
    {
      Decoded(queue)
    }

    function SizeOf(item: Item): nat
      requires geometry.Valid()
    {
      geometry.SizeWithOverhead(|Encode(item)|)
    }

    /** The bytes of an element, assembled in a scratch buffer. */
    method Assemble(item: Item) returns (raw: seq<byte>)
      requires !item.Junk?
      ensures raw == Encode(item)
    {
      var buf := new byte[9](_ => 0);
      match item {
        case Start(seqNo) =>
          buf[0] := V0_START;
          Copy4(buf, 1, LittleEndian(seqNo));
          raw := buf[..5];
          assert raw == [buf[0]] + buf[1..5];
        case Data(keyVal) =>
          raw := [V0_DATA] + keyVal;
        case End(seqNo, calcCrc) =>
          buf[0] := V0_END;
          Copy4(buf, 1, LittleEndian(seqNo));
          ghost var front := buf[..5];
          assert front == [V0_END] + buf[1..5];
          Copy4(buf, 5, LittleEndian(calcCrc));
          raw := buf[..];
          assert raw == buf[..5] + buf[5..9];
      }
    }

    /** Push an element. Afterwards the queue yields that element at its end, unless it is a data element
        without content, which is queued but cannot be decoded. */
    method Push(item: Item) returns (r: Result<nat>)
      requires !item.Junk? && geometry.Valid()
      modifies this
      ensures var read := if item == Data([]) then Junk(Encode(item)) else item;
                PushContract(old(Items()), read, SizeOf(item), faulty, r, Items())
      ensures queue == old(queue) || (|queue| == |old(queue)| + 1 && queue[..|old(queue)|] == old(queue))
      ensures queue in {old(queue), old(queue) + [Encode(item)]}
      ensures r.Ok? ==>
                |queue| == |old(queue)| + 1 && r.value == geometry.SizeWithOverhead(|queue[|old(queue)|]|)
      ensures |queue| == |old(queue)| + 1 ==>
                if item == Data([]) then queue[|old(queue)|] == [0x01] else OnDevice(queue[|old(queue)|], item)
    {
      hide Encode, Decode, OnDevice;
      var raw := Assemble(item);
      DecodeEncode(item);
      EncodesTo(item);
      DecodedPush(queue, raw);
      var fails := Fails(faulty);
      var stored := true;
      if fails {
        stored := Fails(faulty);
      }
      if stored {
        queue := queue + [raw];
      }
      r := if fails then Err(FlashWrite) else Ok(geometry.SizeWithOverhead(|raw|));
    }

    method IterElems() returns (r: Result<()>)
      ensures IterContract(faulty, r)
    {
      var fails := Fails(faulty);
      r := if fails then Err(FlashRead) else Ok(());
    }

    /** The entry at position `pos` of an iteration and its size, or `None` at the end. */
    method Next(pos: nat) returns (r: Result<Option<(Item, nat)>>)
      requires pos <= |queue| && geometry.Valid()
      ensures NextContract(Items(), pos, faulty, ItemOf(r))
      ensures r.Ok? && r.value.Some? ==> r.value.value.1 == geometry.SizeWithOverhead(|queue[pos]|)
      ensures r.Ok? && r.value.Some? ==> r.value.value.1 == SizeOf(r.value.value.0)
      ensures r.Ok? && r.value.Some? ==>
                && (!r.value.value.0.Junk? ==> OnDevice(queue[pos], r.value.value.0))
                && (forall item :: OnDevice(queue[pos], item) ==> r.value.value.0 == item)
    {
      hide Encode, Decode, OnDevice;
      var fails := Fails(faulty);
      if fails {
        return Err(FlashRead);
      }
      if pos == |queue| {
        return Ok(None);
      }
      EncodeDecode(queue[pos]);
      forall item ensures Decode(queue[pos]) == item && !item.Junk? <==> OnDevice(queue[pos], item) {
        DecodesIff(queue[pos], item);
      }
      r := Ok(Some((Decode(queue[pos]), geometry.SizeWithOverhead(|queue[pos]|))));
    }

    /** Pop the entry an iteration stands on. */
    method Invalidate(pos: nat) returns (r: Result<()>)
      requires pos < |queue|
      modifies this
      ensures InvalidateContract(old(Items()), pos, faulty, r, Items())
    {
      hide Encode, Decode;
      DecodedRemoval(queue, pos);
      var fails := Fails(faulty);
      var done := true;
      if fails {
        done := Fails(faulty);
      }
      if done {
        queue := queue[..pos] + queue[pos + 1..];
      }
      r := if fails then Err(FlashWrite) else Ok(());
    }
  }

  lemma DecodedPush(queue: seq<seq<byte>>, raw: seq<byte>)
    ensures Decoded(queue + [raw]) == Decoded(queue) + [Decode(raw)]
  {
  }

  lemma DecodedRemoval(queue: seq<seq<byte>>, pos: nat)
    requires pos < |queue|
    ensures Decoded(queue[..pos] + queue[pos + 1..]) == Decoded(queue)[..pos] + Decoded(queue)[pos + 1..]
  {
    hide Decode;
  }

  method Copy4(buf: array<byte>, at: nat, bytes: seq<byte>)
    requires |bytes| == 4 && at + 4 <= buf.Length
    modifies buf
    ensures buf[at..at + 4] == bytes && buf[..at] == old(buf[..at])
  {
    forall i | 0 <= i < 4 {
      buf[at + i] := bytes[i];
    }
    assert forall i :: 0 <= i < at ==> buf[i] == old(buf[i]);
  }
}
