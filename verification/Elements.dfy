// The elements of the log (lib.rs): bytes, the checksum, and the element type.
module Elements {

  type byte = x: int | 0 <= x < 0x100
  type u32 = x: int | 0 <= x < 0x1_0000_0000

  /** Sequence numbers are non-zero 32-bit integers. */
  type SeqNo = x: int | 1 <= x < 0x1_0000_0000 witness 1

  const MAX_SEQ: SeqNo := 0xFFFF_FFFF

  /** One entry of the storage queue, as its iterator presents it. `Junk` is an entry the storage
      still yields but cannot decode. `keyVal` is a data element without its header byte. */
  datatype Item =
    | Junk(raw: seq<byte>)
    | Start(seqNo: SeqNo)
    | Data(keyVal: seq<byte>)
    | End(seqNo: SeqNo, calcCrc: u32)

  // ---- CRC-32/CKSUM: polynomial 0x04C11DB7, initial value 0, not reflected, final complement ----

  const POLY: u32 := 0x04C1_1DB7
  const CRC_INIT: u32 := 0

  function Xor(a: nat, b: nat): nat {
    if a == 0 then b
    else if b == 0 then a
    else (if a % 2 == b % 2 then 0 else 1) + 2 * Xor(a / 2, b / 2)
  }

  function ShiftOut(c: u32, bits: nat): u32
    decreases bits, c
  {
    if bits == 0 then c
    else if c < 0x8000_0000 then ShiftOut(2 * c, bits - 1)
    else ShiftOut(Xor(2 * c % 0x1_0000_0000, POLY) % 0x1_0000_0000, bits - 1)
  }

  function CrcStep(c: u32, b: byte): u32 {
    ShiftOut(Xor(c, b * 0x100_0000) % 0x1_0000_0000, 8)
  }

  /** The digest after feeding `data` to a digest `c`: a left fold over the bytes. */
  function Update(c: u32, data: seq<byte>): u32 {
    if data == [] then c else CrcStep(Update(c, data[..|data| - 1]), data[|data| - 1])
  }

  function Finalize(c: u32): u32 {
    0xFFFF_FFFF - c
  }

  function Crc(data: seq<byte>): u32 {
    Finalize(Update(CRC_INIT, data))
  }

  /** Feeding two chunks one after the other is feeding their concatenation. */
  lemma {:induction false} UpdateAppend(c: u32, a: seq<byte>, b: seq<byte>)
    ensures Update(c, a + b) == Update(Update(c, a), b)
  {
    if b == [] {
      assert a + b == a;
    } else {
      assert (a + b)[..|a + b| - 1] == a + b[..|b| - 1];
      UpdateAppend(c, a, b[..|b| - 1]);
    }
  }

  // ---- sizes ----

  /** Total size of a stretch of the queue under a size function for single entries. */
  function Total(size: Item -> nat, items: seq<Item>): nat {
    if items == [] then 0 else Total(size, items[..|items| - 1]) + size(items[|items| - 1])
  }

  lemma {:induction false} TotalAppend(size: Item -> nat, a: seq<Item>, b: seq<Item>)
    ensures Total(size, a + b) == Total(size, a) + Total(size, b)
  {
    if b == [] {
      assert a + b == a;
    } else {
      assert (a + b)[..|a + b| - 1] == a + b[..|b| - 1];
      TotalAppend(size, a, b[..|b| - 1]);
    }
  }

  lemma TotalOfNone(size: Item -> nat)
    ensures Total(size, []) == 0
  {
  }

  lemma TotalPush(size: Item -> nat, items: seq<Item>, from: nat, p: nat)
    requires from <= p < |items|
    ensures Total(size, items[from..p + 1]) == Total(size, items[from..p]) + size(items[p])
  {
    assert items[from..p + 1][..p - from] == items[from..p];
  }
}
