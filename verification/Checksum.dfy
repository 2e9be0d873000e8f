// What the checksum computes (Crc32 in lib.rs, which is CRC-32/CKSUM): the remainder of the data, as a
// polynomial over the field of two elements, by a fixed polynomial of degree 32.
module Checksums {
  import opened Elements
  import opened KeyValue
  import opened Log

  // ---- polynomials over the field of two elements, one coefficient a bit ----

  function Bit(n: nat, i: nat): nat {
    if i == 0 then n % 2 else Bit(n / 2, i - 1)
  }

  /** Adding polynomials is adding coefficients without carry. */
  lemma {:induction false} XorBit(a: nat, b: nat, i: nat)
    ensures Bit(Xor(a, b), i) == (Bit(a, i) + Bit(b, i)) % 2
  {
    XorHalves(a, b);
    if i > 0 {
      XorBit(a / 2, b / 2, i - 1);
    } else {
      assert Bit(a, 0) == a % 2 && Bit(b, 0) == b % 2;
    }
    if a == 0 { ZeroBit(i); }
    if b == 0 { ZeroBit(i); }
  }

  lemma {:induction false} ZeroBit(i: nat)
    ensures Bit(0, i) == 0
  {
    if i > 0 { ZeroBit(i - 1); }
  }

  lemma HalvesOf(low: nat, high: nat)
    requires low < 2
    ensures (low + 2 * high) / 2 == high && (low + 2 * high) % 2 == low
  {
  }

  lemma SumParity(a: nat, b: nat)
    ensures (a + b) % 2 == if a % 2 == b % 2 then 0 else 1
  {
  }

  lemma XorHalves(a: nat, b: nat)
    ensures Xor(a, b) / 2 == Xor(a / 2, b / 2)
    ensures Xor(a, b) % 2 == (a + b) % 2
  {
    SumParity(a, b);
    if a == 0 {
      assert Xor(a / 2, b / 2) == b / 2;
    } else if b == 0 {
      assert Xor(a / 2, b / 2) == a / 2;
    } else {
      var high := Xor(a / 2, b / 2);
      hide Xor;
      assert Xor(a, b) == (if a % 2 == b % 2 then 0 else 1) + 2 * high by { XorUnfolds(a, b); }
      HalvesOf(if a % 2 == b % 2 then 0 else 1, high);
    }
  }

  lemma XorUnfolds(a: nat, b: nat)
    requires a != 0 && b != 0
    ensures Xor(a, b) == (if a % 2 == b % 2 then 0 else 1) + 2 * Xor(a / 2, b / 2)
  {
  }

  lemma {:induction false} SameHalves(a: nat, b: nat)
    requires a / 2 == b / 2 && a % 2 == b % 2
    ensures a == b
  {
  }

  lemma {:induction false} XorCommutes(a: nat, b: nat)
    ensures Xor(a, b) == Xor(b, a)
  {
    if a != 0 && b != 0 { XorCommutes(a / 2, b / 2); }
  }

  lemma {:induction false} XorAssociates(a: nat, b: nat, c: nat)
    ensures Xor(Xor(a, b), c) == Xor(a, Xor(b, c))
    decreases a + b + c
  {
    if a != 0 && b != 0 && c != 0 {
      XorAssociates(a / 2, b / 2, c / 2);
      XorHalves(a, b);
      XorHalves(b, c);
      XorHalves(Xor(a, b), c);
      XorHalves(a, Xor(b, c));
      SameHalves(Xor(Xor(a, b), c), Xor(a, Xor(b, c)));
    }
  }

  lemma {:induction false} XorSelf(a: nat)
    ensures Xor(a, a) == 0
  {
    if a != 0 { XorSelf(a / 2); }
  }

  lemma XorDouble(a: nat, b: nat)
    ensures Xor(2 * a, 2 * b) == 2 * Xor(a, b)
  {
    XorHalves(2 * a, 2 * b);
    SameHalves(Xor(2 * a, 2 * b), 2 * Xor(a, b));
  }

  function Power2(k: nat): nat
    ensures 0 < Power2(k)
  {
    if k == 0 then 1 else 2 * Power2(k - 1)
  }

  lemma {:induction false} XorBound(a: nat, b: nat, k: nat)
    requires a < Power2(k) && b < Power2(k)
    ensures Xor(a, b) < Power2(k)
  {
    if a != 0 && b != 0 {
      XorBound(a / 2, b / 2, k - 1);
    }
  }

  /** `a` times the `k`-th power of the indeterminate. */
  function Shift(a: nat, k: nat): nat
    decreases k
  {
    if k == 0 then a else Shift(2 * a, k - 1)
  }

  lemma {:induction false} ShiftDoubles(a: nat, k: nat)
    ensures Shift(a, k + 1) == 2 * Shift(a, k)
    decreases k
  {
    if k > 0 { ShiftDoubles(2 * a, k - 1); }
  }

  /** Polynomials without a coefficient in common. */
  lemma {:induction false} XorDisjoint(a: nat, b: nat, k: nat)
    requires b < Power2(k)
    ensures Xor(Shift(a, k), b) == Shift(a, k) + b
  {
    var n := Shift(a, k);
    if k > 0 {
      XorDisjoint(a, b / 2, k - 1);
      ShiftDoubles(a, k - 1);
      XorHalves(n, b);
      SameHalves(Xor(n, b), n + b);
    }
  }

  lemma XorCancels(a: nat, b: nat)
    ensures Xor(Xor(a, b), b) == a && Xor(a, Xor(a, b)) == b
  {
    XorAssociates(a, b, b);
    XorSelf(b);
    XorAssociates(a, a, b);
    XorSelf(a);
  }

  function Times(q: nat, p: nat): nat {
    if q == 0 then 0 else Xor(if q % 2 == 1 then p else 0, 2 * Times(q / 2, p))
  }

  lemma XorSwap(a: nat, b: nat, c: nat, d: nat)
    ensures Xor(Xor(a, b), Xor(c, d)) == Xor(Xor(a, c), Xor(b, d))
  {
    XorAssociates(a, b, Xor(c, d));
    XorAssociates(b, c, d);
    XorCommutes(b, c);
    XorAssociates(c, b, d);
    XorAssociates(a, c, Xor(b, d));
  }

  lemma {:induction false} TimesDistributes(q: nat, r: nat, p: nat)
    ensures Times(Xor(q, r), p) == Xor(Times(q, p), Times(r, p))
    decreases q + r
  {
    if q != 0 && r != 0 {
      var a, b := if q % 2 == 1 then p else 0, if r % 2 == 1 then p else 0;
      TimesDistributes(q / 2, r / 2, p);
      XorHalves(q, r);
      XorSwap(a, 2 * Times(q / 2, p), b, 2 * Times(r / 2, p));
      XorDouble(Times(q / 2, p), Times(r / 2, p));
      XorSelf(p);
      TimesStep(Xor(q, r), p);
    }
  }

  lemma TimesStep(q: nat, p: nat)
    ensures Times(q, p) == Xor(if q % 2 == 1 then p else 0, 2 * Times(q / 2, p))
  {
  }

  lemma TimesDouble(q: nat, p: nat)
    ensures Times(2 * q, p) == 2 * Times(q, p)
  {
    TimesStep(2 * q, p);
  }

  // ---- remainders ----

  /** `a` and `b` differ by a multiple of x^32 + x^26 + x^23 + x^22 + x^16 + x^12 + x^11 + x^10 + x^8 + x^7
      + x^5 + x^4 + x^2 + x + 1. */
  ghost predicate Congruent(a: nat, b: nat) {
    exists q: nat :: a == Xor(Times(q, 0x1_04C1_1DB7), b)
  }

  lemma SameIsCongruent(a: nat)
    ensures Congruent(a, a)
  {
    assert a == Xor(Times(0, 0x1_04C1_1DB7), a);
  }

  lemma CongruentThrough(a: nat, b: nat, c: nat)
    requires Congruent(a, b) && Congruent(b, c)
    ensures Congruent(a, c)
  {
    hide Xor, Times;
    var q: nat :| a == Xor(Times(q, 0x1_04C1_1DB7), b);
    var r: nat :| b == Xor(Times(r, 0x1_04C1_1DB7), c);
    TimesDistributes(q, r, 0x1_04C1_1DB7);
    XorAssociates(Times(q, 0x1_04C1_1DB7), Times(r, 0x1_04C1_1DB7), c);
    assert a == Xor(Times(Xor(q, r), 0x1_04C1_1DB7), c);
  }

  lemma CongruentXor(a: nat, b: nat, c: nat)
    requires Congruent(a, b)
    ensures Congruent(Xor(a, c), Xor(b, c))
  {
    hide Xor, Times;
    var q: nat :| a == Xor(Times(q, 0x1_04C1_1DB7), b);
    XorAssociates(Times(q, 0x1_04C1_1DB7), b, c);
  }

  lemma CongruentDouble(a: nat, b: nat)
    requires Congruent(a, b)
    ensures Congruent(2 * a, 2 * b)
  {
    hide Xor, Times;
    var q: nat :| a == Xor(Times(q, 0x1_04C1_1DB7), b);
    TimesDouble(q, 0x1_04C1_1DB7);
    XorDouble(Times(q, 0x1_04C1_1DB7), b);
    assert 2 * a == Xor(Times(2 * q, 0x1_04C1_1DB7), 2 * b);
  }

  lemma {:induction false} CongruentShift(a: nat, b: nat, k: nat)
    requires Congruent(a, b)
    ensures Congruent(Shift(a, k), Shift(b, k))
    decreases k
  {
    hide Congruent;
    if k > 0 {
      CongruentDouble(a, b);
      CongruentShift(2 * a, 2 * b, k - 1);
    }
  }

  lemma ShiftByByte(a: nat)
    ensures Shift(a, 8) == 0x100 * a
  {
    assert Shift(a, 8) == Shift(2 * a, 7) == Shift(4 * a, 6) == Shift(8 * a, 5) == Shift(0x10 * a, 4);
    assert Shift(0x10 * a, 4) == Shift(0x20 * a, 3) == Shift(0x40 * a, 2) == Shift(0x80 * a, 1);
  }

  lemma ShiftByWord(a: nat)
    ensures Shift(a, 32) == 0x1_0000_0000 * a
  {
    ShiftByByte(a);
    ShiftByByte(0x100 * a);
    ShiftByByte(0x1_0000 * a);
    ShiftByByte(0x100_0000 * a);
    ShiftAdds(a, 8, 8);
    ShiftAdds(a, 16, 8);
    ShiftAdds(a, 24, 8);
  }

  lemma {:induction false} ShiftAdds(a: nat, j: nat, k: nat)
    ensures Shift(a, j + k) == Shift(Shift(a, j), k)
    decreases j
  {
    if j > 0 { ShiftAdds(2 * a, j - 1, k); }
  }

  lemma WordBound()
    ensures Power2(8) == 0x100 && Power2(32) == 0x1_0000_0000
  {
    assert Power2(8) == 0x100;
    assert Power2(16) == 0x1_0000;
    assert Power2(24) == 0x100_0000;
  }

  lemma {:induction false} XorShift(a: nat, b: nat, k: nat)
    ensures Xor(Shift(a, k), Shift(b, k)) == Shift(Xor(a, b), k)
    decreases k
  {
    if k > 0 {
      XorDouble(a, b);
      XorShift(2 * a, 2 * b, k - 1);
    }
  }

  /** One bit shifted out of the register is one multiplication by the indeterminate. */
  lemma ShiftOutOne(c: u32)
    ensures Congruent(2 * c, ShiftOut(c, 1))
  {
    hide Xor, Times;
    if c < 0x8000_0000 {
      SameIsCongruent(2 * c);
    } else {
      var low, poly := 2 * c - 0x1_0000_0000, 0x04C1_1DB7;
      WordBound();
      XorBound(low, poly, 32);
      ShiftByWord(1);
      XorDisjoint(1, low, 32);
      XorDisjoint(1, poly, 32);
      XorSwap(0x1_0000_0000, poly, low, poly);
      XorSelf(poly);
      XorZero(2 * c);
      TimesOne(0x1_04C1_1DB7);
      assert 2 * c == Xor(Times(1, 0x1_04C1_1DB7), Xor(low, poly));
    }
  }

  lemma XorZero(a: nat)
    ensures Xor(a, 0) == a && Xor(0, a) == a
  {
  }

  lemma TimesOne(p: nat)
    ensures Times(1, p) == p
  {
    TimesStep(1, p);
    XorZero(p);
  }

  lemma ShiftOutSteps(c: u32, bits: nat)
    requires 0 < bits
    ensures ShiftOut(c, bits) == ShiftOut(ShiftOut(c, 1), bits - 1)
  {
    hide Xor;
  }

  lemma {:induction false} ShiftOutIsShift(c: u32, bits: nat)
    ensures Congruent(Shift(c, bits), ShiftOut(c, bits))
    decreases bits
  {
    hide Congruent, ShiftOut;
    if bits == 0 {
      SameIsCongruent(c);
      NothingShiftedOut(c);
    } else {
      ShiftOutSteps(c, bits);
      ShiftOutOne(c);
      CongruentShift(2 * c, ShiftOut(c, 1), bits - 1);
      ShiftOutIsShift(ShiftOut(c, 1), bits - 1);
      CongruentThrough(Shift(2 * c, bits - 1), Shift(ShiftOut(c, 1), bits - 1), ShiftOut(ShiftOut(c, 1), bits - 1));
    }
  }

  lemma NothingShiftedOut(c: u32)
    ensures ShiftOut(c, 0) == c
  {
  }

  lemma StepIsCongruent(c: u32, b: byte)
    ensures Congruent(Xor(0x100 * c, 0x1_0000_0000 * b), CrcStep(c, b))
  {
    hide Congruent, Xor, ShiftOut;
    var m := 0x100_0000 * b;
    WordBound();
    XorBound(c, m, 32);
    ShiftOutIsShift(Xor(c, m), 8);
    XorShift(c, m, 8);
    ShiftByByte(c);
    ShiftByByte(m);
  }

  lemma AppendByte(v: nat, b: byte)
    ensures Xor(0x100 * (0x1_0000_0000 * v), 0x1_0000_0000 * b) == 0x1_0000_0000 * (0x100 * v + b)
  {
    hide Xor, Shift;
    WordBound();
    ShiftByByte(v);
    XorDisjoint(v, b, 8);
    XorShift(0x100 * v, b, 32);
    ShiftByWord(0x100 * v);
    ShiftByWord(b);
    ShiftByWord(0x100 * v + b);
  }

  lemma {:induction false} DigestIsCongruent(data: seq<byte>)
    ensures Congruent(0x1_0000_0000 * FromBigEndian(data), Update(0, data))
  {
    hide Congruent, Xor, CrcStep;
    if data == [] {
      SameIsCongruent(0);
    } else {
      var front, b := data[..|data| - 1], data[|data| - 1];
      var v, c: nat := FromBigEndian(front), Update(0, front);
      var m: nat := b;
      DigestIsCongruent(front);
      CongruentShift(0x1_0000_0000 * v, c, 8);
      ShiftByByte(0x1_0000_0000 * v);
      ShiftByByte(c);
      CongruentXor(0x100 * (0x1_0000_0000 * v), 0x100 * c, 0x1_0000_0000 * m);
      AppendByte(v, b);
      StepIsCongruent(c, b);
      CongruentThrough(0x1_0000_0000 * (0x100 * v + m), Xor(0x100 * c, 0x1_0000_0000 * m), CrcStep(c, b));
    }
  }

  /** `r` is what is left of `n` after division by that polynomial. */
  ghost predicate IsRemainder(n: nat, r: nat) {
    r < 0x1_0000_0000 && Congruent(n, r)
  }

  /** For all data, the complement of the checksum is the remainder of the data times x^32. The data are a
      polynomial as their bytes follow each other, the first bit that of the highest power. */
  lemma ChecksumIsRemainder(data: seq<byte>)
    ensures IsRemainder(0x1_0000_0000 * FromBigEndian(data), 0xFFFF_FFFF - Crc(data))
  {
    hide Congruent, Update;
    DigestIsCongruent(data);
  }

  // ---- there is only one remainder ----

  lemma {:induction false} XorTop(a: nat, b: nat, m: nat)
    requires a < Power2(m) && Power2(m) <= b < Power2(m + 1)
    ensures Power2(m) <= Xor(a, b) < Power2(m + 1)
  {
    if m > 0 {
      XorTop(a / 2, b / 2, m - 1);
      XorHalves(a, b);
    }
  }

  lemma {:induction false} PowersGrow(j: nat, k: nat)
    requires j <= k
    ensures Power2(j) <= Power2(k)
  {
    if j < k { PowersGrow(j, k - 1); }
  }

  lemma {:induction false} TimesDegree(q: nat, p: nat, k: nat, m: nat)
    requires Power2(k) <= q < Power2(k + 1) && Power2(m) <= p < Power2(m + 1)
    ensures Power2(k + m) <= Times(q, p) < Power2(k + m + 1)
  {
    hide Xor;
    if k == 0 {
      TimesOne(p);
    } else {
      var t := Times(q / 2, p);
      TimesDegree(q / 2, p, k - 1, m);
      TimesStep(q, p);
      PowersGrow(m + 1, k + m);
      XorTop(if q % 2 == 1 then p else 0, 2 * t, k + m);
    }
  }

  lemma {:induction false} HasDegree(q: nat) returns (k: nat)
    requires 0 < q
    ensures Power2(k) <= q < Power2(k + 1)
  {
    if q == 1 {
      k := 0;
    } else {
      k := HasDegree(q / 2);
      k := k + 1;
    }
  }

  /** A remainder is determined by what is divided. */
  lemma RemainderIsUnique(n: nat, r: nat, r': nat)
    requires IsRemainder(n, r) && IsRemainder(n, r')
    ensures r == r'
  {
    hide Xor, Times, Power2;
    var p := 0x1_04C1_1DB7;
    var q: nat :| n == Xor(Times(q, 0x1_04C1_1DB7), r);
    var q': nat :| n == Xor(Times(q', 0x1_04C1_1DB7), r');
    XorSwap(Times(q, p), r, Times(q', p), r');
    XorSelf(n);
    TimesDistributes(q, q', p);
    var d, t := Xor(q, q'), Xor(r, r');
    assert Xor(Times(d, p), t) == 0;
    XorIsZero(Times(d, p), t);
    WordBound();
    XorBound(r, r', 32);
    if 0 < d {
      var k := HasDegree(d);
      Degree32();
      TimesDegree(d, p, k, 32);
      PowersGrow(32, k + 32);
    } else {
      TimesZero(p);
    }
    XorIsZero(r, r');
  }

  lemma TimesZero(p: nat)
    ensures Times(0, p) == 0
  {
  }

  lemma Degree32()
    ensures Power2(32) <= 0x1_04C1_1DB7 < Power2(33)
  {
    WordBound();
    assert Power2(33) == 2 * Power2(32);
  }

  lemma XorIsZero(a: nat, b: nat)
    ensures Xor(a, b) == 0 ==> a == b
  {
    if Xor(a, b) == 0 {
      XorCancels(a, b);
      XorZero(b);
    }
  }

  // ---- one byte changed ----

  lemma ShiftOutOneInjective(c: u32, d: u32)
    requires ShiftOut(c, 1) == ShiftOut(d, 1)
    ensures c == d
  {
    hide Xor;
    ShiftedOut(c);
    ShiftedOut(d);
    if 0x8000_0000 <= c && 0x8000_0000 <= d {
      XorCancels(2 * c - 0x1_0000_0000, 0x04C1_1DB7);
      XorCancels(2 * d - 0x1_0000_0000, 0x04C1_1DB7);
    }
  }

  /** A bit shifted out leaves an odd number, none an even one. */
  lemma ShiftedOut(c: u32)
    ensures ShiftOut(c, 1) == if c < 0x8000_0000 then 2 * c else Xor(2 * c - 0x1_0000_0000, 0x04C1_1DB7)
    ensures ShiftOut(c, 1) % 2 == if c < 0x8000_0000 then 0 else 1
  {
    hide Xor;
    if 0x8000_0000 <= c {
      WordBound();
      XorBound(2 * c - 0x1_0000_0000, 0x04C1_1DB7, 32);
      XorHalves(2 * c - 0x1_0000_0000, 0x04C1_1DB7);
    }
  }

  lemma {:induction false} ShiftOutInjective(c: u32, d: u32, bits: nat)
    requires ShiftOut(c, bits) == ShiftOut(d, bits)
    ensures c == d
    decreases bits
  {
    hide ShiftOut;
    if bits == 0 {
      NothingShiftedOut(c);
      NothingShiftedOut(d);
    } else {
      ShiftOutSteps(c, bits);
      ShiftOutSteps(d, bits);
      ShiftOutInjective(ShiftOut(c, 1), ShiftOut(d, 1), bits - 1);
      ShiftOutOneInjective(c, d);
    }
  }

  /** A step of the digest loses neither what was there nor the byte. */
  lemma StepInjective(c: u32, b: byte, d: u32, e: byte)
    requires CrcStep(c, b) == CrcStep(d, e)
    ensures (b == e ==> c == d) && (c == d ==> b == e)
  {
    hide Xor, ShiftOut;
    var m, n := 0x100_0000 * b, 0x100_0000 * e;
    WordBound();
    XorBound(c, m, 32);
    XorBound(d, n, 32);
    ShiftOutInjective(Xor(c, m), Xor(d, n), 8);
    XorCancels(c, m);
    XorCancels(d, n);
  }

  lemma {:induction false} UpdateInjective(c: u32, d: u32, data: seq<byte>)
    requires Update(c, data) == Update(d, data)
    ensures c == d
  {
    hide CrcStep;
    if data != [] {
      var front := data[..|data| - 1];
      StepInjective(Update(c, front), data[|data| - 1], Update(d, front), data[|data| - 1]);
      UpdateInjective(c, d, front);
    }
  }

  /** Changing any one byte of any data changes the checksum. */
  lemma OneByteChangesChecksum(before: seq<byte>, b: byte, e: byte, after: seq<byte>)
    requires b != e
    ensures Crc(before + [b] + after) != Crc(before + [e] + after)
  {
    hide CrcStep;
    var c := Update(0, before);
    UpdateAppend(0, before + [b], after);
    UpdateAppend(0, before + [e], after);
    UpdateAppend(0, before, [b]);
    UpdateAppend(0, before, [e]);
    UpdateOne(c, b);
    UpdateOne(c, e);
    if Crc(before + [b] + after) == Crc(before + [e] + after) {
      UpdateInjective(CrcStep(c, b), CrcStep(c, e), after);
      StepInjective(c, b, c, e);
    }
  }

  lemma UpdateOne(c: u32, b: byte)
    ensures Update(c, [b]) == CrcStep(c, b)
  {
    assert [b][..0] == [];
  }

  lemma {:induction false} BytesAppend(a: seq<Item>, b: seq<Item>)
    ensures Bytes(a + b) == Bytes(a) + Bytes(b)
  {
    if b == [] {
      assert a + b == a;
    } else {
      assert (a + b)[..|a + b| - 1] == a + b[..|b| - 1];
      BytesAppend(a, b[..|b| - 1]);
    }
  }

  /** The bytes of a run of elements with one data element in the middle. */
  lemma BytesAround(items: seq<Item>, from: nat, k: nat, to: nat)
    requires from <= k < to <= |items| && items[k].Data?
    ensures Bytes(items[from..to]) == Bytes(items[from..k]) + items[k].keyVal + Bytes(items[k + 1..to])
  {
    assert items[from..to] == items[from..k] + [items[k]] + items[k + 1..to];
    BytesAppend(items[from..k] + [items[k]], items[k + 1..to]);
    BytesAppend(items[from..k], [items[k]]);
    assert [items[k]][..0] == [];
  }

  /** With one byte of one of its data elements replaced, a valid record is valid no more. */
  lemma ChangedRecordIsInvalid(items: seq<Item>, r: Rec, k: nat, m: nat, b: byte)
    requires IsGood(items, r) && r.start < k < r.end < |items| && items[k].Data?
    requires m < |items[k].keyVal| && items[k].keyVal[m] != b
    ensures r !in GoodRecords(items[k := Data(items[k].keyVal[m := b])])
  {
    hide Crc, Bytes;
    var kv := items[k].keyVal;
    var items' := items[k := Data(kv[m := b])];
    var front, back := Bytes(items[r.start + 1..k]), Bytes(items[k + 1..r.end]);
    BytesAround(items, r.start + 1, k, r.end);
    BytesAround(items', r.start + 1, k, r.end);
    assert items'[r.start + 1..k] == items[r.start + 1..k] && items'[k + 1..r.end] == items[k + 1..r.end];
    assert front + kv + back == (front + kv[..m]) + [kv[m]] + (kv[m + 1..] + back);
    assert front + kv[m := b] + back == (front + kv[..m]) + [b] + (kv[m + 1..] + back);
    OneByteChangesChecksum(front + kv[..m], kv[m], b, kv[m + 1..] + back);
  }
}
