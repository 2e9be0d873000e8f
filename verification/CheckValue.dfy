// The published check value of the checksum, computed on registers of thirty-two bits that are shown to
// do what the checksum's arithmetic does.
module CheckValues {
  import opened Elements
  import opened Checksums

  /** A register of thirty-two bits. */
  datatype Register = Register(bits: bv32)

  function Plus(a: Register, b: Register): Register { Register(a.bits ^ b.bits) }

  function Down1(v: Register): Register { Register(v.bits >> 1) }

  function Down2(v: Register): Register { Register(v.bits >> 2) }

  function Down4(v: Register): Register { Register(v.bits >> 4) }

  function Down8(v: Register): Register { Register(v.bits >> 8) }

  function Down16(v: Register): Register { Register(v.bits >> 16) }

  /** The number that the lowest bit of a register stands for, the lowest two, four, and so on. */
  function Num1(v: Register): (n: nat)
    ensures n < 2
  {
    if v.bits & 1 == 1 then 1 else 0
  }

  function Num2(v: Register): (n: nat)
    ensures n < 4
  {
    Num1(v) + 2 * Num1(Down1(v))
  }

  function Num4(v: Register): (n: nat)
    ensures n < 0x10
  {
    Num2(v) + 4 * Num2(Down2(v))
  }

  function Num8(v: Register): (n: nat)
    ensures n < 0x100
  {
    Num4(v) + 0x10 * Num4(Down4(v))
  }

  function Num16(v: Register): (n: nat)
    ensures n < 0x1_0000
  {
    Num8(v) + 0x100 * Num8(Down8(v))
  }

  function Num32(v: Register): (n: nat)
    ensures n < 0x1_0000_0000
  {
    Num16(v) + 0x1_0000 * Num16(Down16(v))
  }

  lemma XorOfBits(x: nat, y: nat)
    requires x < 2 && y < 2
    ensures Xor(x, y) == if x == y then 0 else 1
  {
  }

  lemma SplitXor1(a: nat, b: nat, x: nat, y: nat)
    requires x < 2 && y < 2
    ensures Xor(2 * a + x, 2 * b + y) == 2 * Xor(a, b) + Xor(x, y)
  {
    hide Xor;
    HalvesOf(x, a);
    HalvesOf(y, b);
    XorHalves(2 * a + x, 2 * b + y);
    SumParity(2 * a + x, 2 * b + y);
    XorOfBits(x, y);
  }

  lemma SplitXor2(a: nat, b: nat, x: nat, y: nat)
    requires x < 4 && y < 4
    ensures Xor(4 * a + x, 4 * b + y) == 4 * Xor(a, b) + Xor(x, y)
  {
    hide Xor;
    SplitXor1(2 * a + x / 2, 2 * b + y / 2, x % 2, y % 2);
    SplitXor1(a, b, x / 2, y / 2);
    SplitXor1(x / 2, y / 2, x % 2, y % 2);
  }

  lemma SplitXor4(a: nat, b: nat, x: nat, y: nat)
    requires x < 0x10 && y < 0x10
    ensures Xor(0x10 * a + x, 0x10 * b + y) == 0x10 * Xor(a, b) + Xor(x, y)
  {
    hide Xor;
    SplitXor2(4 * a + x / 4, 4 * b + y / 4, x % 4, y % 4);
    SplitXor2(a, b, x / 4, y / 4);
    SplitXor2(x / 4, y / 4, x % 4, y % 4);
  }

  lemma SplitXor8(a: nat, b: nat, x: nat, y: nat)
    requires x < 0x100 && y < 0x100
    ensures Xor(0x100 * a + x, 0x100 * b + y) == 0x100 * Xor(a, b) + Xor(x, y)
  {
    hide Xor;
    SplitXor4(0x10 * a + x / 0x10, 0x10 * b + y / 0x10, x % 0x10, y % 0x10);
    SplitXor4(a, b, x / 0x10, y / 0x10);
    SplitXor4(x / 0x10, y / 0x10, x % 0x10, y % 0x10);
  }

  lemma SplitXor16(a: nat, b: nat, x: nat, y: nat)
    requires x < 0x1_0000 && y < 0x1_0000
    ensures Xor(0x1_0000 * a + x, 0x1_0000 * b + y) == 0x1_0000 * Xor(a, b) + Xor(x, y)
  {
    hide Xor;
    SplitXor8(0x100 * a + x / 0x100, 0x100 * b + y / 0x100, x % 0x100, y % 0x100);
    SplitXor8(a, b, x / 0x100, y / 0x100);
    SplitXor8(x / 0x100, y / 0x100, x % 0x100, y % 0x100);
  }

  lemma ShiftedUp(v: bv32)
    ensures (v << 1) & 1 == 0
    ensures if v & 0x8000_0000 == 0 then (v << 1) >> 1 == v else ((v << 1) >> 1) ^ 0x8000_0000 == v
  {
  }

  lemma PlusDown1(a: Register, b: Register)
    ensures Down1(Plus(a, b)) == Plus(Down1(a), Down1(b))
  {
  }

  lemma PlusDown2(a: Register, b: Register)
    ensures Down2(Plus(a, b)) == Plus(Down2(a), Down2(b))
  {
  }

  lemma PlusDown4(a: Register, b: Register)
    ensures Down4(Plus(a, b)) == Plus(Down4(a), Down4(b))
  {
  }

  lemma PlusDown8(a: Register, b: Register)
    ensures Down8(Plus(a, b)) == Plus(Down8(a), Down8(b))
  {
  }

  lemma PlusDown16(a: Register, b: Register)
    ensures Down16(Plus(a, b)) == Plus(Down16(a), Down16(b))
  {
  }

  lemma DownTwice1(v: Register)
    ensures Down1(Down1(v)) == Down2(v)
  {
  }

  lemma DownTwice2(v: Register)
    ensures Down2(Down2(v)) == Down4(v)
  {
  }

  lemma DownTwice4(v: Register)
    ensures Down4(Down4(v)) == Down8(v)
  {
  }

  lemma DownTwice8(v: Register)
    ensures Down8(Down8(v)) == Down16(v)
  {
  }

  lemma DownTwice16(v: Register)
    ensures Down16(Down16(v)) == Register(0)
  {
  }

  lemma DownCommutes2(v: Register)
    ensures Down2(Down1(v)) == Down1(Down2(v))
  {
  }

  lemma DownCommutes4(v: Register)
    ensures Down4(Down1(v)) == Down1(Down4(v))
  {
  }

  lemma DownCommutes8(v: Register)
    ensures Down8(Down1(v)) == Down1(Down8(v))
  {
  }

  lemma DownCommutes16(v: Register)
    ensures Down16(Down1(v)) == Down1(Down16(v))
  {
  }

  /** Combining registers bit by bit is adding what they stand for. */
  lemma NumXor1(a: Register, b: Register)
    ensures Num1(Plus(a, b)) == Xor(Num1(a), Num1(b))
  {
  }

  lemma NumXor2(a: Register, b: Register)
    ensures Num2(Plus(a, b)) == Xor(Num2(a), Num2(b))
  {
    hide Xor, Plus, Num1, Down1;
    PlusDown1(a, b);
    NumXor1(a, b);
    NumXor1(Down1(a), Down1(b));
    SplitXor1(Num1(Down1(a)), Num1(Down1(b)), Num1(a), Num1(b));
  }

  lemma NumXor4(a: Register, b: Register)
    ensures Num4(Plus(a, b)) == Xor(Num4(a), Num4(b))
  {
    hide Xor, Plus, Num2, Down2;
    PlusDown2(a, b);
    NumXor2(a, b);
    NumXor2(Down2(a), Down2(b));
    SplitXor2(Num2(Down2(a)), Num2(Down2(b)), Num2(a), Num2(b));
  }

  lemma NumXor8(a: Register, b: Register)
    ensures Num8(Plus(a, b)) == Xor(Num8(a), Num8(b))
  {
    hide Xor, Plus, Num4, Down4;
    PlusDown4(a, b);
    NumXor4(a, b);
    NumXor4(Down4(a), Down4(b));
    SplitXor4(Num4(Down4(a)), Num4(Down4(b)), Num4(a), Num4(b));
  }

  lemma NumXor16(a: Register, b: Register)
    ensures Num16(Plus(a, b)) == Xor(Num16(a), Num16(b))
  {
    hide Xor, Plus, Num8, Down8;
    PlusDown8(a, b);
    NumXor8(a, b);
    NumXor8(Down8(a), Down8(b));
    SplitXor8(Num8(Down8(a)), Num8(Down8(b)), Num8(a), Num8(b));
  }

  lemma NumXor32(a: Register, b: Register)
    ensures Num32(Plus(a, b)) == Xor(Num32(a), Num32(b))
  {
    hide Xor, Plus, Num16, Down16;
    PlusDown16(a, b);
    NumXor16(a, b);
    NumXor16(Down16(a), Down16(b));
    SplitXor16(Num16(Down16(a)), Num16(Down16(b)), Num16(a), Num16(b));
  }

  /** Moving a window up by one bit. */
  lemma Slide2(v: Register)
    ensures 2 * Num2(Down1(v)) + Num1(v) == Num2(v) + 4 * Num1(Down2(v))
  {
    hide Num1, Down1, Down2;
    DownTwice1(v);
  }

  lemma Slide4(v: Register)
    ensures 2 * Num4(Down1(v)) + Num1(v) == Num4(v) + 0x10 * Num1(Down4(v))
  {
    hide Num1, Num2, Down1, Down2, Down4;
    DownTwice2(v);
    DownCommutes2(v);
    Slide2(v);
    Slide2(Down2(v));
  }

  lemma Slide8(v: Register)
    ensures 2 * Num8(Down1(v)) + Num1(v) == Num8(v) + 0x100 * Num1(Down8(v))
  {
    hide Num1, Num4, Down1, Down4, Down8;
    DownTwice4(v);
    DownCommutes4(v);
    Slide4(v);
    Slide4(Down4(v));
  }

  lemma Slide16(v: Register)
    ensures 2 * Num16(Down1(v)) + Num1(v) == Num16(v) + 0x1_0000 * Num1(Down16(v))
  {
    hide Num1, Num8, Down1, Down8, Down16;
    DownTwice8(v);
    DownCommutes8(v);
    Slide8(v);
    Slide8(Down8(v));
  }

  lemma Slide32(v: Register)
    ensures 2 * Num32(Down1(v)) + Num1(v) == Num32(v)
  {
    hide Num16, Down1, Down16;
    DownTwice16(v);
    DownCommutes16(v);
    Slide16(v);
    Slide16(Down16(v));
  }

  /** The register without its highest bit, moved up by one. */
  function Up(v: Register): Register { Register(v.bits << 1) }

  lemma UpDoubles(v: Register)
    ensures if v.bits & 0x8000_0000 == 0 then Num32(Up(v)) == 2 * Num32(v)
            else Num32(Up(v)) + 0x1_0000_0000 == 2 * Num32(v)
  {
    hide Num32, Down1;
    var low := Down1(Up(v));
    Slide32(Up(v));
    UpIsEven(v);
    if v.bits & 0x8000_0000 != 0 {
      NumXor32(low, Register(0x8000_0000));
      TopBit();
      WordBound();
      HalfBound(Up(v));
      XorDisjoint(1, Num32(low), 31);
      XorCommutes(Num32(low), 0x8000_0000);
    }
  }

  lemma UpIsEven(v: Register)
    ensures Num1(Up(v)) == 0
    ensures if v.bits & 0x8000_0000 == 0 then Down1(Up(v)) == v else Plus(Down1(Up(v)), Register(0x8000_0000)) == v
  {
    ShiftedUp(v.bits);
  }

  lemma TopBit()
    ensures Num32(Register(0x8000_0000)) == 0x8000_0000 && Shift(1, 31) == 0x8000_0000 && Power2(31) == 0x8000_0000
  {
    ShiftByWord(1);
    ShiftDoubles(1, 31);
    WordBound();
    assert Power2(32) == 2 * Power2(31);
  }

  lemma HalfBound(v: Register)
    ensures Num32(Down1(v)) < 0x8000_0000
  {
    hide Num32, Down1;
    Slide32(v);
  }

  function Round(v: Register): Register {
    if v.bits & 0x8000_0000 == 0 then Up(v) else Plus(Up(v), Register(0x04C1_1DB7))
  }

  function Rounds(v: Register): Register {
    Round(Round(Round(Round(Round(Round(Round(Round(v))))))))
  }

  lemma PolyNumber()
    ensures Num32(Register(0x04C1_1DB7)) == 0x04C1_1DB7
  {
  }

  lemma RoundIsShiftOut(v: Register)
    ensures Num32(Round(v)) == ShiftOut(Num32(v), 1)
  {
    hide Xor, Num32, Up, Plus;
    UpDoubles(v);
    if v.bits & 0x8000_0000 != 0 {
      PolyNumber();
      NumXor32(Up(v), Register(0x04C1_1DB7));
    }
  }

  lemma TwoRounds(v: Register, bits: nat)
    requires 2 <= bits
    ensures ShiftOut(Num32(v), bits) == ShiftOut(Num32(Round(Round(v))), bits - 2)
  {
    hide Xor, Num32, Round, ShiftOut;
    RoundIsShiftOut(v);
    ShiftOutSteps(Num32(v), bits);
    RoundIsShiftOut(Round(v));
    ShiftOutSteps(Num32(Round(v)), bits - 1);
  }

  lemma RoundsAreShiftOut(v: Register)
    ensures Num32(Rounds(v)) == ShiftOut(Num32(v), 8)
  {
    hide Xor, Num32, Round, ShiftOut;
    TwoRounds(v, 8);
    TwoRounds(Round(Round(v)), 6);
    TwoRounds(Round(Round(Round(Round(v)))), 4);
    TwoRounds(Round(Round(Round(Round(Round(Round(v)))))), 2);
    NothingShiftedOut(Num32(Rounds(v)));
  }

  lemma RoundsAreStep(v: Register, m: Register, b: byte)
    requires Num32(m) == 0x100_0000 * b
    ensures CrcStep(Num32(v), b) == Num32(Rounds(Plus(v, m)))
  {
    hide Xor, Num32, Rounds, ShiftOut, Plus;
    NumXor32(v, m);
    RoundsAreShiftOut(Plus(v, m));
  }

  lemma NoLowBits(v: Register)
    requires v.bits & 0xFF == 0
    ensures Num8(v) == 0
  {
  }

  /** A register all of whose bits but the highest eight are zero. */
  lemma HighByte(v: Register)
    requires v.bits & 0xFF_FFFF == 0
    ensures Num32(v) == 0x100_0000 * Num8(Down8(Down16(v)))
  {
    hide Num8;
    LowBytes(v.bits);
    NoLowBits(v);
    NoLowBits(Down8(v));
    NoLowBits(Down16(v));
  }

  lemma LowBytes(v: bv32)
    requires v & 0xFF_FFFF == 0
    ensures v & 0xFF == 0 && (v >> 8) & 0xFF == 0 && (v >> 16) & 0xFF == 0
  {
  }

  lemma Digit(m: Register, low: Register, b: byte)
    requires m.bits & 0xFF_FFFF == 0 && Down8(Down16(m)) == low && Num8(low) == b
    ensures Num32(m) == 0x100_0000 * b
  {
    hide Num32, Num8;
    HighByte(m);
  }

  lemma FirstRegister()
    ensures Num32(Register(0)) == 0
  {
  }

  lemma LastRegister()
    ensures Num32(Register(0x89A1_897F)) == 0x89A1_897F
  {
  }

  lemma Feed1()
    ensures CrcStep(Num32(Register(0)), 0x31) == Num32(Register(0xD0F3_7027))
  {
    hide Num32;
    Digit(Register(0x3100_0000), Register(0x31), 0x31);
    RoundsAreStep(Register(0), Register(0x3100_0000), 0x31);
  }

  lemma Feed2()
    ensures CrcStep(Num32(Register(0xD0F3_7027)), 0x32) == Num32(Register(0x3F5B_3A17))
  {
    hide Num32;
    Digit(Register(0x3200_0000), Register(0x32), 0x32);
    RoundsAreStep(Register(0xD0F3_7027), Register(0x3200_0000), 0x32);
  }

  lemma Feed3()
    ensures CrcStep(Num32(Register(0x3F5B_3A17)), 0x33) == Num32(Register(0x6E36_8C64))
  {
    hide Num32;
    Digit(Register(0x3300_0000), Register(0x33), 0x33);
    RoundsAreStep(Register(0x3F5B_3A17), Register(0x3300_0000), 0x33);
  }

  lemma Feed4()
    ensures CrcStep(Num32(Register(0x6E36_8C64)), 0x34) == Num32(Register(0x6191_19D1))
  {
    hide Num32;
    Digit(Register(0x3400_0000), Register(0x34), 0x34);
    RoundsAreStep(Register(0x6E36_8C64), Register(0x3400_0000), 0x34);
  }

  lemma Feed5()
    ensures CrcStep(Num32(Register(0x6191_19D1)), 0x35) == Num32(Register(0xFA8A_0CDB))
  {
    hide Num32;
    Digit(Register(0x3500_0000), Register(0x35), 0x35);
    RoundsAreStep(Register(0x6191_19D1), Register(0x3500_0000), 0x35);
  }

  lemma Feed6()
    ensures CrcStep(Num32(Register(0xFA8A_0CDB)), 0x36) == Num32(Register(0xE28A_D0FD))
  {
    hide Num32;
    Digit(Register(0x3600_0000), Register(0x36), 0x36);
    RoundsAreStep(Register(0xFA8A_0CDB), Register(0x3600_0000), 0x36);
  }

  lemma Feed7()
    ensures CrcStep(Num32(Register(0xE28A_D0FD)), 0x37) == Num32(Register(0x8C8E_DD82))
  {
    hide Num32;
    Digit(Register(0x3700_0000), Register(0x37), 0x37);
    RoundsAreStep(Register(0xE28A_D0FD), Register(0x3700_0000), 0x37);
  }

  lemma Feed8()
    ensures CrcStep(Num32(Register(0x8C8E_DD82)), 0x38) == Num32(Register(0x20E7_79A2))
  {
    hide Num32;
    Digit(Register(0x3800_0000), Register(0x38), 0x38);
    RoundsAreStep(Register(0x8C8E_DD82), Register(0x3800_0000), 0x38);
  }

  lemma Feed9()
    ensures CrcStep(Num32(Register(0x20E7_79A2)), 0x39) == Num32(Register(0x89A1_897F))
  {
    hide Num32;
    Digit(Register(0x3900_0000), Register(0x39), 0x39);
    RoundsAreStep(Register(0x20E7_79A2), Register(0x3900_0000), 0x39);
  }

  lemma UpdateNext(data: seq<byte>, k: nat)
    requires k < |data|
    ensures Update(0, data[..k + 1]) == CrcStep(Update(0, data[..k]), data[k])
  {
    assert data[..k + 1][..k] == data[..k];
  }

  /** The checksum of the digits 1 to 9 is the one published for CRC-32/CKSUM. */
  lemma CheckValue()
    ensures Crc([0x31, 0x32, 0x33, 0x34, 0x35, 0x36, 0x37, 0x38, 0x39]) == 0x765E_7680
  {
    hide CrcStep, Num32, Update;
    var digits: seq<byte> := [0x31, 0x32, 0x33, 0x34, 0x35, 0x36, 0x37, 0x38, 0x39];
    FirstRegister();
    LastRegister();
    UpdateNone();
    UpdateNext(digits, 0); Feed1();
    UpdateNext(digits, 1); Feed2();
    UpdateNext(digits, 2); Feed3();
    UpdateNext(digits, 3); Feed4();
    UpdateNext(digits, 4); Feed5();
    UpdateNext(digits, 5); Feed6();
    UpdateNext(digits, 6); Feed7();
    UpdateNext(digits, 7); Feed8();
    UpdateNext(digits, 8); Feed9();
    assert digits[..0] == [] && digits[..9] == digits;
  }

  lemma UpdateNone()
    ensures Update(0, []) == 0
  {
  }
}
