/** The shift register of CRC-32C, its linearity, and what the lookup tables are: the
    register run over one octet for 8, 16, 24 and 32 bits. */
module Crc32cRegister {
  import opened Crc32cTables

  const POLY: bv32 := 0x82f63b78

  /** Exclusive or, under a name that proofs can hide. */
  function Xor(x: bv32, y: bv32): bv32 {
    x ^ y
  }

  predicate Odd(x: bv32) {
    x & 1 == 1
  }

  function Half(x: bv32): bv32 {
    x >> 1
  }

  /** One bit of the reflected shift register. */
  function Bit(x: bv32): bv32 {
    if Odd(x) then Xor(Half(x), POLY) else Half(x)
  }

  function Bit4(x: bv32): bv32 {
    Bit(Bit(Bit(Bit(x))))
  }

  /** Eight bits of it. */
  function Shift(x: bv32): bv32 {
    Bit4(Bit4(x))
  }

  function Shift2(x: bv32): bv32 {
    Shift(Shift(x))
  }

  function Shift3(x: bv32): bv32 {
    Shift(Shift2(x))
  }

  function Shift4(x: bv32): bv32 {
    Shift(Shift3(x))
  }

  // The register is linear.

  lemma XorAssociates(x: bv32, y: bv32, z: bv32)
    ensures Xor(Xor(x, y), z) == Xor(x, Xor(y, z))
  {
  }

  lemma XorCommutes(x: bv32, y: bv32)
    ensures Xor(x, y) == Xor(y, x)
  {
  }

  lemma XorCancels(x: bv32, y: bv32)
    ensures Xor(Xor(x, y), y) == x
  {
  }

  lemma HalfLinear(x: bv32, y: bv32)
    ensures Half(Xor(x, y)) == Xor(Half(x), Half(y))
  {
  }

  lemma OddLinear(x: bv32, y: bv32)
    ensures Odd(Xor(x, y)) <==> Odd(x) != Odd(y)
  {
  }

  lemma BitLinear(x: bv32, y: bv32)
    ensures Bit(Xor(x, y)) == Xor(Bit(x), Bit(y))
  {
    hide Odd, Half, Xor;
    HalfLinear(x, y);
    OddLinear(x, y);
    var a, b := Half(x), Half(y);
    XorAssociates(a, b, POLY);
    XorAssociates(a, POLY, b);
    XorAssociates(a, POLY, Xor(b, POLY));
    XorCommutes(POLY, b);
    XorCommutes(POLY, Xor(b, POLY));
    XorCancels(b, POLY);
  }

  lemma Bit4Linear(x: bv32, y: bv32)
    ensures Bit4(Xor(x, y)) == Xor(Bit4(x), Bit4(y))
  {
    hide Bit, Xor;
    BitLinear(x, y);
    BitLinear(Bit(x), Bit(y));
    BitLinear(Bit(Bit(x)), Bit(Bit(y)));
    BitLinear(Bit(Bit(Bit(x))), Bit(Bit(Bit(y))));
  }

  lemma ShiftLinear(x: bv32, y: bv32)
    ensures Shift(Xor(x, y)) == Xor(Shift(x), Shift(y))
  {
    hide Bit4, Xor;
    Bit4Linear(x, y);
    Bit4Linear(Bit4(x), Bit4(y));
  }

  /** Running the register over a difference is the difference of the runs. */
  lemma ShiftsLinear(x: bv32, y: bv32)
    ensures Shift(Xor(x, y)) == Xor(Shift(x), Shift(y)) && Shift2(Xor(x, y)) == Xor(Shift2(x), Shift2(y))
    ensures Shift3(Xor(x, y)) == Xor(Shift3(x), Shift3(y)) && Shift4(Xor(x, y)) == Xor(Shift4(x), Shift4(y))
  {
    hide Shift, Xor;
    ShiftLinear(x, y);
    ShiftLinear(Shift(x), Shift(y));
    ShiftLinear(Shift2(x), Shift2(y));
    ShiftLinear(Shift3(x), Shift3(y));
  }

  /** The register without branches. */
  function Straight(x: bv32): bv32 {
    var a := (x >> 1) ^ ((0 - (x & 1)) & POLY);
    var b := (a >> 1) ^ ((0 - (a & 1)) & POLY);
    var c := (b >> 1) ^ ((0 - (b & 1)) & POLY);
    (c >> 1) ^ ((0 - (c & 1)) & POLY)
  }

  lemma LowBit(x: bv32)
    ensures x & 1 == 1 || x & 1 == 0
  {
  }

  lemma NoXor(x: bv32)
    ensures x ^ 0 == x
  {
  }

  lemma BitStraight(x: bv32)
    ensures Bit(x) == (x >> 1) ^ ((0 - (x & 1)) & POLY)
  {
    LowBit(x);
    NoXor(x >> 1);
    assert (0 - 1) & POLY == POLY && (0 - 0) & POLY == 0;
  }

  lemma Bit4Straight(x: bv32)
    ensures Bit4(x) == Straight(x)
  {
    hide Bit;
    BitStraight(x);
    BitStraight(Bit(x));
    BitStraight(Bit(Bit(x)));
    BitStraight(Bit(Bit(Bit(x))));
  }

  function Octave(x: bv32): bv32 {
    Straight(Straight(x))
  }

  lemma ShiftStraight(x: bv32)
    ensures Shift(x) == Octave(x)
  {
    hide Bit4, Straight;
    Bit4Straight(x);
    Bit4Straight(Bit4(x));
  }

  lemma ShiftsStraight(x: bv32)
    ensures Shift(x) == Octave(x) && Shift2(x) == Octave(Octave(x))
    ensures Shift3(x) == Octave(Octave(Octave(x))) && Shift4(x) == Octave(Octave(Octave(Octave(x))))
  {
    hide Shift, Octave;
    ShiftStraight(x);
    ShiftStraight(Shift(x));
    ShiftStraight(Shift2(x));
    ShiftStraight(Shift3(x));
  }

  // The tables.

  lemma Table0Part0Right(i: bv8)
    requires i >> 6 == 0
    ensures Table0Part0(i) == Octave(i as bv32)
  {
  }

  lemma Table0Part1Right(i: bv8)
    requires i >> 6 == 1
    ensures Table0Part1(i) == Octave(i as bv32)
  {
  }

  lemma Table0Part2Right(i: bv8)
    requires i >> 6 == 2
    ensures Table0Part2(i) == Octave(i as bv32)
  {
  }

  lemma Table0Part3Right(i: bv8)
    requires i >> 6 == 3
    ensures Table0Part3(i) == Octave(i as bv32)
  {
  }

  /** Table 0 runs the register over an octet for 8 bits. */
  lemma Table0Right(i: bv8)
    ensures Table0(i) == Shift(i as bv32)
  {
    hide Table0Part0, Table0Part1, Table0Part2, Table0Part3, Shift, Octave;
    ShiftsStraight(i as bv32);
    if i < 64 {
      Table0Part0Right(i);
    } else if i < 128 {
      Table0Part1Right(i);
    } else if i < 192 {
      Table0Part2Right(i);
    } else {
      Table0Part3Right(i);
    }
  }

  lemma Table1Part0Right(i: bv8)
    requires i >> 6 == 0
    ensures Table1Part0(i) == Octave(Octave(i as bv32))
  {
  }

  lemma Table1Part1Right(i: bv8)
    requires i >> 6 == 1
    ensures Table1Part1(i) == Octave(Octave(i as bv32))
  {
  }

  lemma Table1Part2Right(i: bv8)
    requires i >> 6 == 2
    ensures Table1Part2(i) == Octave(Octave(i as bv32))
  {
  }

  lemma Table1Part3Right(i: bv8)
    requires i >> 6 == 3
    ensures Table1Part3(i) == Octave(Octave(i as bv32))
  {
  }

  /** Table 1 runs the register over an octet for 16 bits. */
  lemma Table1Right(i: bv8)
    ensures Table1(i) == Shift2(i as bv32)
  {
    hide Table1Part0, Table1Part1, Table1Part2, Table1Part3, Shift, Octave;
    ShiftsStraight(i as bv32);
    if i < 64 {
      Table1Part0Right(i);
    } else if i < 128 {
      Table1Part1Right(i);
    } else if i < 192 {
      Table1Part2Right(i);
    } else {
      Table1Part3Right(i);
    }
  }

  lemma Table2Part0Right(i: bv8)
    requires i >> 6 == 0
    ensures Table2Part0(i) == Octave(Octave(Octave(i as bv32)))
  {
  }

  lemma Table2Part1Right(i: bv8)
    requires i >> 6 == 1
    ensures Table2Part1(i) == Octave(Octave(Octave(i as bv32)))
  {
  }

  lemma Table2Part2Right(i: bv8)
    requires i >> 6 == 2
    ensures Table2Part2(i) == Octave(Octave(Octave(i as bv32)))
  {
  }

  lemma Table2Part3Right(i: bv8)
    requires i >> 6 == 3
    ensures Table2Part3(i) == Octave(Octave(Octave(i as bv32)))
  {
  }

  /** Table 2 runs the register over an octet for 24 bits. */
  lemma Table2Right(i: bv8)
    ensures Table2(i) == Shift3(i as bv32)
  {
    hide Table2Part0, Table2Part1, Table2Part2, Table2Part3, Shift, Octave;
    ShiftsStraight(i as bv32);
    if i < 64 {
      Table2Part0Right(i);
    } else if i < 128 {
      Table2Part1Right(i);
    } else if i < 192 {
      Table2Part2Right(i);
    } else {
      Table2Part3Right(i);
    }
  }

  lemma Table3Part0Right(i: bv8)
    requires i >> 6 == 0
    ensures Table3Part0(i) == Octave(Octave(Octave(Octave(i as bv32))))
  {
  }

  lemma Table3Part1Right(i: bv8)
    requires i >> 6 == 1
    ensures Table3Part1(i) == Octave(Octave(Octave(Octave(i as bv32))))
  {
  }

  lemma Table3Part2Right(i: bv8)
    requires i >> 6 == 2
    ensures Table3Part2(i) == Octave(Octave(Octave(Octave(i as bv32))))
  {
  }

  lemma Table3Part3Right(i: bv8)
    requires i >> 6 == 3
    ensures Table3Part3(i) == Octave(Octave(Octave(Octave(i as bv32))))
  {
  }

  /** Table 3 runs the register over an octet for 32 bits. */
  lemma Table3Right(i: bv8)
    ensures Table3(i) == Shift4(i as bv32)
  {
    hide Table3Part0, Table3Part1, Table3Part2, Table3Part3, Shift, Octave;
    ShiftsStraight(i as bv32);
    if i < 64 {
      Table3Part0Right(i);
    } else if i < 128 {
      Table3Part1Right(i);
    } else if i < 192 {
      Table3Part2Right(i);
    } else {
      Table3Part3Right(i);
    }
  }
}
