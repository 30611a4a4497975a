/** crc32c: the table-driven, four-octets-at-a-time `extend` against the bit-by-bit
    definition of the CRC. */
module Crc32c {
  import opened Crc32cTables
  import opened Crc32cRegister

  type Octets = seq<bv8>

  /** One octet enters the register, bit by bit. */
  function Octet(l: bv32, b: bv8): bv32 {
    Shift(Xor(l, b as bv32))
  }

  function Register(l: bv32, s: Octets): bv32
    decreases |s|
  {
    if s == [] then l else Register(Octet(l, s[0]), s[1..])
  }

  /** The CRC-32C of `s` continued from `crc`. */
  function Crc(crc: bv32, s: Octets): bv32 {
    Xor(Register(Xor(crc, 0xffffffff), s), 0xffffffff)
  }

  // The polynomial of section 12.1 of RFC 3720.

  function Reversed(x: bv32): bv32 {
    var a := ((x >> 1) & 0x55555555) | ((x & 0x55555555) << 1);
    var b := ((a >> 2) & 0x33333333) | ((a & 0x33333333) << 2);
    var c := ((b >> 4) & 0x0f0f0f0f) | ((b & 0x0f0f0f0f) << 4);
    var d := ((c >> 8) & 0x00ff00ff) | ((c & 0x00ff00ff) << 8);
    (d >> 16) | (d << 16)
  }

  /** The register is reflected: its constant is the polynomial with its bits
      reversed. */
  lemma PolyReversed()
    ensures Reversed(POLY) == 0x1edc6f41 && Reversed(0x1edc6f41) == POLY
  {
  }

  /** An octet above the lowest eight bits just moves down. */
  lemma ShiftMoves(x: bv32)
    ensures Shift(x & 0xffffff00) == x >> 8
  {
    hide Shift;
    ShiftStraight(x & 0xffffff00);
  }

  lemma ShiftMoves3(b: bv8)
    ensures Shift((b as bv32) << 8) == b as bv32
    ensures Shift2((b as bv32) << 16) == b as bv32
    ensures Shift3((b as bv32) << 24) == b as bv32
  {
    hide Shift;
    var x := b as bv32;
    ShiftMoves(x << 8);
    ShiftMoves(x << 16);
    ShiftMoves(x << 24);
    assert (x << 8) & 0xffffff00 == x << 8 && (x << 8) >> 8 == x;
    assert (x << 16) & 0xffffff00 == x << 16 && (x << 16) >> 8 == x << 8;
    assert (x << 24) & 0xffffff00 == x << 24 && (x << 24) >> 8 == x << 16;
  }

  // One octet by table.

  function Low(l: bv32): bv8 {
    (l & 0xff) as bv8
  }

  function Rest(l: bv32): bv32 {
    l >> 8
  }

  /** STEP1 of the source. */
  function Step1(l: bv32, b: bv8): bv32 {
    Xor(Table0(Low(l) ^ b), Rest(l))
  }

  lemma SplitLow(l: bv32, b: bv8)
    ensures Xor(l, b as bv32) == Xor((Low(l) ^ b) as bv32, Xor(l, b as bv32) & 0xffffff00)
    ensures Xor(l, b as bv32) >> 8 == Rest(l)
  {
  }

  lemma Step1Right(l: bv32, b: bv8)
    ensures Step1(l, b) == Octet(l, b)
  {
    hide Table0, Shift, Xor, Low, Rest;
    Table0Right(Low(l) ^ b);
    SplitLow(l, b);
    ShiftMoves(Xor(l, b as bv32));
    ShiftLinear((Low(l) ^ b) as bv32, Xor(l, b as bv32) & 0xffffff00);
  }

  // Four octets by table.

  /** STEP4 of the source, after the word has been mixed in. */
  function Step4(c: bv32): bv32 {
    Xor(Xor(Xor(Table3(Low(c)), Table2(Low(c >> 8))), Table1(Low(c >> 16))), Table0(Low(c >> 24)))
  }

  lemma SplitWord(c: bv32)
    ensures c == Xor(Xor(Xor(Low(c) as bv32, (Low(c >> 8) as bv32) << 8), (Low(c >> 16) as bv32) << 16), (Low(c >> 24) as bv32) << 24)
  {
  }

  lemma LaterOctets(b: bv8)
    ensures Shift4((b as bv32) << 8) == Shift3(b as bv32)
    ensures Shift4((b as bv32) << 16) == Shift2(b as bv32)
    ensures Shift4((b as bv32) << 24) == Shift(b as bv32)
  {
    hide Shift;
    ShiftMoves3(b);
  }

  /** The four lookups are one run of 32 bits. */
  lemma Step4Shifts(c: bv32)
    ensures Step4(c) == Shift4(c)
  {
    hide Table0, Table1, Table2, Table3, Shift, Shift2, Shift3, Shift4, Xor, Low;
    var c0, c1, c2, c3 := Low(c), Low(c >> 8), Low(c >> 16), Low(c >> 24);
    Table3Right(c0);
    Table2Right(c1);
    Table1Right(c2);
    Table0Right(c3);
    LaterOctets(c1);
    LaterOctets(c2);
    LaterOctets(c3);
    var x0, x1, x2, x3 := c0 as bv32, (c1 as bv32) << 8, (c2 as bv32) << 16, (c3 as bv32) << 24;
    ShiftsLinear(x0, x1);
    ShiftsLinear(Xor(x0, x1), x2);
    ShiftsLinear(Xor(Xor(x0, x1), x2), x3);
    SplitWord(c);
  }

  function Word(b0: bv8, b1: bv8, b2: bv8, b3: bv8): bv32 {
    b0 as bv32 | ((b1 as bv32) << 8) | ((b2 as bv32) << 16) | ((b3 as bv32) << 24)
  }

  lemma WordHolds(b0: bv8, b1: bv8, b2: bv8, b3: bv8)
    ensures var w := Word(b0, b1, b2, b3); Low(w) == b0 && Low(w >> 8) == b1 && Low(w >> 16) == b2 && Low(w >> 24) == b3
  {
  }

  lemma WordMixes(l: bv32, b0: bv8, b1: bv8, b2: bv8, b3: bv8)
    ensures Xor(l, Word(b0, b1, b2, b3)) ==
      Xor(Xor(Xor(Xor(l, b0 as bv32), (b1 as bv32) << 8), (b2 as bv32) << 16), (b3 as bv32) << 24)
  {
    hide Xor, Word, Low;
    WordHolds(b0, b1, b2, b3);
    SplitWord(Word(b0, b1, b2, b3));
    var x0, x1, x2, x3 := b0 as bv32, (b1 as bv32) << 8, (b2 as bv32) << 16, (b3 as bv32) << 24;
    XorAssociates(l, x0, x1);
    XorAssociates(l, Xor(x0, x1), x2);
    XorAssociates(l, Xor(Xor(x0, x1), x2), x3);
  }

  /** Four octets entering one by one are a word entering at once. */
  lemma FourOctets(l: bv32, b0: bv8, b1: bv8, b2: bv8, b3: bv8)
    ensures Octet(Octet(Octet(Octet(l, b0), b1), b2), b3) == Shift4(Xor(l, Word(b0, b1, b2, b3)))
  {
    hide Shift, Xor, Word;
    var x1 := Xor(l, b0 as bv32);
    var x2 := Xor(x1, (b1 as bv32) << 8);
    var x3 := Xor(x2, (b2 as bv32) << 16);
    ShiftMoves3(b1);
    ShiftMoves3(b2);
    ShiftMoves3(b3);
    ShiftsLinear(x1, (b1 as bv32) << 8);
    ShiftsLinear(x2, (b2 as bv32) << 16);
    ShiftsLinear(x3, (b3 as bv32) << 24);
    WordMixes(l, b0, b1, b2, b3);
  }

  // The whole buffer.

  function Load32(s: Octets, i: nat): bv32
    requires i + 4 <= |s|
  {
    Word(s[i], s[i + 1], s[i + 2], s[i + 3])
  }

  lemma {:induction false} RegisterConcat(l: bv32, a: Octets, b: Octets)
    ensures Register(l, a + b) == Register(Register(l, a), b)
    decreases |a|
  {
    if a == [] {
      assert a + b == b;
    } else {
      assert (a + b)[1..] == a[1..] + b;
      RegisterConcat(Octet(l, a[0]), a[1..], b);
    }
  }

  lemma OneMore(l: bv32, s: Octets, i: nat)
    requires i < |s|
    ensures Register(l, s[..i + 1]) == Step1(Register(l, s[..i]), s[i])
  {
    hide Octet, Step1;
    assert s[..i + 1] == s[..i] + [s[i]];
    RegisterConcat(l, s[..i], [s[i]]);
    Step1Right(Register(l, s[..i]), s[i]);
  }

  lemma FourMore(l: bv32, s: Octets, i: nat)
    requires i + 4 <= |s|
    ensures Register(l, s[..i + 4]) == Step4(Xor(Register(l, s[..i]), Load32(s, i)))
  {
    hide Octet, Step4, Xor, Word, Shift4, Step1, Register;
    var m := Register(l, s[..i]);
    OneMore(l, s, i);
    OneMore(l, s, i + 1);
    OneMore(l, s, i + 2);
    OneMore(l, s, i + 3);
    Step1Right(m, s[i]);
    Step1Right(Octet(m, s[i]), s[i + 1]);
    Step1Right(Octet(Octet(m, s[i]), s[i + 1]), s[i + 2]);
    Step1Right(Octet(Octet(Octet(m, s[i]), s[i + 1]), s[i + 2]), s[i + 3]);
    FourOctets(m, s[i], s[i + 1], s[i + 2], s[i + 3]);
    Step4Shifts(Xor(m, Load32(s, i)));
  }

  /** `extend` of a buffer at address `addr`: octets up to a multiple of four, then
      words, then the rest. */
  method Extend(crc: bv32, buf: Octets, addr: nat) returns (r: bv32)
    ensures r == Crc(crc, buf)
  {
    hide Register, Step1, Step4, Xor, Word;
    ghost var l0 := Xor(crc, 0xffffffff);
    var l, p, e := Xor(crc, 0xffffffff), addr, addr + |buf|;
    var x := (addr + 3) / 4 * 4;
    RegisterNone(l0);
    assert buf[..0] == [];
    if x <= e {
      while p != x
        invariant addr <= p <= x && l == Register(l0, buf[..p - addr])
      {
        OneMore(l0, buf, p - addr);
        l := Step1(l, buf[p - addr]);
        p := p + 1;
      }
    }
    while e - p >= 16
      invariant addr <= p <= e && l == Register(l0, buf[..p - addr])
    {
      var i := p - addr;
      FourMore(l0, buf, i);
      FourMore(l0, buf, i + 4);
      FourMore(l0, buf, i + 8);
      FourMore(l0, buf, i + 12);
      l := Step4(Xor(l, Load32(buf, i)));
      l := Step4(Xor(l, Load32(buf, i + 4)));
      l := Step4(Xor(l, Load32(buf, i + 8)));
      l := Step4(Xor(l, Load32(buf, i + 12)));
      p := p + 16;
    }
    while e - p >= 4
      invariant addr <= p <= e && l == Register(l0, buf[..p - addr])
    {
      FourMore(l0, buf, p - addr);
      l := Step4(Xor(l, Load32(buf, p - addr)));
      p := p + 4;
    }
    while p != e
      invariant addr <= p <= e && l == Register(l0, buf[..p - addr])
    {
      OneMore(l0, buf, p - addr);
      l := Step1(l, buf[p - addr]);
      p := p + 1;
    }
    assert buf[..p - addr] == buf;
    r := Xor(l, 0xffffffff);
  }

  lemma RegisterNone(l: bv32)
    ensures Register(l, []) == l
  {
  }

  /** Continuing from the CRC of a prefix gives the CRC of the whole. */
  lemma CrcExtends(crc: bv32, a: Octets, b: Octets)
    ensures Crc(Crc(crc, a), b) == Crc(crc, a + b)
  {
    hide Register, Xor;
    RegisterConcat(Xor(crc, 0xffffffff), a, b);
    XorCancels(Register(Xor(crc, 0xffffffff), a), 0xffffffff);
  }

  // Stored checksums are masked.

  const MASK_DELTA: bv32 := 0xa282ead8

  function RotateRight15(x: bv32): bv32 {
    (x >> 15) | (x << 17)
  }

  function RotateRight17(x: bv32): bv32 {
    (x >> 17) | (x << 15)
  }

  function Mask(crc: bv32): bv32 {
    RotateRight15(crc) + MASK_DELTA
  }

  function Unmask(masked: bv32): bv32 {
    RotateRight17(masked - MASK_DELTA)
  }

  lemma RotateBack(x: bv32)
    ensures RotateRight17(RotateRight15(x)) == x && RotateRight15(RotateRight17(x)) == x
  {
  }

  lemma DeltaCancels(x: bv32)
    ensures (x + MASK_DELTA) - MASK_DELTA == x && (x - MASK_DELTA) + MASK_DELTA == x
  {
  }

  /** Masking a stored checksum loses nothing. */
  lemma MaskRoundTrip(crc: bv32)
    ensures Unmask(Mask(crc)) == crc && Mask(Unmask(crc)) == crc
  {
    hide RotateRight15, RotateRight17;
    DeltaCancels(RotateRight15(crc));
    DeltaCancels(crc);
    RotateBack(crc);
    RotateBack(crc - MASK_DELTA);
  }
}
