/** The CRC of PNG chunks in src/server/depth_endpoints.cpp: a table of 256 words, against the shift
    register of RFC 2083 section 3.4 that takes one bit at a time. */
module Crc32 {
  import opened Bytes

  const POLYNOMIAL: bv32 := 0xedb88320
  const ONES: bv32 := 0xffffffff

  function Bits(b: byte): bv8 {
    b as bv8
  }

  /** A byte as a word. */
  function Word(b: byte): (w: bv32)
    ensures w >> 8 == 0
  {
    Bits(b) as bv32
  }

  /** Polynomials with coefficients 0 and 1: addition, and division by x without the remainder. */
  function Add(a: bv32, b: bv32): bv32 {
    a ^ b
  }

  function Half(c: bv32): bv32 {
    c >> 1
  }

  predicate Odd(c: bv32) {
    c & 1 != 0
  }

  /** One step of the inner loop that builds the table. */
  function Shifted(c: bv32): bv32 {
    if Odd(c) then Add(POLYNOMIAL, Half(c)) else Half(c)
  }

  function ShiftedTimes(c: bv32, n: nat): bv32
    decreases n
  {
    if n == 0 then c else ShiftedTimes(Shifted(c), n - 1)
  }

  /** One clock of the shift register: the polynomial is added when the bit that leaves the register
      differs from the data bit. */
  function Clock(c: bv32, bit: bool): bv32 {
    if Odd(c) != bit then Add(POLYNOMIAL, Half(c)) else Half(c)
  }

  /** n data bits of b, lowest first. */
  function Clocks(c: bv32, b: bv32, n: nat): bv32
    decreases n
  {
    if n == 0 then c else Clocks(Clock(c, Odd(b)), Half(b), n - 1)
  }

  /** The register after a string of bytes, bit by bit. */
  function Register(c: bv32, bytes: seq<byte>): bv32 {
    if bytes == [] then c
    else Clocks(Register(c, bytes[..|bytes| - 1]), Word(bytes[|bytes| - 1]), 8)
  }

  /** The CRC of a string, continued from an earlier CRC: the register starts from all ones, and the
      result is inverted. */
  function Crc(bytes: seq<byte>, before: bv32): bv32 {
    Add(Register(Add(before, ONES), bytes), ONES)
  }

  // ---------------------------------------------------------------------------------------
  // One table lookup is eight clocks
  // ---------------------------------------------------------------------------------------

  lemma AddHalves(a: bv32, b: bv32)
    ensures Half(Add(a, b)) == Add(Half(a), Half(b))
  {
  }

  lemma AddOdd(a: bv32, b: bv32)
    ensures Odd(Add(a, b)) == (Odd(a) != Odd(b))
  {
  }

  lemma AddAssociates(a: bv32, b: bv32, c: bv32)
    ensures Add(a, Add(b, c)) == Add(Add(a, b), c)
  {
  }

  lemma AddCancels(a: bv32, b: bv32)
    ensures Add(Add(a, b), b) == a && Add(a, 0) == a
  {
  }

  /** A data bit may be added to the register before the clock instead of compared with it. */
  lemma ShiftAdds(r: bv32, v: bv32)
    ensures Shifted(Add(r, v)) == Add(Clock(r, Odd(v)), Half(v))
  {
    AddOdd(r, v);
    AddHalves(r, v);
    AddAssociates(POLYNOMIAL, Half(r), Half(v));
    hide Add, Half, Odd;
  }

  function Halved(c: bv32, n: nat): bv32
    decreases n
  {
    if n == 0 then c else Halved(Half(c), n - 1)
  }

  /** All data bits may be added before the first clock. */
  lemma {:induction false} DataFirst(c: bv32, b: bv32, n: nat)
    ensures ShiftedTimes(Add(c, b), n) == Add(Clocks(c, b, n), Halved(b, n))
    decreases n
  {
    hide Shifted, Clock, Odd, Add, Half;
    if n > 0 {
      ShiftAdds(c, b);
      DataFirst(Clock(c, Odd(b)), Half(b), n - 1);
    }
  }

  predicate LowBitsClear(c: bv32, n: nat)
    decreases n
  {
    n == 0 || (!Odd(c) && LowBitsClear(Half(c), n - 1))
  }

  lemma ShiftAddsEven(r: bv32, v: bv32)
    requires !Odd(v)
    ensures Shifted(Add(r, v)) == Add(Shifted(r), Half(v))
  {
    ShiftAdds(r, v);
    hide Add, Half, Odd;
  }

  /** A part of the register whose low bits are clear just moves down. */
  lemma {:induction false} HighPartMoves(low: bv32, high: bv32, n: nat)
    requires LowBitsClear(high, n)
    ensures ShiftedTimes(Add(low, high), n) == Add(ShiftedTimes(low, n), Halved(high, n))
    decreases n
  {
    if n > 0 {
      ShiftAddsEven(low, high);
      hide Shifted, Odd, Add, Half;
      HighPartMoves(Shifted(low), Half(high), n - 1);
    }
  }

  lemma EightHalvings(c: bv32)
    ensures Halved(c, 8) == c >> 8
  {
  }

  lemma LowByteClear(c: bv32)
    requires c & 0xff == 0
    ensures LowBitsClear(c, 8)
  {
  }

  lemma SplitWord(c: bv32)
    ensures Add(c & 0xff, c & 0xffffff00) == c && (c & 0xffffff00) & 0xff == 0
  {
  }

  lemma HighPartOfSum(c: bv32, b: bv32)
    requires b >> 8 == 0
    ensures (Add(c, b) & 0xffffff00) >> 8 == c >> 8
  {
  }

  /** What the program does with one byte is what the register does with its eight bits. */
  lemma {:induction false} LookupIsEightClocks(c: bv32, b: bv32)
    requires b >> 8 == 0
    ensures Add(ShiftedTimes(Add(c, b) & 0xff, 8), c >> 8) == Clocks(c, b, 8)
  {
    hide *;
    var sum := Add(c, b);
    var high := sum & 0xffffff00;
    DataFirst(c, b, 8);
    EightHalvings(b);
    AddCancels(Clocks(c, b, 8), 0);
    SplitWord(sum);
    LowByteClear(high);
    HighPartMoves(sum & 0xff, high, 8);
    EightHalvings(high);
    HighPartOfSum(c, b);
  }

  // ---------------------------------------------------------------------------------------
  // The program
  // ---------------------------------------------------------------------------------------

  /** The table that `crc32_bytes` builds on its first call. */
  method BuildTable() returns (table: array<bv32>)
    ensures table.Length == 256 && fresh(table)
    ensures forall n :: 0 <= n < 256 ==> table[n] == ShiftedTimes(n as bv32, 8)
  {
    hide Shifted;
    table := new bv32[256];
    for n := 0 to 256
      invariant forall i :: 0 <= i < n ==> table[i] == ShiftedTimes(i as bv32, 8)
    {
      var c := n as bv32;
      for k := 0 to 8
        invariant ShiftedTimes(c, 8 - k) == ShiftedTimes(n as bv32, 8)
      {
        c := Shifted(c);
      }
      table[n] := c;
    }
  }

  lemma LowByteIndex(w: bv32)
    requires w & 0xff == w
    ensures 0 <= w as int < 256 && (w as int) as bv32 == w
  {
  }

  /** `crc32_bytes`. */
  method Crc32Bytes(table: array<bv32>, bytes: seq<byte>, before: bv32) returns (crc: bv32)
    requires table.Length == 256
    requires forall n :: 0 <= n < 256 ==> table[n] == ShiftedTimes(n as bv32, 8)
    ensures crc == Crc(bytes, before)
  {
    hide Add, ShiftedTimes, Clocks, Word;
    crc := Add(before, ONES);
    assert bytes[..0] == [];
    for i := 0 to |bytes|
      invariant crc == Register(Add(before, ONES), bytes[..i])
    {
      var low := Add(crc, Word(bytes[i])) & 0xff;
      LowByteIndex(low);
      LookupIsEightClocks(crc, Word(bytes[i]));
      assert bytes[..i + 1][..i] == bytes[..i];
      crc := Add(table[low as int], crc >> 8);
    }
    assert bytes[..|bytes|] == bytes;
    crc := Add(crc, ONES);
  }

  // ---------------------------------------------------------------------------------------
  // What the CRC is good for
  // ---------------------------------------------------------------------------------------

  lemma {:induction false} RegisterContinues(c: bv32, a: seq<byte>, b: seq<byte>)
    ensures Register(c, a + b) == Register(Register(c, a), b)
  {
    hide Clocks, Word;
    if b == [] {
      assert a + b == a;
    } else {
      var m := |b| - 1;
      assert (a + b)[..|a + b| - 1] == a + b[..m];
      RegisterContinues(c, a, b[..m]);
    }
  }

  /** A CRC may be computed piece by piece. */
  lemma {:induction false} CrcContinues(a: seq<byte>, b: seq<byte>, before: bv32)
    ensures Crc(a + b, before) == Crc(b, Crc(a, before))
  {
    hide Register, Add;
    RegisterContinues(Add(before, ONES), a, b);
    AddCancels(Register(Add(before, ONES), a), ONES);
  }

  lemma ClockInjective(c: bv32, d: bv32, bit: bool)
    requires Clock(c, bit) == Clock(d, bit)
    ensures c == d
  {
  }

  lemma {:induction false} ClocksInjective(c: bv32, d: bv32, b: bv32, n: nat)
    requires Clocks(c, b, n) == Clocks(d, b, n)
    ensures c == d
    decreases n
  {
    hide Clock, Half, Odd;
    if n > 0 {
      ClocksInjective(Clock(c, Odd(b)), Clock(d, Odd(b)), Half(b), n - 1);
      ClockInjective(c, d, Odd(b));
    }
  }

  lemma {:induction false} RegisterInjective(c: bv32, d: bv32, bytes: seq<byte>)
    requires Register(c, bytes) == Register(d, bytes)
    ensures c == d
  {
    hide Clocks, Word;
    if bytes != [] {
      var rest, last := bytes[..|bytes| - 1], Word(bytes[|bytes| - 1]);
      ClocksInjective(Register(c, rest), Register(d, rest), last, 8);
      RegisterInjective(c, d, rest);
    }
  }

  lemma {:induction false} ShiftedInjective(c: bv32, d: bv32, n: nat)
    requires ShiftedTimes(c, n) == ShiftedTimes(d, n)
    ensures c == d
    decreases n
  {
    if n > 0 {
      hide Half, Odd, Add;
      ShiftedInjective(Shifted(c), Shifted(d), n - 1);
      ClockInjective(c, d, false);
    }
  }

  lemma SumDetermines(c: bv32, x: bv32, y: bv32)
    requires Add(c, x) == Add(c, y)
    ensures x == y
  {
  }

  lemma Successor(b: bv8, n: nat)
    requires n < 255 && b as int == n
    ensures (b + 1) as int == n + 1
  {
  }

  lemma {:induction false} BitsFor(n: nat) returns (b: bv8)
    requires n < 256
    ensures b as int == n
  {
    if n == 0 {
      b := 0;
    } else {
      b := BitsFor(n - 1);
      Successor(b, n - 1);
      b := b + 1;
    }
  }

  lemma BitsKeepValue(b: byte)
    ensures Bits(b) as int == b as int
  {
    var bits := BitsFor(b as int);
    assert (bits as int) as bv8 == bits;
  }

  lemma WideningInjective(a: bv8, b: bv8)
    requires a as bv32 == b as bv32
    ensures a == b
  {
  }

  lemma WordInjective(x: byte, y: byte)
    requires Word(x) == Word(y)
    ensures x == y
  {
    hide Bits;
    WideningInjective(Bits(x), Bits(y));
    BitsKeepValue(x);
    BitsKeepValue(y);
  }

  /** Different bytes take the register to different states. */
  lemma {:induction false} ByteMatters(c: bv32, x: byte, y: byte)
    requires Clocks(c, Word(x), 8) == Clocks(c, Word(y), 8)
    ensures x == y
  {
    hide Clocks, ShiftedTimes, Add, Halved;
    DataFirst(c, Word(x), 8);
    DataFirst(c, Word(y), 8);
    EightHalvings(Word(x));
    EightHalvings(Word(y));
    ShiftedInjective(Add(c, Word(x)), Add(c, Word(y)), 8);
    SumDetermines(c, Word(x), Word(y));
    WordInjective(x, y);
  }

  lemma SumDeterminesFirst(x: bv32, y: bv32, c: bv32)
    requires Add(x, c) == Add(y, c)
    ensures x == y
  {
  }

  /** A single corrupted byte always changes the CRC. */
  lemma {:induction false} CorruptByteDetected(a: seq<byte>, x: byte, y: byte, b: seq<byte>, before: bv32)
    requires x != y
    ensures Crc(a + [x] + b, before) != Crc(a + [y] + b, before)
  {
    hide Add, Clocks, Word;
    if Crc(a + [x] + b, before) == Crc(a + [y] + b, before) {
      var c := Add(before, ONES);
      SumDeterminesFirst(Register(c, a + [x] + b), Register(c, a + [y] + b), ONES);
      RegisterContinues(c, a + [x], b);
      RegisterContinues(c, a + [y], b);
      RegisterInjective(Register(c, a + [x]), Register(c, a + [y]), b);
      RegisterContinues(c, a, [x]);
      RegisterContinues(c, a, [y]);
      ByteMatters(Register(c, a), x, y);
    }
  }

  // ---------------------------------------------------------------------------------------
  // A value anyone can look up
  // ---------------------------------------------------------------------------------------

  lemma EightClocks(c: bv32, b: bv32)
    ensures Clocks(c, b, 8) ==
      Clock(Clock(Clock(Clock(Clock(Clock(Clock(Clock(c, Odd(b)), Odd(Half(b))), Odd(Half(Half(b)))),
        Odd(Half(Half(Half(b))))), Odd(Half(Half(Half(Half(b)))))), Odd(Half(Half(Half(Half(Half(b))))))),
        Odd(Half(Half(Half(Half(Half(Half(b)))))))), Odd(Half(Half(Half(Half(Half(Half(Half(b)))))))))
  {
    hide Clock, Odd, Half;
  }

  /** The CRC that ends every PNG file: that of the tag IEND without data. */
  lemma CheckValue()
    ensures Crc([0x49, 0x45, 0x4e, 0x44], 0) == 0xae426082
  {
    EightClocks(0xffffffff, 0x49);
    EightClocks(0x22fde946, 0x45);
    EightClocks(0x992bac53, 0x4e);
    EightClocks(0x639f4775, 0x44);
    assert [0x49][..0] == [];
    assert Register(ONES, [0x49]) == 0x22fde946;
    assert [0x49, 0x45][..1] == [0x49];
    assert Register(ONES, [0x49, 0x45]) == 0x992bac53;
    assert [0x49, 0x45, 0x4e][..2] == [0x49, 0x45];
    assert Register(ONES, [0x49, 0x45, 0x4e]) == 0x639f4775;
    assert [0x49, 0x45, 0x4e, 0x44][..3] == [0x49, 0x45, 0x4e];
    assert Register(ONES, [0x49, 0x45, 0x4e, 0x44]) == 0x51bd9f7d;
  }
}
