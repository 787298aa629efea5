/**
 The table-driven CRC functions of ChecksumConverter against polynomial long
 division: the low bits of the 32-bit register are the remainder of the
 message bits followed by zeros, for every message and initial value.
 */

/** crc_0x1021: x^16 + x^12 + x^5 + 1, most significant bit first. */
module Crc1021 {
  import opened CrcTables
  import opened BitWords
  import opened PolynomialDivision

  /** Bytes are sent most significant bit first. */
  function ByteMask(i: nat): bv8 {
    if i == 0 then 0x80 else if i == 1 then 0x40 else if i == 2 then 0x20 else if i == 3 then 0x10 else
    if i == 4 then 0x8 else if i == 5 then 0x4 else if i == 6 then 0x2 else if i == 7 then 0x1 else
    0
  }

  /** The table entries of the eight masks. */
  function Unit(k: nat): bv16 {
    if k == 0 then 0x9188 else if k == 1 then 0x48C4 else if k == 2 then 0x2462 else if k == 3 then 0x1231 else
    if k == 4 then 0x8108 else if k == 5 then 0x4084 else if k == 6 then 0x2042 else if k == 7 then 0x1021 else
    0
  }

  function Next(m: bv16): bv16 { m >> 1 }
  function Next8(m: bv16): bv16 { m >> 8 }
  function Shift(c: bv16): bv16 { c << 1 }
  function Shift8(c: bv16): bv16 { c << 8 }
  function Index(c: bv16, b: bv8): bv8 { ((c >> 8) as bv8) ^ b }

  const CODE: Code<bv16, bv8> := Code(16, Has16, 0x8000, Next, Next8, ByteHas, ByteMask, 0, 0x1021,
                                     Sum16, Shift, Shift8, Index, Table1021, Unit)

  // ---- Words as polynomials ----

  lemma OneNext(m: bv16)
    requires One16(m)
    ensures One16(Next(m))
  {
  }

  lemma EightNexts(m: bv16)
    ensures Next8(m) == Next(Next(Next(Next(Next(Next(Next(Next(m))))))))
  {
  }

  lemma RawShift(c: bv16, m: bv16)
    ensures ((c << 1) & m != 0) == (c & (m >> 1) != 0)
  {
  }

  lemma HasShift(c: bv16, m: bv16)
    ensures Has16(Shift(c), m) == Has16(c, Next(m))
  {
    RawShift(c, m);
  }

  lemma RawShift8(c: bv16, m: bv16)
    ensures ((c << 8) & m != 0) == (c & (m >> 8) != 0)
  {
  }

  lemma HasShift8(c: bv16, m: bv16)
    ensures Has16(Shift8(c), m) == Has16(c, Next8(m))
  {
    RawShift8(c, m);
  }

  lemma RawIndex(c: bv16, b: bv8, n: bv8)
    requires n & (n - 1) == 0
    ensures ((((c >> 8) as bv8) ^ b) & n != 0) == ((b & n != 0) != (c & ((n as bv16) << 8) != 0))
  {
  }

  lemma HasIndex(c: bv16, b: bv8, n: bv8)
    requires n & (n - 1) == 0
    ensures ByteHas(Index(c, b), n) == (ByteHas(b, n) != Has16(c, (n as bv16) << 8))
  {
    RawIndex(c, b, n);
  }

  lemma ByteMaskIsOne(i: nat)
    ensures ByteMask(i) & (ByteMask(i) - 1) == 0
  {
  }

  lemma MaskByte(i: nat)
    requires i < 8
    ensures CODE.Mask(i) == (ByteMask(i) as bv16) << 8
  {
    assert CODE.Mask(2) == Next(CODE.Mask(1));
    assert CODE.Mask(4) == Next(CODE.Mask(3));
    assert CODE.Mask(6) == Next(CODE.Mask(5));
  }

  lemma IndexBit(c: bv16, b: bv8, i: nat)
    requires i < 8
    ensures CODE.ByteBit(Index(c, b), i) == (CODE.ByteBit(b, i) != CODE.Bit(c, i))
  {
    MaskByte(i);
    ByteMaskIsOne(i);
    HasIndex(c, b, ByteMask(i));
  }

  lemma MasksEnd()
    ensures CODE.Mask(16) == 0
  {
    MaskFour(CODE, 0);
    MaskFour(CODE, 4);
    MaskFour(CODE, 8);
    MaskFour(CODE, 12);
  }

  lemma Words()
    ensures WordsRight(CODE)
  {
    forall m: bv16 | One16(m) ensures One16(Next(m)) { OneNext(m); }
    forall a: bv16, b: bv16, m: bv16 | One16(m) ensures Has16(Sum16(a, b), m) == (Has16(a, m) != Has16(b, m)) {
      HasSum16(a, b, m);
    }
    forall a: bv16, m: bv16 ensures Has16(Shift(a), m) == Has16(a, Next(m)) { HasShift(a, m); }
    forall a: bv16, m: bv16 ensures Has16(Shift8(a), m) == Has16(a, Next8(m)) { HasShift8(a, m); }
    forall m: bv16 ensures Next8(m) == Next(Next(Next(Next(Next(Next(Next(Next(m)))))))) { EightNexts(m); }
    forall a: bv16 ensures !Has16(a, 0) && !Has16(0, a) { HasNone16(a); }
    forall a: bv16, b: bv8, i: nat | i < 8
      ensures CODE.ByteBit(Index(a, b), i) == (CODE.ByteBit(b, i) != CODE.Bit(a, i))
    {
      IndexBit(a, b, i);
    }
    MasksEnd();
    WordsFollow(CODE, One16, 0);
  }

  // ---- The table ----

  /** The sum of the entries of the masks that a byte has. */
  function Mixed(b: bv8): bv16 {
    Add16(b, 0x80, 0x9188, Add16(b, 0x40, 0x48C4, 
    Add16(b, 0x20, 0x2462, Add16(b, 0x10, 0x1231, 
    Add16(b, 0x8, 0x8108, Add16(b, 0x4, 0x4084, 
    Add16(b, 0x2, 0x2042, Add16(b, 0x1, 0x1021, 0))))))))
  }

  lemma PartA(b: bv8)
    requires b < 0x40
    ensures Table1021A(b) == Mixed(b)
  {
  }

  lemma PartB(b: bv8)
    requires 0x40 <= b < 0x80
    ensures Table1021B(b) == Mixed(b)
  {
  }

  lemma PartC(b: bv8)
    requires 0x80 <= b < 0xC0
    ensures Table1021C(b) == Mixed(b)
  {
  }

  lemma PartD(b: bv8)
    requires 0xC0 <= b
    ensures Table1021D(b) == Mixed(b)
  {
  }

  lemma TableIsMixed(b: bv8)
    ensures Table1021(b) == Mixed(b)
  {
    if b < 0x40 { PartA(b); } else if b < 0x80 { PartB(b); } else if b < 0xC0 { PartC(b); } else { PartD(b); }
  }

  lemma MixAt(b: bv8, k: nat, m: bv8, u: bv16, v: bv16)
    requires k < 8 && ByteMask(k) == m && Unit(k) == u && CODE.Mix(b, k + 1) == v
    ensures CODE.Mix(b, k) == Add16(b, m, u, v)
  {
    AddIs16(b, m, u, v);
  }

  lemma MixIsMixed(b: bv8)
    ensures CODE.Mix(b, 0) == Mixed(b)
  {
    var s7 := Add16(b, 0x1, 0x1021, 0);
    MixAt(b, 7, 0x1, 0x1021, 0);
    var s6 := Add16(b, 0x2, 0x2042, s7);
    MixAt(b, 6, 0x2, 0x2042, s7);
    var s5 := Add16(b, 0x4, 0x4084, s6);
    MixAt(b, 5, 0x4, 0x4084, s6);
    var s4 := Add16(b, 0x8, 0x8108, s5);
    MixAt(b, 4, 0x8, 0x8108, s5);
    var s3 := Add16(b, 0x10, 0x1231, s4);
    MixAt(b, 3, 0x10, 0x1231, s4);
    var s2 := Add16(b, 0x20, 0x2462, s3);
    MixAt(b, 2, 0x20, 0x2462, s3);
    var s1 := Add16(b, 0x40, 0x48C4, s2);
    MixAt(b, 1, 0x40, 0x48C4, s2);
    var s0 := Add16(b, 0x80, 0x9188, s1);
    MixAt(b, 0, 0x80, 0x9188, s1);
  }

  /** Each entry is what the register makes of the next one. */
  lemma UnitsFollow(k: nat)
    requires k < 7
    ensures Unit(k) == CODE.FeedZero(Unit(k + 1))
  {
  }

  lemma Table()
    ensures TableRight(CODE)
  {
    forall b: bv8 ensures Table1021(b) == CODE.Mix(b, 0) {
      TableIsMixed(b);
      MixIsMixed(b);
    }
    forall k: nat | k < 7 ensures Unit(k) == CODE.FeedZero(Unit(k + 1)) { UnitsFollow(k); }
  }

  // ---- The function as written ----

  function Low16(crc: bv32): bv16 { (crc & 0xFFFF) as bv16 }

  /** The register has 32 bits and is never masked. */
  function Step(crc: bv32, b: bv8): bv32 { Mix(Table1021(WideIndex(crc, b)), WideShift(crc)) }
  function WideIndex(crc: bv32, b: bv8): bv8 { (((crc >> 8) ^ (b as bv32)) & 0xFF) as bv8 }
  function WideShift(crc: bv32): bv32 { crc << 8 }
  function Mix(t: bv16, y: bv32): bv32 { (t as bv32) ^ y }

  lemma SameIndex(crc: bv32, b: bv8)
    ensures WideIndex(crc, b) == Index(Low16(crc), b)
  {
  }

  lemma LowOfMix(t: bv16, y: bv32)
    ensures Low16(Mix(t, y)) == Sum16(t, Low16(y))
  {
    LowOfSum(t, y);
  }

  lemma LowOfSum(t: bv16, y: bv32)
    ensures Low16((t as bv32) ^ y) == Sum16(t, Low16(y))
  {
  }

  lemma LowOfShift(crc: bv32)
    ensures Low16(WideShift(crc)) == Shift8(Low16(crc))
  {
  }

  lemma StepLooksUp(crc: bv32, b: bv8)
    ensures Low16(Step(crc, b)) == CODE.Lookup(Low16(crc), b)
  {
    forall x: bv32, b: bv8 ensures WideIndex(x, b) == Index(Low16(x), b) { SameIndex(x, b); }
    forall x: bv32 ensures Low16(WideShift(x)) == Shift8(Low16(x)) { LowOfShift(x); }
    forall t: bv16, y: bv32 ensures Low16(Mix(t, y)) == Sum16(t, Low16(y)) { LowOfMix(t, y); }
    WideLookup(CODE, WideIndex, WideShift, Mix, Low16, crc, b);
  }

  lemma LoopLooksUp(init: bv32, data: seq<bv8>)
    ensures Low16(Fold(Step, init, data)) == CODE.LookupAll(Low16(init), data)
  {
    forall x: bv32, b: bv8 ensures Low16(Step(x, b)) == CODE.Lookup(Low16(x), b) { StepLooksUp(x, b); }
    WideFollows(CODE, Step, Low16, init, data);
  }

  /** The low 16 bits of the result are the remainder of long division. */
  method Compute(data: seq<bv8>, init: bv32) returns (crc: bv32)
    ensures CODE.Word(Low16(crc)) == Remainder(CODE.G(), CODE.Message(data), CODE.Word(Low16(init)))
  {
    crc := RunLoop(Step, init, data);
    LoopLooksUp(init, data);
    Divides(Low16(init), data);
  }

  lemma Divides(init: bv16, data: seq<bv8>)
    ensures CODE.Word(CODE.LookupAll(init, data)) == Remainder(CODE.G(), CODE.Message(data), CODE.Word(init))
  {
    Words();
    Table();
    LookupsDivide(CODE, init, data);
  }

  lemma SecondHalf(n: bv8)
    ensures Next8((n as bv16) << 8) == n as bv16
  {
  }

  lemma SecondMask(i: nat)
    requires i < 8
    ensures CODE.Mask(i + 8) == ByteMask(i) as bv16
  {
    MaskByte(i);
    MaskFour(CODE, i);
    MaskFour(CODE, i + 4);
    EightNexts(CODE.Mask(i));
    SecondHalf(ByteMask(i));
  }

  lemma HasOwn(c: bv16, n: bv8)
    ensures ByteHas((c >> 8) as bv8, n) == Has16(c, (n as bv16) << 8)
    ensures ByteHas((c & 0xFF) as bv8, n) == Has16(c, n as bv16)
  {
  }

  lemma FirstByteBit(c: bv16, i: nat)
    requires i < 8
    ensures CODE.Bit(c, i) == CODE.ByteBit((c >> 8) as bv8, i)
  {
    MaskByte(i);
    HasOwn(c, ByteMask(i));
  }

  lemma SecondByteBit(c: bv16, i: nat)
    requires i < 8
    ensures CODE.Bit(c, i + 8) == CODE.ByteBit((c & 0xFF) as bv8, i)
  {
    SecondMask(i);
    HasOwn(c, ByteMask(i));
  }

  lemma OwnBytes(c: bv16)
    ensures CODE.Byte((c >> 8) as bv8) + CODE.Byte((c & 0xFF) as bv8) == CODE.Word(c)
  {
    var x, y := (c >> 8) as bv8, (c & 0xFF) as bv8;
    forall i: nat | i < 8 ensures CODE.Bit(c, i) == CODE.ByteBit(x, i) { FirstByteBit(c, i); }
    forall i: nat | i < 8 ensures CODE.Bit(c, i + 8) == CODE.ByteBit(y, i) { SecondByteBit(c, i); }
    WordOfBytes(CODE, c, x, y);
  }

  lemma ZeroByte(b: bv8)
    requires CODE.Byte(b) == Zeros(8)
    ensures b == 0
  {
    forall i: nat | i < 8 ensures !CODE.ByteBit(b, i) { assert !CODE.Byte(b)[i]; }
    assert !(CODE.ByteBit(b, 0) || CODE.ByteBit(b, 1) || CODE.ByteBit(b, 2) || CODE.ByteBit(b, 3));
    assert !(CODE.ByteBit(b, 4) || CODE.ByteBit(b, 5) || CODE.ByteBit(b, 6) || CODE.ByteBit(b, 7));
    OnlyZeroByte(b);
  }

  lemma ZeroWord(c: bv16)
    requires CODE.Word(c) == Zeros(16)
    ensures c == 0
  {
    OwnBytes(c);
    assert Zeros(16)[..8] == Zeros(8) == Zeros(16)[8..];
    ZeroByte((c >> 8) as bv8);
    ZeroByte((c & 0xFF) as bv8);
    OnlyZeroHalves(c);
  }

  function Own(c: bv16): seq<bv8> { [(c >> 8) as bv8, (c & 0xFF) as bv8] }

  lemma AppendedLookupsCancel(data: seq<bv8>, init: bv16)
    ensures CODE.LookupAll(init, data + Own(CODE.LookupAll(init, data))) == 0
  {
    var c := CODE.LookupAll(init, data);
    Words();
    Table();
    OwnBytes(c);
    AppendedBytesCancel(CODE, init, data, (c >> 8) as bv8, (c & 0xFF) as bv8);
    ZeroWord(CODE.LookupAll(init, data + [(c >> 8) as bv8, (c & 0xFF) as bv8]));
  }

  /** A message followed by its CRC, most significant byte first, has CRC 0. */
  lemma AppendedCrcCancels(data: seq<bv8>, init: bv32)
    ensures Low16(Fold(Step, init, data + Own(Low16(Fold(Step, init, data))))) == 0
  {
    forall x: bv32, b: bv8 ensures Low16(Step(x, b)) == CODE.Lookup(Low16(x), b) { StepLooksUp(x, b); }
    forall i: bv16, d: seq<bv8> ensures CODE.LookupAll(i, d + Own(CODE.LookupAll(i, d))) == 0 {
      AppendedLookupsCancel(d, i);
    }
    WideCancels(CODE, Step, Low16, init, data, Own);
  }
}

/** crc_0x8005_r: x^16 + x^15 + x^2 + 1, least significant bit first. */
module Crc8005R {
  import Crc04C11DB7R
  import opened CrcTables
  import opened BitWords
  import opened PolynomialDivision

  /** Bytes are sent least significant bit first. */
  function ByteMask(i: nat): bv8 {
    if i == 0 then 0x1 else if i == 1 then 0x2 else if i == 2 then 0x4 else if i == 3 then 0x8 else
    if i == 4 then 0x10 else if i == 5 then 0x20 else if i == 6 then 0x40 else if i == 7 then 0x80 else
    0
  }

  /** The table entries of the eight masks. */
  function Unit(k: nat): bv16 {
    if k == 0 then 0xC0C1 else if k == 1 then 0xC181 else if k == 2 then 0xC301 else if k == 3 then 0xC601 else
    if k == 4 then 0xCC01 else if k == 5 then 0xD801 else if k == 6 then 0xF001 else if k == 7 then 0xA001 else
    0
  }

  function Next(m: bv16): bv16 { m << 1 }
  function Next8(m: bv16): bv16 { m << 8 }
  function Shift(c: bv16): bv16 { c >> 1 }
  function Shift8(c: bv16): bv16 { c >> 8 }
  function Index(c: bv16, b: bv8): bv8 { ((c & 0xFF) as bv8) ^ b }

  const CODE: Code<bv16, bv8> := Code(16, Has16, 0x1, Next, Next8, ByteHas, ByteMask, 0, 0xA001,
                                     Sum16, Shift, Shift8, Index, Table8005R, Unit)

  // ---- Words as polynomials ----

  lemma OneNext(m: bv16)
    requires One16(m)
    ensures One16(Next(m))
  {
  }

  lemma EightNexts(m: bv16)
    ensures Next8(m) == Next(Next(Next(Next(Next(Next(Next(Next(m))))))))
  {
  }

  lemma RawShift(c: bv16, m: bv16)
    ensures ((c >> 1) & m != 0) == (c & (m << 1) != 0)
  {
  }

  lemma HasShift(c: bv16, m: bv16)
    ensures Has16(Shift(c), m) == Has16(c, Next(m))
  {
    RawShift(c, m);
  }

  lemma RawShift8(c: bv16, m: bv16)
    ensures ((c >> 8) & m != 0) == (c & (m << 8) != 0)
  {
  }

  lemma HasShift8(c: bv16, m: bv16)
    ensures Has16(Shift8(c), m) == Has16(c, Next8(m))
  {
    RawShift8(c, m);
  }

  lemma RawIndex(c: bv16, b: bv8, n: bv8)
    requires n & (n - 1) == 0
    ensures ((((c & 0xFF) as bv8) ^ b) & n != 0) == ((b & n != 0) != (c & ((n as bv16)) != 0))
  {
  }

  lemma HasIndex(c: bv16, b: bv8, n: bv8)
    requires n & (n - 1) == 0
    ensures ByteHas(Index(c, b), n) == (ByteHas(b, n) != Has16(c, (n as bv16)))
  {
    RawIndex(c, b, n);
  }

  lemma ByteMaskIsOne(i: nat)
    ensures ByteMask(i) & (ByteMask(i) - 1) == 0
  {
  }

  lemma MaskByte(i: nat)
    requires i < 8
    ensures CODE.Mask(i) == (ByteMask(i) as bv16)
  {
    assert CODE.Mask(2) == Next(CODE.Mask(1));
    assert CODE.Mask(4) == Next(CODE.Mask(3));
    assert CODE.Mask(6) == Next(CODE.Mask(5));
  }

  lemma IndexBit(c: bv16, b: bv8, i: nat)
    requires i < 8
    ensures CODE.ByteBit(Index(c, b), i) == (CODE.ByteBit(b, i) != CODE.Bit(c, i))
  {
    MaskByte(i);
    ByteMaskIsOne(i);
    HasIndex(c, b, ByteMask(i));
  }

  lemma MasksEnd()
    ensures CODE.Mask(16) == 0
  {
    MaskFour(CODE, 0);
    MaskFour(CODE, 4);
    MaskFour(CODE, 8);
    MaskFour(CODE, 12);
  }

  lemma Words()
    ensures WordsRight(CODE)
  {
    forall m: bv16 | One16(m) ensures One16(Next(m)) { OneNext(m); }
    forall a: bv16, b: bv16, m: bv16 | One16(m) ensures Has16(Sum16(a, b), m) == (Has16(a, m) != Has16(b, m)) {
      HasSum16(a, b, m);
    }
    forall a: bv16, m: bv16 ensures Has16(Shift(a), m) == Has16(a, Next(m)) { HasShift(a, m); }
    forall a: bv16, m: bv16 ensures Has16(Shift8(a), m) == Has16(a, Next8(m)) { HasShift8(a, m); }
    forall m: bv16 ensures Next8(m) == Next(Next(Next(Next(Next(Next(Next(Next(m)))))))) { EightNexts(m); }
    forall a: bv16 ensures !Has16(a, 0) && !Has16(0, a) { HasNone16(a); }
    forall a: bv16, b: bv8, i: nat | i < 8
      ensures CODE.ByteBit(Index(a, b), i) == (CODE.ByteBit(b, i) != CODE.Bit(a, i))
    {
      IndexBit(a, b, i);
    }
    MasksEnd();
    WordsFollow(CODE, One16, 0);
  }

  // ---- The table ----

  /** The sum of the entries of the masks that a byte has. */
  function Mixed(b: bv8): bv16 {
    Add16(b, 0x1, 0xC0C1, Add16(b, 0x2, 0xC181, 
    Add16(b, 0x4, 0xC301, Add16(b, 0x8, 0xC601, 
    Add16(b, 0x10, 0xCC01, Add16(b, 0x20, 0xD801, 
    Add16(b, 0x40, 0xF001, Add16(b, 0x80, 0xA001, 0))))))))
  }

  lemma PartA(b: bv8)
    requires b < 0x40
    ensures Table8005RA(b) == Mixed(b)
  {
  }

  lemma PartB(b: bv8)
    requires 0x40 <= b < 0x80
    ensures Table8005RB(b) == Mixed(b)
  {
  }

  lemma PartC(b: bv8)
    requires 0x80 <= b < 0xC0
    ensures Table8005RC(b) == Mixed(b)
  {
  }

  lemma PartD(b: bv8)
    requires 0xC0 <= b
    ensures Table8005RD(b) == Mixed(b)
  {
  }

  lemma TableIsMixed(b: bv8)
    ensures Table8005R(b) == Mixed(b)
  {
    if b < 0x40 { PartA(b); } else if b < 0x80 { PartB(b); } else if b < 0xC0 { PartC(b); } else { PartD(b); }
  }

  lemma MixAt(b: bv8, k: nat, m: bv8, u: bv16, v: bv16)
    requires k < 8 && ByteMask(k) == m && Unit(k) == u && CODE.Mix(b, k + 1) == v
    ensures CODE.Mix(b, k) == Add16(b, m, u, v)
  {
    AddIs16(b, m, u, v);
  }

  lemma MixIsMixed(b: bv8)
    ensures CODE.Mix(b, 0) == Mixed(b)
  {
    var s7 := Add16(b, 0x80, 0xA001, 0);
    MixAt(b, 7, 0x80, 0xA001, 0);
    var s6 := Add16(b, 0x40, 0xF001, s7);
    MixAt(b, 6, 0x40, 0xF001, s7);
    var s5 := Add16(b, 0x20, 0xD801, s6);
    MixAt(b, 5, 0x20, 0xD801, s6);
    var s4 := Add16(b, 0x10, 0xCC01, s5);
    MixAt(b, 4, 0x10, 0xCC01, s5);
    var s3 := Add16(b, 0x8, 0xC601, s4);
    MixAt(b, 3, 0x8, 0xC601, s4);
    var s2 := Add16(b, 0x4, 0xC301, s3);
    MixAt(b, 2, 0x4, 0xC301, s3);
    var s1 := Add16(b, 0x2, 0xC181, s2);
    MixAt(b, 1, 0x2, 0xC181, s2);
    var s0 := Add16(b, 0x1, 0xC0C1, s1);
    MixAt(b, 0, 0x1, 0xC0C1, s1);
  }

  /** Each entry is what the register makes of the next one. */
  lemma UnitsFollow(k: nat)
    requires k < 7
    ensures Unit(k) == CODE.FeedZero(Unit(k + 1))
  {
  }

  lemma Table()
    ensures TableRight(CODE)
  {
    forall b: bv8 ensures Table8005R(b) == CODE.Mix(b, 0) {
      TableIsMixed(b);
      MixIsMixed(b);
    }
    forall k: nat | k < 7 ensures Unit(k) == CODE.FeedZero(Unit(k + 1)) { UnitsFollow(k); }
  }

  // ---- The function as written ----

  function Step(crc: bv32, b: bv8): bv32 { Mix(Table8005R(WideIndex(crc, b)), WideShift(crc)) }
  function WideIndex(crc: bv32, b: bv8): bv8 { ((crc ^ (b as bv32)) & 0xFF) as bv8 }
  function WideShift(crc: bv32): bv32 { crc >> 8 }
  function Mix(t: bv16, y: bv32): bv32 { (t as bv32) ^ y }

  function Wide(c: bv16): bv32 { c as bv32 }

  lemma SameIndex(c: bv16, b: bv8)
    ensures WideIndex(Wide(c), b) == Index(c, b)
  {
  }

  lemma ShiftStaysNarrow(c: bv16)
    ensures WideShift(Wide(c)) == Wide(Shift8(c))
  {
  }

  lemma SumStaysNarrow(t: bv16, y: bv16)
    ensures Mix(t, Wide(y)) == Wide(Sum16(t, y))
  {
    assert (t as bv32) ^ (y as bv32) == (t ^ y) as bv32;
  }

  /** It shifts right, so a register below 2^16 stays there. */
  lemma StepLooksUp(c: bv16, b: bv8)
    ensures Step(Wide(c), b) == Wide(CODE.Lookup(c, b))
  {
    forall x: bv16, b: bv8 ensures WideIndex(Wide(x), b) == Index(x, b) { SameIndex(x, b); }
    forall x: bv16 ensures WideShift(Wide(x)) == Wide(Shift8(x)) { ShiftStaysNarrow(x); }
    forall t: bv16, y: bv16 ensures Mix(t, Wide(y)) == Wide(Sum16(t, y)) { SumStaysNarrow(t, y); }
    NarrowLookup(CODE, WideIndex, WideShift, Mix, Wide, c, b);
  }

  lemma {:induction false} LoopLooksUp(init: bv16, data: seq<bv8>)
    ensures Fold(Step, Wide(init), data) == Wide(CODE.LookupAll(init, data))
    decreases |data|
  {
    if data != [] {
      LoopLooksUp(init, data[..|data| - 1]);
      StepLooksUp(CODE.LookupAll(init, data[..|data| - 1]), data[|data| - 1]);
    }
  }

  // ---- The whole 32-bit register ----

  function WideTable(b: bv8): bv32 { Wide(Table8005R(b)) }
  function WideUnit(k: nat): bv32 { Wide(Unit(k)) }

  /** The divisor has 16 more coefficients, which are 0. */
  const WIDE: Code<bv32, bv8> := Crc04C11DB7R.CODE.(poly := 0xA001, table := WideTable, unit := WideUnit)

  lemma WideHas(c: bv16, m: bv16)
    ensures Has32(Wide(c), Wide(m)) == Has16(c, m)
  {
  }

  lemma WideSecondHalf(n: bv8)
    ensures Crc04C11DB7R.Next8(n as bv32) == Wide((n as bv16) << 8)
  {
  }

  lemma LowMasks(i: nat)
    requires i < 16
    ensures WIDE.Mask(i) == Wide(CODE.Mask(i))
  {
    SameMask(Crc04C11DB7R.CODE, WIDE, i);
    if i < 8 {
      MaskByte(i);
      Crc04C11DB7R.MaskByte(i);
    } else {
      SecondMask(i - 8);
      WideSecondMask(i - 8);
      WideSecondHalf(ByteMask(i - 8));
    }
  }

  lemma WideSecondMask(i: nat)
    requires i < 8
    ensures Crc04C11DB7R.CODE.Mask(i + 8) == Crc04C11DB7R.Next8(ByteMask(i) as bv32)
  {
    Crc04C11DB7R.MaskByte(i);
    MaskFour(Crc04C11DB7R.CODE, i);
    MaskFour(Crc04C11DB7R.CODE, i + 4);
    Crc04C11DB7R.EightNexts(Crc04C11DB7R.CODE.Mask(i));
  }

  lemma FirstHighMask()
    ensures WIDE.Mask(16) == 0x10000
  {
    MaskFour(WIDE, 0);
    MaskFour(WIDE, 4);
    MaskFour(WIDE, 8);
    MaskFour(WIDE, 12);
  }

  lemma StaysHigh(m: bv32)
    requires m & 0xFFFF == 0
    ensures Crc04C11DB7R.Next(m) & 0xFFFF == 0 && !Has32(0xA001, m)
  {
  }

  lemma {:induction false} HighMasks(i: nat)
    requires i >= 16
    ensures WIDE.Mask(i) & 0xFFFF == 0
  {
    if i == 16 {
      FirstHighMask();
    } else {
      HighMasks(i - 1);
      StaysHigh(WIDE.Mask(i - 1));
    }
  }

  /** The divisor of the 32-bit register is 0x8005 times x^16. */
  lemma WideDivisor()
    ensures WIDE.G() == CODE.G() + Zeros(16)
  {
    var g, h := WIDE.G(), CODE.G() + Zeros(16);
    forall i: nat | i < 32 ensures g[i] == h[i] {
      assert g[i] == WIDE.Bit(0xA001, i);
      if i < 16 {
        LowMasks(i);
        WideHas(0xA001, CODE.Mask(i));
      } else {
        HighMasks(i);
        StaysHigh(WIDE.Mask(i));
      }
    }
  }

  lemma WideSum(a: bv16, b: bv16)
    ensures Sum32(Wide(a), Wide(b)) == Wide(Sum16(a, b))
  {
  }

  lemma {:induction false} WideMix(b: bv8, k: nat)
    requires k <= 8
    ensures WIDE.Mix(b, k) == Wide(CODE.Mix(b, k))
    decreases 8 - k
  {
    if k < 8 {
      WideMix(b, k + 1);
      WideSum(CODE.Pick(b, k), CODE.Mix(b, k + 1));
    }
  }

  lemma WideUnitsFollow(k: nat)
    requires k < 7
    ensures WideUnit(k) == WIDE.FeedZero(WideUnit(k + 1))
  {
  }

  lemma WideRight()
    ensures WordsRight(WIDE) && TableRight(WIDE)
  {
    Crc04C11DB7R.Words();
    OtherDivisor(Crc04C11DB7R.CODE, WIDE);
    Table();
    forall b: bv8 ensures WideTable(b) == WIDE.Mix(b, 0) { WideMix(b, 0); }
    forall k: nat | k < 7 ensures WideUnit(k) == WIDE.FeedZero(WideUnit(k + 1)) { WideUnitsFollow(k); }
  }

  lemma WideStepLooksUp(crc: bv32, b: bv8)
    ensures Step(crc, b) == WIDE.Lookup(crc, b)
  {
    Crc04C11DB7R.SameIndex(crc, b);
  }

  lemma {:induction false} WideLoopLooksUp(init: bv32, data: seq<bv8>)
    ensures Fold(Step, init, data) == WIDE.LookupAll(init, data)
    decreases |data|
  {
    if data != [] {
      WideLoopLooksUp(init, data[..|data| - 1]);
      WideStepLooksUp(WIDE.LookupAll(init, data[..|data| - 1]), data[|data| - 1]);
    }
  }

  lemma {:induction false} SameMessage(data: seq<bv8>)
    ensures WIDE.Message(data) == CODE.Message(data)
    decreases |data|
  {
    if data != [] {
      SameMessage(data[..|data| - 1]);
      var b := data[|data| - 1];
      forall i: nat | i < 8 ensures WIDE.Byte(b)[i] == CODE.Byte(b)[i] {
        assert WIDE.byteMask(i) == CODE.byteMask(i);
      }
      assert WIDE.Byte(b) == CODE.Byte(b);
    }
  }

  lemma WideDivides(init: bv32, data: seq<bv8>)
    ensures WIDE.Word(WIDE.LookupAll(init, data))
         == Remainder(CODE.G() + Zeros(16), CODE.Message(data), WIDE.Word(init))
  {
    WideRight();
    WideDivisor();
    SameMessage(data);
    LookupsDivide(WIDE, init, data);
  }

  /** The result of a register below 2^16. */
  predicate NarrowResult(crc: bv32, data: seq<bv8>, init: bv16) {
    crc <= 0xFFFF && CODE.Word(crc as bv16) == Remainder(CODE.G(), CODE.Message(data), CODE.Word(init))
  }

  /** For every init the result is the remainder for 0x8005 times x^16; an init
      below 2^16 gives the remainder for 0x8005, without any mask. */
  method Compute(data: seq<bv8>, init: bv32) returns (crc: bv32)
    ensures WIDE.Word(crc) == Remainder(CODE.G() + Zeros(16), CODE.Message(data), WIDE.Word(init))
    ensures init <= 0xFFFF ==> NarrowResult(crc, data, init as bv16)
  {
    crc := RunLoop(Step, init, data);
    WideLoopLooksUp(init, data);
    WideDivides(init, data);
    if init <= 0xFFFF {
      WideIsNarrow(init);
      StaysNarrow(data, init as bv16);
    }
  }

  lemma NarrowIsWide(c: bv16)
    ensures Wide(c) <= 0xFFFF && Wide(c) as bv16 == c
  {
  }

  lemma WideIsNarrow(c: bv32)
    requires c <= 0xFFFF
    ensures Wide(c as bv16) == c
  {
  }

  lemma StaysNarrow(data: seq<bv8>, init: bv16)
    ensures NarrowResult(Fold(Step, Wide(init), data), data, init)
  {
    LoopLooksUp(init, data);
    Divides(init, data);
    NarrowIsWide(CODE.LookupAll(init, data));
  }

  lemma Divides(init: bv16, data: seq<bv8>)
    ensures CODE.Word(CODE.LookupAll(init, data)) == Remainder(CODE.G(), CODE.Message(data), CODE.Word(init))
  {
    Words();
    Table();
    LookupsDivide(CODE, init, data);
  }

  lemma SecondHalf(n: bv8)
    ensures Next8(n as bv16) == (n as bv16) << 8
  {
  }

  lemma SecondMask(i: nat)
    requires i < 8
    ensures CODE.Mask(i + 8) == (ByteMask(i) as bv16) << 8
  {
    MaskByte(i);
    MaskFour(CODE, i);
    MaskFour(CODE, i + 4);
    EightNexts(CODE.Mask(i));
    SecondHalf(ByteMask(i));
  }

  // ---- Appending the CRC ----

  function LowByte(crc: bv32): bv8 { (crc & 0xFF) as bv8 }
  function UpperHalf(crc: bv32): bv32 { crc >> 16 }
  predicate IsNarrow(crc: bv32) { crc <= 0xFFFF }

  function Own(crc: bv32): seq<bv8> { [LowByte(crc), LowByte(WideShift(crc))] }

  lemma SameByteIndex(crc: bv32)
    ensures WideIndex(crc, LowByte(crc)) == 0
  {
  }

  lemma MixZero(y: bv32)
    ensures Mix(Table8005R(0), y) == y
  {
  }

  lemma OwnByteShifts(crc: bv32)
    ensures Step(crc, LowByte(crc)) == WideShift(crc)
  {
    SameByteIndex(crc);
    MixZero(WideShift(crc));
  }

  lemma ShiftTwice(crc: bv32)
    ensures WideShift(WideShift(crc)) == UpperHalf(crc) && (UpperHalf(crc) == 0 <==> IsNarrow(crc))
  {
  }

  /** The two low bytes of the CRC, least significant byte first, leave its upper
      half, so a message followed by a CRC below 2^16 has CRC 0. */
  lemma AppendedCrcCancels(data: seq<bv8>, init: bv32)
    ensures var crc := Fold(Step, init, data);
            var all := Fold(Step, init, data + Own(crc));
            all == UpperHalf(crc) && (all == 0 <==> IsNarrow(crc)) && (IsNarrow(init) ==> all == 0)
  {
    var crc := Fold(Step, init, data);
    forall c: bv32 ensures Step(c, LowByte(c)) == WideShift(c) { OwnByteShifts(c); }
    OwnBytesShift(Step, LowByte, WideShift, init, data);
    ShiftTwice(crc);
    if IsNarrow(init) { NarrowStays(data, init); }
  }

  lemma NarrowStays(data: seq<bv8>, init: bv32)
    requires IsNarrow(init)
    ensures IsNarrow(Fold(Step, init, data))
  {
    WideIsNarrow(init);
    StaysNarrow(data, init as bv16);
  }
}

/** crc_0x04C11DB7_r: the CRC-32 of section 8 of RFC 1952, least significant bit first. */
module Crc04C11DB7R {
  import opened CrcTables
  import opened BitWords
  import opened PolynomialDivision

  /** Bytes are sent least significant bit first. */
  function ByteMask(i: nat): bv8 {
    if i == 0 then 0x1 else if i == 1 then 0x2 else if i == 2 then 0x4 else if i == 3 then 0x8 else
    if i == 4 then 0x10 else if i == 5 then 0x20 else if i == 6 then 0x40 else if i == 7 then 0x80 else
    0
  }

  /** The table entries of the eight masks. */
  function Unit(k: nat): bv32 {
    if k == 0 then 0x77073096 else if k == 1 then 0xEE0E612C else if k == 2 then 0x076DC419 else if k == 3 then 0x0EDB8832 else
    if k == 4 then 0x1DB71064 else if k == 5 then 0x3B6E20C8 else if k == 6 then 0x76DC4190 else if k == 7 then 0xEDB88320 else
    0
  }

  function Next(m: bv32): bv32 { m << 1 }
  function Next8(m: bv32): bv32 { m << 8 }
  function Shift(c: bv32): bv32 { c >> 1 }
  function Shift8(c: bv32): bv32 { c >> 8 }
  function Index(c: bv32, b: bv8): bv8 { ((c & 0xFF) as bv8) ^ b }

  const CODE: Code<bv32, bv8> := Code(32, Has32, 0x1, Next, Next8, ByteHas, ByteMask, 0, 0xEDB88320,
                                     Sum32, Shift, Shift8, Index, Table04C11DB7R, Unit)

  // ---- Words as polynomials ----

  lemma OneNext(m: bv32)
    requires One32(m)
    ensures One32(Next(m))
  {
  }

  lemma EightNexts(m: bv32)
    ensures Next8(m) == Next(Next(Next(Next(Next(Next(Next(Next(m))))))))
  {
  }

  lemma RawShift(c: bv32, m: bv32)
    ensures ((c >> 1) & m != 0) == (c & (m << 1) != 0)
  {
  }

  lemma HasShift(c: bv32, m: bv32)
    ensures Has32(Shift(c), m) == Has32(c, Next(m))
  {
    RawShift(c, m);
  }

  lemma RawShift8(c: bv32, m: bv32)
    ensures ((c >> 8) & m != 0) == (c & (m << 8) != 0)
  {
  }

  lemma HasShift8(c: bv32, m: bv32)
    ensures Has32(Shift8(c), m) == Has32(c, Next8(m))
  {
    RawShift8(c, m);
  }

  lemma RawIndex(c: bv32, b: bv8, n: bv8)
    requires n & (n - 1) == 0
    ensures ((((c & 0xFF) as bv8) ^ b) & n != 0) == ((b & n != 0) != (c & ((n as bv32)) != 0))
  {
  }

  lemma HasIndex(c: bv32, b: bv8, n: bv8)
    requires n & (n - 1) == 0
    ensures ByteHas(Index(c, b), n) == (ByteHas(b, n) != Has32(c, (n as bv32)))
  {
    RawIndex(c, b, n);
  }

  lemma ByteMaskIsOne(i: nat)
    ensures ByteMask(i) & (ByteMask(i) - 1) == 0
  {
  }

  lemma MaskByte(i: nat)
    requires i < 8
    ensures CODE.Mask(i) == (ByteMask(i) as bv32)
  {
    assert CODE.Mask(2) == Next(CODE.Mask(1));
    assert CODE.Mask(4) == Next(CODE.Mask(3));
    assert CODE.Mask(6) == Next(CODE.Mask(5));
  }

  lemma IndexBit(c: bv32, b: bv8, i: nat)
    requires i < 8
    ensures CODE.ByteBit(Index(c, b), i) == (CODE.ByteBit(b, i) != CODE.Bit(c, i))
  {
    MaskByte(i);
    ByteMaskIsOne(i);
    HasIndex(c, b, ByteMask(i));
  }

  lemma MasksEnd()
    ensures CODE.Mask(32) == 0
  {
    MaskFour(CODE, 0);
    MaskFour(CODE, 4);
    MaskFour(CODE, 8);
    MaskFour(CODE, 12);
    MaskFour(CODE, 16);
    MaskFour(CODE, 20);
    MaskFour(CODE, 24);
    MaskFour(CODE, 28);
  }

  lemma Words()
    ensures WordsRight(CODE)
  {
    forall m: bv32 | One32(m) ensures One32(Next(m)) { OneNext(m); }
    forall a: bv32, b: bv32, m: bv32 | One32(m) ensures Has32(Sum32(a, b), m) == (Has32(a, m) != Has32(b, m)) {
      HasSum32(a, b, m);
    }
    forall a: bv32, m: bv32 ensures Has32(Shift(a), m) == Has32(a, Next(m)) { HasShift(a, m); }
    forall a: bv32, m: bv32 ensures Has32(Shift8(a), m) == Has32(a, Next8(m)) { HasShift8(a, m); }
    forall m: bv32 ensures Next8(m) == Next(Next(Next(Next(Next(Next(Next(Next(m)))))))) { EightNexts(m); }
    forall a: bv32 ensures !Has32(a, 0) && !Has32(0, a) { HasNone32(a); }
    forall a: bv32, b: bv8, i: nat | i < 8
      ensures CODE.ByteBit(Index(a, b), i) == (CODE.ByteBit(b, i) != CODE.Bit(a, i))
    {
      IndexBit(a, b, i);
    }
    MasksEnd();
    WordsFollow(CODE, One32, 0);
  }

  // ---- The table ----

  /** The sum of the entries of the masks that a byte has. */
  function Mixed(b: bv8): bv32 {
    Add32(b, 0x1, 0x77073096, Add32(b, 0x2, 0xEE0E612C, 
    Add32(b, 0x4, 0x076DC419, Add32(b, 0x8, 0x0EDB8832, 
    Add32(b, 0x10, 0x1DB71064, Add32(b, 0x20, 0x3B6E20C8, 
    Add32(b, 0x40, 0x76DC4190, Add32(b, 0x80, 0xEDB88320, 0))))))))
  }

  lemma PartA(b: bv8)
    requires b < 0x20
    ensures Table04C11DB7RA(b) == Mixed(b)
  {
  }

  lemma PartB(b: bv8)
    requires 0x20 <= b < 0x40
    ensures Table04C11DB7RB(b) == Mixed(b)
  {
  }

  lemma PartC(b: bv8)
    requires 0x40 <= b < 0x60
    ensures Table04C11DB7RC(b) == Mixed(b)
  {
  }

  lemma PartD(b: bv8)
    requires 0x60 <= b < 0x80
    ensures Table04C11DB7RD(b) == Mixed(b)
  {
  }

  lemma PartE(b: bv8)
    requires 0x80 <= b < 0xA0
    ensures Table04C11DB7RE(b) == Mixed(b)
  {
  }

  lemma PartF(b: bv8)
    requires 0xA0 <= b < 0xC0
    ensures Table04C11DB7RF(b) == Mixed(b)
  {
  }

  lemma PartG(b: bv8)
    requires 0xC0 <= b < 0xE0
    ensures Table04C11DB7RG(b) == Mixed(b)
  {
  }

  lemma PartH(b: bv8)
    requires 0xE0 <= b
    ensures Table04C11DB7RH(b) == Mixed(b)
  {
  }

  lemma TableIsMixed(b: bv8)
    ensures Table04C11DB7R(b) == Mixed(b)
  {
    if b < 0x20 { PartA(b); } else if b < 0x40 { PartB(b); } else if b < 0x60 { PartC(b); } else if b < 0x80 { PartD(b); } else
    if b < 0xA0 { PartE(b); } else if b < 0xC0 { PartF(b); } else if b < 0xE0 { PartG(b); } else { PartH(b); }
  }

  lemma MixAt(b: bv8, k: nat, m: bv8, u: bv32, v: bv32)
    requires k < 8 && ByteMask(k) == m && Unit(k) == u && CODE.Mix(b, k + 1) == v
    ensures CODE.Mix(b, k) == Add32(b, m, u, v)
  {
    AddIs32(b, m, u, v);
  }

  lemma MixIsMixed(b: bv8)
    ensures CODE.Mix(b, 0) == Mixed(b)
  {
    var s7 := Add32(b, 0x80, 0xEDB88320, 0);
    MixAt(b, 7, 0x80, 0xEDB88320, 0);
    var s6 := Add32(b, 0x40, 0x76DC4190, s7);
    MixAt(b, 6, 0x40, 0x76DC4190, s7);
    var s5 := Add32(b, 0x20, 0x3B6E20C8, s6);
    MixAt(b, 5, 0x20, 0x3B6E20C8, s6);
    var s4 := Add32(b, 0x10, 0x1DB71064, s5);
    MixAt(b, 4, 0x10, 0x1DB71064, s5);
    var s3 := Add32(b, 0x8, 0x0EDB8832, s4);
    MixAt(b, 3, 0x8, 0x0EDB8832, s4);
    var s2 := Add32(b, 0x4, 0x076DC419, s3);
    MixAt(b, 2, 0x4, 0x076DC419, s3);
    var s1 := Add32(b, 0x2, 0xEE0E612C, s2);
    MixAt(b, 1, 0x2, 0xEE0E612C, s2);
    var s0 := Add32(b, 0x1, 0x77073096, s1);
    MixAt(b, 0, 0x1, 0x77073096, s1);
  }

  /** Each entry is what the register makes of the next one. */
  lemma UnitsFollow(k: nat)
    requires k < 7
    ensures Unit(k) == CODE.FeedZero(Unit(k + 1))
  {
  }

  lemma Table()
    ensures TableRight(CODE)
  {
    forall b: bv8 ensures Table04C11DB7R(b) == CODE.Mix(b, 0) {
      TableIsMixed(b);
      MixIsMixed(b);
    }
    forall k: nat | k < 7 ensures Unit(k) == CODE.FeedZero(Unit(k + 1)) { UnitsFollow(k); }
  }

  // ---- The function as written ----

  function Step(crc: bv32, b: bv8): bv32 {
    Table04C11DB7R(((crc ^ (b as bv32)) & 0xFF) as bv8) ^ (crc >> 8)
  }

  lemma SameIndex(crc: bv32, b: bv8)
    ensures ((crc ^ (b as bv32)) & 0xFF) as bv8 == Index(crc, b)
  {
  }

  lemma StepLooksUp(crc: bv32, b: bv8)
    ensures Step(crc, b) == CODE.Lookup(crc, b)
  {
    SameIndex(crc, b);
  }

  lemma {:induction false} LoopLooksUp(init: bv32, data: seq<bv8>)
    ensures Fold(Step, init, data) == CODE.LookupAll(init, data)
    decreases |data|
  {
    if data != [] {
      LoopLooksUp(init, data[..|data| - 1]);
      StepLooksUp(CODE.LookupAll(init, data[..|data| - 1]), data[|data| - 1]);
    }
  }

  method Compute(data: seq<bv8>, init: bv32) returns (crc: bv32)
    ensures CODE.Word(crc) == Remainder(CODE.G(), CODE.Message(data), CODE.Word(init))
  {
    crc := RunLoop(Step, init, data);
    LoopLooksUp(init, data);
    Divides(init, data);
  }

  lemma Divides(init: bv32, data: seq<bv8>)
    ensures CODE.Word(CODE.LookupAll(init, data)) == Remainder(CODE.G(), CODE.Message(data), CODE.Word(init))
  {
    Words();
    Table();
    LookupsDivide(CODE, init, data);
  }
}
