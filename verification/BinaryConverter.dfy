/**
 The binary converter %b / %B: an integer as a string of two digit characters,
 printed and scanned in either bit order. Integers have 64 bits and are given
 by their unsigned value.
 */
module BinaryConverter {
  import opened Basics

  datatype Format = Format(
    width: nat,
    prec: int,          // -1: as many bits as the value needs
    alt: bool,          // least significant bit first
    left: bool,         // pad on the right
    fillZero: bool,     // pad with the zero digit
    zero: byte, one: byte)

  const SPACE: byte := 0x20
  const LONG := 0x1_0000_0000_0000_0000

  predicate IsSpace(c: byte) { c == SPACE || 9 <= c <= 13 }

  predicate IsDigit(f: Format, c: byte) { c == f.zero || c == f.one }

  // ---- Bits ----

  function Pow2(e: nat): (r: nat)
    ensures r > 0
  {
    if e == 0 then 1 else 2 * Pow2(e - 1)
  }

  lemma {:induction false} Pow2Add(a: nat, b: nat)
    ensures Pow2(a + b) == Pow2(a) * Pow2(b)
    decreases b
  {
    if b > 0 { Pow2Add(a, b - 1); }
  }

  lemma Pow2Values()
    ensures Pow2(2) == 4 && Pow2(4) == 16 && Pow2(8) == 256 && Pow2(16) == 0x1_0000
    ensures Pow2(32) == 0x1_0000_0000 && Pow2(64) == LONG
  {
    assert Pow2(2) == 2 * Pow2(1);
    var p4 := SquarePow2(2);
    var p8 := SquarePow2(4);
    var p16 := SquarePow2(8);
    var p32 := SquarePow2(16);
    var p64 := SquarePow2(32);
  }

  lemma SquarePow2(e: nat) returns (p: nat)
    ensures p == Pow2(e) * Pow2(e) == Pow2(2 * e)
  {
    Pow2Add(e, e);
    p := Pow2(2 * e);
  }

  // ---- The default precision ----

  /** `prec` bits are needed for `v`, and at least one. */
  predicate Needs(v: nat, prec: nat) {
    1 <= prec && v < Pow2(prec) && (prec > 1 ==> v >= Pow2(prec - 1))
  }

  /** There is only one such number. */
  lemma NeedsUnique(v: nat, p: nat, q: nat)
    requires Needs(v, p) && Needs(v, q)
    ensures p == q
  {
    if p < q { Pow2Grows(p, q - 1); } else if q < p { Pow2Grows(q, p - 1); }
  }

  lemma {:induction false} Pow2Grows(a: nat, b: nat)
    requires a <= b
    ensures Pow2(a) <= Pow2(b)
    decreases b
  {
    if a < b { Pow2Grows(a, b - 1); }
  }

  /** x was shifted left by `d` bits within 32 bits. */
  predicate Shifted(v: nat, d: nat, x: nat) { d <= 32 && x == v * Pow2(d) && x < Pow2(32) }

  lemma ShiftMore(v: nat, d: nat, x: nat, k: nat)
    requires Shifted(v, d, x) && d + k <= 32 && x * Pow2(k) < Pow2(32)
    ensures Shifted(v, d + k, x * Pow2(k))
  {
    Pow2Add(d, k);
    Associative(v, Pow2(d), Pow2(k));
  }

  lemma Associative(a: nat, b: nat, c: nat)
    ensures a * b * c == a * (b * c)
  {
  }

  lemma ShiftedNeeds(v: nat, d: nat, x: nat)
    requires Shifted(v, d, x) && d < 32 && (d < 31 ==> x >= 0x8000_0000)
    ensures Needs(v, 32 - d)
  {
    Pow2Values();
    Compare(v, d, 32 - d);
    if d < 31 {
      assert Pow2(32) == 2 * Pow2(31);
      Compare(v, d, 31 - d);
    }
  }

  lemma Compare(v: nat, d: nat, e: nat)
    ensures v * Pow2(d) < Pow2(d + e) <==> v < Pow2(e)
  {
    Pow2Add(d, e);
    Cancel(v, Pow2(e), Pow2(d));
  }

  lemma Cancel(a: nat, b: nat, p: nat)
    requires p > 0
    ensures a * p < b * p ==> a < b
    ensures a * p >= b * p ==> a >= b
  {
    if a >= b {
      MulMonotone(b, a, p);
    } else {
      MulMonotone(a + 1, b, p);
      assert (a + 1) * p == a * p + p;
    }
  }

  lemma {:induction false} MulMonotone(a: nat, b: nat, p: nat)
    requires a <= b
    ensures a * p <= b * p
    decreases b
  {
    if a < b {
      MulMonotone(a, b - 1, p);
      assert b * p == (b - 1) * p + p;
    }
  }

  /** Bisection on the upper 32-bit half that is not zero. */
  method SignificantBits32(v: nat) returns (prec: nat)
    requires v < 0x1_0000_0000
    ensures prec <= 32 && Needs(v, prec)
  {
    Pow2Values();
    var x, d := v, 0;
    if x <= 0x0000FFFF { ShiftMore(v, d, x, 16); d := d + 16; x := x * 0x1_0000; }
    if x <= 0x00FFFFFF { ShiftMore(v, d, x, 8); d := d + 8; x := x * 0x100; }
    if x <= 0x0FFFFFFF { ShiftMore(v, d, x, 4); d := d + 4; x := x * 0x10; }
    if x <= 0x3FFFFFFF { ShiftMore(v, d, x, 2); d := d + 2; x := x * 4; }
    if x <= 0x7FFFFFFF { ShiftMore(v, d, x, 1); d := d + 1; x := x * 2; }
    ShiftedNeeds(v, d, x);
    prec := 32 - d;
  }

  method SignificantBits(v: nat) returns (prec: nat)
    requires v < LONG
    ensures prec <= 64 && Needs(v, prec)
  {
    if v > 0xFFFF_FFFF {
      prec := SignificantBits32(v / 0x1_0000_0000);
      UpperHalf(v, prec);
      prec := prec + 32;
    } else {
      prec := SignificantBits32(v);
    }
  }

  lemma UpperHalf(v: nat, p: nat)
    requires v > 0xFFFF_FFFF && Needs(v / 0x1_0000_0000, p)
    ensures Needs(v, p + 32)
  {
    Pow2Values();
    Pow2Add(p, 32);
    Pow2Add(p - 1, 32);
    var h := v / 0x1_0000_0000;
    assert h * 0x1_0000_0000 <= v < (h + 1) * 0x1_0000_0000;
  }

  // ---- Digit strings, least significant digit first ----

  /** `v` after `i` right shifts. */
  function Halved(v: nat, i: nat): nat { if i == 0 then v else Halved(v, i - 1) / 2 }

  function Digit(f: Format, bit: nat): byte { if bit == 1 then f.one else f.zero }

  function Digits(f: Format, v: nat, n: nat): (s: Bytes)
    ensures |s| == n
  {
    if n == 0 then [] else Digits(f, v, n - 1) + [Digit(f, Halved(v, n - 1) % 2)]
  }

  /** The value of a digit string. */
  function Value(f: Format, s: Bytes): nat {
    if s == [] then 0 else Value(f, s[..|s| - 1]) + if s[|s| - 1] == f.one then Pow2(|s| - 1) else 0
  }

  predicate AllDigits(f: Format, s: Bytes) { forall i | 0 <= i < |s| :: IsDigit(f, s[i]) }

  lemma {:induction false} DigitsAll(f: Format, v: nat, n: nat)
    ensures AllDigits(f, Digits(f, v, n))
  {
    if n > 0 { DigitsAll(f, v, n - 1); }
  }

  /** `v` is `low` and `h` times `p`. */
  predicate Parts(v: nat, low: nat, h: nat, p: nat) { v == low + h * p }

  lemma {:induction false} DigitsValue(f: Format, v: nat, n: nat, low: nat, h: nat, p: nat)
    requires f.zero != f.one && low == Value(f, Digits(f, v, n)) && h == Halved(v, n) && p == Pow2(n)
    ensures Parts(v, low, h, p)
  {
    if n > 0 {
      var low', h', p' := Value(f, Digits(f, v, n - 1)), Halved(v, n - 1), Pow2(n - 1);
      DigitsValue(f, v, n - 1, low', h', p');
      ValueOfNext(f, v, n - 1);
      OneMoreBit(v, low', h', p', h, p);
    }
  }

  lemma OneMoreBit(v: nat, low: nat, h: nat, p: nat, h2: nat, p2: nat)
    requires Parts(v, low, h, p) && h2 == h / 2 && p2 == 2 * p
    ensures Parts(v, low + (if h % 2 == 1 then p else 0), h2, p2)
  {
    HalfSplit(h, p);
  }

  lemma ValueOfNext(f: Format, v: nat, n: nat)
    requires f.zero != f.one
    ensures Value(f, Digits(f, v, n + 1)) == Value(f, Digits(f, v, n)) + if Halved(v, n) % 2 == 1 then Pow2(n) else 0
  {
    assert Digits(f, v, n + 1)[..n] == Digits(f, v, n);
  }

  lemma HalfSplit(h: nat, p: nat)
    ensures h * p == (if h % 2 == 1 then p else 0) + h / 2 * (2 * p)
  {
    assert h == 2 * (h / 2) + h % 2;
    Associative(h / 2, 2, p);
  }

  /** Zero digits at the significant end do not count. */
  lemma {:induction false} ValueZeros(f: Format, s: Bytes, n: nat)
    requires f.zero != f.one
    ensures Value(f, s + Repeat(f.zero, n)) == Value(f, s)
  {
    var t := s + Repeat(f.zero, n);
    if n == 0 {
      assert t == s;
    } else {
      assert t[..|t| - 1] == s + Repeat(f.zero, n - 1);
      ValueZeros(f, s, n - 1);
    }
  }

  lemma {:induction false} ValueBound(f: Format, s: Bytes)
    ensures Value(f, s) < Pow2(|s|)
    decreases |s|
  {
    if s != [] { ValueBound(f, s[..|s| - 1]); }
  }

  lemma {:induction false} ValuePrepend(f: Format, c: byte, s: Bytes)
    ensures Value(f, [c] + s) == 2 * Value(f, s) + if c == f.one then 1 else 0
    decreases |s|
  {
    var t := [c] + s;
    if s == [] {
      assert t == [c] && t[..0] == [];
    } else {
      assert t[..|t| - 1] == [c] + s[..|s| - 1];
      ValuePrepend(f, c, s[..|s| - 1]);
    }
  }

  // ---- printLong ----

  function Padding(f: Format, prec: nat): nat { if f.width > prec then f.width - prec else 0 }

  /** Zero padding belongs to the digits if it stands at their significant end. */
  predicate ZeroPadded(f: Format) { f.fillZero && f.alt == f.left }

  function Body(f: Format, v: nat, prec: nat): Bytes {
    var s := Digits(f, v, prec) + Repeat(f.zero, if ZeroPadded(f) then Padding(f, prec) else 0);
    if f.alt then s else Reversed(s)
  }

  /** The number of blanks. */
  function Blanks(f: Format, prec: nat): nat { if ZeroPadded(f) then 0 else Padding(f, prec) }

  function Padded(f: Format, n: nat, body: Bytes): Bytes {
    if f.left then body + Repeat(SPACE, n) else Repeat(SPACE, n) + body
  }

  function Text(f: Format, v: nat, prec: nat): Bytes { Padded(f, Blanks(f, prec), Body(f, v, prec)) }

  function BitChar(f: Format, v: nat, k: nat): byte { if v / Pow2(k) % 2 == 1 then f.one else f.zero }

  /** The digits stand at the left or right end of the width, and zeros only
      fill beside the most significant one. */
  function CharAt(f: Format, v: nat, prec: nat, width: nat, i: nat): byte
    requires prec <= width
  {
    var first := if f.left then 0 else width - prec;
    if first <= i < first + prec then BitChar(f, v, if f.alt then i - first else prec - 1 - (i - first))
    else if f.fillZero && f.left == f.alt then f.zero
    else ' ' as int
  }

  predicate IsPrinted(f: Format, v: nat, prec: nat, s: Bytes) {
    var width := if f.width > prec then f.width else prec;
    |s| == width && forall i: nat | i < width :: s[i] == CharAt(f, v, prec, width, i)
  }

  lemma {:induction false} HalvedIs(v: nat, i: nat)
    ensures Halved(v, i) == v / Pow2(i)
  {
    if i > 0 {
      HalvedIs(v, i - 1);
      HalfOfQuotient(v, Pow2(i - 1));
    }
  }

  lemma HalfOfQuotient(v: nat, p: nat)
    requires p > 0
    ensures v / (2 * p) == v / p / 2
  {
    HalfOfParts(v, p, v / p, v % p);
  }

  lemma HalfOfParts(v: nat, p: nat, h: nat, m: nat)
    requires p > 0 && v == h * p + m && m < p
    ensures v / (2 * p) == h / 2
  {
    HalfSplit(h, p);
    DivUnique(v, h / 2, 2 * p, (if h % 2 == 1 then p else 0) + m);
  }

  lemma {:induction false} DigitsAtBit(f: Format, v: nat, n: nat, i: nat)
    requires i < n
    ensures Digits(f, v, n)[i] == BitChar(f, v, i)
  {
    if i == n - 1 { HalvedIs(v, i); } else { DigitsAtBit(f, v, n - 1, i); }
  }

  lemma OrderedAt(f: Format, v: nat, prec: nat, i: nat)
    requires i < prec
    ensures |Ordered(f, v, prec)| == prec
    ensures Ordered(f, v, prec)[i] == BitChar(f, v, if f.alt then i else prec - 1 - i)
  {
    if f.alt {
      DigitsAtBit(f, v, prec, i);
    } else {
      ReversedAt(Digits(f, v, prec), i);
      DigitsAtBit(f, v, prec, prec - 1 - i);
    }
  }

  /** Digits on one side and padding on the other. */
  lemma SidesAt(left: bool, s: Bytes, c: byte, n: nat, i: nat)
    requires i < n + |s|
    ensures var t, first := if left then [] + s + Repeat(c, n) else [] + Repeat(c, n) + s, if left then 0 else n;
            |t| == n + |s| && t[i] == if first <= i < first + |s| then s[i - first] else c
  {
  }

  predicate AreOrdered(f: Format, v: nat, prec: nat, s: Bytes) {
    |s| == prec && forall i: nat | i < prec :: s[i] == BitChar(f, v, if f.alt then i else prec - 1 - i)
  }

  lemma SidesPrinted(f: Format, v: nat, prec: nat, s: Bytes, t: Bytes)
    requires AreOrdered(f, v, prec, s)
    requires t == if f.left then [] + s + Repeat(PadChar(f), Padding(f, prec)) else [] + Repeat(PadChar(f), Padding(f, prec)) + s
    ensures IsPrinted(f, v, prec, t)
  {
    var width := Padding(f, prec) + prec;
    assert |t| == width;
    forall i: nat | i < width ensures t[i] == CharAt(f, v, prec, width, i) {
      SidesAt(f.left, s, PadChar(f), Padding(f, prec), i);
    }
  }

  /** The printed text, character by character. */
  lemma TextIsPrinted(f: Format, v: nat, prec: nat)
    ensures IsPrinted(f, v, prec, Text(f, v, prec))
  {
    var s := Ordered(f, v, prec);
    if prec == 0 { assert s == []; }
    forall i: nat | i < prec ensures |s| == prec && s[i] == BitChar(f, v, if f.alt then i else prec - 1 - i) {
      OrderedAt(f, v, prec, i);
    }
    TextByOrder(f, v, prec);
    SidesPrinted(f, v, prec, s, Text(f, v, prec));
  }

  method PrintLong(f: Format, value: nat) returns (output: Bytes, prec: nat)
    requires value < LONG && -1 <= f.prec <= 64
    ensures if f.prec == -1 then Needs(value, prec) else prec == f.prec
    ensures output == Text(f, value, prec)
  {
    if f.prec == -1 { prec := SignificantBits(value); } else { prec := f.prec; }
    output := PrintPadded(f, value, prec);
  }

  /** The pad character depends on the side. */
  function PadChar(f: Format): byte { if f.fillZero && f.alt == f.left then f.zero else SPACE }

  function Ordered(f: Format, v: nat, prec: nat): Bytes {
    if f.alt then Digits(f, v, prec) else Reversed(Digits(f, v, prec))
  }

  method PrintPadded(f: Format, value: nat, prec: nat) returns (output: Bytes)
    ensures output == Text(f, value, prec)
  {
    TextByOrder(f, value, prec);
    if f.left {
      output := PrintDigits(f, [], value, prec);
      output := Pad(output, PadChar(f), Padding(f, prec));
    } else {
      output := Pad([], PadChar(f), Padding(f, prec));
      output := PrintDigits(f, output, value, prec);
    }
  }

  lemma BodyByOrder(f: Format, v: nat, prec: nat)
    ensures var n, s := Padding(f, prec), Ordered(f, v, prec);
            Body(f, v, prec) == if !ZeroPadded(f) then s else if f.alt then s + Repeat(f.zero, n) else Repeat(f.zero, n) + s
  {
    var n, s := Padding(f, prec), Digits(f, v, prec);
    assert s + Repeat(f.zero, 0) == s;
    if !f.alt {
      ReversedConcat(s, Repeat(f.zero, n));
      ReversedRepeat(f.zero, n);
    }
  }

  lemma TextByOrder(f: Format, v: nat, prec: nat)
    ensures var pad, s := Repeat(PadChar(f), Padding(f, prec)), Ordered(f, v, prec);
            Text(f, v, prec) == if f.left then [] + s + pad else [] + pad + s
  {
    BodyByOrder(f, v, prec);
    NoBlanks(Body(f, v, prec));
  }

  lemma NoBlanks(s: Bytes)
    ensures s + Repeat(SPACE, 0) == s && Repeat(SPACE, 0) + s == s
  {
  }

  method PrintDigits(f: Format, before: Bytes, value: nat, prec: nat) returns (output: Bytes)
    ensures output == before + Ordered(f, value, prec)
  {
    if f.alt {
      output := PrintLittle(f, before, value, prec);
    } else {
      output := PrintBig(f, before, value, prec);
    }
  }

  method Pad(before: Bytes, c: byte, n: nat) returns (output: Bytes)
    ensures output == before + Repeat(c, n)
  {
    output := before;
    for i := 0 to n
      invariant output == before + Repeat(c, i)
    {
      output := output + [c];
    }
  }

  method PrintLittle(f: Format, before: Bytes, value: nat, prec: nat) returns (output: Bytes)
    ensures output == before + Digits(f, value, prec)
  {
    output := before;
    var v := value;
    for i := 0 to prec
      invariant v == Halved(value, i) && output == before + Digits(f, value, i)
    {
      output := output + [Digit(f, v % 2)];
      v := v / 2;
    }
  }

  method PrintBig(f: Format, before: Bytes, value: nat, prec: nat) returns (output: Bytes)
    ensures output == before + Reversed(Digits(f, value, prec))
  {
    output := before;
    for p := prec downto 0
      invariant output + Reversed(Digits(f, value, p)) == before + Reversed(Digits(f, value, prec))
    {
      var c := Digit(f, Halved(value, p) % 2);
      ReversedDigits(f, value, p);
      AppendFirst(output, c, Reversed(Digits(f, value, p)));
      output := output + [c];
    }
  }

  lemma ReversedDigits(f: Format, v: nat, p: nat)
    ensures Reversed(Digits(f, v, p + 1)) == [Digit(f, Halved(v, p) % 2)] + Reversed(Digits(f, v, p))
  {
    assert Digits(f, v, p + 1)[..p] == Digits(f, v, p);
  }

  lemma AppendFirst(s: Bytes, c: byte, t: Bytes)
    ensures s + ([c] + t) == s + [c] + t
  {
  }

  // ---- scanLong ----

  /** White space from `k` on. */
  function SpacesAt(t: Bytes, k: nat): (n: nat)
    requires k <= |t|
    ensures k + n <= |t|
    decreases |t| - k
  {
    if k == |t| || !IsSpace(t[k]) then 0 else 1 + SpacesAt(t, k + 1)
  }

  /** Digits from `k` on, at most `limit` of them unless it is negative. */
  function DigitsAt(f: Format, t: Bytes, k: nat, limit: int): (n: nat)
    requires k <= |t|
    ensures k + n <= |t|
    decreases |t| - k
  {
    if limit == 0 || k == |t| || !IsDigit(f, t[k]) then 0 else 1 + DigitsAt(f, t, k + 1, limit - 1)
  }

  function Limit(f: Format): int { if f.width == 0 then -1 else f.width }

  function Skipped(f: Format, t: Bytes): (n: nat)
    ensures n <= |t|
  {
    if IsSpace(f.zero) || IsSpace(f.one) then 0 else SpacesAt(t, 0)
  }

  function ValueOf(f: Format, run: Bytes): nat { Value(f, if f.alt then run else Reversed(run)) }

  /** The result for `n` digits after `k` blanks. */
  function ResultAt(f: Format, t: Bytes, k: nat, n: nat): (int, nat)
    requires k + n <= |t|
  {
    if n > 0 then (k + n, ValueOf(f, t[k..k + n]) % LONG) else (-1, 0)
  }

  function ScanResult(f: Format, t: Bytes): (int, nat) {
    ResultAt(f, t, Skipped(f, t), DigitsAt(f, t, Skipped(f, t), Limit(f)))
  }

  method ScanLong(f: Format, input: Bytes) returns (consumed: int, value: nat)
    ensures (consumed, value) == ScanResult(f, input)
    ensures consumed == -1 <==> Skipped(f, input) == |input| || !IsDigit(f, input[Skipped(f, input)])
  {
    var k := SkipSpaces(f, input);
    if k == |input| || !IsDigit(f, input[k]) { return -1, 0; }
    if f.alt {
      consumed, value := ScanLittle(f, input, k);
    } else {
      consumed, value := ScanBig(f, input, k);
    }
  }

  method SkipSpaces(f: Format, input: Bytes) returns (k: nat)
    ensures k == Skipped(f, input)
  {
    k := 0;
    if !IsSpace(f.zero) && !IsSpace(f.one) {
      while k < |input| && IsSpace(input[k])
        invariant k <= |input| && SpacesAt(input, 0) == k + SpacesAt(input, k)
      {
        k := k + 1;
      }
    }
  }

  /** The mask leaves the word after 64 digits; until then its bit of the value is not set, so or-ing adds it. */
  method ScanLittle(f: Format, input: Bytes, k: nat) returns (consumed: nat, value: nat)
    requires k <= |input|
    ensures consumed == k + DigitsAt(f, input, k, Limit(f))
    ensures value == Value(f, input[k..consumed]) % LONG
  {
    consumed, value := k, 0;
    var mask, limit := 1, Limit(f);
    while limit != 0 && consumed < |input| && IsDigit(f, input[consumed])
      invariant k <= consumed <= |input|
      invariant DigitsAt(f, input, k, Limit(f)) == consumed - k + DigitsAt(f, input, consumed, limit)
      invariant mask == Pow2(consumed - k) % LONG && value == Value(f, input[k..consumed]) % LONG
      decreases |input| - consumed
    {
      RunNext(input, k, consumed);
      ghost var v, p := Value(f, input[k..consumed]), Pow2(consumed - k);
      AddWords(v, p);
      AddWords(p, p);
      if input[consumed] == f.one { value := (value + mask) % LONG; }
      mask := mask * 2 % LONG;
      consumed, limit := consumed + 1, limit - 1;
    }
  }

  lemma RunNext(t: Bytes, k: nat, i: nat)
    requires k <= i < |t|
    ensures t[k..i + 1][..i - k] == t[k..i] && t[k..i + 1][i - k] == t[i]
    ensures Reversed(t[k..i + 1]) == [t[i]] + Reversed(t[k..i])
  {
    assert t[k..i + 1][..i - k] == t[k..i];
  }

  lemma AddWords(a: nat, b: nat)
    ensures (a % LONG + b % LONG) % LONG == (a + b) % LONG
  {
  }

  method ScanBig(f: Format, input: Bytes, k: nat) returns (consumed: nat, value: nat)
    requires k <= |input|
    ensures consumed == k + DigitsAt(f, input, k, Limit(f))
    ensures value == Value(f, Reversed(input[k..consumed])) % LONG
  {
    consumed, value := k, 0;
    var limit := Limit(f);
    while limit != 0 && consumed < |input| && IsDigit(f, input[consumed])
      invariant k <= consumed <= |input|
      invariant DigitsAt(f, input, k, Limit(f)) == consumed - k + DigitsAt(f, input, consumed, limit)
      invariant value == Value(f, Reversed(input[k..consumed])) % LONG
      decreases |input| - consumed
    {
      RunNext(input, k, consumed);
      ValuePrepend(f, input[consumed], Reversed(input[k..consumed]));
      DoubleWord(Value(f, Reversed(input[k..consumed])), if input[consumed] == f.one then 1 else 0);
      value := (value * 2 + if input[consumed] == f.one then 1 else 0) % LONG;
      consumed, limit := consumed + 1, limit - 1;
    }
  }

  lemma DoubleWord(a: nat, b: nat)
    ensures (a % LONG * 2 + b) % LONG == (2 * a + b) % LONG
  {
  }

  // ---- Round trip ----

  lemma {:induction false} SpacesThen(n: nat, t: Bytes, k: nat)
    requires k <= n && (t == [] || !IsSpace(t[0]))
    ensures SpacesAt(Repeat(SPACE, n) + t, k) == n - k
    decreases n - k
  {
    if k < n { SpacesThen(n, t, k + 1); }
  }

  lemma {:induction false} DigitsThen(f: Format, before: Bytes, s: Bytes, after: Bytes, i: nat, limit: int)
    requires i <= |s| && AllDigits(f, s) && (after == [] || !IsDigit(f, after[0]))
    ensures DigitsAt(f, before + s + after, |before| + i, limit)
         == if limit < 0 || limit >= |s| - i then |s| - i else limit
    decreases |s| - i
  {
    var t := before + s + after;
    if i < |s| {
      assert t[|before| + i] == s[i];
      DigitsThen(f, before, s, after, i + 1, limit - 1);
    } else if after != [] {
      assert t[|before| + i] == after[0];
    }
  }

  lemma {:induction false} ReversedDigitsAll(f: Format, s: Bytes)
    requires AllDigits(f, s)
    ensures AllDigits(f, Reversed(s))
    decreases |s|
  {
    if s != [] { ReversedDigitsAll(f, s[..|s| - 1]); }
  }

  /** The body is a digit string whose value is that of the low `prec` bits. */
  lemma BodyValue(f: Format, v: nat, prec: nat)
    requires f.zero != f.one
    ensures AllDigits(f, Body(f, v, prec))
    ensures |Body(f, v, prec)| == prec + if ZeroPadded(f) then Padding(f, prec) else 0
    ensures ValueOf(f, Body(f, v, prec)) == v % Pow2(prec)
  {
    var d, n := Digits(f, v, prec), if ZeroPadded(f) then Padding(f, prec) else 0;
    var s := d + Repeat(f.zero, n);
    DigitsAll(f, v, prec);
    DigitsValue(f, v, prec, Value(f, d), Halved(v, prec), Pow2(prec));
    ValueBound(f, d);
    ModUnique(v, Halved(v, prec), Pow2(prec), Value(f, d));
    ValueZeros(f, d, n);
    ReversedDigitsAll(f, s);
    ReversedTwice(s);
  }

  lemma PiecesScan(f: Format, n: nat, body: Bytes, after: Bytes)
    requires !IsSpace(f.zero) && !IsSpace(f.one) && body != [] && AllDigits(f, body)
    requires after == [] || !IsDigit(f, after[0])
    ensures var t := Repeat(SPACE, n) + body + after;
            && Skipped(f, t) == n && t[n..n + |body|] == body
            && DigitsAt(f, t, n, Limit(f)) == if f.width == 0 || |body| <= f.width then |body| else f.width
  {
    var lead := Repeat(SPACE, n);
    assert lead + (body + after) == lead + body + after;
    assert IsDigit(f, body[0]);
    SpacesThen(n, body + after, 0);
    DigitsThen(f, lead, body, after, 0, Limit(f));
  }

  /** The blanks before the digits. */
  function Leading(f: Format, prec: nat): nat { if f.left then 0 else Blanks(f, prec) }

  lemma PiecesResult(f: Format, n: nat, body: Bytes, after: Bytes)
    requires !IsSpace(f.zero) && !IsSpace(f.one) && body != [] && AllDigits(f, body)
    requires after == [] || !IsDigit(f, after[0])
    ensures var r := ScanResult(f, Repeat(SPACE, n) + body + after);
            if f.width == 0 || |body| <= f.width then r == (n + |body|, ValueOf(f, body) % LONG) else r.0 == n + f.width
  {
    PiecesScan(f, n, body, after);
    BodyResult(f, Repeat(SPACE, n) + body + after, n, body, if f.width == 0 || |body| <= f.width then |body| else f.width);
  }

  lemma BodyResult(f: Format, t: Bytes, k: nat, body: Bytes, n: nat)
    requires k + |body| <= |t| && t[k..k + |body|] == body && 0 < n <= |body|
    ensures ResultAt(f, t, k, n).0 == k + n
    ensures n == |body| ==> ResultAt(f, t, k, n) == (k + n, ValueOf(f, body) % LONG)
  {
  }

  lemma PaddedResult(f: Format, n: nat, body: Bytes, rest: Bytes)
    requires !IsSpace(f.zero) && !IsSpace(f.one) && body != [] && AllDigits(f, body)
    requires rest == [] || !IsDigit(f, rest[0])
    ensures var r, k := ScanResult(f, Padded(f, n, body) + rest), if f.left then 0 else n;
            if f.width == 0 || |body| <= f.width then r == (k + |body|, ValueOf(f, body) % LONG) else r.0 == k + f.width
  {
    var b := Repeat(SPACE, n);
    if f.left {
      assert Repeat(SPACE, 0) + body + (b + rest) == body + b + rest;
      assert n == 0 ==> b + rest == rest;
      PiecesResult(f, 0, body, b + rest);
    } else {
      PiecesResult(f, n, body, rest);
    }
  }

  lemma BodyFits(f: Format, v: nat, prec: nat)
    requires f.zero != f.one
    ensures |Body(f, v, prec)| >= prec
    ensures f.width == 0 || prec <= f.width <==> f.width == 0 || |Body(f, v, prec)| <= f.width
  {
    BodyValue(f, v, prec);
  }

  /** If a digit is itself white space, nothing is skipped and the text is read from its start. */
  lemma SpaceDigitsScan(f: Format, body: Bytes, after: Bytes)
    requires (IsSpace(f.zero) || IsSpace(f.one)) && body != [] && AllDigits(f, body)
    requires after == [] || !IsDigit(f, after[0])
    ensures var r := ScanResult(f, body + after);
            if f.width == 0 || |body| <= f.width then r == (|body|, ValueOf(f, body) % LONG) else r.0 == f.width
  {
    DigitsThen(f, [], body, after, 0, Limit(f));
    assert [] + body + after == body + after && (body + after)[0..|body|] == body;
    BodyResult(f, body + after, 0, body, if f.width == 0 || |body| <= f.width then |body| else f.width);
  }

  /** Of a text with `n` leading blanks all `digits` are read, or only as many as the width says. */
  predicate Scans(f: Format, t: Bytes, n: nat, digits: nat, low: nat, all: bool) {
    if all then ScanResult(f, t) == (n + digits, low % LONG) else ScanResult(f, t).0 == n + f.width < n + digits
  }

  lemma BodyScans(f: Format, n: nat, body: Bytes, rest: Bytes, low: nat)
    requires !IsSpace(f.zero) && !IsSpace(f.one) && body != [] && AllDigits(f, body) && ValueOf(f, body) == low
    requires rest == [] || !IsDigit(f, rest[0])
    ensures Scans(f, Padded(f, n, body) + rest, if f.left then 0 else n, |body|, low, f.width == 0 || |body| <= f.width)
  {
    PaddedResult(f, n, body, rest);
  }

  /** Scanning the printed text followed by anything but a digit. All digits are
      read exactly if the width is not less than the precision. */
  lemma TextScans(f: Format, v: nat, prec: nat, rest: Bytes)
    requires f.zero != f.one && !IsSpace(f.zero) && !IsSpace(f.one) && prec >= 1
    requires rest == [] || !IsDigit(f, rest[0])
    ensures Scans(f, Text(f, v, prec) + rest, Leading(f, prec), |Body(f, v, prec)|, v % Pow2(prec),
                  f.width == 0 || prec <= f.width)
  {
    BodyValue(f, v, prec);
    BodyFits(f, v, prec);
    BodyScans(f, Blanks(f, prec), Body(f, v, prec), rest, v % Pow2(prec));
  }

  method RoundTrip(f: Format, value: nat, rest: Bytes) returns (consumed: int, scanned: nat, prec: nat)
    requires value < LONG && (f.prec == -1 || 1 <= f.prec <= 64)
    requires f.zero != f.one && !IsSpace(f.zero) && !IsSpace(f.one)
    requires rest == [] || !IsDigit(f, rest[0])
    ensures if f.prec == -1 then Needs(value, prec) else prec == f.prec
    ensures f.width == 0 || prec <= f.width ==> scanned == value % Pow2(prec)
    ensures f.prec == -1 && (f.width == 0 || prec <= f.width) ==> scanned == value
    ensures f.width == 0 || prec <= f.width <==> consumed == Leading(f, prec) + |Body(f, value, prec)|
  {
    var output;
    output, prec := PrintLong(f, value);
    TextScans(f, value, prec, rest);
    ModAtMost(value, Pow2(prec));
    ModAtMost(value % Pow2(prec), LONG);
    consumed, scanned := ScanLong(f, output + rest);
  }

  lemma ModAtMost(v: nat, p: nat)
    requires p > 0
    ensures v % p <= v && (v < p ==> v % p == v)
  {
    if v < p { ModUnique(v, 0, p, v); }
  }
}
