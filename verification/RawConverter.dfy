/**
 The raw converter %r: bytes of an integer, printed and scanned in either byte
 order, filled with zero or with the sign. Integers have 64 bits.
 */
module RawConverter {
  import opened Basics

  const SIZE := 8     // sizeof(long)

  datatype Format = Format(width: nat, prec: int, alt: bool, zero: bool)

  /** Number of bytes taken from the value, and of bytes printed. */
  function Taken(f: Format): nat {
    var n := if f.prec < 0 then 1 else f.prec;
    if n > SIZE then SIZE else n
  }

  function Printed(f: Format): nat {
    var n := if f.prec < 0 then 1 else f.prec;
    if f.width > n then f.width else n
  }

  // ---- Numbers as byte strings, least significant byte first ----

  /** The value after `i` arithmetic right shifts by one byte. */
  function Shifted(v: int, i: nat): int { if i == 0 then v else Shifted(v, i - 1) / 256 }

  /** The low `n` bytes of `v`. */
  function LowBytes(v: int, n: nat): (s: Bytes)
    ensures |s| == n
  {
    if n == 0 then [] else LowBytes(v, n - 1) + [Shifted(v, n - 1) % 256]
  }

  function Unsigned(s: Bytes): nat {
    if s == [] then 0 else Unsigned(s[..|s| - 1]) + s[|s| - 1] * Pow256(|s| - 1)
  }

  function Signed(s: Bytes): int
    requires s != []
  {
    Unsigned(s) - if s[|s| - 1] >= 0x80 then Pow256(|s|) else 0
  }

  function Number(zero: bool, s: Bytes): int
    requires s != []
  {
    if zero then Unsigned(s) else Signed(s)
  }

  /** Zero, or the sign of the last byte. */
  function Fill(zero: bool, s: Bytes): byte { if !zero && s != [] && s[|s| - 1] >= 0x80 then 0xFF else 0 }

  /** What printLong appends, least significant byte first. */
  function Text(f: Format, v: int): Bytes {
    var s := LowBytes(v, Taken(f));
    s + Repeat(Fill(f.zero, s), Printed(f) - Taken(f))
  }

  /** The bytes of the value, one if no number is given and eight at most, least
      significant first, and zeros or copies of the sign up to the width. */
  predicate IsPrinted(f: Format, v: int, s: Bytes) {
    var prec := if f.prec < 0 then 1 else f.prec;
    var n := if prec > 8 then 8 else prec;
    var negative := !f.zero && n > 0 && v / Pow256(n - 1) % 256 >= 0x80;
    && |s| == (if f.width > prec then f.width else prec)
    && forall i | 0 <= i < |s| :: s[i] == if i < n then v / Pow256(i) % 256 else if negative then 0xFF else 0
  }

  lemma ShiftedIs(v: int, i: nat)
    ensures Shifted(v, i) == v / Pow256(i)
  {
    LowBytesNumber(v, i);
    DivUnique(v, Shifted(v, i), Pow256(i), Unsigned(LowBytes(v, i)));
  }

  lemma {:induction false} LowBytesAt(v: int, n: nat, i: nat)
    requires i < n
    ensures LowBytes(v, n)[i] == v / Pow256(i) % 256
  {
    if i == n - 1 { ShiftedIs(v, i); } else { LowBytesAt(v, n - 1, i); }
  }

  lemma TextIsPrinted(f: Format, v: int)
    ensures IsPrinted(f, v, Text(f, v))
  {
    var s, n := LowBytes(v, Taken(f)), Taken(f);
    if n > 0 { LowBytesAt(v, n, n - 1); }
    forall i: nat | i < n ensures s[i] == v / Pow256(i) % 256 { LowBytesAt(v, n, i); }
  }

  // ---- printLong ----

  method PrintLong(f: Format, value: int) returns (output: Bytes)
    requires f.prec != 0 || f.alt
    ensures output == if f.alt then Text(f, value) else Reversed(Text(f, value))
    ensures IsPrinted(f, value, if f.alt then output else Reversed(output))
  {
    TextIsPrinted(f, value);
    ReversedTwice(Text(f, value));
    if f.alt { output := PrintLittle(f, value); } else { output := PrintBig(f, value); }
  }

  method PrintLittle(f: Format, value: int) returns (output: Bytes)
    ensures output == Text(f, value)
  {
    output := [];
    var v, b: byte := value, 0;
    for i := 0 to Taken(f)
      invariant output == LowBytes(value, i) && v == Shifted(value, i)
      invariant b == if i == 0 then 0 else output[i - 1]
    {
      b := v % 256;
      output := output + [b];
      v := v / 256;
    }
    b := if !f.zero && b >= 0x80 then 0xFF else 0;
    ghost var low := output;
    for i := 0 to Printed(f) - Taken(f)
      invariant output == low + Repeat(b, i)
    {
      output := output + [b];
    }
  }

  method PrintBig(f: Format, value: int) returns (output: Bytes)
    requires f.prec != 0
    ensures output == Reversed(Text(f, value))
  {
    var prec := Taken(f);
    ghost var low := LowBytes(value, prec);
    var b: byte := if !f.zero && Shifted(value, prec - 1) % 256 >= 0x80 then 0xFF else 0;
    var n := Printed(f) - prec;
    output := [];
    for i := 0 to n
      invariant output == Repeat(b, i)
    {
      output := output + [b];
    }
    ReversedConcat(low, Repeat(b, n));
    ReversedRepeat(b, n);
    output := PrintDown(output, value, prec);
  }

  method PrintDown(before: Bytes, value: int, prec: nat) returns (output: Bytes)
    ensures output == before + Reversed(LowBytes(value, prec))
  {
    output := before;
    for p := prec downto 0
      invariant output + Reversed(LowBytes(value, p)) == before + Reversed(LowBytes(value, prec))
    {
      var b: byte := Shifted(value, p) % 256;
      assert LowBytes(value, p + 1)[..p] == LowBytes(value, p);
      assert output + Reversed(LowBytes(value, p + 1)) == output + [b] + Reversed(LowBytes(value, p));
      output := output + [b];
    }
  }

  // ---- scanLong ----

  /** A byte as unsigned or signed char. */
  function Char(zero: bool, b: byte): int { b - if !zero && b >= 0x80 then 0x100 else 0 }

  // ---- 64-bit words ----

  const WORD := 0x1_0000_0000_0000_0000

  /** The long with the same low 64 bits. */
  function ToLong(x: int): int { (x + 0x8000_0000_0000_0000) % WORD - 0x8000_0000_0000_0000 }

  lemma ToLongAdd(x: int, y: int)
    ensures ToLong(ToLong(x) + y) == ToLong(x + y)
  {
    var q := (x + 0x8000_0000_0000_0000) / WORD;
    assert ToLong(x) == x - q * WORD;
    ToLongMultiple(x + y, q);
  }

  lemma ToLongShift(x: int, b: int)
    ensures ToLong(ToLong(x) * 256 + b) == ToLong(x * 256 + b)
  {
    var q := (x + 0x8000_0000_0000_0000) / WORD;
    assert ToLong(x) == x - q * WORD;
    ToLongMultiple(x * 256 + b, q * 256);
  }

  lemma ToLongMultiple(x: int, k: int)
    ensures ToLong(x - k * WORD) == ToLong(x)
  {
    var z := x + 0x8000_0000_0000_0000;
    ModUnique(z - k * WORD, z / WORD - k, WORD, z % WORD);
  }

  function Width(f: Format): nat { if f.width == 0 then 1 else f.width }

  /** Little endian: each byte is or-ed into bits that are still zero, so it is
      added. Above eight bytes the loop stops at the end of the word, and one
      byte too few is consumed. */
  method ScanLittle(f: Format, input: Bytes) returns (value: int, consumed: nat)
    requires Width(f) <= |input| && f.width != 9
    ensures Width(f) <= SIZE ==> consumed == Width(f) && value == ToLong(Number(f.zero, input[..consumed]))
    ensures f.width <= SIZE ==> consumed == if f.width == 0 then 1 else f.width
    ensures Width(f) > SIZE ==> consumed == Width(f) - 1 && value == ToLong(Unsigned(input[..SIZE]))
  {
    var width;
    value, consumed, width := ScanLow(input, Width(f) - 1);
    if width == 0 {
      NumberNext(f.zero, input, consumed);
      ToLongAdd(Unsigned(input[..consumed]), Char(f.zero, input[consumed]) * Pow256(consumed));
      value := ToLong(value + Char(f.zero, input[consumed]) * Pow256(consumed));
      consumed := consumed + 1;
    }
    consumed := consumed + width;
  }

  /** The bytes below the last one, as far as they fit into the word. */
  method ScanLow(input: Bytes, all: nat) returns (value: int, consumed: nat, width: nat)
    requires all < |input|
    ensures consumed == (if all < SIZE then all else SIZE) && width == all - consumed
    ensures value == ToLong(Unsigned(input[..consumed]))
  {
    value, consumed, width := 0, 0, all;
    var shift := 0;
    while width != 0 && shift < 8 * SIZE
      invariant shift == 8 * consumed <= 8 * SIZE && width + consumed == all
      invariant value == ToLong(Unsigned(input[..consumed]))
      decreases width
    {
      UnsignedNext(input, consumed);
      ToLongAdd(Unsigned(input[..consumed]), input[consumed] * Pow256(consumed));
      value := ToLong(value + input[consumed] * Pow256(shift / 8));
      shift, consumed, width := shift + 8, consumed + 1, width - 1;
    }
  }

  lemma UnsignedNext(s: Bytes, k: nat)
    requires k < |s|
    ensures Unsigned(s[..k + 1]) == Unsigned(s[..k]) + s[k] * Pow256(k)
  {
    assert s[..k + 1][..k] == s[..k];
  }

  lemma NumberNext(zero: bool, s: Bytes, k: nat)
    requires k < |s|
    ensures Number(zero, s[..k + 1]) == Unsigned(s[..k]) + Char(zero, s[k]) * Pow256(k)
  {
    UnsignedNext(s, k);
    var b: int, p := s[k], Pow256(k);
    assert (b - 0x100) * p == b * p - 0x100 * p;
    assert Pow256(k + 1) == 0x100 * p;
  }

  /** Big endian: bytes beyond eight push the first ones out of the word. */
  method ScanBig(f: Format, input: Bytes) returns (value: int, consumed: nat)
    requires Width(f) <= |input|
    ensures consumed == Width(f) && value == ToLong(Number(f.zero, Reversed(input[..consumed])))
    ensures consumed == if f.width == 0 then 1 else f.width
  {
    value := Char(f.zero, input[0]);
    consumed := 1;
    assert input[..1] == [input[0]];
    NumberOfOne(f.zero, input[0]);
    while consumed < Width(f)
      invariant 1 <= consumed <= Width(f)
      invariant value == ToLong(Number(f.zero, Reversed(input[..consumed])))
    {
      var s := input[..consumed];
      assert input[..consumed + 1][..consumed] == s;
      NumberPrepend(f.zero, input[consumed], Reversed(s));
      ToLongShift(Number(f.zero, Reversed(s)), input[consumed]);
      value := ToLong(value * 256 + input[consumed]);
      consumed := consumed + 1;
    }
  }

  lemma NumberOfOne(zero: bool, b: byte)
    ensures Number(zero, Reversed([b])) == Char(zero, b)
  {
    assert Reversed([b]) == [b];
    assert Unsigned([b]) == b;
  }

  lemma {:induction false} UnsignedPrepend(b: byte, s: Bytes)
    ensures Unsigned([b] + s) == b + 256 * Unsigned(s)
    decreases |s|
  {
    var t := [b] + s;
    if s == [] {
      assert t == [b] && t[..0] == [];
    } else {
      assert t[..|t| - 1] == [b] + s[..|s| - 1];
      UnsignedPrepend(b, s[..|s| - 1]);
    }
  }

  lemma NumberPrepend(zero: bool, b: byte, s: Bytes)
    requires s != []
    ensures Number(zero, [b] + s) == b + 256 * Number(zero, s)
  {
    UnsignedPrepend(b, s);
  }

  // ---- Round trip ----

  /** Filling changes the length and not the number. */
  lemma {:induction false} FillKeepsNumber(zero: bool, s: Bytes, n: nat)
    requires s != []
    ensures Number(zero, s + Repeat(Fill(zero, s), n)) == Number(zero, s)
    ensures Fill(zero, s + Repeat(Fill(zero, s), n)) == Fill(zero, s)
    decreases n
  {
    var b := Fill(zero, s);
    var t := s + Repeat(b, n);
    if n == 0 {
      assert t == s;
    } else {
      assert t[..|t| - 1] == s + Repeat(b, n - 1);
      FillKeepsNumber(zero, s, n - 1);
    }
  }

  /** The low `n` bytes hold the value modulo 256^n. */
  lemma {:induction false} LowBytesNumber(v: int, n: nat)
    ensures Unsigned(LowBytes(v, n)) == v - Shifted(v, n) * Pow256(n)
    ensures Unsigned(LowBytes(v, n)) < Pow256(n)
  {
    if n > 0 {
      LowBytesNumber(v, n - 1);
      var s, q, p := LowBytes(v, n), Shifted(v, n - 1), Pow256(n - 1);
      assert s[..n - 1] == LowBytes(v, n - 1);
      DigitSplit(q, p);
      DigitBound(Unsigned(LowBytes(v, n - 1)), q % 256, p);
    }
  }

  lemma DigitSplit(q: int, p: nat)
    ensures q * p == (q % 256) * p + (q / 256) * (256 * p)
  {
    assert q == q % 256 + q / 256 * 256;
  }

  lemma DigitBound(x: nat, d: nat, p: nat)
    requires x < p && d < 256
    ensures x + d * p < 256 * p
  {
  }

  /** The zero or sign extension of the low `n` bytes. */
  function Extended(zero: bool, v: int, n: nat): int {
    var m := v % Pow256(n);
    if zero || 2 * m < Pow256(n) then m else m - Pow256(n)
  }

  lemma TopBit(x: nat, d: byte, p: nat)
    requires x < p
    ensures d >= 0x80 <==> 2 * (x + d * p) >= 256 * p
  {
    if d >= 0x80 { assert d * p >= 0x80 * p; } else { assert d * p <= 0x7F * p; }
  }

  lemma LowBytesExtend(zero: bool, v: int, n: nat)
    requires n > 0
    ensures Number(zero, LowBytes(v, n)) == Extended(zero, v, n)
  {
    var s := LowBytes(v, n);
    LowBytesNumber(v, n);
    ModUnique(v, Shifted(v, n), Pow256(n), Unsigned(s));
    LowBytesNumber(v, n - 1);
    assert s[..n - 1] == LowBytes(v, n - 1);
    TopBit(Unsigned(s[..n - 1]), s[n - 1], Pow256(n - 1));
  }

  lemma TextNumber(f: Format, v: int)
    requires Taken(f) > 0
    ensures |Text(f, v)| == Printed(f) && Number(f.zero, Text(f, v)) == Extended(f.zero, v, Taken(f))
  {
    FillKeepsNumber(f.zero, LowBytes(v, Taken(f)), Printed(f) - Taken(f));
    LowBytesExtend(f.zero, v, Taken(f));
  }

  lemma PowersOf256()
    ensures Pow256(1) == 0x100 && Pow256(2) == 0x1_0000 && Pow256(3) == 0x100_0000 && Pow256(4) == 0x1_0000_0000
    ensures Pow256(5) == 0x100_0000_0000 && Pow256(6) == 0x1_0000_0000_0000
    ensures Pow256(7) == 0x100_0000_0000_0000 && Pow256(8) == WORD
  {
    assert Pow256(1) == 256 * Pow256(0);
    assert Pow256(3) == 256 * Pow256(2);
    assert Pow256(5) == 256 * Pow256(4);
    assert Pow256(7) == 256 * Pow256(6);
  }

  /** Extensions are longs, but for eight bytes without sign; and eight bytes hold every long. */
  lemma ExtensionsAreLong(zero: bool, v: int, n: nat)
    requires 1 <= n <= SIZE
    ensures !(zero && n == SIZE) ==> ToLong(Extended(zero, v, n)) == Extended(zero, v, n)
    ensures n == SIZE ==> ToLong(Extended(zero, v, n)) == ToLong(v)
  {
    PowersOf256();
    var e := Extended(zero, v, n);
    if n == SIZE {
      ToLongMultiple(v, v / WORD);
      ToLongMultiple(v - v / WORD * WORD, 1);
    } else {
      assert -0x100_0000_0000_0000 <= e < 0x100_0000_0000_0000;
    }
  }

  /** Scanning what was printed gives the extension of the bytes that were printed, as a long. */
  method RoundTrip(f: Format, value: int, rest: Bytes) returns (r: int, consumed: nat)
    requires f.prec != 0 && Printed(f) == Width(f) <= SIZE
    ensures consumed == Printed(f)
    ensures r == ToLong(Extended(f.zero, value, Taken(f)))
    ensures !(f.zero && Taken(f) == SIZE) ==> r == Extended(f.zero, value, Taken(f))
    ensures Taken(f) == SIZE ==> r == ToLong(value)
  {
    var output := PrintLong(f, value);
    TextNumber(f, value);
    ExtensionsAreLong(f.zero, value, Taken(f));
    var input := output + rest;
    assert input[..|output|] == output;
    if f.alt {
      r, consumed := ScanLittle(f, input);
    } else {
      ReversedTwice(Text(f, value));
      r, consumed := ScanBig(f, input);
    }
  }
}
