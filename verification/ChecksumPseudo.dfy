/**
 The checksum pseudo-format: printPseudo appends the checksum of a window of
 the output in one of four encodings and two byte orders, scanPseudo verifies
 it. Any checksum function may be used; the checksum has one to four bytes.
 */
module ChecksumPseudo {
  import opened Basics

  datatype Format = Format(
    width: nat,       // bytes to skip at the start
    prec: int,        // bytes to leave out at the end, if positive
    sign: bool,       // decimal
    alt: bool,        // least significant byte first
    zero: bool,       // two hexadecimal digits per byte
    left: bool)       // two characters 0x30 to 0x3F per byte

  /** `check` is the checksum function with its init value, xor-ed with xorout. */
  datatype Algorithm = Algorithm(check: Bytes -> nat, bytes: nat)

  predicate Sized(a: Algorithm) { 1 <= a.bytes <= 4 }

  const WORD := 0x1_0000_0000

  function Skipped(f: Format): nat { f.width + if f.prec > 0 then f.prec else 0 }

  /** The masked checksum of the window that ends at `end`. */
  function Sum(f: Format, a: Algorithm, text: Bytes, end: nat): nat
    requires Skipped(f) <= end <= |text|
  {
    a.check(text[f.width..end - (Skipped(f) - f.width)]) % Pow256(a.bytes)
  }

  /** ceil(bytes * 2.5) */
  function DecimalDigits(bytes: nat): int { (bytes + 1) * 25 / 10 - 2 }

  function EncodedLength(f: Format, bytes: nat): int {
    if f.sign then DecimalDigits(bytes) else if f.zero || f.left then 2 * bytes else bytes
  }

  // ---- Encodings ----

  function ShiftedRight(sum: nat, i: nat): nat { if i == 0 then sum else ShiftedRight(sum, i - 1) / 256 }

  /** In a 32-bit word. */
  function ShiftedLeft(sum: nat, k: nat): nat {
    if k == 0 then sum % WORD else ShiftedLeft(sum, k - 1) * 256 % WORD
  }

  function ByteOf(sum: nat, i: nat): byte { ShiftedRight(sum, i) % 256 }

  function HexDigit(d: nat): byte
    requires d < 16
  {
    (if d < 10 then '0' as int + d else 'A' as int + d - 10)
  }

  function ByteText(f: Format, b: byte): (s: Bytes)
    ensures |s| == if f.zero || f.left then 2 else 1
  {
    if f.zero then [HexDigit(b / 16), HexDigit(b % 16)]
    else if f.left then [0x30 + b / 16, 0x30 + b % 16]
    else [b]
  }

  /** The bytes of `sum` in sending order. */
  function Order(f: Format, bytes: nat, i: nat): nat
    requires i < bytes
  {
    if f.alt then i else bytes - 1 - i
  }

  function ByteTexts(f: Format, sum: nat, bytes: nat, n: nat): (s: Bytes)
    requires n <= bytes
    ensures |s| == n * if f.zero || f.left then 2 else 1
  {
    if n == 0 then [] else ByteTexts(f, sum, bytes, n - 1) + ByteText(f, ByteOf(sum, Order(f, bytes, n - 1)))
  }

  /** `%0*u` of a number with at most `digits` digits. */
  function Decimal(sum: nat, digits: nat): (s: Bytes)
    ensures |s| == digits
  {
    if digits == 0 then [] else Decimal(sum / 10, digits - 1) + ['0' as int + sum % 10]
  }

  function Encoded(f: Format, sum: nat, bytes: nat): Bytes
    requires bytes >= 1
  {
    if f.sign then Decimal(sum, DecimalDigits(bytes)) else ByteTexts(f, sum, bytes, bytes)
  }

  lemma EncodedLengthIs(f: Format, sum: nat, bytes: nat)
    requires bytes >= 1
    ensures |Encoded(f, sum, bytes)| == EncodedLength(f, bytes)
  {
  }

  // ---- What the text spells ----

  /** The digit that a character stands for, or -1. */
  function DigitValue(f: Format, c: byte): int {
    if !f.sign && !f.zero && f.left then (if 0x30 <= c < 0x40 then c - 0x30 else -1)
    else if f.sign || f.zero then
      if '0' as int <= c <= '9' as int then c - '0' as int
      else if !f.sign && 'A' as int <= c <= 'F' as int then c - 'A' as int + 10
      else -1
    else c
  }

  function Radix(f: Format): nat { if f.sign then 10 else if f.zero || f.left then 16 else 256 }

  /** The number that a text spells, most significant digit first. */
  function Spelled(f: Format, text: Bytes): int {
    if text == [] then 0 else Spelled(f, text[..|text| - 1]) * Radix(f) + DigitValue(f, text[|text| - 1])
  }

  predicate AllDigitsOf(f: Format, text: Bytes) { forall i | 0 <= i < |text| :: DigitValue(f, text[i]) >= 0 }

  /** The text spells `v` and nothing in it is not a digit. */
  predicate Spells(f: Format, text: Bytes, v: int) { AllDigitsOf(f, text) && Spelled(f, text) == v }

  lemma SpellsDigit(f: Format, text: Bytes, v: int, c: byte)
    requires Spells(f, text, v) && DigitValue(f, c) >= 0
    ensures Spells(f, text + [c], v * Radix(f) + DigitValue(f, c))
  {
    var t := text + [c];
    assert t[..|t| - 1] == text && t[|t| - 1] == c;
  }

  lemma SpellsTwo(f: Format, text: Bytes, v: int, x: byte, y: byte)
    requires Spells(f, text, v) && DigitValue(f, x) >= 0 && DigitValue(f, y) >= 0 && Radix(f) == 16
    ensures Spells(f, text + [x, y], v * 256 + DigitValue(f, x) * 16 + DigitValue(f, y))
  {
    SpellsDigit(f, text, v, x);
    SpellsDigit(f, text + [x], v * 16 + DigitValue(f, x), y);
    assert text + [x, y] == text + [x] + [y];
  }

  lemma ByteTextDigits(f: Format, b: byte)
    requires !f.sign
    ensures var x := ByteText(f, b);
            if f.zero || f.left
            then |x| == 2 && DigitValue(f, x[0]) == b / 16 && DigitValue(f, x[1]) == b % 16
            else x == [b] && DigitValue(f, b) == b
  {
  }

  lemma SpellsByte(f: Format, text: Bytes, v: int, b: byte)
    requires !f.sign && Spells(f, text, v)
    ensures Spells(f, text + ByteText(f, b), v * 256 + b)
  {
    ByteTextDigits(f, b);
    var x := ByteText(f, b);
    if f.zero || f.left {
      SpellsTwo(f, text, v, x[0], x[1]);
      assert x == [x[0], x[1]];
    } else {
      SpellsDigit(f, text, v, b);
    }
  }

  lemma {:induction false} SpellsTopBytes(f: Format, sum: nat, bytes: nat, n: nat)
    requires !f.sign && !f.alt && n <= bytes && ShiftedRight(sum, bytes) == 0
    ensures Spells(f, ByteTexts(f, sum, bytes, n), ShiftedRight(sum, bytes - n))
    decreases n
  {
    if n > 0 {
      SpellsTopBytes(f, sum, bytes, n - 1);
      SpellsByte(f, ByteTexts(f, sum, bytes, n - 1), ShiftedRight(sum, bytes - n + 1), ByteOf(sum, bytes - n));
    }
  }

  lemma {:induction false} SpellsDecimal(f: Format, sum: nat, digits: nat)
    requires f.sign && sum < Pow10(digits)
    ensures Spells(f, Decimal(sum, digits), sum)
    decreases digits
  {
    if digits > 0 {
      SpellsDecimal(f, sum / 10, digits - 1);
      SpellsDigit(f, Decimal(sum / 10, digits - 1), sum / 10, '0' as int + sum % 10);
    }
  }

  lemma {:induction false} ShiftedOut(sum: nat, i: nat)
    requires sum < Pow256(i)
    ensures ShiftedRight(sum, i) == 0
  {
    if i > 0 {
      assert sum / 256 < Pow256(i - 1);
      ShiftedOut(sum / 256, i - 1);
      ShiftTwice(sum, i - 1);
    }
  }

  /** The encoding is the number in decimal, hexadecimal, nibbles or bytes, most
      significant first, of fixed length; least significant first, it is the same
      with the bytes in reverse order. */
  lemma EncodedSpells(f: Format, sum: nat, bytes: nat)
    requires 1 <= bytes <= 4 && sum < Pow256(bytes)
    ensures |Encoded(f, sum, bytes)| == EncodedLength(f, bytes)
    ensures f.sign || !f.alt ==> Spells(f, Encoded(f, sum, bytes), sum)
    ensures !f.sign && f.alt ==>
              var big := f.(alt := false);
              Spells(big, Encoded(big, sum, bytes), sum)
              && forall i: nat | i < bytes :: MirroredAt(f, Encoded(f, sum, bytes), Encoded(big, sum, bytes), bytes, i)
  {
    ShiftedOut(sum, bytes);
    DigitsAreEnough(sum, bytes);
    var big := f.(alt := false);
    if f.sign {
      SpellsDecimal(f, sum, DecimalDigits(bytes));
    } else {
      SpellsTopBytes(big, sum, bytes, bytes);
      assert f.alt || f == big;
      if f.alt {
        forall i: nat | i < bytes ensures MirroredAt(f, Encoded(f, sum, bytes), Encoded(big, sum, bytes), bytes, i) {
          LittleIsBig(f, sum, bytes, i);
        }
      }
    }
  }

  lemma {:induction false} TextOfByte(f: Format, sum: nat, bytes: nat, i: nat)
    requires i < bytes
    ensures var t := ByteTexts(f, sum, bytes, bytes);
            (i + 1) * Chars(f) <= |t| && TextAt(f, t, i) == ByteText(f, ByteOf(sum, Order(f, bytes, i)))
  {
    var t := ByteTexts(f, sum, bytes, bytes);
    TextOfBytes(f, t, sum, bytes, bytes);
    assert t[..bytes * Chars(f)] == t;
    FitsIn(i, bytes, Chars(f));
  }

  lemma LittleIsBig(f: Format, sum: nat, bytes: nat, i: nat)
    requires !f.sign && f.alt && i < bytes
    ensures MirroredAt(f, Encoded(f, sum, bytes), Encoded(f.(alt := false), sum, bytes), bytes, i)
  {
    var big, j := f.(alt := false), bytes - 1 - i;
    TextOfByte(f, sum, bytes, i);
    TextOfByte(big, sum, bytes, j);
    assert Order(f, bytes, i) == i == Order(big, bytes, j);
    assert ByteText(f, ByteOf(sum, i)) == ByteText(big, ByteOf(sum, i)) && Chars(f) == Chars(big);
  }

  lemma FitsIn(i: nat, n: nat, c: nat)
    requires i < n
    ensures (i + 1) * c <= n * c
  {
  }

  /** The i-th byte in one text is the i-th from the end in the other. */
  predicate MirroredAt(f: Format, s: Bytes, t: Bytes, bytes: nat, i: nat)
    requires i < bytes
  {
    var j := bytes - 1 - i;
    (i + 1) * Chars(f) <= |s| && (j + 1) * Chars(f) <= |t| && TextAt(f, s, i) == TextAt(f, t, j)
  }

  // ---- printPseudo ----

  /** `width` bytes to skip, the message, and `prec` bytes to leave out. */
  predicate Splits(f: Format, text: Bytes, before: Bytes, message: Bytes, after: Bytes) {
    text == before + message + after && |before| == f.width && |after| == if f.prec > 0 then f.prec else 0
  }

  method PrintPseudo(f: Format, a: Algorithm, output: Bytes) returns (printed: Bytes)
    requires Sized(a) && Skipped(f) <= |output|
    ensures printed == output + Encoded(f, Sum(f, a, output, |output|), a.bytes)
    ensures forall before: Bytes, message: Bytes, after: Bytes | Splits(f, output, before, message, after) ::
              printed == output + Encoded(f, a.check(message) % Pow256(a.bytes), a.bytes)
  {
    forall before: Bytes, message: Bytes, after: Bytes | Splits(f, output, before, message, after)
      ensures Sum(f, a, output, |output|) == a.check(message) % Pow256(a.bytes)
    {
      SumOfMessage(f, a, before, message, after, []);
      assert before + message + after + [] == output;
    }
    var sum := Sum(f, a, output, |output|);
    if f.sign {
      printed := output + Decimal(sum, DecimalDigits(a.bytes));
    } else if f.alt {
      printed := PrintLittle(f, sum, a.bytes, output);
    } else {
      printed := PrintBig(f, sum, a.bytes, output);
    }
  }

  method PrintLittle(f: Format, sum: nat, bytes: nat, output: Bytes) returns (printed: Bytes)
    requires f.alt
    ensures printed == output + ByteTexts(f, sum, bytes, bytes)
  {
    printed := output;
    var rest := sum;
    for i := 0 to bytes
      invariant rest == ShiftedRight(sum, i)
      invariant printed == output + ByteTexts(f, sum, bytes, i)
    {
      printed := printed + ByteText(f, rest % 256);
      rest := rest / 256;
    }
  }

  method PrintBig(f: Format, sum: nat, bytes: nat, output: Bytes) returns (printed: Bytes)
    requires !f.alt && 1 <= bytes <= 4
    ensures printed == output + ByteTexts(f, sum, bytes, bytes)
  {
    printed := output;
    var word := ShiftedLeft(sum, 4 - bytes);
    for i := 0 to bytes
      invariant word == ShiftedLeft(sum, 4 - bytes + i)
      invariant printed == output + ByteTexts(f, sum, bytes, i)
    {
      TopByte(sum, 4 - bytes + i);
      printed := printed + ByteText(f, word / 0x100_0000 % 256);
      word := word * 256 % WORD;
    }
  }

  lemma TopOfWord(x: nat, q: nat, d: nat, low: nat)
    requires x == q * WORD + (d * 0x100_0000 + low) && d < 256 && low < 0x100_0000
    ensures x % WORD / 0x100_0000 % 256 == d
  {
    ModUnique(x, q, WORD, d * 0x100_0000 + low);
    assert (d * 0x100_0000 + low) / 0x100_0000 == d;
  }

  lemma ShiftWord(x: nat)
    ensures x % WORD * 256 % WORD == x * 256 % WORD
  {
    ModUnique(x * 256, x / WORD * 256 + x % WORD * 256 / WORD, WORD, x % WORD * 256 % WORD);
  }

  lemma ShiftedLeftIs(sum: nat)
    ensures ShiftedLeft(sum, 0) == sum % WORD && ShiftedLeft(sum, 1) == sum * 0x100 % WORD
    ensures ShiftedLeft(sum, 2) == sum * 0x1_0000 % WORD && ShiftedLeft(sum, 3) == sum * 0x100_0000 % WORD
  {
    ShiftWord(sum);
    ShiftWord(sum * 0x100);
    ShiftWord(sum * 0x1_0000);
  }

  /** The top byte of a 32-bit word that was shifted left by `k` bytes. */
  lemma TopByte(sum: nat, k: nat)
    requires k < 4
    ensures ShiftedLeft(sum, k) / 0x100_0000 % 256 == ByteOf(sum, 3 - k)
  {
    var s1: nat, s2: nat, s3: nat := ShiftedRight(sum, 1), ShiftedRight(sum, 2), ShiftedRight(sum, 3);
    var b0: nat, b1: nat, b2: nat := ByteOf(sum, 0), ByteOf(sum, 1), ByteOf(sum, 2);
    assert sum == s1 * 256 + b0;
    assert s1 == s2 * 256 + b1;
    assert s2 == s3 * 256 + b2;
    ShiftedLeftIs(sum);
    TopBytes(sum, s1, s2, s3, b0, b1, b2);
  }

  lemma TopBytes(sum: nat, s1: nat, s2: nat, s3: nat, b0: nat, b1: nat, b2: nat)
    requires sum == s1 * 256 + b0 && s1 == s2 * 256 + b1 && s2 == s3 * 256 + b2
    requires b0 < 256 && b1 < 256 && b2 < 256
    ensures sum % WORD / 0x100_0000 % 256 == s3 % 256
    ensures sum * 0x100 % WORD / 0x100_0000 % 256 == b2
    ensures sum * 0x1_0000 % WORD / 0x100_0000 % 256 == b1
    ensures sum * 0x100_0000 % WORD / 0x100_0000 % 256 == b0
  {
    TopOfWord(sum, s3 / 256, s3 % 256, b2 * 0x1_0000 + b1 * 0x100 + b0);
    TopOfWord(sum * 0x100, s3, b2, b1 * 0x1_0000 + b0 * 0x100);
    TopOfWord(sum * 0x1_0000, s2, b1, b0 * 0x1_0000);
    TopOfWord(sum * 0x100_0000, s1, b0, 0);
  }

  // ---- scanPseudo, byte by byte ----

  function Chars(f: Format): nat { if f.zero || f.left then 2 else 1 }

  predicate IsNibble(c: byte) { c / 16 == 3 }

  /** What is read at byte position `i` of the checksum text. `hex` is sscanf
      with "%2hhx", which sees the whole rest of the input. */
  function ReadByte(f: Format, hex: Bytes -> Option<byte>, t: Bytes, i: nat): Option<byte>
    requires (i + 1) * Chars(f) <= |t|
  {
    if f.zero then hex(t[2 * i..])
    else if f.left then
      if IsNibble(t[2 * i]) && IsNibble(t[2 * i + 1]) then Some(t[2 * i] % 16 * 16 + t[2 * i + 1] % 16) else None
    else Some(t[i])
  }

  /** sscanf understands two hexadecimal digits. */
  ghost predicate ReadsHex(hex: Bytes -> Option<byte>) {
    forall s: Bytes, b: byte | StartsWithHex(s, b) :: hex(s) == Some(b)
  }

  predicate StartsWithHex(s: Bytes, b: byte) {
    |s| >= 2 && s[0] == HexDigit(b / 16) && s[1] == HexDigit(b % 16)
  }

  function TextAt(f: Format, t: Bytes, i: nat): Bytes
    requires (i + 1) * Chars(f) <= |t|
  {
    t[i * Chars(f)..(i + 1) * Chars(f)]
  }

  lemma NibblesRead(b: byte, x: byte, y: byte)
    requires x == 0x30 + b / 16 && y == 0x30 + b % 16
    ensures IsNibble(x) && IsNibble(y) && x % 16 * 16 + y % 16 == b
  {
  }

  lemma ReadsWhatIsPrinted(f: Format, hex: Bytes -> Option<byte>, t: Bytes, i: nat, b: byte)
    requires (i + 1) * Chars(f) <= |t| && ReadsHex(hex) && TextAt(f, t, i) == ByteText(f, b)
    ensures ReadByte(f, hex, t, i) == Some(b)
  {
    if f.zero {
      var s, x := t[2 * i..], TextAt(f, t, i);
      assert s[0] == x[0] && s[1] == x[1];
      assert StartsWithHex(s, b);
    } else if f.left {
      var x := TextAt(f, t, i);
      assert t[2 * i] == x[0] && t[2 * i + 1] == x[1];
      NibblesRead(b, x[0], x[1]);
    } else {
      assert t[i] == TextAt(f, t, i)[0];
    }
  }

  /** Nibbles and plain bytes can be written in one way only. */
  lemma ReadsNothingElse(f: Format, hex: Bytes -> Option<byte>, t: Bytes, i: nat, b: byte)
    requires (i + 1) * Chars(f) <= |t| && !f.zero && ReadByte(f, hex, t, i) == Some(b)
    ensures TextAt(f, t, i) == ByteText(f, b)
  {
    if f.left {
      assert TextAt(f, t, i) == [t[2 * i], t[2 * i + 1]];
    } else {
      assert TextAt(f, t, i) == [t[i]];
    }
  }

  lemma {:induction false} TextOfBytes(f: Format, t: Bytes, sum: nat, bytes: nat, n: nat)
    requires n <= bytes && n * Chars(f) <= |t|
    ensures t[..n * Chars(f)] == ByteTexts(f, sum, bytes, n)
       <==> forall i: nat | i < n :: TextAt(f, t, i) == ByteText(f, ByteOf(sum, Order(f, bytes, i)))
  {
    if n > 0 {
      var k := (n - 1) * Chars(f);
      TextOfBytes(f, t, sum, bytes, n - 1);
      assert k + Chars(f) == n * Chars(f);
      FrontSplit(t, k, n * Chars(f));
      SamePieces(t[..k], TextAt(f, t, n - 1),
                 ByteTexts(f, sum, bytes, n - 1), ByteText(f, ByteOf(sum, Order(f, bytes, n - 1))));
    }
  }

  lemma FrontSplit(t: Bytes, i: nat, j: nat)
    requires i <= j <= |t|
    ensures t[..j] == t[..i] + t[i..j]
  {
  }

  lemma SamePieces(a: Bytes, b: Bytes, x: Bytes, y: Bytes)
    requires |a| == |x|
    ensures a + b == x + y <==> a == x && b == y
  {
    if a + b == x + y {
      assert a == (a + b)[..|a|] == x;
      assert b == (a + b)[|a|..] == y;
    }
  }

  /** Every byte of the checksum is read at its place. */
  predicate AllRead(f: Format, hex: Bytes -> Option<byte>, t: Bytes, sum: nat, bytes: nat)
    requires bytes * Chars(f) <= |t|
  {
    forall i: nat | i < bytes :: ReadAt(f, hex, t, sum, bytes, i)
  }

  predicate ReadAt(f: Format, hex: Bytes -> Option<byte>, t: Bytes, sum: nat, bytes: nat, i: nat)
    requires i < bytes && bytes * Chars(f) <= |t|
  {
    (i + 1) * Chars(f) <= |t| && ReadByte(f, hex, t, i) == Some(ByteOf(sum, Order(f, bytes, i)))
  }

  lemma AllReadIfPrinted(f: Format, hex: Bytes -> Option<byte>, t: Bytes, sum: nat, bytes: nat)
    requires bytes * Chars(f) <= |t| && ReadsHex(hex)
    requires t[..bytes * Chars(f)] == ByteTexts(f, sum, bytes, bytes)
    ensures AllRead(f, hex, t, sum, bytes)
  {
    TextOfBytes(f, t, sum, bytes, bytes);
    forall i: nat | i < bytes ensures ReadAt(f, hex, t, sum, bytes, i) {
      assert (i + 1) * Chars(f) <= bytes * Chars(f);
      ReadsWhatIsPrinted(f, hex, t, i, ByteOf(sum, Order(f, bytes, i)));
    }
  }

  lemma PrintedIfAllRead(f: Format, hex: Bytes -> Option<byte>, t: Bytes, sum: nat, bytes: nat)
    requires bytes * Chars(f) <= |t| && !f.zero && AllRead(f, hex, t, sum, bytes)
    ensures t[..bytes * Chars(f)] == ByteTexts(f, sum, bytes, bytes)
  {
    forall i: nat | i < bytes ensures TextAt(f, t, i) == ByteText(f, ByteOf(sum, Order(f, bytes, i))) {
      assert ReadAt(f, hex, t, sum, bytes, i);
      ReadsNothingElse(f, hex, t, i, ByteOf(sum, Order(f, bytes, i)));
    }
    TextOfBytes(f, t, sum, bytes, bytes);
  }

  // ---- Decimal checksums ----

  predicate IsDigit(c: byte) { '0' as int <= c <= '9' as int }

  predicate AllDigits(t: Bytes, n: nat)
    requires n <= |t|
  {
    forall i | 0 <= i < n :: IsDigit(t[i])
  }

  /** The 32-bit number at the start of `t`: at most `n` characters, up to the first that is no digit. */
  function Number(t: Bytes, n: nat): nat
    requires n <= |t|
  {
    if n == 0 then 0
    else if AllDigits(t, n) then (Number(t, n - 1) * 10 + t[n - 1] - '0' as int) % WORD
    else Number(t, n - 1)
  }

  method ScanNumber(t: Bytes, n: nat) returns (sum: nat)
    requires n <= |t|
    ensures sum == Number(t, n)
  {
    sum := 0;
    var i := 0;
    while i < n
      invariant i <= n && AllDigits(t, i) && sum == Number(t, i)
    {
      if !IsDigit(t[i]) {
        NumberStops(t, i, n);
        return;
      }
      sum := (sum * 10 + t[i] - '0' as int) % WORD;
      i := i + 1;
    }
  }

  lemma {:induction false} NumberStops(t: Bytes, i: nat, n: nat)
    requires i < n <= |t| && !IsDigit(t[i])
    ensures Number(t, n) == Number(t, i)
    decreases n
  {
    if i + 1 < n { NumberStops(t, i, n - 1); }
  }

  function Pow10(e: nat): nat { if e == 0 then 1 else 10 * Pow10(e - 1) }

  lemma {:induction false} NumberOfDecimal(sum: nat, n: nat, t: Bytes)
    requires n <= |t| && t[..n] == Decimal(sum, n) && sum < Pow10(n) && sum < WORD
    ensures AllDigits(t, n) && Number(t, n) == sum
    decreases n
  {
    if n > 0 {
      assert t[..n - 1] == t[..n][..n - 1] == Decimal(sum / 10, n - 1);
      assert t[n - 1] == t[..n][n - 1];
      NumberOfDecimal(sum / 10, n - 1, t);
    }
  }

  /** The digits of the largest checksum, and no more. */
  lemma DigitsAreEnough(sum: nat, bytes: nat)
    requires 1 <= bytes <= 4 && sum < Pow256(bytes)
    ensures DecimalDigits(bytes) > 0 && sum < Pow10(DecimalDigits(bytes)) && sum < WORD
    ensures Pow10(DecimalDigits(bytes) - 1) < Pow256(bytes)
  {
    assert Pow256(1) == 0x100;
    assert Pow256(2) == 0x1_0000;
    assert Pow256(3) == 0x100_0000;
    assert Pow256(4) == WORD;
    assert Pow10(3) == 1000;
    assert Pow10(5) == 100 * Pow10(3);
    assert Pow10(8) == 10 * Pow10(7) == 100 * Pow10(6) == 1000 * Pow10(5);
    assert Pow10(10) == 10 * Pow10(9) == 100 * Pow10(8);
  }

  /** The number of digits at the start of `t`, up to `n`. */
  function LeadingDigits(t: Bytes, n: nat): (k: nat)
    requires n <= |t|
    ensures k <= n && AllDigits(t, k) && (k < n ==> !IsDigit(t[k]))
  {
    if n == 0 then 0
    else
      var k := LeadingDigits(t, n - 1);
      if k == n - 1 && IsDigit(t[n - 1]) then n else k
  }

  const DECIMAL := Format(0, 0, true, false, false, false)

  /** What is compared is the number that the leading digits spell, in a 32-bit word. */
  lemma {:induction false} NumberIsSpelled(t: Bytes, n: nat)
    requires n <= |t|
    ensures Spells(DECIMAL, t[..LeadingDigits(t, n)], Spelled(DECIMAL, t[..LeadingDigits(t, n)]))
    ensures Spelled(DECIMAL, t[..LeadingDigits(t, n)]) >= 0
    ensures Number(t, n) == Spelled(DECIMAL, t[..LeadingDigits(t, n)]) % WORD
  {
    if n > 0 {
      NumberIsSpelled(t, n - 1);
      var k := LeadingDigits(t, n);
      if k == n {
        var v := Spelled(DECIMAL, t[..n - 1]);
        assert t[..n] == t[..n - 1] + [t[n - 1]];
        SpellsDigit(DECIMAL, t[..n - 1], v, t[n - 1]);
        NextDigit(v, t[n - 1] - '0' as int);
      } else {
        assert k == LeadingDigits(t, n - 1) && !AllDigits(t, n);
      }
    }
  }

  lemma NextDigit(v: nat, d: nat)
    ensures (v % WORD * 10 + d) % WORD == (v * 10 + d) % WORD
  {
    var x := v % WORD * 10 + d;
    ModUnique(v * 10 + d, v / WORD * 10 + x / WORD, WORD, x % WORD);
  }

  /** A decimal text is accepted for a checksum exactly if its leading digits
      spell it modulo 2^32, whatever comes behind them. */
  lemma DecimalExact(f: Format, hex: Bytes -> Option<byte>, t: Bytes, sum: nat, bytes: nat, garbage: byte)
    requires f.sign && 1 <= bytes <= 4 && EncodedLength(f, bytes) <= |t|
    ensures Accepted(f, hex, t, sum, bytes, garbage)
       <==> Spelled(DECIMAL, t[..LeadingDigits(t, EncodedLength(f, bytes))]) % WORD == sum
  {
    NumberIsSpelled(t, EncodedLength(f, bytes));
  }

  /** So a text that printing never appends is accepted, such as "1xx" for 1. */
  lemma DecimalAcceptsOther(f: Format, hex: Bytes -> Option<byte>, garbage: byte)
    requires f.sign
    ensures Accepted(f, hex, [0x31, 0x78, 0x78], 1, 1, garbage)
    ensures Encoded(f, 1, 1) == [0x30, 0x30, 0x31]
  {
    OneDigit([0x31, 0x78, 0x78]);
    DecimalOne();
  }

  lemma OneDigit(t: Bytes)
    requires |t| == 3 && t[0] == 0x31 && !IsDigit(t[1])
    ensures Number(t, 3) == 1
  {
    assert Number(t, 1) == (Number(t, 0) * 10 + 1) % WORD;
    NumberStops(t, 1, 3);
  }

  lemma DecimalOne()
    ensures Decimal(1, 3) == [0x30, 0x30, 0x31]
  {
    assert Decimal(0, 1) == Decimal(0, 0) + [0x30];
    assert Decimal(0, 2) == Decimal(0, 1) + [0x30];
    assert Decimal(1, 3) == Decimal(0, 2) + [0x31];
  }

  // ---- scanPseudo ----

  method ScanLittle(f: Format, hex: Bytes -> Option<byte>, t: Bytes, sum: nat, bytes: nat) returns (ok: bool)
    requires f.alt && bytes * Chars(f) <= |t|
    ensures ok == AllRead(f, hex, t, sum, bytes)
  {
    for i := 0 to bytes
      invariant forall k: nat | k < i :: ReadAt(f, hex, t, sum, bytes, k)
    {
      assert (i + 1) * Chars(f) <= bytes * Chars(f);
      var inchar := ReadByte(f, hex, t, i);
      if inchar == None || inchar.value != ByteOf(sum, i) {
        assert !ReadAt(f, hex, t, sum, bytes, i);
        return false;
      }
    }
    return true;
  }

  /** Big endian: the result of sscanf is not looked at, so a byte that is no
      hexadecimal number keeps the value of the byte after it. */
  function Kept(f: Format, hex: Bytes -> Option<byte>, t: Bytes, bytes: nat, i: nat, garbage: byte): byte
    requires bytes * Chars(f) <= |t|
    decreases bytes - i
  {
    if i >= bytes then garbage
    else
      assert (i + 1) * Chars(f) <= bytes * Chars(f);
      match ReadByte(f, hex, t, i)
      case Some(b) => b
      case None => Kept(f, hex, t, bytes, i + 1, garbage)
  }

  predicate KeptAt(f: Format, hex: Bytes -> Option<byte>, t: Bytes, sum: nat, bytes: nat, i: nat, garbage: byte)
    requires i < bytes && bytes * Chars(f) <= |t|
  {
    && (f.zero || ((i + 1) * Chars(f) <= |t| && ReadByte(f, hex, t, i).Some?))
    && Kept(f, hex, t, bytes, i, garbage) == ByteOf(sum, bytes - 1 - i)
  }

  method ScanBig(f: Format, hex: Bytes -> Option<byte>, t: Bytes, sum: nat, bytes: nat, garbage: byte) returns (ok: bool)
    requires !f.alt && bytes * Chars(f) <= |t|
    ensures ok <==> forall i: nat | i < bytes :: KeptAt(f, hex, t, sum, bytes, i, garbage)
  {
    var inchar := garbage;
    var i := bytes;
    while i > 0
      invariant 0 <= i <= bytes
      invariant inchar == Kept(f, hex, t, bytes, i, garbage)
      invariant forall k: nat | i <= k < bytes :: KeptAt(f, hex, t, sum, bytes, k, garbage)
    {
      i := i - 1;
      assert (i + 1) * Chars(f) <= bytes * Chars(f);
      var r := ReadByte(f, hex, t, i);
      if r == None && !f.zero {
        assert !KeptAt(f, hex, t, sum, bytes, i, garbage);
        return false;
      }
      if r.Some? { inchar := r.value; }
      if inchar != ByteOf(sum, bytes - 1 - i) {
        assert !KeptAt(f, hex, t, sum, bytes, i, garbage);
        return false;
      }
    }
    return true;
  }

  lemma KeptIfAllRead(f: Format, hex: Bytes -> Option<byte>, t: Bytes, sum: nat, bytes: nat, garbage: byte)
    requires !f.alt && bytes * Chars(f) <= |t|
    ensures AllRead(f, hex, t, sum, bytes) ==> forall i: nat | i < bytes :: KeptAt(f, hex, t, sum, bytes, i, garbage)
    ensures !f.zero && (forall i: nat | i < bytes :: KeptAt(f, hex, t, sum, bytes, i, garbage))
            ==> AllRead(f, hex, t, sum, bytes)
  {
    forall i: nat | i < bytes
      ensures ReadAt(f, hex, t, sum, bytes, i) ==> KeptAt(f, hex, t, sum, bytes, i, garbage)
      ensures !f.zero && KeptAt(f, hex, t, sum, bytes, i, garbage) ==> ReadAt(f, hex, t, sum, bytes, i)
    {
      assert (i + 1) * Chars(f) <= bytes * Chars(f);
    }
  }

  predicate Accepted(f: Format, hex: Bytes -> Option<byte>, t: Bytes, sum: nat, bytes: nat, garbage: byte)
    requires 1 <= bytes <= 4 && EncodedLength(f, bytes) <= |t|
  {
    if f.sign then Number(t, EncodedLength(f, bytes)) == sum
    else if f.alt then AllRead(f, hex, t, sum, bytes)
    else forall i: nat | i < bytes :: KeptAt(f, hex, t, sum, bytes, i, garbage)
  }

  // ---- What big-endian hexadecimal accepts ----

  /** The number with the given bytes, least significant first. */
  function Composed(s: Bytes): nat { if s == [] then 0 else s[0] + 256 * Composed(s[1..]) }

  lemma {:induction false} ShiftTwice(x: nat, j: nat)
    ensures ShiftedRight(x, j + 1) == ShiftedRight(x / 256, j)
  {
    if j > 0 { ShiftTwice(x, j - 1); }
  }

  lemma {:induction false} ComposedBytes(s: Bytes, j: nat)
    requires j < |s|
    ensures ByteOf(Composed(s), j) == s[j]
    decreases j
  {
    if j > 0 {
      ComposedBytes(s[1..], j - 1);
      ShiftTwice(Composed(s), j - 1);
      assert Composed(s) / 256 == Composed(s[1..]);
    }
  }

  /** There is always a checksum that is accepted: the one made of the kept bytes. */
  lemma KeptSum(f: Format, hex: Bytes -> Option<byte>, t: Bytes, bytes: nat, garbage: byte) returns (sum: nat)
    requires f.zero && bytes * Chars(f) <= |t|
    ensures forall i: nat | i < bytes :: KeptAt(f, hex, t, sum, bytes, i, garbage)
  {
    var s: Bytes := seq(bytes, j requires 0 <= j < bytes => Kept(f, hex, t, bytes, bytes - 1 - j, garbage));
    sum := Composed(s);
    forall i: nat | i < bytes ensures KeptAt(f, hex, t, sum, bytes, i, garbage) {
      ComposedBytes(s, bytes - 1 - i);
    }
  }

  predicate IsRead(f: Format, hex: Bytes -> Option<byte>, t: Bytes, i: nat) {
    (i + 1) * Chars(f) <= |t| && ReadByte(f, hex, t, i).Some?
  }

  /** A text is accepted for no other checksum than the one it spells, exactly
      if every byte of it can be read as a hexadecimal number. */
  lemma BigEndianHexExact(f: Format, hex: Bytes -> Option<byte>, t: Bytes, bytes: nat, garbage: byte)
    requires f.zero && !f.alt && !f.sign && 1 <= bytes <= 4 && EncodedLength(f, bytes) <= |t|
    ensures (forall sum: nat | Accepted(f, hex, t, sum, bytes, garbage) :: AllRead(f, hex, t, sum, bytes))
       <==> (forall i: nat | i < bytes :: IsRead(f, hex, t, i))
  {
    if forall i: nat | i < bytes :: IsRead(f, hex, t, i) {
      forall sum: nat, i: nat | Accepted(f, hex, t, sum, bytes, garbage) && i < bytes
        ensures ReadAt(f, hex, t, sum, bytes, i)
      {
        assert IsRead(f, hex, t, i) && KeptAt(f, hex, t, sum, bytes, i, garbage);
      }
    } else {
      var i: nat :| i < bytes && !IsRead(f, hex, t, i);
      var sum := KeptSum(f, hex, t, bytes, garbage);
      assert (i + 1) * Chars(f) <= bytes * Chars(f);
      assert !ReadAt(f, hex, t, sum, bytes, i);
      assert Accepted(f, hex, t, sum, bytes, garbage) && !AllRead(f, hex, t, sum, bytes);
    }
  }

  /** An input of the failing kind: "??31" is accepted for 0x3131. */
  lemma BigEndianHexAcceptsOther(hex: Bytes -> Option<byte>, garbage: byte)
    requires ReadsHex(hex) && hex([0x3F, 0x3F, 0x33, 0x31]) == None
    ensures Accepted(Format(0, 0, false, false, true, false), hex, [0x3F, 0x3F, 0x33, 0x31], 0x3131, 2, garbage)
    ensures !Accepted(Format(0, 0, false, true, true, false), hex, [0x3F, 0x3F, 0x33, 0x31], 0x3131, 2, garbage)
  {
    var f, t := Format(0, 0, false, false, true, false), [0x3F, 0x3F, 0x33, 0x31];
    assert t[0..] == t;
    assert t[2..] == [0x33, 0x31] && StartsWithHex(t[2..], 0x31);
    assert ByteOf(0x3131, 0) == 0x31 && ByteOf(0x3131, 1) == 0x31;
    assert Kept(f, hex, t, 2, 1, garbage) == 0x31;
    assert Kept(f, hex, t, 2, 0, garbage) == 0x31;
    assert !ReadAt(f.(alt := true), hex, t, 0x3131, 2, 0);
  }

  /** The length of the checksum if it is accepted, otherwise -1. */
  method ScanPseudo(f: Format, a: Algorithm, input: Bytes, cursor: nat, hex: Bytes -> Option<byte>, garbage: byte)
    returns (r: int)
    requires Sized(a) && Skipped(f) <= cursor <= |input|
    ensures var n := EncodedLength(f, a.bytes);
            r == if n <= |input| - cursor && Accepted(f, hex, input[cursor..], Sum(f, a, input, cursor), a.bytes, garbage)
                 then n else -1
    ensures forall before: Bytes, message: Bytes, after: Bytes | Splits(f, input[..cursor], before, message, after) ::
              var n, sum := EncodedLength(f, a.bytes), a.check(message) % Pow256(a.bytes);
                 r == if n <= |input| - cursor && Accepted(f, hex, input[cursor..], sum, a.bytes, garbage) then n else -1
    ensures var x := Encoded(f, Sum(f, a, input, cursor), a.bytes);
            ReadsHex(hex) && |x| <= |input| - cursor && input[cursor..cursor + |x|] == x ==> r == |x|
    ensures var x := Encoded(f, Sum(f, a, input, cursor), a.bytes);
            !f.sign && !f.zero && r != -1 ==> |x| == r && input[cursor..cursor + r] == x
  {
    forall before: Bytes, message: Bytes, after: Bytes | Splits(f, input[..cursor], before, message, after)
      ensures Sum(f, a, input, cursor) == a.check(message) % Pow256(a.bytes)
    {
      SumOfMessage(f, a, before, message, after, input[cursor..]);
      assert before + message + after + input[cursor..] == input;
    }
    var expected := EncodedLength(f, a.bytes);
    ghost var x := Encoded(f, Sum(f, a, input, cursor), a.bytes);
    EncodedLengthIs(f, Sum(f, a, input, cursor), a.bytes);
    if |input| - cursor < expected { return -1; }
    var sum := Sum(f, a, input, cursor);
    var t := input[cursor..];
    assert t[..expected] == input[cursor..cursor + expected];
    var ok;
    if f.sign {
      var number := ScanNumber(t, expected);
      DigitsAreEnough(sum, a.bytes);
      if t[..expected] == x { NumberOfDecimal(sum, expected, t); }
      ok := number == sum;
    } else {
      if ReadsHex(hex) && t[..expected] == x { AllReadIfPrinted(f, hex, t, sum, a.bytes); }
      if f.alt {
        ok := ScanLittle(f, hex, t, sum, a.bytes);
      } else {
        KeptIfAllRead(f, hex, t, sum, a.bytes, garbage);
        ok := ScanBig(f, hex, t, sum, a.bytes, garbage);
      }
      if ok && !f.zero { PrintedIfAllRead(f, hex, t, sum, a.bytes); }
    }
    return if ok then expected else -1;
  }

  /** What was printed is accepted, whatever follows it, and no more than that is consumed. */
  method RoundTrip(f: Format, a: Algorithm, output: Bytes, rest: Bytes, hex: Bytes -> Option<byte>, garbage: byte)
    returns (printed: Bytes, r: int)
    requires Sized(a) && Skipped(f) <= |output| && ReadsHex(hex)
    ensures r == EncodedLength(f, a.bytes) > 0 && |printed| == |output| + r && printed[..|output|] == output
  {
    printed := PrintPseudo(f, a, output);
    ghost var x := Encoded(f, Sum(f, a, output, |output|), a.bytes);
    var input := printed + rest;
    SameWindow(f, a, output, x + rest);
    assert input == output + (x + rest);
    assert input[|output|..|output| + |x|] == x;
    r := ScanPseudo(f, a, input, |output|, hex, garbage);
  }

  /** The checksum is taken over what is left between the bytes to skip at both ends. */
  lemma SumOfMessage(f: Format, a: Algorithm, before: Bytes, message: Bytes, after: Bytes, more: Bytes)
    requires Splits(f, before + message + after, before, message, after)
    ensures var text := before + message + after;
            Skipped(f) <= |text| && Sum(f, a, text + more, |text|) == a.check(message) % Pow256(a.bytes)
  {
    var text := before + message + after;
    assert (text + more)[f.width..|text| - |after|] == message;
  }

  /** The window ends before the checksum. */
  lemma SameWindow(f: Format, a: Algorithm, text: Bytes, more: Bytes)
    requires Skipped(f) <= |text|
    ensures Sum(f, a, text + more, |text|) == Sum(f, a, text, |text|)
  {
    var end := |text| - (Skipped(f) - f.width);
    assert (text + more)[f.width..end] == text[f.width..end];
  }
}
