/**
 Cyclic redundancy checks as polynomial long division over GF(2), for any
 divisor of any degree. Polynomials are bit strings with the leading
 coefficient first; `g` is the divisor without its leading term.
 */
module PolynomialDivision {

  type Poly = seq<bool>

  function Zeros(n: nat): Poly { seq(n, _ => false) }

  function Plus(a: Poly, b: Poly): (c: Poly)
    requires |a| == |b|
    ensures |c| == |a|
  {
    seq(|a|, i requires 0 <= i < |a| => a[i] != b[i])
  }

  function Scaled(g: Poly, t: bool): (c: Poly)
    ensures |c| == |g|
  {
    if t then g else Zeros(|g|)
  }

  /** One step of schoolbook division: bring down the next coefficient and
      subtract the divisor if the leading coefficient was set. */
  function BringDown(g: Poly, w: Poly, next: bool): (v: Poly)
    requires |w| == |g| > 0
    ensures |v| == |g|
  {
    Plus(w[1..] + [next], Scaled(g, w[0]))
  }

  function Divide(g: Poly, w: Poly, d: Poly): (v: Poly)
    requires |w| == |g| > 0
    ensures |v| == |g|
    decreases |d|
  {
    if |d| == 0 then w else Divide(g, BringDown(g, w, d[0]), d[1..])
  }

  /** The remainder of the message followed by as many zeros as the divisor has
      coefficients, with the initial value added to the leading coefficients. */
  function Remainder(g: Poly, message: Poly, init: Poly): (v: Poly)
    requires |init| == |g| > 0
    ensures |v| == |g|
  {
    var d := message + Zeros(|g|);
    Divide(g, Plus(d[..|g|], init), d[|g|..])
  }

  /** The bit-serial shift register. */
  function Feed(g: Poly, r: Poly, bit: bool): (v: Poly)
    requires |r| == |g| > 0
    ensures |v| == |g|
  {
    Plus(r[1..] + [false], Scaled(g, r[0] != bit))
  }

  function FeedAll(g: Poly, r: Poly, bits: Poly): (v: Poly)
    requires |r| == |g| > 0
    ensures |v| == |g|
    decreases |bits|
  {
    if |bits| == 0 then r else FeedAll(g, Feed(g, r, bits[0]), bits[1..])
  }

  lemma {:induction false} FeedConcat(g: Poly, r: Poly, x: Poly, y: Poly)
    requires |r| == |g| > 0
    ensures FeedAll(g, r, x + y) == FeedAll(g, FeedAll(g, r, x), y)
    decreases |x|
  {
    if |x| == 0 {
      assert x + y == y;
    } else {
      assert (x + y)[1..] == x[1..] + y;
      FeedConcat(g, Feed(g, r, x[0]), x[1..], y);
    }
  }

  // ---- The register holds the remainder ----

  lemma StepDivides(g: Poly, r: Poly, d: Poly)
    requires |r| == |g| > 0 && |d| > |g|
    ensures var n := |g|; BringDown(g, Plus(d[..n], r), d[n]) == Plus(d[1..n + 1], Feed(g, r, d[0]))
  {
    var n := |g|;
    var w := Plus(d[..n], r);
    var s := Scaled(g, w[0]);
    assert w[0] == (d[0] != r[0]) && s == Scaled(g, r[0] != d[0]);
    var x, y := w[1..] + [d[n]], r[1..] + [false];
    forall i | 0 <= i < n ensures x[i] == (d[1..n + 1][i] != y[i]) {
      if i < n - 1 { assert x[i] == w[i + 1] && y[i] == r[i + 1]; }
    }
    forall i | 0 <= i < n ensures Plus(x, s)[i] == Plus(d[1..n + 1], Plus(y, s))[i] {
      assert Plus(x, s)[i] == (x[i] != s[i]) && Plus(y, s)[i] == (y[i] != s[i]);
    }
  }

  lemma {:induction false} RegisterDivides(g: Poly, r: Poly, bits: Poly)
    requires |r| == |g| > 0
    ensures FeedAll(g, r, bits) == Remainder(g, bits, r)
    decreases |bits|
  {
    var n, d := |g|, bits + Zeros(|g|);
    if |bits| == 0 {
      assert d == Zeros(n) && Plus(d[..n], r) == r;
    } else {
      var d' := bits[1..] + Zeros(n);
      assert d[1..n + 1] == d'[..n] && d[n..][1..] == d'[n..];
      StepDivides(g, r, d);
      RegisterDivides(g, Feed(g, r, bits[0]), bits[1..]);
    }
  }

  // ---- Feeding several bits at once ----

  lemma StepAbsorbs(g: Poly, u: Poly, v: Poly, bit: bool)
    requires |u| == |v| == |g| > 0
    ensures Feed(g, Plus(u, v), bit) == Plus(Feed(g, u, bit != v[0]), v[1..] + [false])
  {
  }

  /** What is added to the register flips the bits it meets on the way out. */
  lemma {:induction false} RegisterAbsorbs(g: Poly, u: Poly, v: Poly, bits: Poly)
    requires |u| == |v| == |g| > 0 && |bits| <= |g|
    ensures var k := |bits|;
            FeedAll(g, Plus(u, v), bits) == Plus(FeedAll(g, u, Plus(bits, v[..k])), v[k..] + Zeros(k))
    decreases |bits|
  {
    var k := |bits|;
    if k == 0 {
      assert v[0..] + Zeros(0) == v;
    } else {
      var v', u', bits' := v[1..] + [false], Feed(g, u, bits[0] != v[0]), bits[1..];
      StepAbsorbs(g, u, v, bits[0]);
      RegisterAbsorbs(g, u', v', bits');
      assert Plus(bits, v[..k])[1..] == Plus(bits', v'[..k - 1]);
      assert v[k..] + Zeros(k) == v'[k - 1..] + Zeros(k - 1);
    }
  }

  /** One table lookup: the table holds what a zero register becomes. */
  lemma LookupFeeds(g: Poly, r: Poly, bits: Poly)
    requires |r| == |g| > 0 && |bits| <= |g|
    ensures var k := |bits|;
            FeedAll(g, r, bits) == Plus(FeedAll(g, Zeros(|g|), Plus(bits, r[..k])), r[k..] + Zeros(k))
  {
    assert Plus(Zeros(|g|), r) == r;
    RegisterAbsorbs(g, Zeros(|g|), r, bits);
  }

  lemma {:induction false} ZerosStayZero(g: Poly, k: nat)
    requires |g| > 0
    ensures FeedAll(g, Zeros(|g|), Zeros(k)) == Zeros(|g|)
  {
    if k > 0 {
      assert Zeros(k)[1..] == Zeros(k - 1);
      assert Feed(g, Zeros(|g|), false) == Zeros(|g|);
      ZerosStayZero(g, k - 1);
    }
  }

  /** A message followed by its own CRC leaves the register at zero. */
  lemma AppendedRemainderCancels(g: Poly, message: Poly, init: Poly)
    requires |init| == |g| > 0
    ensures Remainder(g, message + Remainder(g, message, init), init) == Zeros(|g|)
  {
    var r, n := Remainder(g, message, init), |g|;
    RegisterDivides(g, init, message);
    RegisterDivides(g, init, message + r);
    FeedConcat(g, init, message, r);
    LookupFeeds(g, r, r);
    PlusItself(r);
    assert r[n..] + Zeros(n) == Zeros(n);
    ZerosStayZero(g, n);
    PlusZeros(Zeros(n));
  }

  lemma PlusItself(r: Poly)
    ensures Plus(r, r[..|r|]) == Zeros(|r|)
  {
  }

  // ---- The register is linear ----

  lemma StepLinear(g: Poly, u: Poly, v: Poly, a: bool, b: bool)
    requires |u| == |v| == |g| > 0
    ensures Feed(g, Plus(u, v), a != b) == Plus(Feed(g, u, a), Feed(g, v, b))
  {
    var n := |g|;
    var x, y := u[1..] + [false], v[1..] + [false];
    var s, t := Scaled(g, u[0] != a), Scaled(g, v[0] != b);
    assert Plus(u, v)[1..] + [false] == Plus(x, y);
    assert Scaled(g, Plus(u, v)[0] != (a != b)) == Plus(s, t);
    assert Plus(Plus(x, y), Plus(s, t)) == Plus(Plus(x, s), Plus(y, t));
  }

  lemma {:induction false} RegisterLinear(g: Poly, u: Poly, v: Poly, x: Poly, y: Poly)
    requires |u| == |v| == |g| > 0 && |x| == |y|
    ensures FeedAll(g, Plus(u, v), Plus(x, y)) == Plus(FeedAll(g, u, x), FeedAll(g, v, y))
    decreases |x|
  {
    if |x| != 0 {
      StepLinear(g, u, v, x[0], y[0]);
      assert Plus(x, y)[1..] == Plus(x[1..], y[1..]);
      RegisterLinear(g, Feed(g, u, x[0]), Feed(g, v, y[0]), x[1..], y[1..]);
    }
  }

  /** The first bit and the others, fed separately. */
  lemma FirstBitApart(g: Poly, t: bool, bits: Poly)
    requires |g| > 0
    ensures FeedAll(g, Zeros(|g|), [t] + bits)
         == Plus(if t then FeedAll(g, g, Zeros(|bits|)) else Zeros(|g|), FeedAll(g, Zeros(|g|), bits))
  {
    var z := Zeros(|g|);
    assert ([t] + bits)[1..] == bits;
    FeedFromZero(g, t);
    PlusZeros(Scaled(g, t));
    PlusZeros(bits);
    RegisterLinear(g, Scaled(g, t), z, Zeros(|bits|), bits);
    if !t { ZerosStayZero(g, |bits|); }
  }

  lemma FeedFromZero(g: Poly, t: bool)
    requires |g| > 0
    ensures Feed(g, Zeros(|g|), t) == Scaled(g, t)
  {
    assert Zeros(|g|)[1..] + [false] == Zeros(|g|);
    PlusZeros(Scaled(g, t));
  }

  lemma PlusZeros(p: Poly)
    ensures Plus(p, Zeros(|p|)) == p && Plus(Zeros(|p|), p) == p
  {
  }

  // ---- Registers held in machine words, fed a byte at a time ----

  /** A CRC on words: `W` is the register, `Y` a byte. A mask is a word with at
      most one bit; `has` tests that bit. */
  datatype Code<!W, !Y> = Code(
    degree: nat,
    has: (W, W) -> bool,
    first: W,                           // the mask of the leading coefficient
    next: W -> W,                       // the mask of the next one
    next8: W -> W,
    byteHas: (Y, Y) -> bool,
    byteMask: nat -> Y,                 // masks of a byte in the order its bits are sent
    zero: W,
    poly: W,
    sum: (W, W) -> W,
    shift: W -> W,
    shift8: W -> W,
    index: (W, Y) -> Y,                 // the byte that a lookup uses
    table: Y -> W,
    unit: nat -> W)                     // the table entries of the eight masks
  {
    function Mask(i: nat): W { if i == 0 then first else next(Mask(i - 1)) }

    predicate Bit(w: W, i: nat) { has(w, Mask(i)) }

    predicate ByteBit(b: Y, i: nat) { byteHas(b, byteMask(i)) }

    /** The coefficients of a register, leading one first. */
    function Word(w: W): (p: Poly)
      ensures |p| == degree
    {
      seq(degree, i requires i >= 0 => Bit(w, i))
    }

    /** The bits of a byte in the order they are sent. */
    function Byte(b: Y): (p: Poly)
      ensures |p| == 8
    {
      seq(8, i requires i >= 0 => ByteBit(b, i))
    }

    function G(): (g: Poly)
      ensures |g| == degree
    {
      Word(poly)
    }

    function FeedZero(w: W): W { if Bit(w, 0) then sum(shift(w), poly) else shift(w) }

    function Pick(b: Y, k: nat): W { if ByteBit(b, k) then unit(k) else zero }

    /** The sum of the entries of the masks in a byte, from bit `k` on. */
    function Mix(b: Y, k: nat): W
      decreases 8 - k
    {
      if k >= 8 then zero else sum(Pick(b, k), Mix(b, k + 1))
    }

    function Lookup(w: W, b: Y): W { sum(table(index(w, b)), shift8(w)) }

    function Message(data: seq<Y>): Poly
      decreases |data|
    {
      if data == [] then [] else Message(data[..|data| - 1]) + Byte(data[|data| - 1])
    }

    function LookupAll(w: W, data: seq<Y>): W
      decreases |data|
    {
      if data == [] then w else Lookup(LookupAll(w, data[..|data| - 1]), data[|data| - 1])
    }
  }

  /** The word operations are the polynomial operations, mask by mask. */
  ghost predicate MasksRight<W(!new), Y(!new)>(c: Code<W, Y>, one: W -> bool, none: W) {
    && c.degree >= 8
    && one(c.first) && (forall m: W | one(m) :: one(c.next(m)))
    && (forall a: W, b: W, m: W | one(m) :: c.has(c.sum(a, b), m) == (c.has(a, m) != c.has(b, m)))
    && (forall a: W, m: W :: c.has(c.shift(a), m) == c.has(a, c.next(m)))
    && (forall a: W, m: W :: c.has(c.shift8(a), m) == c.has(a, c.next8(m)))
    && (forall m: W :: c.next8(m) == Next4(c, Next4(c, m)))
    && (forall m: W :: !c.has(c.zero, m))
    && (forall a: W :: !c.has(a, none)) && c.next(none) == none && c.Mask(c.degree) == none
    && (forall a: W, b: Y, i: nat | i < 8 :: c.ByteBit(c.index(a, b), i) == (c.ByteBit(b, i) != c.Bit(a, i)))
  }

  function Next4<W, Y>(c: Code<W, Y>, m: W): W { c.next(c.next(c.next(c.next(m)))) }

  /** The table holds the sums of the entries of its masks, which the register makes of the divisor. */
  ghost predicate TableRight<W(!new), Y(!new)>(c: Code<W, Y>) {
    && c.unit(7) == c.poly && (forall k: nat | k < 7 :: c.unit(k) == c.FeedZero(c.unit(k + 1)))
    && (forall b: Y :: c.table(b) == c.Mix(b, 0))
  }

  /** The same, coefficient by coefficient. */
  ghost predicate WordsRight<W(!new), Y(!new)>(c: Code<W, Y>) {
    && c.degree >= 8
    && (forall i: nat :: !c.Bit(c.zero, i))
    && (forall a: W, b: W, i: nat :: c.Bit(c.sum(a, b), i) == (c.Bit(a, i) != c.Bit(b, i)))
    && (forall a: W, i: nat :: c.Bit(c.shift(a), i) == c.Bit(a, i + 1))
    && (forall a: W, i: nat :: c.Bit(c.shift8(a), i) == c.Bit(a, i + 8))
    && (forall a: W, i: nat | i >= c.degree :: !c.Bit(a, i))
    && (forall a: W, b: Y, i: nat | i < 8 :: c.ByteBit(c.index(a, b), i) == (c.ByteBit(b, i) != c.Bit(a, i)))
  }

  lemma {:induction false} MaskIsOne<W(!new), Y(!new)>(c: Code<W, Y>, one: W -> bool, none: W, i: nat)
    requires MasksRight(c, one, none)
    ensures one(c.Mask(i))
  {
    if i > 0 { MaskIsOne(c, one, none, i - 1); }
  }

  lemma {:induction false} MaskEnds<W(!new), Y(!new)>(c: Code<W, Y>, one: W -> bool, none: W, i: nat)
    requires MasksRight(c, one, none) && i >= c.degree
    ensures c.Mask(i) == none
  {
    if i > c.degree { MaskEnds(c, one, none, i - 1); }
  }

  lemma MaskFour<W(!new), Y(!new)>(c: Code<W, Y>, i: nat)
    ensures c.Mask(i + 4) == Next4(c, c.Mask(i))
  {
    assert c.Mask(i + 2) == c.next(c.Mask(i + 1));
    assert c.Mask(i + 4) == c.next(c.Mask(i + 3));
  }

  lemma WordsFollow<W(!new), Y(!new)>(c: Code<W, Y>, one: W -> bool, none: W)
    requires MasksRight(c, one, none)
    ensures WordsRight(c)
  {
    forall a: W, b: W, i: nat ensures c.Bit(c.sum(a, b), i) == (c.Bit(a, i) != c.Bit(b, i)) {
      MaskIsOne(c, one, none, i);
    }
    forall a: W, i: nat ensures c.Bit(c.shift(a), i) == c.Bit(a, i + 1) {
      assert c.Mask(i + 1) == c.next(c.Mask(i));
    }
    forall a: W, i: nat ensures c.Bit(c.shift8(a), i) == c.Bit(a, i + 8) {
      MaskFour(c, i);
      MaskFour(c, i + 4);
    }
    forall a: W, i: nat | i >= c.degree ensures !c.Bit(a, i) { MaskEnds(c, one, none, i); }
  }

  /** The words stay right for another divisor. */
  lemma OtherDivisor<W(!new), Y(!new)>(c: Code<W, Y>, d: Code<W, Y>)
    requires WordsRight(c) && d == c.(poly := d.poly, table := d.table, unit := d.unit)
    ensures WordsRight(d)
  {
    forall i: nat ensures d.Mask(i) == c.Mask(i) { SameMask(c, d, i); }
    forall a: W, b: W, i: nat ensures d.Bit(d.sum(a, b), i) == (d.Bit(a, i) != d.Bit(b, i)) {
      assert c.Bit(c.sum(a, b), i) == (c.Bit(a, i) != c.Bit(b, i));
    }
    forall a: W, i: nat ensures d.Bit(d.shift(a), i) == d.Bit(a, i + 1) && d.Bit(d.shift8(a), i) == d.Bit(a, i + 8) {
      assert c.Bit(c.shift(a), i) == c.Bit(a, i + 1) && c.Bit(c.shift8(a), i) == c.Bit(a, i + 8);
    }
    forall a: W, i: nat ensures !d.Bit(d.zero, i) && (i >= d.degree ==> !d.Bit(a, i)) {
      assert !c.Bit(c.zero, i) && (i >= c.degree ==> !c.Bit(a, i));
    }
    forall a: W, b: Y, i: nat | i < 8 ensures d.ByteBit(d.index(a, b), i) == (d.ByteBit(b, i) != d.Bit(a, i)) {
      assert c.ByteBit(c.index(a, b), i) == (c.ByteBit(b, i) != c.Bit(a, i));
    }
  }

  lemma {:induction false} SameMask<W(!new), Y(!new)>(c: Code<W, Y>, d: Code<W, Y>, i: nat)
    requires d.first == c.first && d.next == c.next
    ensures d.Mask(i) == c.Mask(i)
  {
    if i > 0 { SameMask(c, d, i - 1); }
  }

  lemma FeedZeroFeeds<W(!new), Y(!new)>(c: Code<W, Y>, w: W)
    requires WordsRight(c)
    ensures c.Word(c.FeedZero(w)) == Feed(c.G(), c.Word(w), false)
  {
    var v, f := c.Word(c.FeedZero(w)), Feed(c.G(), c.Word(w), false);
    forall i: nat | i < c.degree ensures v[i] == f[i] {
      assert v[i] == c.Bit(c.FeedZero(w), i);
    }
  }

  lemma {:induction false} UnitFeeds<W(!new), Y(!new)>(c: Code<W, Y>, k: nat)
    requires WordsRight(c) && TableRight(c) && k <= 7
    ensures c.Word(c.unit(k)) == FeedAll(c.G(), c.G(), Zeros(7 - k))
    decreases 7 - k
  {
    if k < 7 {
      UnitFeeds(c, k + 1);
      FeedZeroFeeds(c, c.unit(k + 1));
      assert Zeros(7 - k) == Zeros(6 - k) + [false];
      FeedConcat(c.G(), c.G(), Zeros(6 - k), [false]);
      assert FeedAll(c.G(), c.Word(c.unit(k + 1)), [false]) == Feed(c.G(), c.Word(c.unit(k + 1)), false);
    }
  }

  lemma WordOfSum<W(!new), Y(!new)>(c: Code<W, Y>, a: W, b: W)
    requires WordsRight(c)
    ensures c.Word(c.sum(a, b)) == Plus(c.Word(a), c.Word(b))
  {
    forall i: nat | i < c.degree ensures c.Word(c.sum(a, b))[i] == Plus(c.Word(a), c.Word(b))[i] {
      assert c.Bit(c.sum(a, b), i) == (c.Bit(a, i) != c.Bit(b, i));
    }
  }

  lemma WordOfZero<W(!new), Y(!new)>(c: Code<W, Y>)
    requires WordsRight(c)
    ensures c.Word(c.zero) == Zeros(c.degree)
  {
  }

  lemma {:induction false} MixFeeds<W(!new), Y(!new)>(c: Code<W, Y>, b: Y, k: nat)
    requires WordsRight(c) && TableRight(c) && k <= 8
    ensures c.Word(c.Mix(b, k)) == FeedAll(c.G(), Zeros(c.degree), c.Byte(b)[k..])
    decreases 8 - k
  {
    if k == 8 {
      WordOfZero(c);
      assert c.Byte(b)[8..] == [];
    } else {
      MixFeeds(c, b, k + 1);
      PickFeeds(c, b, k);
      WordOfSum(c, c.Pick(b, k), c.Mix(b, k + 1));
      ByteTail(c, b, k);
      FirstBitApart(c.G(), c.ByteBit(b, k), c.Byte(b)[k + 1..]);
    }
  }

  lemma PickFeeds<W(!new), Y(!new)>(c: Code<W, Y>, b: Y, k: nat)
    requires WordsRight(c) && TableRight(c) && k <= 7
    ensures c.Word(c.Pick(b, k)) == if c.ByteBit(b, k) then FeedAll(c.G(), c.G(), Zeros(7 - k)) else Zeros(c.degree)
  {
    if c.ByteBit(b, k) { UnitFeeds(c, k); } else { WordOfZero(c); }
  }

  lemma ByteTail<W, Y>(c: Code<W, Y>, b: Y, k: nat)
    requires k < 8
    ensures c.Byte(b)[k..] == [c.ByteBit(b, k)] + c.Byte(b)[k + 1..]
  {
  }

  lemma WordOfShift8<W(!new), Y(!new)>(c: Code<W, Y>, w: W)
    requires WordsRight(c)
    ensures c.Word(c.shift8(w)) == c.Word(w)[8..] + Zeros(8)
  {
    var v, u := c.Word(c.shift8(w)), c.Word(w)[8..] + Zeros(8);
    forall i: nat | i < c.degree ensures v[i] == u[i] {
      assert c.Bit(c.shift8(w), i) == c.Bit(w, i + 8);
    }
  }

  /** One table lookup feeds a byte. */
  lemma LookupFeedsByte<W(!new), Y(!new)>(c: Code<W, Y>, w: W, b: Y)
    requires WordsRight(c) && TableRight(c)
    ensures c.Word(c.Lookup(w, b)) == FeedAll(c.G(), c.Word(w), c.Byte(b))
  {
    var i := c.index(w, b);
    MixFeeds(c, i, 0);
    assert c.Byte(i)[0..] == c.Byte(i) == Plus(c.Byte(b), c.Word(w)[..8]);
    LookupFeeds(c.G(), c.Word(w), c.Byte(b));
    WordOfSum(c, c.table(i), c.shift8(w));
    WordOfShift8(c, w);
  }

  lemma {:induction false} LookupsFeedMessage<W(!new), Y(!new)>(c: Code<W, Y>, w: W, data: seq<Y>)
    requires WordsRight(c) && TableRight(c)
    ensures c.Word(c.LookupAll(w, data)) == FeedAll(c.G(), c.Word(w), c.Message(data))
    decreases |data|
  {
    if data != [] {
      var n := |data| - 1;
      LookupsFeedMessage(c, w, data[..n]);
      FeedConcat(c.G(), c.Word(w), c.Message(data[..n]), c.Byte(data[n]));
      LookupFeedsByte(c, c.LookupAll(w, data[..n]), data[n]);
    }
  }

  /** The byte-wise, table-driven CRC is the remainder of long division. */
  lemma LookupsDivide<W(!new), Y(!new)>(c: Code<W, Y>, w: W, data: seq<Y>)
    requires WordsRight(c) && TableRight(c)
    ensures c.Word(c.LookupAll(w, data)) == Remainder(c.G(), c.Message(data), c.Word(w))
  {
    LookupsFeedMessage(c, w, data);
    RegisterDivides(c.G(), c.Word(w), c.Message(data));
  }

  lemma WordOfBytes<W, Y>(c: Code<W, Y>, w: W, x: Y, y: Y)
    requires c.degree == 16
    requires forall i: nat | i < 8 :: c.Bit(w, i) == c.ByteBit(x, i)
    requires forall i: nat | i < 8 :: c.Bit(w, i + 8) == c.ByteBit(y, i)
    ensures c.Byte(x) + c.Byte(y) == c.Word(w)
  {
    var p, q := c.Byte(x) + c.Byte(y), c.Word(w);
    forall i: nat | i < 16 ensures p[i] == q[i] {
      if i >= 8 { assert c.Bit(w, i - 8 + 8) == c.ByteBit(y, i - 8); }
    }
  }

  /** A message followed by two bytes that spell its CRC has CRC zero. */
  lemma AppendedBytesCancel<W(!new), Y(!new)>(c: Code<W, Y>, init: W, data: seq<Y>, x: Y, y: Y)
    requires WordsRight(c) && TableRight(c)
    requires c.Byte(x) + c.Byte(y) == c.Word(c.LookupAll(init, data))
    ensures c.Word(c.LookupAll(init, data + [x, y])) == Zeros(c.degree)
  {
    MessageOfTwo(c, data, x, y);
    LookupsDivide(c, init, data);
    LookupsDivide(c, init, data + [x, y]);
    AppendedRemainderCancels(c.G(), c.Message(data), c.Word(init));
  }

  lemma MessageOfTwo<W, Y>(c: Code<W, Y>, data: seq<Y>, x: Y, y: Y)
    ensures c.Message(data + [x, y]) == c.Message(data) + (c.Byte(x) + c.Byte(y))
  {
    var d, t := data + [x], data + [x, y];
    assert t[..|t| - 1] == d && d[..|d| - 1] == data;
    assert c.Message(data) + c.Byte(x) + c.Byte(y) == c.Message(data) + (c.Byte(x) + c.Byte(y));
  }

  /** A lookup in a wide register that agrees on the index and on the sum. */
  lemma WideLookup<C(!new), W(!new), Y(!new)>(
      c: Code<W, Y>, index: (C, Y) -> Y, shift: C -> C, mix: (W, C) -> C, low: C -> W, x: C, b: Y)
    requires forall x: C, b: Y :: index(x, b) == c.index(low(x), b)
    requires forall x: C :: low(shift(x)) == c.shift8(low(x))
    requires forall t: W, y: C :: low(mix(t, y)) == c.sum(t, low(y))
    ensures low(mix(c.table(index(x, b)), shift(x))) == c.Lookup(low(x), b)
  {
  }

  /** If the low part of a wide register follows the lookups, so does the whole loop. */
  lemma {:induction false} WideFollows<C(!new), W(!new), Y(!new)>(
      c: Code<W, Y>, step: (C, Y) -> C, low: C -> W, init: C, data: seq<Y>)
    requires forall x: C, b: Y :: low(step(x, b)) == c.Lookup(low(x), b)
    ensures low(Fold(step, init, data)) == c.LookupAll(low(init), data)
    decreases |data|
  {
    if data != [] { WideFollows(c, step, low, init, data[..|data| - 1]); }
  }

  lemma WideCancels<C(!new), W(!new), Y(!new)>(
      c: Code<W, Y>, step: (C, Y) -> C, low: C -> W, init: C, data: seq<Y>, own: W -> seq<Y>)
    requires forall x: C, b: Y :: low(step(x, b)) == c.Lookup(low(x), b)
    requires forall i: W, d: seq<Y> :: c.LookupAll(i, d + own(c.LookupAll(i, d))) == c.zero
    ensures low(Fold(step, init, data + own(low(Fold(step, init, data))))) == c.zero
  {
    WideFollows(c, step, low, init, data);
    WideFollows(c, step, low, init, data + own(low(Fold(step, init, data))));
  }

  /** The same for a wide register that only ever holds narrow values. */
  lemma NarrowLookup<C(!new), W(!new), Y(!new)>(
      c: Code<W, Y>, index: (C, Y) -> Y, shift: C -> C, mix: (W, C) -> C, wide: W -> C, x: W, b: Y)
    requires forall x: W, b: Y :: index(wide(x), b) == c.index(x, b)
    requires forall x: W :: shift(wide(x)) == wide(c.shift8(x))
    requires forall t: W, y: W :: mix(t, wide(y)) == wide(c.sum(t, y))
    ensures mix(c.table(index(wide(x), b)), shift(wide(x))) == wide(c.Lookup(x, b))
  {
  }

  function Fold<C, Y>(step: (C, Y) -> C, init: C, data: seq<Y>): C {
    if data == [] then init else step(Fold(step, init, data[..|data| - 1]), data[|data| - 1])
  }

  /** A register that is only shifted by its own first byte. */
  lemma OwnBytesShift<C(!new), Y>(step: (C, Y) -> C, first: C -> Y, shift: C -> C, init: C, data: seq<Y>)
    requires forall c: C :: step(c, first(c)) == shift(c)
    ensures var c := Fold(step, init, data); Fold(step, init, data + [first(c), first(shift(c))]) == shift(shift(c))
  {
    var c := Fold(step, init, data);
    var x, y := first(c), first(shift(c));
    assert (data + [x])[..|data|] == data && (data + [x, y])[..|data| + 1] == data + [x];
    assert Fold(step, init, data + [x]) == step(Fold(step, init, data), x);
  }

  /** The loop of every CRC function: one step per byte. */
  method RunLoop<C, Y>(step: (C, Y) -> C, init: C, data: seq<Y>) returns (crc: C)
    ensures crc == Fold(step, init, data)
  {
    crc := init;
    var k := 0;
    while k < |data|
      invariant k <= |data|
      invariant crc == Fold(step, init, data[..k])
    {
      assert data[..k + 1][..k] == data[..k];
      crc := step(crc, data[k]);
      k := k + 1;
    }
    assert data[..k] == data;
  }
}
