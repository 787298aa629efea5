/**
 The Adler-32 checksum of ChecksumConverter: blocks of 5550 bytes are summed in
 32-bit words and reduced only partly, by the factor 15 = 65536 - 65521, at the
 end of each block. It is proved equal to the definition in section 2.2 of
 RFC 1950, which reduces after every byte.
 */
module Adler32 {

  newtype uint8 = x: int | 0 <= x < 0x100
  newtype uint32 = x: int | 0 <= x < 0x1_0000_0000

  const BASE := 65521
  const BLOCK := 5550

  /** Section 2.2 of RFC 1950: s1 and s2 after `data`, starting from the two halves of `init`. */
  function Sums(data: seq<uint8>, init: uint32): (s: (nat, nat))
    ensures s.0 < BASE && s.1 < BASE
  {
    if data == [] then (init as int % 65536 % BASE, init as int / 65536 % BASE)
    else
      var (s1, s2) := Sums(data[..|data| - 1], init);
      var t := (s1 + data[|data| - 1] as int) % BASE;
      (t, (s2 + t) % BASE)
  }

  function Checksum(data: seq<uint8>, init: uint32): uint32 {
    var (s1, s2) := Sums(data, init);
    (s2 * 65536 + s1) as uint32
  }

  /** Checksumming a concatenation is continuing from the first result. */
  lemma Continues(x: seq<uint8>, y: seq<uint8>, init: uint32)
    ensures Checksum(x + y, init) == Checksum(y, Checksum(x, init))
  {
    ContinuesSums(x, y, init);
  }

  lemma Halves(s1: nat, s2: nat)
    requires s1 < BASE && s2 < BASE
    ensures (s2 * 65536 + s1) % 65536 % BASE == s1 && (s2 * 65536 + s1) / 65536 % BASE == s2
  {
  }

  lemma {:induction false} ContinuesSums(x: seq<uint8>, y: seq<uint8>, init: uint32)
    ensures Sums(x + y, init) == Sums(y, Checksum(x, init))
    decreases |y|
  {
    if y == [] {
      assert x + y == x;
      Halves(Sums(x, init).0, Sums(x, init).1);
    } else {
      assert (x + y)[..|x + y| - 1] == x + y[..|y| - 1];
      ContinuesSums(x, y[..|y| - 1], init);
    }
  }

  // ---- Modular arithmetic ----

  lemma ModAddMultiple(x: int, k: int)
    ensures (x + k * BASE) % BASE == x % BASE
  {
    var q, r := x / BASE, x % BASE;
    assert x + k * BASE == (q + k) * BASE + r;
  }

  lemma ModAdd(x: int, y: int)
    ensures (x % BASE + y) % BASE == (x + y) % BASE
    ensures (y + x % BASE) % BASE == (y + x) % BASE
  {
    ModAddMultiple(x % BASE + y, x / BASE);
  }

  /** The partial reduction keeps the residue. */
  function Fold(x: nat): nat { x % 65536 + x / 65536 * 15 }

  lemma FoldKeepsResidue(x: nat)
    ensures Fold(x) % BASE == x % BASE
  {
    ModAddMultiple(Fold(x), x / 65536);
  }

  // ---- The 32-bit bound ----

  /** The largest `b` after `j` bytes of a block. */
  function Bound(j: nat): nat { 1048560 + 65865 * j + 255 * j * (j + 1) / 2 }

  lemma BoundStep(j: nat)
    ensures Bound(j + 1) == Bound(j) + 65865 + 255 * (j + 1)
  {
    assert 255 * (j + 1) * (j + 2) == 255 * j * (j + 1) + 2 * (255 * (j + 1));
  }

  lemma {:induction false} BoundFits(j: nat)
    requires j <= BLOCK
    ensures Bound(j) < 0x1_0000_0000
    decreases BLOCK - j
  {
    if j < BLOCK {
      BoundStep(j);
      BoundFits(j + 1);
    }
  }

  lemma SumsStep(data: seq<uint8>, init: uint32, k: nat, a: nat, b: nat)
    requires k < |data|
    requires Sums(data[..k], init) == (a % BASE, b % BASE)
    ensures var a' := a + data[k] as int;
            Sums(data[..k + 1], init) == (a' % BASE, (b + a') % BASE)
  {
    assert data[..k + 1][..k] == data[..k];
    var a' := a + data[k] as int;
    ModAdd(a, data[k] as int);
    ModAdd(b, a' % BASE);
    ModAdd(a', b);
  }

  /** The inner loop: one block, in words that never exceed 32 bits. */
  method SumBlock(data: seq<uint8>, init: uint32, start: nat, tlen: nat, a0: uint32, b0: uint32)
    returns (a: uint32, b: uint32)
    requires tlen <= BLOCK && start + tlen <= |data|
    requires a0 <= 65865 && b0 <= 1048560
    requires Sums(data[..start], init) == (a0 as int % BASE, b0 as int % BASE)
    ensures a as int <= 65865 + 255 * BLOCK
    ensures Sums(data[..start + tlen], init) == (a as int % BASE, b as int % BASE)
  {
    a, b := a0, b0;
    var j := 0;
    while j < tlen
      invariant j <= tlen
      invariant a as int <= 65865 + 255 * j && b as int <= Bound(j)
      invariant Sums(data[..start + j], init) == (a as int % BASE, b as int % BASE)
    {
      SumsStep(data, init, start + j, a as int, b as int);
      BoundStep(j);
      BoundFits(j + 1);
      a := a + data[start + j] as uint32;
      b := b + a;
      j := j + 1;
    }
  }

  method Reduce(x: uint32) returns (y: uint32)
    ensures y as int % BASE == x as int % BASE
    ensures y <= 1048560
    ensures x as int <= 65865 + 255 * BLOCK ==> y <= 65865
    ensures x <= 1048560 ==> y <= 65760
  {
    FoldKeepsResidue(x as int);
    y := x % 65536 + x / 65536 * 15;
  }

  /** The last reduction, after which both halves are below 65521. */
  method Finish(a0: uint32, b0: uint32) returns (r: uint32)
    requires a0 <= 65865 && b0 <= 1048560
    ensures r as int == b0 as int % BASE * 65536 + a0 as int % BASE
  {
    var a, b := a0, b0;
    if a >= 65521 { a := a - 65521; }
    b := Reduce(b);
    if b >= 65521 { b := b - 65521; }
    r := b * 65536 + a;
  }

  method Compute(data: seq<uint8>, init: uint32) returns (r: uint32)
    ensures r == Checksum(data, init)
  {
    var a: uint32 := init % 65536;
    var b: uint32 := init / 65536 % 65536;
    var k := 0;
    while k < |data|
      invariant k <= |data|
      invariant a <= 65865 && b <= 1048560
      invariant Sums(data[..k], init) == (a as int % BASE, b as int % BASE)
      decreases |data| - k
    {
      var tlen := if |data| - k > BLOCK then BLOCK else |data| - k;
      a, b := SumBlock(data, init, k, tlen, a, b);
      k := k + tlen;
      a := Reduce(a);
      b := Reduce(b);
    }
    assert data[..k] == data;
    r := Finish(a, b);
  }
}
