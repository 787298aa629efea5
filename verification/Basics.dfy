/** Bytes, byte strings and arithmetic that several modules share. */
module Basics {

  datatype Option<+T> = None | Some(value: T)

  type byte = x: int | 0 <= x < 0x100
  type Bytes = seq<byte>

  function Reversed(s: Bytes): (r: Bytes)
    ensures |r| == |s|
  {
    if s == [] then [] else [s[|s| - 1]] + Reversed(s[..|s| - 1])
  }

  function Repeat(b: byte, n: nat): Bytes { seq(n, _ => b) }

  lemma {:induction false} ReversedConcat(s: Bytes, t: Bytes)
    ensures Reversed(s + t) == Reversed(t) + Reversed(s)
    decreases |t|
  {
    if t == [] {
      assert s + t == s;
    } else {
      assert (s + t)[..|s + t| - 1] == s + t[..|t| - 1];
      ReversedConcat(s, t[..|t| - 1]);
    }
  }

  lemma {:induction false} ReversedRepeat(b: byte, n: nat)
    ensures Reversed(Repeat(b, n)) == Repeat(b, n)
  {
    if n > 0 {
      assert Repeat(b, n)[..n - 1] == Repeat(b, n - 1);
      ReversedRepeat(b, n - 1);
    }
  }

  lemma {:induction false} ReversedAt(s: Bytes, i: nat)
    requires i < |s|
    ensures Reversed(s)[i] == s[|s| - 1 - i]
    decreases |s|
  {
    if i > 0 { ReversedAt(s[..|s| - 1], i - 1); }
  }

  lemma {:induction false} ReversedTwice(s: Bytes)
    ensures Reversed(Reversed(s)) == s
    decreases |s|
  {
    if s != [] {
      var t, x := s[..|s| - 1], s[|s| - 1];
      ReversedTwice(t);
      ReversedConcat([x], Reversed(t));
      assert Reversed([x]) == [x];
    }
  }

  // ---- Arithmetic ----

  function Pow256(e: nat): (r: nat)
    ensures r > 0
  {
    if e == 0 then 1 else 256 * Pow256(e - 1)
  }

  lemma ModUnique(v: int, q: int, p: nat, m: nat)
    requires m < p && v == q * p + m
    ensures m == v % p
  {
    var k := v / p - q;
    assert k * p == m - v % p;
    Multiples(k, p);
  }

  lemma DivUnique(v: int, q: int, p: nat, m: nat)
    requires m < p && v == q * p + m
    ensures v / p == q
  {
    ModUnique(v, q, p, m);
    Multiples(v / p - q, p);
  }

  lemma Multiples(k: int, p: nat)
    ensures (k >= 1 ==> k * p >= p) && (k <= -1 ==> k * p + p <= 0)
  {
    if k >= 1 { assert (k - 1) * p >= 0; }
    if k <= -1 { assert (-1 - k) * p >= 0; }
  }
}
