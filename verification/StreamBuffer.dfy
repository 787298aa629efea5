/**
 StreamBuffer: a byte string kept at an offset inside one array, so that
 deleting from the start is cheap. Every operation is the matching edit of a
 plain sequence.

   |----free-----|####used####|--------00--------|
   0            offs      offs+len              cap
 */
module StreamBuffer {
  import opened Basics
  import opened LineInput

  const LOCAL := 64

  /** Negative positions count from the end. */
  function FromEnd(pos: int, len: nat): int { if pos < 0 then pos + len else pos }

  function Clamp(x: int, len: nat): (r: nat)
    ensures r <= len
  {
    if x < 0 then 0 else if x > len then len else x
  }

  // ---- replace on sequences ----

  /** The range that replace(pos, length, s, size) is asked to remove, before it
      is cut to the buffer: a negative length or size extends it to the left. */
  function Range(len: nat, pos: int, length: int, size: int): (r: (int, int))
    ensures r.0 <= r.1
  {
    var p := FromEnd(pos, len);
    var (a, b) := if length < 0 then (p + length, p) else (p, p + length);
    (if size < 0 then a + size else a, b)
  }

  /** Removing a range of positions and inserting at its start. */
  function Edited(s: Bytes, r: (int, int), ins: Bytes): Bytes
    requires r.0 <= r.1
  {
    s[..Clamp(r.0, |s|)] + ins + s[Clamp(r.1, |s|)..]
  }

  /** Start and length of the removed range as the code computes them. The
      comparison with `len - remstart` is unsigned, so a length that became
      negative counts as too long. */
  function Removed(len: nat, pos: int, length: int, size: int): (r: (nat, nat))
    ensures r.0 + r.1 <= len
  {
    var remstart, remlen := FromEnd(pos, len), length;
    var (remstart, remlen) := if remlen < 0 then (remstart + remlen, -remlen) else (remstart, remlen);
    var (remstart, remlen) := if size < 0 then (remstart + size, remlen - size) else (remstart, remlen);
    var (remstart, remlen) := if remstart < 0 then (0, remlen + remstart) else (remstart, remlen);
    var remstart := if remstart > len then len else remstart;
    (remstart, if remlen < 0 || remlen >= len - remstart then len - remstart else remlen)
  }

  function Replaced(s: Bytes, pos: int, length: int, ins: Bytes, size: int): Bytes {
    var (start, n) := Removed(|s|, pos, length, size);
    Splice(s, start, ins, start + n)
  }

  /** replace does what it is asked for exactly if the range does not end before
      the start of the buffer, or there is nothing to remove. */
  lemma ReplacedIsEdit(s: Bytes, pos: int, length: int, ins: Bytes, size: int)
    ensures Replaced(s, pos, length, ins, size) == Edited(s, Range(|s|, pos, length, size), ins)
            <==> Range(|s|, pos, length, size).1 >= 0 || s == []
  {
    var r := Range(|s|, pos, length, size);
    var (start, n) := Removed(|s|, pos, length, size);
    if r.1 >= 0 {
      assert start == Clamp(r.0, |s|) && start + n == Clamp(r.1, |s|);
    } else {
      assert start == 0 && n == |s|;
      assert Edited(s, r, ins) == ins + s;
    }
  }

  /** In particular for every position from -len on. */
  lemma ReplacedInRange(s: Bytes, pos: int, length: int, ins: Bytes, size: int)
    requires pos >= -|s|
    ensures Replaced(s, pos, length, ins, size) == Edited(s, Range(|s|, pos, length, size), ins)
  {
    ReplacedIsEdit(s, pos, length, ins, size);
  }

  /** Removing no byte before the start removes all bytes. */
  lemma ReplaceBeforeStart()
    ensures Replaced([1, 2], -3, 0, [], 0) == [] && Edited([1, 2], Range(2, -3, 0, 0), []) == [1, 2]
  {
  }

  // ---- memmove, memset, memcpy on one array ----

  /** Memory `m` after bytes `x` were written at `to`. */
  function Over(m: Bytes, to: nat, x: Bytes): (r: Bytes)
    requires to + |x| <= |m|
    ensures |r| == |m|
  {
    m[..to] + x + m[to + |x|..]
  }

  method Write(a: array<byte>, to: nat, x: Bytes)
    requires to + |x| <= a.Length
    modifies a
    ensures a[..] == Over(old(a[..]), to, x)
  {
    forall i | 0 <= i < |x| { a[to + i] := x[i]; }
  }

  method Move(a: array<byte>, to: nat, from: nat, n: nat)
    requires to + n <= a.Length && from + n <= a.Length
    modifies a
    ensures a[..] == Over(old(a[..]), to, old(a[..])[from..from + n])
  {
    Write(a, to, a[from..from + n]);
  }

  method Clear(a: array<byte>, from: nat, n: nat)
    requires from + n <= a.Length
    modifies a
    ensures a[..] == Over(old(a[..]), from, Repeat(0, n))
  {
    Write(a, from, Repeat(0, n));
  }

  /** The part of memory that holds the string. */
  function View(m: Bytes, offs: nat, len: nat): (s: Bytes)
    requires offs + len <= |m|
    ensures |s| == len
  {
    m[offs..offs + len]
  }

  /** The string with the bytes from `i` to `j` replaced. */
  function Splice(s: Bytes, i: nat, ins: Bytes, j: nat): (t: Bytes)
    requires i <= j <= |s|
    ensures |t| == i + |ins| + |s| - j
  {
    s[..i] + ins + s[j..]
  }

  /** Doubles from `first` until more than `minsize` bytes fit. */
  method Capacity(minsize: nat, first: nat) returns (c: nat)
    requires first > 0
    ensures c > minsize && c >= first
  {
    c := first;
    while c <= minsize
      invariant c >= first
      decreases minsize - c
    {
      c := c * 2;
    }
  }

  lemma WriteOutside(m: Bytes, offs: nat, len: nat, to: nat, x: Bytes)
    requires offs + len <= |m| && to + |x| <= |m| && (to + |x| <= offs || offs + len <= to)
    ensures View(Over(m, to, x), offs, len) == View(m, offs, len)
  {
  }

  lemma WriteInside(m: Bytes, offs: nat, len: nat, to: nat, x: Bytes)
    requires offs <= to && to + |x| == offs + len <= |m|
    ensures View(Over(m, to, x), offs, len) == View(m, offs, to - offs) + x
  {
  }

  lemma ViewSplit(m: Bytes, offs: nat, i: nat, len: nat)
    requires i <= len && offs + len <= |m|
    ensures View(m, offs, len) == View(m, offs, i) + View(m, offs + i, len - i)
    ensures View(m, offs, len)[..i] == View(m, offs, i) && View(m, offs, len)[i..] == View(m, offs + i, len - i)
  {
  }

  /** Writing a tail, then an insertion before it. */
  lemma TwoWrites(m: Bytes, at: nat, i: nat, ins: Bytes, tail: Bytes)
    requires at + i + |ins| + |tail| <= |m|
    ensures var r := Over(Over(m, at + i + |ins|, tail), at + i, ins);
            View(r, at, i + |ins| + |tail|) == View(m, at, i) + ins + tail
  {
    var n := i + |ins|;
    var m1 := Over(m, at + n, tail);
    var m2 := Over(m1, at + i, ins);
    ViewSplit(m2, at, n, n + |tail|);
    WriteInside(m1, at, n, at + i, ins);
    WriteOutside(m, at, i, at + n, tail);
    WriteOutside(m1, at + n, |tail|, at + i, ins);
    WriteInside(m, at + n, |tail|, at + n, tail);
  }

  /** Opens or closes the gap at `at + i` and fills it. */
  method Insert(a: array<byte>, at: nat, i: nat, ins: Bytes, from: nat, n: nat)
    requires at + i + |ins| + n <= a.Length && from + n <= a.Length
    modifies a
    ensures View(a[..], at, i + |ins| + n) == View(old(a[..]), at, i) + ins + View(old(a[..]), from, n)
  {
    TwoWrites(a[..], at, i, ins, View(a[..], from, n));
    Move(a, at + i + |ins|, from, n);
    Write(a, at + i, ins);
  }

  method MoveToStart(a: array<byte>, from: nat, n: nat, rest: nat, len: nat)
    requires from + n <= rest && rest + len <= a.Length
    modifies a
    ensures View(a[..], 0, n) == View(old(a[..]), from, n)
    ensures View(a[..], rest, len) == View(old(a[..]), rest, len)
  {
    WriteInside(a[..], 0, n, 0, View(a[..], from, n));
    WriteOutside(a[..], rest, len, 0, View(a[..], from, n));
    Move(a, 0, from, n);
  }

  lemma OverAt(m: Bytes, to: nat, x: Bytes, i: nat)
    requires to + |x| <= |m| && i < |m|
    ensures Over(m, to, x)[i] == if to <= i < to + |x| then x[i - to] else m[i]
  {
  }

  /** Moves `n` bytes to the start and blanks as many as they were moved. */
  method ShiftDown(a: array<byte>, from: nat, n: nat)
    requires from + n <= a.Length
    modifies a
    ensures View(a[..], 0, n) == View(old(a[..]), from, n)
    ensures forall i | n <= i < a.Length :: a[i] == if i < n + from then 0 else old(a[i])
  {
    ghost var m := a[..];
    WriteInside(m, 0, n, 0, View(m, from, n));
    Move(a, 0, from, n);
    forall i | n <= i < a.Length ensures a[..][i] == m[i] { OverAt(m, 0, View(m, from, n), i); }
    ClearBehind(a, 0, n, from);
  }

  method ClearBehind(a: array<byte>, at: nat, len: nat, n: nat)
    requires at + len + n <= a.Length
    modifies a
    ensures View(a[..], at, len) == View(old(a[..]), at, len)
    ensures forall i | at + len <= i < a.Length :: a[i] == if i < at + len + n then 0 else old(a[i])
  {
    WriteOutside(a[..], at, len, at + len, Repeat(0, n));
    Clear(a, at + len, n);
  }

  method AppendAt(a: array<byte>, at: nat, len: nat, s: Bytes)
    requires at + len + |s| <= a.Length
    modifies a
    ensures View(a[..], at, len + |s|) == View(old(a[..]), at, len) + s
    ensures forall i | at + len + |s| <= i < a.Length :: a[i] == old(a[i])
  {
    WriteInside(a[..], at, len + |s|, at + len, s);
    Write(a, at + len, s);
  }

  lemma SpliceOfView(m: Bytes, offs: nat, len: nat, i: nat, ins: Bytes, j: nat)
    requires i <= j <= len && offs + len <= |m|
    ensures Splice(View(m, offs, len), i, ins, j) == View(m, offs, i) + ins + View(m, offs + j, len - j)
  {
    ViewSplit(m, offs, i, len);
    ViewSplit(m, offs, j, len);
  }

  /** The same; bytes behind the new end are blanked if the string got shorter than `len`. */
  method InsertAndClear(a: array<byte>, at: nat, i: nat, ins: Bytes, from: nat, n: nat, len: nat)
    requires at + i + |ins| + n <= a.Length && from + n <= a.Length && at + len <= a.Length
    modifies a
    ensures View(a[..], at, i + |ins| + n) == View(old(a[..]), at, i) + ins + View(old(a[..]), from, n)
  {
    Insert(a, at, i, ins, from, n);
    if i + |ins| + n < len { ClearBehind(a, at, i + |ins| + n, len - (i + |ins| + n)); }
  }

  method ReplaceInPlace(a: array<byte>, offs: nat, len: nat, remstart: nat, ins: Bytes, remend: nat)
    requires remstart <= remend <= len && offs + len <= a.Length
    requires offs + remstart + |ins| + len - remend <= a.Length
    modifies a
    ensures View(a[..], offs, remstart + |ins| + len - remend)
         == Splice(View(old(a[..]), offs, len), remstart, ins, remend)
  {
    SpliceOfView(a[..], offs, len, remstart, ins, remend);
    InsertAndClear(a, offs, remstart, ins, offs + remend, len - remend, len);
  }

  method ReplaceAtStart(a: array<byte>, offs: nat, len: nat, remstart: nat, ins: Bytes, remend: nat)
    requires remstart <= remend <= len && offs + len <= a.Length
    requires remstart + |ins| + len - remend <= a.Length
    modifies a
    ensures View(a[..], 0, remstart + |ins| + len - remend)
         == Splice(View(old(a[..]), offs, len), remstart, ins, remend)
  {
    ghost var first, tail := View(a[..], offs, remstart), View(a[..], offs + remend, len - remend);
    SpliceOfView(a[..], offs, len, remstart, ins, remend);
    MoveToStart(a, offs, remstart, offs + remend, len - remend);
    InsertAndClear(a, 0, remstart, ins, offs + remend, len - remend, len);
    assert View(a[..], 0, remstart + |ins| + (len - remend)) == first + ins + tail;
  }

  /** A larger array with the bytes `s` at its start and zeros behind. */
  method NewArray(c: nat, s: Bytes) returns (b: array<byte>)
    requires |s| <= c
    ensures fresh(b) && b.Length == c && View(b[..], 0, |s|) == s
    ensures forall i | |s| <= i < c :: b[i] == 0
  {
    b := new byte[c](i requires 0 <= i => if i < |s| then s[i] else 0);
  }

  class StreamBuffer {
    var buffer: array<byte>
    var cap: nat
    var offs: nat
    var len: nat

    ghost predicate Valid() reads this {
      offs + len <= cap == buffer.Length && cap >= LOCAL
    }

    ghost predicate ZeroTail() reads this, buffer
      requires Valid()
    {
      forall i | offs + len <= i < cap :: buffer[i] == 0
    }

    function Contents(): (s: Bytes) reads this, buffer
      requires Valid()
    {
      View(buffer[..], offs, len)
    }

    /** init: without data the buffer only gets room for `minsize` bytes. */
    constructor (s: Bytes, minsize: nat)
      requires s == [] || |s| == minsize
      ensures Valid() && fresh(buffer) && Contents() == s && ZeroTail()
      ensures minsize < cap
    {
      var c := Capacity(minsize, if minsize >= LOCAL then LOCAL * 2 else LOCAL);
      var b := NewArray(c, s);
      buffer, cap, offs, len := b, c, 0, |s|;
    }

    /** Moves contents to the start, or into a larger array. */
    method Grow(minsize: nat)
      requires Valid() && len <= minsize
      modifies this, buffer
      ensures Valid() && Contents() == old(Contents()) && len == old(len)
      ensures offs == 0 && minsize < cap
      ensures buffer == old(buffer) || fresh(buffer)
      ensures old(ZeroTail()) ==> ZeroTail()
    {
      if minsize < cap {
        ShiftDown(buffer, offs, len);
        offs := 0;
      } else {
        var c := Capacity(minsize, LOCAL * 2);
        var b := NewArray(c, Contents());
        buffer, cap, offs := b, c, 0;
      }
    }

    method Check(size: nat)
      requires Valid()
      modifies this, buffer
      ensures Valid() && Contents() == old(Contents()) && len == old(len)
      ensures offs + len + size < cap
      ensures buffer == old(buffer) || fresh(buffer)
      ensures old(ZeroTail()) ==> ZeroTail()
    {
      if len + offs + size >= cap { Grow(len + size); }
    }

    method Truncate(n: nat)
      requires Valid() && n <= len
      modifies this`len, buffer
      ensures Valid() && Contents() == old(Contents())[..old(len) - n]
      ensures old(ZeroTail()) ==> ZeroTail()
    {
      ViewSplit(buffer[..], offs, len - n, len);
      ClearBehind(buffer, offs, len - n, n);
      len := len - n;
    }

    /** A negative size deletes from the end. */
    method Append(s: Bytes, size: int)
      requires Valid() && (size > 0 ==> |s| == size)
      modifies this, buffer
      ensures Valid() && (buffer == old(buffer) || fresh(buffer))
      ensures Contents() == if size > 0 then old(Contents()) + s else old(Contents())[..Clamp(old(len) + size, old(len))]
      ensures old(ZeroTail()) ==> ZeroTail()
    {
      if size <= 0 {
        Truncate(if size < -(len as int) then len else -size);
      } else {
        Check(size);
        AppendAt(buffer, offs, len, s);
        len := len + size;
      }
    }

    method ClearAll()
      requires Valid()
      modifies this
      ensures Valid() && buffer == old(buffer) && Contents() == []
      ensures old(ZeroTail()) ==> ZeroTail()
    {
      offs, len := offs + len, 0;
    }

    method Remove(length: nat)
      requires Valid()
      modifies this
      ensures Valid() && buffer == old(buffer)
      ensures Contents() == old(Contents())[Clamp(length, old(len))..]
      ensures old(ZeroTail()) ==> ZeroTail()
    {
      var n := if length > len then len else length;
      offs, len := offs + n, len - n;
    }

    /** The reserved bytes are zero if the tail was. */
    method Reserve(size: nat)
      requires Valid()
      modifies this, buffer
      ensures Valid() && (buffer == old(buffer) || fresh(buffer))
      ensures len == old(len) + size && Contents()[..old(len)] == old(Contents())
      ensures old(ZeroTail()) ==> Contents() == old(Contents()) + Repeat(0, size) && ZeroTail()
    {
      Check(size);
      len := len + size;
    }

    method Replace(pos: int, length: int, ins: Bytes, size: int)
      requires Valid() && |ins| == if size < 0 then 0 else size
      modifies this, buffer
      ensures Valid() && (buffer == old(buffer) || fresh(buffer))
      ensures Contents() == Replaced(old(Contents()), pos, length, ins, size)
    {
      var removed := Removed(len, pos, length, size);
      ReplaceRange(removed.0, removed.0 + removed.1, ins);
    }

    method ReplaceRange(remstart: nat, remend: nat, ins: Bytes)
      requires Valid() && remstart <= remend <= len
      modifies this, buffer
      ensures Valid() && (buffer == old(buffer) || fresh(buffer))
      ensures Contents() == Splice(old(Contents()), remstart, ins, remend)
    {
      var newlen := len + |ins| - (remend - remstart);
      if ins == [] && remstart == 0 {
        ViewSplit(buffer[..], offs, remend, len);
        offs, len := offs + remend, newlen;
      } else if cap <= newlen {
        ReplaceInNew(remstart, remend, ins);
      } else if newlen + offs <= cap {
        ReplaceInPlace(buffer, offs, len, remstart, ins, remend);
        len := newlen;
      } else {
        ReplaceAtStart(buffer, offs, len, remstart, ins, remend);
        offs, len := 0, newlen;
      }
    }

    method ReplaceInNew(remstart: nat, remend: nat, ins: Bytes)
      requires Valid() && remstart <= remend <= len
      modifies this
      ensures Valid() && fresh(buffer)
      ensures Contents() == Splice(old(Contents()), remstart, ins, remend)
    {
      var newlen := len + |ins| - (remend - remstart);
      var c := Capacity(newlen, LOCAL * 2);
      var b := NewArray(c, Splice(Contents(), remstart, ins, remend));
      buffer, cap, offs, len := b, c, 0, newlen;
    }

    /** The least matching index from `start` on, or -1. */
    method FindBytes(s: Bytes, start: int) returns (r: int)
      requires Valid()
      ensures r == Find(Contents(), s, if FromEnd(start, len) < 0 then 0 else FromEnd(start, len))
    {
      var p := FromEnd(start, len);
      if p < 0 { p := 0; }
      if p + |s| > len { return -1; }
      if s == [] { return p; }
      ghost var first := p;
      while true
        invariant first <= p <= len - |s| + 1
        invariant Find(Contents(), s, p) == Find(Contents(), s, first)
        decreases len - p
      {
        var q, found := Candidate(s, p);
        if q < 0 || found { return q; }
        p := q + 1;
      }
    }

    /** The next position with the right first byte, and whether it matches. */
    method Candidate(s: Bytes, p: nat) returns (q: int, found: bool)
      requires Valid() && s != [] && p + |s| <= len + 1
      ensures q == -1 || p <= q <= len - |s|
      ensures Find(Contents(), s, p) == if q == -1 || found then q else Find(Contents(), s, q + 1)
    {
      q := NextByte(s[0], p, len - |s| + 1);
      found := false;
      if q == -1 {
        SkipTo(Contents(), s, p, len - |s| + 1);
      } else {
        SkipTo(Contents(), s, p, q);
        found := Matches(s, q);
      }
    }

    /** memchr: the first `c` from `p` on and before `end`, or -1. */
    method NextByte(c: byte, p: nat, end: nat) returns (q: int)
      requires Valid() && p <= end <= len
      ensures q == -1 || (p <= q < end && Contents()[q] == c)
      ensures forall i | p <= i < (if q < 0 then end else q) :: Contents()[i] != c
    {
      q := p;
      while q < end
        invariant p <= q <= end
        invariant forall i | p <= i < q :: Contents()[i] != c
      {
        if buffer[offs + q] == c { return; }
        q := q + 1;
      }
      q := -1;
    }

    method Matches(s: Bytes, q: nat) returns (ok: bool)
      requires Valid() && s != [] && q + |s| <= len && Contents()[q] == s[0]
      ensures ok == (Contents()[q..q + |s|] == s)
    {
      ghost var text := Contents();
      var i := 1;
      while i < |s|
        invariant 1 <= i <= |s|
        invariant forall k | 0 <= k < i :: text[q + k] == s[k]
      {
        assert text[q + i] == buffer[..][offs + (q + i)];
        if buffer[offs + q + i] != s[i] {
          assert text[q..q + |s|][i] == text[q + i];
          return false;
        }
        i := i + 1;
      }
      SamePiece(text, q, s);
      return true;
    }
  }

  lemma SamePiece(text: Bytes, q: nat, s: Bytes)
    requires q + |s| <= |text| && forall k | 0 <= k < |s| :: text[q + k] == s[k]
    ensures text[q..q + |s|] == s
  {
  }

  /** Positions whose first byte differs are no matches. */
  lemma {:induction false} SkipTo(text: Bytes, s: Bytes, p: nat, q: nat)
    requires s != [] && p <= q <= |text|
    requires forall i | p <= i < q :: text[i] != s[0]
    ensures Find(text, s, p) == Find(text, s, q)
    decreases q - p
  {
    if p < q {
      SkipTo(text, s, p + 1, q);
      if p + |s| <= |text| {
        assert text[p..p + |s|][0] == text[p];
      }
    }
  }
}
