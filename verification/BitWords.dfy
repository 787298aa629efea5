/** Bytes and words as sets of bits. */
module BitWords {

  predicate ByteHas(b: bv8, m: bv8) { b & m != 0 }

  lemma OnlyZeroByte(b: bv8)
    requires !ByteHas(b, 0x80) && !ByteHas(b, 0x40) && !ByteHas(b, 0x20) && !ByteHas(b, 0x10)
    requires !ByteHas(b, 0x8) && !ByteHas(b, 0x4) && !ByteHas(b, 0x2) && !ByteHas(b, 0x1)
    ensures b == 0
  {
  }

  lemma OnlyZeroHalves(c: bv16)
    requires (c >> 8) as bv8 == 0 && (c & 0xFF) as bv8 == 0
    ensures c == 0
  {
  }

  // ---- Words of 16 bits ----

  predicate Has16(c: bv16, m: bv16) { c & m != 0 }

  predicate One16(m: bv16) { m & (m - 1) == 0 }

  function Sum16(a: bv16, b: bv16): bv16 { a ^ b }

  /** `u` is added to `v` if the byte has the bit. */
  function Add16(b: bv8, m: bv8, u: bv16, v: bv16): bv16 { if b & m != 0 then u ^ v else v }

  lemma AddIs16(b: bv8, m: bv8, u: bv16, v: bv16)
    ensures Sum16(if ByteHas(b, m) then u else 0, v) == Add16(b, m, u, v)
  {
  }

  lemma RawSum16(a: bv16, b: bv16, m: bv16)
    requires m & (m - 1) == 0
    ensures ((a ^ b) & m != 0) == ((a & m != 0) != (b & m != 0))
  {
  }

  lemma HasSum16(a: bv16, b: bv16, m: bv16)
    requires One16(m)
    ensures Has16(Sum16(a, b), m) == (Has16(a, m) != Has16(b, m))
  {
    RawSum16(a, b, m);
  }

  lemma HasNone16(c: bv16)
    ensures !Has16(c, 0) && !Has16(0, c)
  {
  }

  // ---- Words of 32 bits ----

  predicate Has32(c: bv32, m: bv32) { c & m != 0 }

  predicate One32(m: bv32) { m & (m - 1) == 0 }

  function Sum32(a: bv32, b: bv32): bv32 { a ^ b }

  /** `u` is added to `v` if the byte has the bit. */
  function Add32(b: bv8, m: bv8, u: bv32, v: bv32): bv32 { if b & m != 0 then u ^ v else v }

  lemma AddIs32(b: bv8, m: bv8, u: bv32, v: bv32)
    ensures Sum32(if ByteHas(b, m) then u else 0, v) == Add32(b, m, u, v)
  {
  }

  lemma RawSum32(a: bv32, b: bv32, m: bv32)
    requires m & (m - 1) == 0
    ensures ((a ^ b) & m != 0) == ((a & m != 0) != (b & m != 0))
  {
  }

  lemma HasSum32(a: bv32, b: bv32, m: bv32)
    requires One32(m)
    ensures Has32(Sum32(a, b), m) == (Has32(a, m) != Has32(b, m))
  {
    RawSum32(a, b, m);
  }

  lemma HasNone32(c: bv32)
    ensures !Has32(c, 0) && !Has32(0, c)
  {
  }
}
