/** Machine integers of the CHIP-8 core: the Rust `u8` and `u16` values it
    stores, and the bitwise operators it applies to them. Values are kept as
    bounded `int`s; the bitwise operators go through bit-vectors. */
module Bytes {

  /** A Rust `u8`. */
  type Byte = b: int | 0 <= b < 0x100

  /** A Rust `u16`: opcodes and return addresses. */
  type Word = w: int | 0 <= w < 0x1_0000

  /** `a | b` on `u8`. */
  function Or(a: Byte, b: Byte): Byte {
    ((a as bv8) | (b as bv8)) as int
  }

  /** `a & b` on `u8`. */
  function And(a: Byte, b: Byte): Byte {
    ((a as bv8) & (b as bv8)) as int
  }

  /** `a ^ b` on `u8`. */
  function Xor(a: Byte, b: Byte): Byte {
    ((a as bv8) ^ (b as bv8)) as int
  }

  /** `a >> k` on `u8`. */
  function Shr(a: Byte, k: nat): Byte
    requires k <= 8
  {
    ((a as bv8) >> k) as int
  }

  /** `a << k` on `u8`: the bits shifted out of the top are lost. */
  function Shl(a: Byte, k: nat): Byte
    requires k <= 8
  {
    ((a as bv8) << k) as int
  }

  /** The `as u8` cast of a wider unsigned value: keeps the low eight bits. */
  function Truncate8(n: nat): Byte {
    n % 0x100
  }

  /** `a.wrapping_sub(b)` on `u8`. */
  function WrappingSub(a: Byte, b: Byte): Byte {
    (a - b) % 0x100
  }

  /** `((hi as u16) << 8) | (lo as u16)`: two bytes combined big-endian. */
  function WordOf(hi: Byte, lo: Byte): (w: Word)
    ensures w == hi as int * 0x100 + lo as int
  {
    ByteRoundTrip(hi);
    ByteRoundTrip(lo);
    WideningOr(hi as bv8, lo as bv8);
    ((((hi as bv8) as bv16) << 8) | ((lo as bv8) as bv16)) as int
  }

  /** On bit-vectors, placing `h` above `l` is `h * 256 + l`. */
  lemma WideningOr(h: bv8, l: bv8)
    ensures ((((h as bv16) << 8) | (l as bv16)) as int) == h as int * 0x100 + l as int
  {
  }

  /** `(b & (0x80 >> col)) != 0`: bit `col` of `b`, counting from the most
      significant bit, which is the leftmost pixel of a sprite row. */
  predicate Bit(b: Byte, col: nat)
    requires col < 8
  {
    (b as bv8) & ((0x80 as bv8) >> col) != 0
  }

  /** A byte survives the round trip through `bv8`. */
  lemma ByteRoundTrip(a: Byte)
    ensures (a as bv8) as int == a
  {
    Bv8RoundTrip(Bits(a));
  }

  /** The bit-vector holding `a`, put together from its two nibbles so that
      no conversion of an unknown integer to a bit-vector is needed. */
  function Bits(a: Byte): (x: bv8)
    ensures x as int == a
  {
    var h := NibbleBits(a / 0x10);
    var l := NibbleBits(a % 0x10);
    JoinNibbles(h, l);
    (h << 4) | l
  }

  /** The bit-vector holding a value below 16, by cases. */
  function NibbleBits(n: int): (x: bv8)
    requires 0 <= n < 0x10
    ensures x as int == n
  {
    if n == 0x0 then 0x0 else if n == 0x1 then 0x1 else if n == 0x2 then 0x2 else if n == 0x3 then 0x3
    else if n == 0x4 then 0x4 else if n == 0x5 then 0x5 else if n == 0x6 then 0x6 else if n == 0x7 then 0x7
    else if n == 0x8 then 0x8 else if n == 0x9 then 0x9 else if n == 0xA then 0xA else if n == 0xB then 0xB
    else if n == 0xC then 0xC else if n == 0xD then 0xD else if n == 0xE then 0xE else 0xF
  }

  /** Placing a nibble above another is `h * 16 + l`. */
  lemma JoinNibbles(h: bv8, l: bv8)
    requires h as int < 0x10 && l as int < 0x10
    ensures ((h << 4) | l) as int == h as int * 0x10 + l as int
  {
  }

  /** A `bv8` survives the round trip through `int`. */
  lemma Bv8RoundTrip(x: bv8)
    ensures (x as int) as bv8 == x
  {
  }

  /** The shifts and masks the ALU opcodes use, read as arithmetic: a right
      shift halves, a left shift doubles modulo 256, `& 1` is the low bit and
      `(a >> 7) & 1` the high bit. */
  lemma ShiftsAsArithmetic(a: Byte)
    ensures Shr(a, 1) == a / 2
    ensures Shl(a, 1) == (a * 2) % 0x100
    ensures And(a, 1) == a % 2
    ensures And(Shr(a, 7), 1) == a / 0x80
  {
    ShrOne(a);
    ShlOne(a);
    LowBit(a);
    HighBit(a);
  }

  lemma ShrOne(a: Byte)
    ensures Shr(a, 1) == a / 2
  {
    ByteRoundTrip(a);
    HalveBv(a as bv8);
  }

  lemma ShlOne(a: Byte)
    ensures Shl(a, 1) == (a * 2) % 0x100
  {
    ByteRoundTrip(a);
    DoubleBv(a as bv8);
  }

  lemma LowBit(a: Byte)
    ensures And(a, 1) == a % 2
  {
    ByteRoundTrip(a);
    LowBitBv(a as bv8);
  }

  lemma HighBit(a: Byte)
    ensures And(Shr(a, 7), 1) == a / 0x80
  {
    var x := a as bv8;
    ByteRoundTrip(a);
    HighBitBv(x);
    Bv8RoundTrip(x >> 7);
  }

  lemma HalveBv(x: bv8)
    ensures (x >> 1) as int == x as int / 2
  {
  }

  lemma DoubleBv(x: bv8)
    ensures (x << 1) as int == (x as int * 2) % 0x100
  {
  }

  lemma LowBitBv(x: bv8)
    ensures (x & 1) as int == x as int % 2
  {
  }

  lemma HighBitBv(x: bv8)
    ensures (x >> 7) as int == x as int / 0x80
    ensures (x >> 7) & 1 == x >> 7
  {
  }

  /** Setting bit 0 of a flag that is 0 or 1 gives 1. */
  lemma OrOneOfFlag(a: Byte)
    requires a == 0 || a == 1
    ensures Or(a, 1) == 1
  {
  }

  /** Toggling bit 0 twice gives back the original byte. */
  lemma XorOneInvolutive(a: Byte)
    ensures Xor(Xor(a, 1), 1) == a
  {
    var x: bv8 := (a as bv8) ^ 1;
    Bv8RoundTrip(x);
    ByteRoundTrip(a);
    XorTwiceBv(a as bv8);
  }

  lemma XorTwiceBv(x: bv8)
    ensures (x ^ 1) ^ 1 == x
  {
  }

  /** Toggling bit 0 always changes the byte. */
  lemma XorOneDiffers(a: Byte)
    ensures Xor(a, 1) != a
  {
    var x: bv8 := (a as bv8) ^ 1;
    Bv8RoundTrip(x);
    ByteRoundTrip(a);
    assert x != a as bv8;
  }

  /** Toggling bit 0 of 0 gives 1 and of 1 gives 0. */
  lemma XorOneOfFlag(a: Byte)
    requires a == 0 || a == 1
    ensures Xor(a, 1) == 1 - a
  {
  }

  /** Masking twice with `m` is masking once, and `m` masked with itself is
      `m`. */
  lemma AndMask(r: Byte, m: Byte)
    ensures And(And(r, m), m) == And(r, m)
    ensures And(m, m) == m
  {
    AndAsBv8(r, m);
    AndIdempotentBv8(r as bv8, m as bv8);
    AndIdempotentBv8(m as bv8, m as bv8);
    ByteRoundTrip(m);
  }

  lemma AndAsBv8(a: Byte, b: Byte)
    ensures And(a, b) as bv8 == (a as bv8) & (b as bv8)
  {
    Bv8RoundTrip((a as bv8) & (b as bv8));
  }

  lemma AndIdempotentBv8(x: bv8, y: bv8)
    ensures (x & y) & y == x & y
    ensures y & y == y
  {
  }
}
