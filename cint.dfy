/**
 The C integer semantics that the decoder relies on: the `uint8_t` byte,
 division that truncates toward zero, storing into a narrower unsigned
 type, and little-endian assembly of 16- and 32-bit values.
 */
module CInt {

  /** C's `uint8_t`: every byte of a scan buffer. */
  type uint8 = x: int | 0 <= x < 256

  const TWO_16: int := 0x1_0000
  const TWO_31: int := 0x8000_0000
  const TWO_32: int := 0x1_0000_0000

  function Abs(x: int): nat { if x < 0 then -x else x }

  /**
   C's `/` on `int` by a positive divisor: the quotient has the sign of the
   dividend and the magnitude of the floor of the magnitudes (truncation toward
   zero), unlike Dafny's Euclidean `/`.
   */
  function CDiv(a: int, d: int): (q: int)
    requires d > 0
    ensures a >= 0 ==> q >= 0
    ensures a <= 0 ==> q <= 0
    ensures Abs(q) == Abs(a) / d
  {
    if a >= 0 then a / d else -((-a) / d)
  }

  /** Assigning an `int` to a `uint8_t` keeps the value modulo 256. */
  function WrapU8(x: int): (r: uint8)
    ensures 0 <= x < 256 ==> r == x
    ensures 256 <= x < 512 ==> r == x - 256
  {
    x % 256
  }

  /** Two bytes, least significant first, as an unsigned 16-bit value. */
  function LE16(lsb: uint8, msb: uint8): (r: nat)
    ensures r < TWO_16
    ensures r % 256 == lsb && r / 256 == msb
  {
    lsb + 256 * msb
  }

  /** Four bytes, least significant first, as an unsigned 32-bit value. */
  function LE32(b0: uint8, b1: uint8, b2: uint8, b3: uint8): (r: nat)
    ensures r < TWO_32
    ensures r / 0x100_0000 == b3
  {
    b0 + 256 * b1 + 0x1_0000 * b2 + 0x100_0000 * b3
  }

  /** The four bytes of an unsigned 32-bit value, least significant first. */
  function LE32Bytes(u: nat): (bs: seq<uint8>)
    requires u < TWO_32
    ensures |bs| == 4
  {
    [u % 256, u / 256 % 256, u / 0x1_0000 % 256, u / 0x100_0000]
  }

  /** Division by 256 is determined by quotient and remainder. */
  lemma DivMod256(u: int, q: int, r: int)
    requires 0 <= r < 256 && u == 256 * q + r
    ensures u / 256 == q && u % 256 == r
  {
  }

  /** Division by 2^16 is determined by quotient and remainder. */
  lemma DivMod65536(u: int, q: int, r: int)
    requires 0 <= r < 0x1_0000 && u == 0x1_0000 * q + r
    ensures u / 0x1_0000 == q && u % 0x1_0000 == r
  {
  }

  /** Division by 2^24 is determined by quotient and remainder. */
  lemma DivMod16M(u: int, q: int, r: int)
    requires 0 <= r < 0x100_0000 && u == 0x100_0000 * q + r
    ensures u / 0x100_0000 == q && u % 0x100_0000 == r
  {
  }

  /** Encoding a 32-bit value and reassembling its bytes gives it back. */
  lemma LE32RoundTrip(u: nat)
    requires u < TWO_32
    ensures var bs := LE32Bytes(u); LE32(bs[0], bs[1], bs[2], bs[3]) == u
  {
    var q1 := u / 256;
    var q2 := q1 / 256;
    var q3 := q2 / 256;
    DivMod65536(u, q2, u % 256 + 256 * (q1 % 256));
    DivMod16M(u, q3, u % 256 + 256 * (q1 % 256) + 0x1_0000 * (q2 % 256));
    DivMod256(q3, 0, q3);
  }

  /** Splitting an assembled value gives back the bytes it was made of. */
  lemma LE32Split(b0: uint8, b1: uint8, b2: uint8, b3: uint8)
    ensures LE32Bytes(LE32(b0, b1, b2, b3)) == [b0, b1, b2, b3]
  {
    var u := b0 + 256 * b1 + 0x1_0000 * b2 + 0x100_0000 * b3;
    DivMod256(u, b1 + 256 * b2 + 0x1_0000 * b3, b0);
    DivMod256(b1 + 256 * b2 + 0x1_0000 * b3, b2 + 256 * b3, b1);
    DivMod65536(u, b2 + 256 * b3, b0 + 256 * b1);
    DivMod256(b2 + 256 * b3, b3, b2);
    DivMod16M(u, b3, b0 + 256 * b1 + 0x1_0000 * b2);
  }

  /**
   Reinterpreting an unsigned 32-bit pattern as C's `int32_t` (two's complement),
   which is what summing shifted bytes into an `int32_t` produces.
   */
  function Int32(u: nat): (r: int)
    requires u < TWO_32
    ensures -TWO_31 <= r < TWO_31
    ensures r == u || r == u - TWO_32
    ensures r < 0 <==> u >= TWO_31
  {
    if u >= TWO_31 then u - TWO_32 else u
  }

  /** A signed 32-bit value assembled from four little-endian bytes. */
  function LE32Signed(b0: uint8, b1: uint8, b2: uint8, b3: uint8): (r: int)
    ensures -TWO_31 <= r < TWO_31
    ensures r < 0 <==> b3 >= 128
    ensures r == LE32(b0, b1, b2, b3) || r == LE32(b0, b1, b2, b3) - TWO_32
  {
    Int32(LE32(b0, b1, b2, b3))
  }

  /**
   The signed value carries the same 32 bits as the unsigned one: adding 2^32
   and reducing gives back the unsigned value, and its low byte is `b0`.
   */
  lemma LE32SignedWraps(b0: uint8, b1: uint8, b2: uint8, b3: uint8)
    ensures var r := LE32Signed(b0, b1, b2, b3);
      (r + TWO_32) % TWO_32 == LE32(b0, b1, b2, b3) && (r + TWO_32) % 256 == b0
  {
    var high := b1 + 256 * b2 + 0x1_0000 * b3;
    var u := LE32(b0, b1, b2, b3);
    DivMod256(b0 + 256 * high, high, b0);
    DivMod256(b0 + 256 * high + TWO_32, high + 0x100_0000, b0);
    ModTwo32(u, 0, u);
    ModTwo32(u + TWO_32, 1, u);
  }

  /** Reduction modulo 2^32 is determined by quotient and remainder. */
  lemma ModTwo32(x: int, q: int, r: int)
    requires 0 <= r < TWO_32 && x == TWO_32 * q + r
    ensures x % TWO_32 == r
  {
  }

  /** A slice of a slice is a slice of the whole. */
  lemma SliceOfSlice(s: seq<uint8>, a: nat, b: nat, c: nat, d: nat)
    requires a <= b <= |s| && c <= d <= b - a
    ensures s[a..b][c..d] == s[a + c..a + d]
  {
    forall i | 0 <= i < d - c
      ensures s[a..b][c..d][i] == s[a + c..a + d][i]
    {
      assert s[a..b][c..d][i] == s[a..b][c + i] == s[a + c + i];
    }
  }
}
