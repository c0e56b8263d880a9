/**
 The per-field decoders of the message pack: the message-type formula, the
 nibble and bit splits of packed bytes and the integer scalings, each as the
 C expressions of the decoder compute them (integer promotion, truncation of
 doubles toward zero, storing into `uint8_t`/`uint16_t`).
 */
module Fields {
  import opened CInt
  import opened Wrappers

  /**
   The message type of a slot header byte b, computed as `(b - 2) / 16` on
   C's `int`: bytes 0 and 1 give -2/16 and -1/16, both truncated to 0.
   */
  function MessageType(b: uint8): (t: int)
    ensures 0 <= t <= 15
    ensures b < 2 ==> t == 0
    ensures b >= 2 ==> 16 * t + 2 <= b < 16 * t + 18
  {
    CDiv(b - 2, 16)
  }

  /**
   For a header whose high nibble is the type t and low nibble the protocol
   version v, the formula gives t back for versions 2 to 15, and t - 1 (0 for
   t = 0) for versions 0 and 1.
   */
  lemma MessageTypeOfHeader(t: nat, v: nat)
    requires t < 16 && v < 16
    ensures 2 <= v ==> MessageType(16 * t + v) == t
    ensures v < 2 ==> MessageType(16 * t + v) == if t == 0 then 0 else t - 1
  {
    var b := 16 * t + v;
    if v < 2 && t > 0 {
      assert 16 * (t - 1) + 2 <= b < 16 * (t - 1) + 18;
    }
  }

  /** Dafny's Euclidean division would give -1 on the bytes C maps to type 0. */
  lemma MessageTypeTruncates()
    ensures MessageType(0) == 0 && MessageType(1) == 0
    ensures (0 - 2) / 16 == -1 && (1 - 2) / 16 == -1
  {
  }

  /** The high nibble `b / 16` (id type, operational status, accuracies, UA category). */
  function HighNibble(b: uint8): (h: nat)
    ensures h < 16
    ensures 16 * h <= b < 16 * h + 16
  {
    b / 16
  }

  /** The low nibble `b % 16` (UA type, accuracies, UA class). */
  function LowNibble(b: uint8): (l: nat)
    ensures l < 16
    ensures 16 * HighNibble(b) + l == b
  {
    b % 16
  }

  /** Packing a high and a low nibble into a byte and splitting it again is the identity. */
  lemma NibbleRoundTrip(h: nat, l: nat)
    requires h < 16 && l < 16
    ensures HighNibble(16 * h + l) == h && LowNibble(16 * h + l) == l
  {
  }

  /** Height type flag `(b % 8) / 4`: bit 2 of the Location/Vector flags byte. */
  function HeightType(b: uint8): (r: nat)
    ensures r <= 1
  {
    (b % 8) / 4
  }

  /** East/west direction segment flag `(b % 4) / 2`: bit 1 of the flags byte. */
  function EastWestDirection(b: uint8): (r: nat)
    ensures r <= 1
  {
    (b % 4) / 2
  }

  /** Speed multiplier flag `b % 2`: bit 0 of the flags byte. */
  function SpeedMultiplier(b: uint8): (r: nat)
    ensures r <= 1
  {
    b % 2
  }

  /** The height type flag is bit 2 of the flags byte. */
  lemma HeightTypeBit(b: uint8)
    ensures HeightType(b) == (((b as bv8) >> 2) & 1) as int
  {
  }

  /** The east/west direction flag is bit 1 of the flags byte. */
  lemma EastWestDirectionBit(b: uint8)
    ensures EastWestDirection(b) == (((b as bv8) >> 1) & 1) as int
  {
  }

  /** The speed multiplier flag is bit 0 of the flags byte. */
  lemma SpeedMultiplierBit(b: uint8)
    ensures SpeedMultiplier(b) == ((b as bv8) & 1) as int
  {
  }

  /**
   The Location/Vector flags byte is the operational status nibble, an unused
   bit 3, and the three one-bit flags.
   */
  lemma LocationFlagsSplit(b: uint8)
    ensures HeightType(b) <= 1 && EastWestDirection(b) <= 1 && SpeedMultiplier(b) <= 1
    ensures b == 16 * HighNibble(b) + 8 * (LowNibble(b) / 8)
               + 4 * HeightType(b) + 2 * EastWestDirection(b) + SpeedMultiplier(b)
  {
    var h, l := HighNibble(b), LowNibble(b);
    var r8 := l % 8;
    DivModBy8(b, 2 * h + l / 8, r8);
    var r4 := r8 % 4;
    DivModBy4(b, 4 * h + 2 * (l / 8) + r8 / 4, r4);
    DivModBy2(b, 8 * h + 4 * (l / 8) + 2 * (r8 / 4) + r4 / 2, r4 % 2);
  }

  lemma DivModBy8(u: int, q: int, r: int)
    requires 0 <= r < 8 && u == 8 * q + r
    ensures u % 8 == r
  {
  }

  lemma DivModBy4(u: int, q: int, r: int)
    requires 0 <= r < 4 && u == 4 * q + r
    ensures u % 4 == r
  {
  }

  lemma DivModBy2(u: int, q: int, r: int)
    requires 0 <= r < 2 && u == 2 * q + r
    ensures u % 2 == r
  {
  }

  /**
   Track direction: the byte d, plus 180 when the east/west flag is set, stored
   back into a `uint8_t`, so that any d >= 76 with the flag set wraps around 256.
   */
  function TrackDirection(d: uint8, ew: nat): (r: uint8)
    requires ew <= 1
    ensures ew == 0 ==> r == d
    ensures ew == 1 && d < 76 ==> r == d + 180
    ensures ew == 1 && d >= 76 ==> r == d + 180 - 256
  {
    if ew == 1 then WrapU8(d + 180) else d
  }

  /** The wrap: a raw direction 200 in the western segment reads as 124, not 380. */
  lemma TrackDirectionWraps()
    ensures TrackDirection(200, 1) == 124
  {
  }

  /**
   Ground speed. With the multiplier set, `0.75 * s + 255 * 0.25` is a double
   that is exact (a multiple of 0.25 no larger than 255) and is truncated into a
   `uint8_t`; without it, `s * 0.25` is truncated likewise. Either way the
   result is the integer part of the speed in m/s.
   */
  function GroundSpeed(s: uint8, multiplier: nat): (r: uint8)
    requires multiplier <= 1
    ensures multiplier == 1 ==> 4 * r <= 3 * s + 255 < 4 * r + 4
    ensures multiplier == 0 ==> 4 * r <= s < 4 * r + 4
  {
    if multiplier == 1 then (3 * s + 255) / 4 else s / 4
  }

  /** The high range starts where the low range ends: 63 m/s and up. */
  lemma GroundSpeedRanges(s: uint8)
    ensures GroundSpeed(s, 0) <= 63
    ensures 63 <= GroundSpeed(s, 1)
  {
  }

  /**
   Vertical speed `v * 0.5` truncated into a `uint8_t`: the byte is taken as
   unsigned, so the result is the integer part of half of it.
   */
  function VerticalSpeed(v: uint8): (r: uint8)
    ensures 2 * r <= v < 2 * r + 2
  {
    v / 2
  }

  /**
   An altitude or height field: the 16-bit raw value of half metres times 0.5,
   minus 1000, converted to `uint16_t`. The conversion truncates toward zero,
   and is undefined in C when the integral part is negative, which is the case
   exactly for raw values below 1999 (None).
   */
  function Altitude(raw: nat): (r: Option<int>)
    requires raw < TWO_16
    ensures r.Some? <==> raw >= 1999
    ensures r.Some? ==> 0 <= r.value < TWO_16
    ensures r.Some? && raw >= 2000 ==> 2 * r.value + 2000 <= raw < 2 * r.value + 2002
    ensures raw == 1999 ==> r == Some(0)
  {
    var v := CDiv(raw - 2000, 2);
    if v >= 0 then Some(v) else None
  }

  /** The raw half-metre value that encodes a whole number of metres. */
  function AltitudeRaw(m: nat): (raw: nat)
    ensures raw >= 2000
  {
    2 * m + 2000
  }

  /** Encoding a whole altitude in range and decoding it gives it back. */
  lemma AltitudeRoundTrip(m: nat)
    requires AltitudeRaw(m) < TWO_16
    ensures Altitude(AltitudeRaw(m)) == Some(m)
  {
  }

  /** Operator location/altitude source type `b % 3`. */
  function OperatorLocationType(b: uint8): (r: nat)
    ensures r <= 2
    ensures (b - r) % 3 == 0
  {
    b % 3
  }

  /** Timestamp accuracy in tenths of a second, `b % 15`. */
  function TimestampAccuracy(b: uint8): (r: nat)
    ensures r <= 14
    ensures (b - r) % 15 == 0
  {
    b % 15
  }

  /** Area radius `r * 10` as a `uint16_t`: never wraps, a multiple of ten up to 2550. */
  function AreaRadius(r: uint8): (m: nat)
    ensures m < TWO_16 && m % 10 == 0 && m <= 2550
    ensures m / 10 == r
  {
    r * 10
  }
}
