# Open Drone ID message-pack decoder, modelled in Dafny

This project models the Remote ID decoder of an nRF7002 Wi-Fi/Bluetooth
scanner. The scanner finds the Open Drone ID (ODID, ASTM F3411 broadcast
Remote ID) marker in a raw scan buffer. It then decodes the message pack that
follows: `num_msg_in_pack` fixed 25-byte slots starting 8 bytes after the
marker. The type of each slot comes from its first byte. Dispatch goes to the
Basic ID, Location/Vector, Self-ID, System or Operator ID decoder. Fields are
decoded with nibble and bit splits, little-endian byte assembly, small integer
scalings and two lookup tables, and one flag per decoded type is raised in a
caller-owned `msg_flags_t`.

Modules, leaf first:

- `Wrappers`: `Option`, for values the C code leaves undefined.
- `CInt`: C integer semantics: the `uint8_t` byte, truncating division,
  `uint8_t` wrap-around, little-endian 16/32-bit assembly, `int32_t`
  reinterpretation.
- `Dictionaries`: `ASCII_DICTIONARY` and `HEX_DICTIONARY`, and the character and
  hex strings built through them.
- `Fields`: the per-field decoders (message type, nibbles, flag bits, track
  direction, speeds, altitudes, small scalings).
- `Messages`: the `Message` datatype (one variant per supported type) and the
  pure decoding of one 25-byte slot.
- `Pack`: the whole pack as a value: the messages of the first `n` slots and
  the types seen among them.
- `Decoder`: the control flow of `parse_hex` as the source runs it. It is a `for` loop over the
  slots with a per-slot switch. Its inner loops fill the identifier buffers.
  It updates a `MsgFlags` object in place; `FlagsAfter` gives the flag values
  after each slot. Each method is proved against the functions of `Messages`
  and `Pack`. One exception: an ID byte above 90 indexes past the end of
  `ASCII_DICTIONARY` in C, and the model reads it as the placeholder '_'
  (see "## Left out" and "## Findings").
- `Marker`: `contains`, the marker search, modelled as written. `Locate` is
  the whole-marker search it is evidently meant to be.

`parse_hex` only prints what it decodes. Here it returns the decoded messages,
in slot order, so that contracts can talk about them. Its one lasting effect
in the source, the flags, is modelled on the `MsgFlags` object.

Behaviour kept exactly as the code has it, apart from the ASCII lookup
past the table noted above:

- The message type is `(b - 2) / 16` with C truncation. Bytes 0 and 1 both
  give type 0. A header `16*t + v` gives `t` only for protocol versions 2-15.
  So header 0x12 decodes as Location/Vector (type 1), not Basic ID.
- Track direction adds 180 into a `uint8_t`, so it wraps for raw values 76 and
  above when the east/west bit is set.
- The Location/Vector timestamp reads byte 21 twice, so its value is
  257 times that byte.
- Vertical speed is the unsigned byte halved.
- Ground speed and altitudes are truncated when stored into integer types.
- Nothing is bounds-checked, and `len` is never used. So a pack must lie
  wholly in the buffer (`Pack.PackFits`). A truncated pack is not reported.
- `ASCII_DICTIONARY` has entries for indices 0-90 only.
- The message-type formula divides with truncation toward zero.
- Timestamp accuracy is the byte modulo 15, so 0x0F gives 0 and bits 7-4 are
  not simply dropped (0x1F gives 1).
- The operator location type is the byte modulo 3, so 3 gives 0 and bits 1-0
  are not simply kept (0x04 gives 1).

## Model

| member | source | states |
|---|---|---|
| `CInt.CDiv` | src/utils.h:43 | C division by a positive divisor: the quotient has the dividend's sign and magnitude floor(abs(a)/d) |
| `CInt.LE16` | src/utils.h:230-232 | the value of two bytes, least significant first, is below 2^16, and its low and high byte are the inputs |
| `CInt.LE32RoundTrip` | src/utils.h:256-260 | reassembling the four little-endian bytes of a 32-bit value gives the value |
| `CInt.LE32Split` | src/utils.h:256-260 | splitting an assembled 32-bit value gives back its four bytes |
| `CInt.Int32` | src/utils.h:135 | an unsigned 32-bit pattern read as `int32_t` lies in [-2^31, 2^31), differs by 0 or 2^32, and is negative iff the top bit is set |
| `CInt.LE32Signed` | src/utils.h:131-135 | four bytes as a two's-complement 32-bit value: in range, equal to their unsigned value or that value minus 2^32, negative iff the top byte is 128 or more |
| `CInt.LE32SignedWraps` | src/utils.h:131-135 | the signed value is congruent to the unsigned one modulo 2^32, and its low byte is the first byte |
| `Dictionaries.AsciiDictionaryEntry` | src/utils.h:14-16 | the 91-entry table maps '-', '.', digits and capitals to themselves, 0 to '0', every other code to '_' |
| `Dictionaries.AsciiLookupAsWritten` | src/utils.h:16 | the lookup as written is defined exactly for bytes 0-90 |
| `Dictionaries.AsciiLookupPastTable` | src/utils.h:67-70 | a byte such as 'a' (97), and every byte above 90, falls outside the table |
| `Dictionaries.AsciiChar` | src/utils.h:14-16 | the corrected lookup: agrees with the table where it has an entry, and gives '_' for codes without an identifier character |
| `Dictionaries.AsciiStringRoundTrip` | src/utils.h:65-71 | decoding the codes of an identifier string through the table gives the string back |
| `Dictionaries.HexDictionary` | src/utils.h:18 | the hex table has 256 entries |
| `Dictionaries.HexDictionaryEntry` | src/utils.h:17-18 | every hex table entry is two uppercase hex digits, the high and the low nibble of its index |
| `Dictionaries.HexStringAt` | src/utils.h:79-83 | characters 2i and 2i+1 of a hex string are the table entry of byte i |
| `Dictionaries.HexStringSnoc` | src/utils.h:79-83 | the hex string of bytes followed by b is their hex string followed by b's table entry |
| `Dictionaries.HexRoundTrip` | src/utils.h:77-84 | reading a UUID hex string back gives the bytes it came from |
| `Fields.MessageType` | src/utils.h:43 | the type is in 0..15, is 0 for bytes 0 and 1, and otherwise satisfies 16t+2 <= b < 16t+18 |
| `Fields.MessageTypeOfHeader` | src/utils.h:43 | a header 16t+v gives t for versions 2-15, and t-1 (0 for t=0) for versions 0 and 1 |
| `Fields.MessageTypeTruncates` | src/utils.h:43 | bytes 0 and 1 give type 0 where Euclidean division would give -1 |
| `Fields.HighNibble` | src/utils.h:48 | `b/16` is below 16 and is the high nibble of b |
| `Fields.LowNibble` | src/utils.h:47 | `b%16` is below 16 and 16*high + low == b |
| `Fields.NibbleRoundTrip` | src/utils.h:246-247 | splitting a byte built from two nibbles gives the nibbles back |
| `Fields.HeightType` | src/utils.h:111 | `(b%8)/4` is 0 or 1 |
| `Fields.EastWestDirection` | src/utils.h:112 | `(b%4)/2` is 0 or 1 |
| `Fields.SpeedMultiplier` | src/utils.h:113 | `b%2` is 0 or 1 |
| `Fields.HeightTypeBit` | src/utils.h:111 | the height type flag is bit 2 of the flags byte |
| `Fields.EastWestDirectionBit` | src/utils.h:112 | the east/west flag is bit 1 of the flags byte |
| `Fields.SpeedMultiplierBit` | src/utils.h:113 | the speed multiplier flag is bit 0 of the flags byte |
| `Fields.LocationFlagsSplit` | src/utils.h:109-113 | the flags byte is 16*status + 8*bit3 + 4*height + 2*ew + multiplier, each flag 0 or 1 |
| `Fields.TrackDirection` | src/utils.h:115-118 | the direction is d, or d+180 when the east/west bit is set, minus 256 when that reaches 256 |
| `Fields.TrackDirectionWraps` | src/utils.h:115-118 | raw 200 in the western segment reads as 124 |
| `Fields.GroundSpeed` | src/utils.h:120-126 | the speed is the integer part of 0.75s + 63.75 with the multiplier set, and of s/4 without it |
| `Fields.GroundSpeedRanges` | src/utils.h:120-126 | the low range tops out at 63 and the high range starts at 63 |
| `Fields.VerticalSpeed` | src/utils.h:128 | the vertical speed is the integer part of half the unsigned byte |
| `Fields.Altitude` | src/utils.h:146-148 | raw*0.5-1000 stored in a `uint16_t`: defined iff raw >= 1999, then it is the truncation, in [0, 2^16) |
| `Fields.AltitudeRoundTrip` | src/utils.h:148 | encoding a whole altitude in range as half metres plus offset and decoding gives it back |
| `Fields.OperatorLocationType` | src/utils.h:212 | `b%3` is 0, 1 or 2 and congruent to b |
| `Fields.TimestampAccuracy` | src/utils.h:169 | `b%15` is at most 14 and congruent to b |
| `Fields.AreaRadius` | src/utils.h:235 | `10*r` is a multiple of ten at most 2550, so it never wraps a `uint16_t`, and it gives back r |
| `Messages.UasIdLayout` | src/utils.h:54-105 | per id type: 20 '0's; 20 table characters of bytes 2-21; 32 hex characters of bytes 2-17; raw byte 2 then 19 table characters; nothing for id types above 4 |
| `Messages.BasicIdOf` | src/utils.h:46-105 | a Basic ID message whose id type and UA type are the high and low nibble of byte 1 |
| `Messages.BasicIdLayout` | src/utils.h:54-105 | the decoded Basic ID message's UAS ID, character by character, for the id type in byte 1's high nibble |
| `Messages.LocationVectorFields` | src/utils.h:108-170 | every Location/Vector field in terms of the slot bytes: status and 0/1 flags of byte 1, wrapped track, both speed formulas, half vertical speed, lat/lon at 5-12, altitudes at 13-18, accuracy nibbles, timestamp 257*byte 21, accuracy byte 22 mod 15 |
| `Messages.LocationVectorMotion` | src/utils.h:108-128 | status and 0/1 flags of byte 1, wrapped track of byte 2, both speed formulas of byte 3, half vertical speed of byte 4 |
| `Messages.LocationVectorPosition` | src/utils.h:130-143 | latitude and longitude as signed 32-bit values of bytes 5-8 and 9-12 |
| `Messages.LocationVectorAltitudes` | src/utils.h:145-156 | pressure altitude, geodetic altitude and height from bytes 13-18 |
| `Messages.LocationVectorAccuracy` | src/utils.h:158-170 | accuracy nibbles of bytes 19 and 20, timestamp 257*byte 21, timestamp accuracy byte 22 mod 15 |
| `Messages.SelfIdOf` | src/utils.h:195-203 | a Self-ID message whose description type is byte 1 and whose 23-character description is the table character of each of bytes 2-24 |
| `Messages.SystemFields` | src/utils.h:211-260 | every System field in terms of the slot bytes: location type byte 1 mod 3, operator lat/lon, area count, radius, ceiling, floor, category/class nibbles, operator altitude, and a timestamp whose LE32 bytes are 20-23 |
| `Messages.OperatorIdOf` | src/utils.h:278-285 | an Operator ID message whose 20-character ID is the table character of each of bytes 2-21 |
| `Messages.DecodeSlot` | src/utils.h:43-291 | a slot decodes iff its type is 0, 1, 3, 4 or 5, and the message has that type |
| `Messages.DecodeSlotIgnoresLastByte` | src/utils.h:42-290 | a slot's message depends only on its first 24 bytes unless it is Self-ID |
| `Pack.SlotInBuffer` | src/utils.h:42-43 | when the pack fits, every slot lies wholly within the buffer |
| `Pack.DecodePack` | src/utils.h:42-292 | a pack of n slots decodes to at most n messages |
| `Pack.DecodePackStep` | src/utils.h:42-45 | one more slot appends its message exactly when its type is supported |
| `Pack.DecodePackLast` | src/utils.h:42-45 | n slots give the messages of n-1 slots plus one message of the last slot's type exactly when that type is supported |
| `Pack.SeenKindsIff` | src/utils.h:42-290 | a type is among the decoded kinds iff it has a decoder and some slot carries it |
| `Pack.DecodePackKinds` | src/utils.h:42-290 | the decoded messages are, one for one, of the kinds `SeenKinds` lists |
| `Pack.KindSeenIffDecoded` | src/utils.h:42-290 | a supported type occurs among the slots iff a message of that kind was decoded |
| `Pack.DecodedKindsSeen` | src/utils.h:42-290 | every decoded message has a supported type, and that type occurs among the slots |
| `Pack.DecodePackExtends` | src/utils.h:42 | decoding one more slot only appends to the messages |
| `Pack.DecodePackPrefix` | src/utils.h:42 | the messages of a shorter pack are a prefix of those of a longer one |
| `Pack.DecodePackLocal` | src/utils.h:43 | bytes outside the pack's slots never affect the result |
| `Pack.SerialNumberPack` | src/utils.h:63-76 | a one-slot pack with header 0x02, byte 0x10 and serial codes decodes to that single Basic ID message, and the Basic ID type is seen |
| `Decoder.MsgFlags.constructor` | src/main.c:66-72 | all six flags start at 0 |
| `Decoder.FillAscii` | src/utils.h:65-71 | the loop fills the buffer with the table character of each byte, the placeholder '_' for bytes past the table |
| `Decoder.FillHex` | src/utils.h:77-84 | the loop fills the buffer with the two hex digits of each byte, giving the hex string |
| `Decoder.DecodeBasicIdAt` | src/utils.h:46-105 | the Basic ID case produces `BasicIdOf` of the slot |
| `Decoder.DecodeSelfIdAt` | src/utils.h:195-203 | the Self-ID case produces `SelfIdOf` of the slot |
| `Decoder.DecodeOperatorIdAt` | src/utils.h:278-285 | the Operator ID case produces `OperatorIdOf` of the slot |
| `Decoder.ParseSlot` | src/utils.h:43-291 | one switch gives `DecodeSlot` of the slot, and the new flags are the old ones with only the slot type's flag raised (no flag for Authentication or types 6-15) |
| `Decoder.ParseNextSlot` | src/utils.h:42-291 | one loop pass extends the messages of n slots to those of n+1 slots and raises the flag of slot n's type |
| `Decoder.FlagsAfterSeen` | src/utils.h:42-291 | after n slots each supported type's flag is 1 iff that type occurs among them and otherwise keeps its initial value; Authentication keeps its initial value |
| `Decoder.ParseHex` | src/utils.h:31-293 | the messages are `DecodePack` of the pack; the flags are those the slots raise in turn, so each supported flag becomes 1 iff its type occurs, else keeps its value; Authentication is never written |
| `Marker.Contains` | src/utils.h:311-349 | the result is -1 (no index passes) or the first index passing the test; it is never past a whole occurrence of the marker |
| `Marker.OccurrencesPassTest` | src/utils.h:321-344 | every whole occurrence of the marker passes the test |
| `Marker.MarkerAtWithoutOccurrence` | src/utils.h:326-344 | the test also passes where the marker's last byte differs, and where it is cut off by the buffer's end |
| `Marker.Locate` | src/utils.h:311-315 | the corrected search: the lowest whole occurrence, or -1 iff none exists |
| `Marker.LocateSelf` | src/utils.h:311-315 | a marker occurs in itself at 0 and nowhere else |

## Left out

- Printing: the `printf` calls under `PRINT_INFO`, the `*_STRING` enum-name tables, and `log_hexdump` (`printk`, `k_sleep`). These are presentation and I/O, and enums.h is not part of this model.
- src/main.c and src/bluetooth_scan.h: the Wi-Fi event callback, logging, clock setup, the scan loop and the BLE scan setup are radio-stack glue. From main.c only the inputs are taken: the marker index that `contains` returns, the count byte at marker+7, and the zeroed flags record.
- The marker constant `identifier` is in a header that is not part of this model. `Contains` takes it as a parameter.
- Floating point: lat/lon divided by 1e7 and the timestamp accuracy times 0.1 are left as their integers. The speed and altitude doubles are exact before truncation, so they are modelled as integer arithmetic.
- Decoder.FillAscii: an ID, description or operator-ID byte above 90 reads past the 91-entry `ASCII_DICTIONARY`, which is undefined in C. The decoder model (`FillAscii`, `AsciiString`, and through them `DecodeSlot` and `ParseHex`) reads it as the placeholder '_' instead (`Dictionaries.AsciiChar`). `Dictionaries.AsciiLookupAsWritten` models the lookup as written, and it is undefined there.
- Undefined C behaviour: shifting a byte of 128 or more left by 24 in `int` is modelled as the two's-complement wrap it gives in practice. Converting a negative altitude double to `uint16_t` is modelled as `None`.
- Enum range validity: out-of-range enum values only matter for indexing the string tables, which are not modelled.
- Session ID: the first character is the raw byte as a character code. C's possibly signed `char` is not modelled.
- Buffers are `seq` values that carry their own length, not C arrays with a separate size argument, because `parse_hex` and `contains` only read them.

## Findings

| source | as written | input that shows it | evidently intended | confidence | as-written member | corrected member |
|---|---|---|---|---|---|---|
| src/utils.h:16 | `ASCII_DICTIONARY` has 91 entries but is indexed by any byte of an ID field | an ID byte of 97 ('a'), or any byte above 90, reads past the table | codes without an identifier character give the placeholder '_' | not executed | `Dictionaries.AsciiLookupAsWritten` | `Dictionaries.AsciiChar` |
| src/utils.h:326-344 | the comparison stops before the last marker byte and at the end of the buffer | buffer 0D 07 00 with marker 0D 07 09 gives 0 (`Marker.MarkerAtWithoutOccurrence`) | the whole marker must match inside the buffer | not executed | `Marker.Contains` | `Marker.Locate` |
