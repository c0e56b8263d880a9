/**
 The five message kinds the decoder understands and how one 25-byte slot of
 a message pack decodes into one of them. Offsets are from the slot's first
 byte (the header byte that gives the message type).
 */
module Messages {
  import opened CInt
  import opened Wrappers
  import opened Dictionaries
  import opened Fields

  const SLOT_SIZE: nat := 25

  /** Message type numbers as the dispatch uses them; 2 (Authentication) is never decoded. */
  const BASIC_ID: nat := 0
  const LOCATION_VECTOR: nat := 1
  const AUTHENTICATION: nat := 2
  const SELF_ID: nat := 3
  const SYSTEM: nat := 4
  const OPERATOR_ID: nat := 5

  /** The twenty '0' characters of a null UAS ID. */
  const NULL_ID: string := "00000000000000000000"

  datatype Message =
    | BasicId(idType: nat, uaType: nat, uasId: string)
    | LocationVector(
        opStatus: nat, heightType: nat, ewDirection: nat, speedMultiplier: nat,
        trackDirection: uint8, speed: uint8, verticalSpeed: uint8,
        latitude: int, longitude: int,
        pressureAltitude: Option<int>, geodeticAltitude: Option<int>, height: Option<int>,
        verticalAccuracy: nat, horizontalAccuracy: nat,
        baroAltAccuracy: nat, speedAccuracy: nat,
        timestamp: nat, timestampAccuracy: nat)
    | SelfId(descriptionType: uint8, description: string)
    | System(
        operatorLocationType: nat, operatorLatitude: int, operatorLongitude: int,
        areaCount: nat, areaRadius: nat, areaCeiling: Option<int>, areaFloor: Option<int>,
        uaCategory: nat, uaClass: nat, operatorAltitude: Option<int>, timestamp: nat)
    | OperatorId(operatorId: string)

  /** The message type a decoded message came from. */
  function Kind(m: Message): nat
  {
    match m
    case BasicId(_, _, _) => BASIC_ID
    case LocationVector(_, _, _, _, _, _, _, _, _, _, _, _, _, _, _, _, _, _) => LOCATION_VECTOR
    case SelfId(_, _) => SELF_ID
    case System(_, _, _, _, _, _, _, _, _, _, _) => SYSTEM
    case OperatorId(_) => OPERATOR_ID
  }

  /** The types that have a decoder. */
  predicate Supported(t: int) {
    t == BASIC_ID || t == LOCATION_VECTOR || t == SELF_ID || t == SYSTEM || t == OPERATOR_ID
  }

  /**
   The UAS ID of a Basic ID message, by id type: 0 the null ID, 1 and 2 twenty
   table characters, 3 sixteen bytes in hex, 4 the raw byte then nineteen table
   characters; other id types have no case and produce no ID.
   */
  function UasId(slot: seq<uint8>, idType: nat): string
    requires |slot| == SLOT_SIZE
  {
    if idType == 0 then NULL_ID
    else if idType == 1 || idType == 2 then AsciiString(slot[2..22])
    else if idType == 3 then HexString(slot[2..18])
    else if idType == 4 then [slot[2] as char] + AsciiString(slot[3..22])
    else []
  }

  /** Character by character, where each byte of the slot ends up in the UAS ID. */
  lemma UasIdLayout(slot: seq<uint8>, idType: nat)
    requires |slot| == SLOT_SIZE
    ensures var id := UasId(slot, idType);
      && (idType == 0 ==> |id| == 20 && forall i :: 0 <= i < 20 ==> id[i] == '0')
      && (idType == 1 || idType == 2 ==>
            |id| == 20 && forall i :: 0 <= i < 20 ==> id[i] == AsciiChar(slot[2 + i]))
      && (idType == 3 ==>
            |id| == 32 && forall i :: 0 <= i < 16 ==> id[2 * i..2 * i + 2] == HexDictionary()[slot[2 + i]])
      && (idType == 4 ==>
            |id| == 20 && id[0] == slot[2] as char
            && forall i :: 1 <= i < 20 ==> id[i] == AsciiChar(slot[2 + i]))
      && (idType > 4 ==> id == [])
  {
    if idType == 1 || idType == 2 {
      var id := AsciiString(slot[2..22]);
      forall i | 0 <= i < 20 ensures id[i] == AsciiChar(slot[2 + i]) {
        assert slot[2..22][i] == slot[2 + i];
      }
    } else if idType == 3 {
      var bytes := slot[2..18];
      forall i | 0 <= i < 16
        ensures HexString(bytes)[2 * i..2 * i + 2] == HexDictionary()[slot[2 + i]]
      {
        HexStringAt(bytes, i);
        assert bytes[i] == slot[2 + i];
      }
    } else if idType == 4 {
      var rest := AsciiString(slot[3..22]);
      var id := [slot[2] as char] + rest;
      forall i | 1 <= i < 20 ensures id[i] == AsciiChar(slot[2 + i]) {
        assert id[i] == rest[i - 1];
        assert slot[3..22][i - 1] == slot[2 + i];
      }
    }
  }

  /** Basic ID: id type and UA type are the two nibbles of byte 1. */
  function BasicIdOf(slot: seq<uint8>): (m: Message)
    requires |slot| == SLOT_SIZE
    ensures m.BasicId? && 16 * m.idType + m.uaType == slot[1]
    ensures m.idType == slot[1] / 16 && m.uaType == slot[1] % 16 && m.uaType < 16
  {
    var idType := HighNibble(slot[1]);
    BasicId(idType, LowNibble(slot[1]), UasId(slot, idType))
  }

  /**
   The UAS ID of a decoded Basic ID message, character by character, for the
   id type in the high nibble of byte 1.
   */
  lemma BasicIdLayout(slot: seq<uint8>)
    requires |slot| == SLOT_SIZE
    ensures var m := BasicIdOf(slot); var id := m.uasId;
      && (m.idType == 0 ==> |id| == 20 && forall i :: 0 <= i < 20 ==> id[i] == '0')
      && (m.idType == 1 || m.idType == 2 ==>
            |id| == 20 && forall i :: 0 <= i < 20 ==> id[i] == AsciiChar(slot[2 + i]))
      && (m.idType == 3 ==>
            |id| == 32 && forall i :: 0 <= i < 16 ==> id[2 * i..2 * i + 2] == HexDictionary()[slot[2 + i]])
      && (m.idType == 4 ==>
            |id| == 20 && id[0] == slot[2] as char
            && forall i :: 1 <= i < 20 ==> id[i] == AsciiChar(slot[2 + i]))
      && (m.idType > 4 ==> id == [])
  {
    UasIdLayout(slot, HighNibble(slot[1]));
  }

  /**
   Location/Vector. The timestamp's low and high byte are both read from
   offset 21, so it is 257 times that byte.
   */
  function LocationVectorOf(slot: seq<uint8>): (m: Message)
    requires |slot| == SLOT_SIZE
    ensures m.LocationVector?
  {
    var flags := slot[1];
    var ew := EastWestDirection(flags);
    var multiplier := SpeedMultiplier(flags);
    LocationVector(
      HighNibble(flags), HeightType(flags), ew, multiplier,
      TrackDirection(slot[2], ew),
      GroundSpeed(slot[3], multiplier),
      VerticalSpeed(slot[4]),
      LE32Signed(slot[5], slot[6], slot[7], slot[8]),
      LE32Signed(slot[9], slot[10], slot[11], slot[12]),
      Altitude(LE16(slot[13], slot[14])),
      Altitude(LE16(slot[15], slot[16])),
      Altitude(LE16(slot[17], slot[18])),
      HighNibble(slot[19]), LowNibble(slot[19]),
      HighNibble(slot[20]), LowNibble(slot[20]),
      LE16(slot[21], slot[21]),
      TimestampAccuracy(slot[22]))
  }

  /** Self-ID: the description type byte, then 23 table characters. */
  function SelfIdOf(slot: seq<uint8>): (m: Message)
    requires |slot| == SLOT_SIZE
    ensures m.SelfId? && m.descriptionType == slot[1]
    ensures |m.description| == 23
    ensures forall i {:trigger m.description[i]} :: 0 <= i < 23 ==> m.description[i] == AsciiChar(slot[2 + i])
  {
    SelfId(slot[1], AsciiString(slot[2..25]))
  }

  /** System: operator position, area, classification, operator altitude and a 32-bit timestamp. */
  function SystemOf(slot: seq<uint8>): (m: Message)
    requires |slot| == SLOT_SIZE
    ensures m.System?
  {
    System(
      OperatorLocationType(slot[1]),
      LE32Signed(slot[2], slot[3], slot[4], slot[5]),
      LE32Signed(slot[6], slot[7], slot[8], slot[9]),
      LE16(slot[10], slot[11]),
      AreaRadius(slot[12]),
      Altitude(LE16(slot[13], slot[14])),
      Altitude(LE16(slot[15], slot[16])),
      HighNibble(slot[17]), LowNibble(slot[17]),
      Altitude(LE16(slot[18], slot[19])),
      LE32(slot[20], slot[21], slot[22], slot[23]))
  }

  /** Operator ID: twenty table characters. */
  function OperatorIdOf(slot: seq<uint8>): (m: Message)
    requires |slot| == SLOT_SIZE
    ensures m.OperatorId? && |m.operatorId| == 20
    ensures forall i {:trigger m.operatorId[i]} :: 0 <= i < 20 ==> m.operatorId[i] == AsciiChar(slot[2 + i])
  {
    OperatorId(AsciiString(slot[2..22]))
  }

  /**
   One slot: dispatch on the message type of its header byte; a type without
   a decoder (Authentication and 6-15) yields nothing.
   */
  function DecodeSlot(slot: seq<uint8>): (r: Option<Message>)
    requires |slot| == SLOT_SIZE
    ensures r.Some? <==> Supported(MessageType(slot[0]))
    ensures r.Some? ==> Kind(r.value) == MessageType(slot[0])
  {
    match MessageType(slot[0])
    case 0 => Some(BasicIdOf(slot))
    case 1 => Some(LocationVectorOf(slot))
    case 3 => Some(SelfIdOf(slot))
    case 4 => Some(SystemOf(slot))
    case 5 => Some(OperatorIdOf(slot))
    case _ => None
  }

  /**
   What the Location/Vector decoder reads, field by field, in terms of the
   slot's bytes.
   */
  lemma LocationVectorFields(slot: seq<uint8>)
    requires |slot| == SLOT_SIZE
    ensures var m, b: seq<int> := LocationVectorOf(slot), slot;
      && 16 * m.opStatus + 8 * (b[1] % 16 / 8) + 4 * m.heightType + 2 * m.ewDirection + m.speedMultiplier == b[1]
      && m.opStatus < 16 && m.heightType <= 1 && m.ewDirection <= 1 && m.speedMultiplier <= 1
      && m.trackDirection == (b[2] + 180 * m.ewDirection) % 256
      && m.speed == (if m.speedMultiplier == 1 then (3 * b[3] + 255) / 4 else b[3] / 4)
      && m.verticalSpeed == b[4] / 2
      && m.latitude == Int32(b[5] + 256 * b[6] + 0x1_0000 * b[7] + 0x100_0000 * b[8])
      && m.longitude == Int32(b[9] + 256 * b[10] + 0x1_0000 * b[11] + 0x100_0000 * b[12])
      && m.pressureAltitude == Altitude(b[13] + 256 * b[14])
      && m.geodeticAltitude == Altitude(b[15] + 256 * b[16])
      && m.height == Altitude(b[17] + 256 * b[18])
      && 16 * m.verticalAccuracy + m.horizontalAccuracy == b[19] && m.horizontalAccuracy < 16
      && 16 * m.baroAltAccuracy + m.speedAccuracy == b[20] && m.speedAccuracy < 16
      && m.timestamp == 257 * b[21]
      && m.timestampAccuracy == b[22] % 15
  {
    LocationVectorMotion(slot);
    LocationVectorPosition(slot);
    LocationVectorAltitudes(slot);
    LocationVectorAccuracy(slot);
  }
  /** Bytes 1 to 4 of a Location/Vector slot: status, flags, direction and speeds. */
  lemma LocationVectorMotion(slot: seq<uint8>)
    requires |slot| == SLOT_SIZE
    ensures var m, b: seq<int> := LocationVectorOf(slot), slot;
      && 16 * m.opStatus + 8 * (b[1] % 16 / 8) + 4 * m.heightType + 2 * m.ewDirection + m.speedMultiplier == b[1]
      && m.opStatus < 16 && m.heightType <= 1 && m.ewDirection <= 1 && m.speedMultiplier <= 1
      && m.trackDirection == (b[2] + 180 * m.ewDirection) % 256
      && m.speed == (if m.speedMultiplier == 1 then (3 * b[3] + 255) / 4 else b[3] / 4)
      && m.verticalSpeed == b[4] / 2
  {
    LocationFlagsSplit(slot[1]);
  }
  /** Bytes 5 to 12 of a Location/Vector slot: latitude and longitude. */
  lemma LocationVectorPosition(slot: seq<uint8>)
    requires |slot| == SLOT_SIZE
    ensures var m, b: seq<int> := LocationVectorOf(slot), slot;
      && m.latitude == Int32(b[5] + 256 * b[6] + 0x1_0000 * b[7] + 0x100_0000 * b[8])
      && m.longitude == Int32(b[9] + 256 * b[10] + 0x1_0000 * b[11] + 0x100_0000 * b[12])
  {
  }
  /** Bytes 13 to 18 of a Location/Vector slot: the three altitudes. */
  lemma LocationVectorAltitudes(slot: seq<uint8>)
    requires |slot| == SLOT_SIZE
    ensures var m, b: seq<int> := LocationVectorOf(slot), slot;
      && m.pressureAltitude == Altitude(b[13] + 256 * b[14])
      && m.geodeticAltitude == Altitude(b[15] + 256 * b[16])
      && m.height == Altitude(b[17] + 256 * b[18])
  {
  }
  /** Bytes 19 to 22 of a Location/Vector slot: the accuracies and the timestamp. */
  lemma LocationVectorAccuracy(slot: seq<uint8>)
    requires |slot| == SLOT_SIZE
    ensures var m, b: seq<int> := LocationVectorOf(slot), slot;
      && 16 * m.verticalAccuracy + m.horizontalAccuracy == b[19] && m.horizontalAccuracy < 16
      && 16 * m.baroAltAccuracy + m.speedAccuracy == b[20] && m.speedAccuracy < 16
      && m.timestamp == 257 * b[21]
      && m.timestampAccuracy == b[22] % 15
  {
  }

  /** What the System decoder reads, field by field, in terms of the slot's bytes. */
  lemma SystemFields(slot: seq<uint8>)
    requires |slot| == SLOT_SIZE
    ensures var m, b: seq<int> := SystemOf(slot), slot;
      && m.operatorLocationType == b[1] % 3
      && m.operatorLatitude == Int32(b[2] + 256 * b[3] + 0x1_0000 * b[4] + 0x100_0000 * b[5])
      && m.operatorLongitude == Int32(b[6] + 256 * b[7] + 0x1_0000 * b[8] + 0x100_0000 * b[9])
      && m.areaCount == b[10] + 256 * b[11]
      && m.areaRadius == 10 * b[12]
      && m.areaCeiling == Altitude(b[13] + 256 * b[14])
      && m.areaFloor == Altitude(b[15] + 256 * b[16])
      && 16 * m.uaCategory + m.uaClass == b[17] && m.uaClass < 16
      && m.operatorAltitude == Altitude(b[18] + 256 * b[19])
      && LE32Bytes(m.timestamp) == slot[20..24]
  {
    var m := SystemOf(slot);
    LE32Split(slot[20], slot[21], slot[22], slot[23]);
    assert slot[20..24] == [slot[20], slot[21], slot[22], slot[23]];
    assert LE32Bytes(m.timestamp) == slot[20..24];
  }

  /**
   A decoded message depends only on the 25 bytes of its slot; in particular
   byte 24 is read only by the Self-ID description.
   */
  lemma DecodeSlotIgnoresLastByte(slot: seq<uint8>, other: seq<uint8>)
    requires |slot| == SLOT_SIZE && |other| == SLOT_SIZE
    requires slot[..24] == other[..24]
    requires MessageType(slot[0]) != SELF_ID
    ensures DecodeSlot(slot) == DecodeSlot(other)
  {
    assert forall i :: 0 <= i < 24 ==> slot[i] == other[i] by {
      forall i | 0 <= i < 24 ensures slot[i] == other[i] {
        assert slot[..24][i] == other[..24][i];
      }
    }
    assert slot[2..22] == other[2..22];
    assert slot[3..22] == other[3..22];
    assert slot[2..18] == other[2..18];
  }
}
