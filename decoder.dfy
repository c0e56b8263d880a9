/**
 The message-pack decoder as the source runs it: a loop over the slots of
 the pack that dispatches on each slot's message type, fills the identifier
 buffers character by character, and raises one flag per message type in a
 flags record owned by the caller.
 */
module Decoder {
  import opened CInt
  import opened Wrappers
  import opened Dictionaries
  import opened Fields
  import opened Messages
  import opened Pack

  /** The six values of a `msg_flags_t`, in field order. */
  datatype FlagValues = FlagValues(
    basicId: uint8, locationVector: uint8, authentication: uint8,
    selfId: uint8, system: uint8, operatorId: uint8)

  /** The flag assignment of the switch case for message type t; no case for other types. */
  function Raise(f: FlagValues, t: int): FlagValues
  {
    match t
    case 0 => f.(basicId := 1)
    case 1 => f.(locationVector := 1)
    case 3 => f.(selfId := 1)
    case 4 => f.(system := 1)
    case 5 => f.(operatorId := 1)
    case _ => f
  }

  /** The flags after the first n slots of the pack, starting from init. */
  function FlagsAfter(data: seq<uint8>, idx: nat, n: nat, init: FlagValues): FlagValues
    requires PackFits(data, idx, n)
  {
    if n == 0 then init else Raise(FlagsAfter(data, idx, n - 1, init), SlotType(data, idx, n - 1))
  }

  /**
   After the first n slots, each supported type's flag is 1 exactly when that
   type occurs among them, and otherwise keeps its initial value; the
   Authentication flag keeps its initial value.
   */
  lemma {:induction false} FlagsAfterSeen(data: seq<uint8>, idx: nat, n: nat, init: FlagValues)
    requires PackFits(data, idx, n)
    ensures FlagsAfter(data, idx, n, init).basicId ==
      if KindSeen(data, idx, n, BASIC_ID) then 1 else init.basicId
    ensures FlagsAfter(data, idx, n, init).locationVector ==
      if KindSeen(data, idx, n, LOCATION_VECTOR) then 1 else init.locationVector
    ensures FlagsAfter(data, idx, n, init).selfId ==
      if KindSeen(data, idx, n, SELF_ID) then 1 else init.selfId
    ensures FlagsAfter(data, idx, n, init).system ==
      if KindSeen(data, idx, n, SYSTEM) then 1 else init.system
    ensures FlagsAfter(data, idx, n, init).operatorId ==
      if KindSeen(data, idx, n, OPERATOR_ID) then 1 else init.operatorId
    ensures FlagsAfter(data, idx, n, init).authentication == init.authentication
  {
    if n > 0 {
      FlagsAfterSeen(data, idx, n - 1, init);
      KindSeenStep(data, idx, n - 1, BASIC_ID);
      KindSeenStep(data, idx, n - 1, LOCATION_VECTOR);
      KindSeenStep(data, idx, n - 1, SELF_ID);
      KindSeenStep(data, idx, n - 1, SYSTEM);
      KindSeenStep(data, idx, n - 1, OPERATOR_ID);
    }
  }

  /** `msg_flags_t`: one flag per message type, 1 once a message of that type was decoded. */
  class MsgFlags {
    var basicIdFlag: uint8
    var locationVectorFlag: uint8
    var authenticationFlag: uint8
    var selfIdFlag: uint8
    var systemFlag: uint8
    var operatorIdFlag: uint8

    /** All flags cleared, as the caller sets them up before decoding a pack. */
    constructor ()
      ensures basicIdFlag == 0 && locationVectorFlag == 0 && authenticationFlag == 0
      ensures selfIdFlag == 0 && systemFlag == 0 && operatorIdFlag == 0
    {
      basicIdFlag, locationVectorFlag, authenticationFlag := 0, 0, 0;
      selfIdFlag, systemFlag, operatorIdFlag := 0, 0, 0;
    }

    /** The current values of the six fields. */
    function Values(): FlagValues
      reads this
    {
      FlagValues(basicIdFlag, locationVectorFlag, authenticationFlag, selfIdFlag, systemFlag, operatorIdFlag)
    }
  }

  /**
   Fills a character buffer from count bytes starting at from, each byte
   looked up in the ASCII table (serial numbers, session IDs, the Self-ID
   description and the operator ID).
   */
  method FillAscii(data: seq<uint8>, from: nat, count: nat) returns (s: string)
    requires from + count <= |data|
    ensures |s| == count
    ensures s == AsciiString(data[from..from + count])
  {
    var buf := new char[count];
    for i := 0 to count
      invariant forall k :: 0 <= k < i ==> buf[k] == AsciiChar(data[from + k])
    {
      var decimalVal := data[from + i];
      buf[i] := AsciiChar(decimalVal);
    }
    s := buf[..];
  }

  /**
   Fills a character buffer with the two hex digits of each of count bytes
   starting at from (the UTM UUID).
   */
  method FillHex(data: seq<uint8>, from: nat, count: nat) returns (s: string)
    requires from + count <= |data|
    ensures |s| == 2 * count
    ensures s == HexString(data[from..from + count])
  {
    var buf := new char[2 * count];
    for i := 0 to count
      invariant buf[..2 * i] == HexString(data[from..from + i])
    {
      var decimalVal := data[from + i];
      HexFillStep(data, from, i, buf[..2 * i]);
      ghost var done := buf[..2 * i];
      buf[2 * i] := HexDictionary()[decimalVal][0];
      buf[2 * i + 1] := HexDictionary()[decimalVal][1];
      assert buf[..2 * i + 2] == done + [buf[2 * i], buf[2 * i + 1]];
    }
    assert buf[..] == buf[..2 * count];
    s := buf[..];
  }

  /** One more byte of the UUID appends its table entry, character by character. */
  lemma HexFillStep(data: seq<uint8>, from: nat, i: nat, done: string)
    requires from + i < |data| && done == HexString(data[from..from + i])
    ensures |HexDictionary()[data[from + i]]| == 2
    ensures done + [HexDictionary()[data[from + i]][0], HexDictionary()[data[from + i]][1]]
      == HexString(data[from..from + i + 1])
  {
    var entry := HexDictionary()[data[from + i]];
    HexDictionaryEntry(data[from + i]);
    assert entry == [entry[0], entry[1]];
    assert data[from..from + i + 1] == data[from..from + i] + [data[from + i]];
    HexStringSnoc(data[from..from + i], data[from + i]);
  }

  /**
   The Basic ID case for the slot at base: the two nibbles of byte 1, then the
   UAS ID buffer filled according to the id type.
   */
  method DecodeBasicIdAt(data: seq<uint8>, base: nat) returns (msg: Message)
    requires base + SLOT_SIZE <= |data|
    ensures msg == BasicIdOf(data[base..base + SLOT_SIZE])
  {
    ghost var slot := data[base..base + SLOT_SIZE];
    assert slot[1] == data[base + 1] && slot[2] == data[base + 2];
    var uaType := LowNibble(data[base + 1]);
    var idType := HighNibble(data[base + 1]);
    var idBuf: string;
    match idType {
      case 0 =>
        idBuf := NULL_ID;
      case 1 =>
        idBuf := FillAscii(data, base + 2, 20);
        SliceOfSlice(data, base, base + SLOT_SIZE, 2, 22);
      case 2 =>
        idBuf := FillAscii(data, base + 2, 20);
        SliceOfSlice(data, base, base + SLOT_SIZE, 2, 22);
      case 3 =>
        idBuf := FillHex(data, base + 2, 16);
        SliceOfSlice(data, base, base + SLOT_SIZE, 2, 18);
      case 4 =>
        var code := FillAscii(data, base + 3, 19);
        idBuf := [data[base + 2] as char] + code;
        SliceOfSlice(data, base, base + SLOT_SIZE, 3, 22);
      case _ =>
        idBuf := [];
    }
    assert idBuf == UasId(slot, idType);
    msg := BasicId(idType, uaType, idBuf);
  }

  /** The Self-ID case: the description type byte and the 23-character description buffer. */
  method DecodeSelfIdAt(data: seq<uint8>, base: nat) returns (msg: Message)
    requires base + SLOT_SIZE <= |data|
    ensures msg == SelfIdOf(data[base..base + SLOT_SIZE])
  {
    var selfIdType := data[base + 1];
    var description := FillAscii(data, base + 2, 23);
    SliceOfSlice(data, base, base + SLOT_SIZE, 2, 25);
    msg := SelfId(selfIdType, description);
  }

  /** The Operator ID case: the 20-character operator ID buffer. */
  method DecodeOperatorIdAt(data: seq<uint8>, base: nat) returns (msg: Message)
    requires base + SLOT_SIZE <= |data|
    ensures msg == OperatorIdOf(data[base..base + SLOT_SIZE])
  {
    var operatorId := FillAscii(data, base + 2, 20);
    SliceOfSlice(data, base, base + SLOT_SIZE, 2, 22);
    msg := OperatorId(operatorId);
  }

  /**
   One pass of the slot loop: the switch on the message type of the slot at
   base, which decodes the slot and raises the flag of its type; a type with
   no case leaves everything as it was.
   */
  method ParseSlot(data: seq<uint8>, base: nat, msgFlags: MsgFlags) returns (msg: Option<Message>)
    requires base + SLOT_SIZE <= |data|
    modifies msgFlags
    ensures msg == DecodeSlot(data[base..base + SLOT_SIZE])
    ensures msgFlags.Values() == Raise(old(msgFlags.Values()), MessageType(data[base]))
  {
    var msgType := MessageType(data[base]);
    match msgType {
      case 0 =>
        var m := DecodeBasicIdAt(data, base);
        msg := Some(m);
        msgFlags.basicIdFlag := 1;
      case 1 =>
        msg := Some(LocationVectorOf(data[base..base + SLOT_SIZE]));
        msgFlags.locationVectorFlag := 1;
      case 3 =>
        var m := DecodeSelfIdAt(data, base);
        msg := Some(m);
        msgFlags.selfIdFlag := 1;
      case 4 =>
        msg := Some(SystemOf(data[base..base + SLOT_SIZE]));
        msgFlags.systemFlag := 1;
      case 5 =>
        var m := DecodeOperatorIdAt(data, base);
        msg := Some(m);
        msgFlags.operatorIdFlag := 1;
      case _ =>
        msg := None;
    }
  }

  /**
   One iteration of the slot loop: decodes slot n, appends its message, if
   any, to those of the earlier slots, and raises its type's flag.
   */
  method ParseNextSlot(data: seq<uint8>, idx: nat, n: nat, msgs: seq<Message>, msgFlags: MsgFlags)
    returns (msgs': seq<Message>)
    requires PackFits(data, idx, n + 1) && msgs == DecodePack(data, idx, n)
    modifies msgFlags
    ensures msgs' == DecodePack(data, idx, n + 1)
    ensures msgFlags.Values() == Raise(old(msgFlags.Values()), SlotType(data, idx, n))
  {
    var base := idx + 8 + n * 25;
    DecodePackStep(data, idx, n, base);
    var msg := ParseSlot(data, base, msgFlags);
    msgs' := msgs;
    if msg.Some? {
      msgs' := msgs + [msg.value];
    }
  }

  /**
   Decodes the numMsgInPack slots of the pack whose ODID marker is at
   odidIdentifierIdx, returning the decoded messages in slot order and raising
   the flag of each decoded type. The length len is accepted and never used:
   nothing is bounds-checked, so the whole pack must lie in the buffer. No flag
   is ever cleared, and the Authentication flag is never written.
   */
  method ParseHex(data: seq<uint8>, len: int, odidIdentifierIdx: nat, numMsgInPack: uint8, msgFlags: MsgFlags)
    returns (msgs: seq<Message>)
    requires PackFits(data, odidIdentifierIdx, numMsgInPack)
    modifies msgFlags
    ensures msgs == DecodePack(data, odidIdentifierIdx, numMsgInPack)
    ensures msgFlags.Values() == FlagsAfter(data, odidIdentifierIdx, numMsgInPack, old(msgFlags.Values()))
    ensures msgFlags.basicIdFlag ==
      if KindSeen(data, odidIdentifierIdx, numMsgInPack, BASIC_ID) then 1 else old(msgFlags.basicIdFlag)
    ensures msgFlags.locationVectorFlag ==
      if KindSeen(data, odidIdentifierIdx, numMsgInPack, LOCATION_VECTOR) then 1 else old(msgFlags.locationVectorFlag)
    ensures msgFlags.selfIdFlag ==
      if KindSeen(data, odidIdentifierIdx, numMsgInPack, SELF_ID) then 1 else old(msgFlags.selfIdFlag)
    ensures msgFlags.systemFlag ==
      if KindSeen(data, odidIdentifierIdx, numMsgInPack, SYSTEM) then 1 else old(msgFlags.systemFlag)
    ensures msgFlags.operatorIdFlag ==
      if KindSeen(data, odidIdentifierIdx, numMsgInPack, OPERATOR_ID) then 1 else old(msgFlags.operatorIdFlag)
    ensures msgFlags.authenticationFlag == old(msgFlags.authenticationFlag)
  {
    var idx := odidIdentifierIdx;
    msgs := [];
    for msgNum := 0 to numMsgInPack
      invariant msgs == DecodePack(data, idx, msgNum)
      invariant msgFlags.Values() == FlagsAfter(data, idx, msgNum, old(msgFlags.Values()))
    {
      SlotInBuffer(data, idx, numMsgInPack, msgNum);
      msgs := ParseNextSlot(data, idx, msgNum, msgs, msgFlags);
    }
    FlagsAfterSeen(data, idx, numMsgInPack, old(msgFlags.Values()));
  }
}
