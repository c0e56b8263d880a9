/**
 The message pack as a whole: `n` consecutive 25-byte slots starting 8 bytes
 after the ODID marker, the messages they decode to, in order, and which
 message types occur among them.
 */
module Pack {
  import opened CInt
  import opened Wrappers
  import opened Fields
  import opened Messages
  import opened Dictionaries

  /** The first byte of slot m of the pack whose marker is at idx. */
  function SlotBase(idx: nat, m: nat): nat
  {
    idx + 8 + SLOT_SIZE * m
  }

  /**
   The bytes read by a pack of n slots all lie in the buffer. The decoder
   never checks this; it is what its callers must ensure.
   */
  predicate PackFits(data: seq<uint8>, idx: nat, n: nat)
  {
    SlotBase(idx, n) <= |data|
  }

  /** Every slot of a pack that fits lies wholly in the buffer. */
  lemma SlotInBuffer(data: seq<uint8>, idx: nat, n: nat, m: nat)
    requires PackFits(data, idx, n) && m < n
    ensures SlotBase(idx, m) + SLOT_SIZE <= |data|
    ensures SlotBase(idx, m) + SLOT_SIZE == SlotBase(idx, m + 1)
  {
  }

  /** The 25 bytes of slot m. */
  function Slot(data: seq<uint8>, idx: nat, m: nat): (slot: seq<uint8>)
    requires SlotBase(idx, m) + SLOT_SIZE <= |data|
    ensures |slot| == SLOT_SIZE
  {
    data[SlotBase(idx, m)..SlotBase(idx, m) + SLOT_SIZE]
  }

  /** The message type of slot m, from its header byte. */
  function SlotType(data: seq<uint8>, idx: nat, m: nat): (t: int)
    requires SlotBase(idx, m) + SLOT_SIZE <= |data|
  {
    MessageType(data[SlotBase(idx, m)])
  }

  /** The messages of the first n slots, in slot order, slots of unsupported types skipped. */
  function DecodePack(data: seq<uint8>, idx: nat, n: nat): (msgs: seq<Message>)
    requires PackFits(data, idx, n)
    ensures |msgs| <= n
  {
    if n == 0 then []
    else
      DecodePack(data, idx, n - 1) +
        match DecodeSlot(Slot(data, idx, n - 1))
        case Some(msg) => [msg]
        case None => []
  }

  /** Decoding one more slot appends that slot's message, if its type has a decoder. */
  lemma DecodePackStep(data: seq<uint8>, idx: nat, n: nat, base: nat)
    requires PackFits(data, idx, n + 1) && base == idx + 8 + n * 25
    ensures base + SLOT_SIZE <= |data| && Slot(data, idx, n) == data[base..base + SLOT_SIZE]
    ensures SlotType(data, idx, n) == MessageType(data[base])
    ensures var slot := data[base..base + SLOT_SIZE];
      DecodePack(data, idx, n + 1) ==
        if Supported(MessageType(data[base])) then DecodePack(data, idx, n) + [DecodeSlot(slot).value]
        else DecodePack(data, idx, n)
  {
  }

  /** Some slot among the first n has message type t. */
  predicate KindSeen(data: seq<uint8>, idx: nat, n: nat, t: int)
    requires PackFits(data, idx, n)
  {
    exists m :: 0 <= m < n && SlotType(data, idx, m) == t
  }

  /** One more slot adds its own type to the types seen. */
  lemma KindSeenStep(data: seq<uint8>, idx: nat, n: nat, t: int)
    requires PackFits(data, idx, n + 1)
    ensures KindSeen(data, idx, n + 1, t) <==> KindSeen(data, idx, n, t) || SlotType(data, idx, n) == t
  {
    if KindSeen(data, idx, n + 1, t) && !KindSeen(data, idx, n, t) {
      var m :| 0 <= m < n + 1 && SlotType(data, idx, m) == t;
      assert m == n;
    }
  }

  /**
   The messages of n slots are those of n - 1 slots, followed by one message
   of the last slot's type exactly when that type has a decoder.
   */
  lemma DecodePackLast(data: seq<uint8>, idx: nat, n: nat)
    requires 0 < n && PackFits(data, idx, n)
    ensures var prev, msgs := DecodePack(data, idx, n - 1), DecodePack(data, idx, n);
      && msgs[..|prev|] == prev
      && |msgs| == (if Supported(SlotType(data, idx, n - 1)) then |prev| + 1 else |prev|)
      && (|msgs| > |prev| ==> Kind(msgs[|prev|]) == SlotType(data, idx, n - 1))
  {
    assert Slot(data, idx, n - 1)[0] == data[SlotBase(idx, n - 1)];
  }

  /**
   A supported type occurs among the first n slots if and only if a message
   of that kind was decoded.
   */
  /** The message types, in order, of the slots among the first `n` that have a decoder. */
  function SeenKinds(data: seq<uint8>, idx: nat, n: nat): seq<int>
    requires PackFits(data, idx, n)
  {
    if n == 0 then []
    else
      var t := SlotType(data, idx, n - 1);
      SeenKinds(data, idx, n - 1) + (if Supported(t) then [t] else [])
  }
  /** A type is among the decoded kinds exactly when it has a decoder and some slot carries it. */
  lemma {:induction false} SeenKindsIff(data: seq<uint8>, idx: nat, n: nat, t: int)
    requires PackFits(data, idx, n)
    ensures t in SeenKinds(data, idx, n) <==> Supported(t) && KindSeen(data, idx, n, t)
  {
    if n > 0 {
      SeenKindsIff(data, idx, n - 1, t);
      KindSeenStep(data, idx, n - 1, t);
    }
  }
  /** The decoded messages are, one for one, of the kinds `SeenKinds` lists. */
  lemma {:induction false} DecodePackKinds(data: seq<uint8>, idx: nat, n: nat)
    requires PackFits(data, idx, n)
    ensures |DecodePack(data, idx, n)| == |SeenKinds(data, idx, n)|
    ensures forall i :: 0 <= i < |SeenKinds(data, idx, n)| ==>
      Kind(DecodePack(data, idx, n)[i]) == SeenKinds(data, idx, n)[i]
  {
    if n > 0 {
      var prev, msgs := DecodePack(data, idx, n - 1), DecodePack(data, idx, n);
      DecodePackKinds(data, idx, n - 1);
      DecodePackLast(data, idx, n);
      forall i | 0 <= i < |prev| ensures Kind(msgs[i]) == SeenKinds(data, idx, n)[i] {
        assert msgs[i] == msgs[..|prev|][i];
      }
    }
  }
  lemma KindSeenIffDecoded(data: seq<uint8>, idx: nat, n: nat, t: int)
    requires PackFits(data, idx, n) && Supported(t)
    ensures KindSeen(data, idx, n, t) <==>
      exists i :: 0 <= i < |DecodePack(data, idx, n)| && Kind(DecodePack(data, idx, n)[i]) == t
  {
    var kinds := SeenKinds(data, idx, n);
    SeenKindsIff(data, idx, n, t);
    DecodePackKinds(data, idx, n);
    if t in kinds {
      var i :| 0 <= i < |kinds| && kinds[i] == t;
      assert Kind(DecodePack(data, idx, n)[i]) == t;
    }
  }
  lemma DecodedKindsSeen(data: seq<uint8>, idx: nat, n: nat)
    requires PackFits(data, idx, n)
    ensures forall i :: 0 <= i < |DecodePack(data, idx, n)| ==>
      Supported(Kind(DecodePack(data, idx, n)[i])) && KindSeen(data, idx, n, Kind(DecodePack(data, idx, n)[i]))
  {
    var kinds := SeenKinds(data, idx, n);
    DecodePackKinds(data, idx, n);
    forall i | 0 <= i < |DecodePack(data, idx, n)|
      ensures Supported(Kind(DecodePack(data, idx, n)[i])) && KindSeen(data, idx, n, Kind(DecodePack(data, idx, n)[i]))
    {
      assert kinds[i] in kinds;
      SeenKindsIff(data, idx, n, kinds[i]);
    }
  }
  lemma {:induction false} DecodePackPrefix(data: seq<uint8>, idx: nat, n: nat, n': nat)
    requires n <= n' && PackFits(data, idx, n')
    ensures DecodePack(data, idx, n) <= DecodePack(data, idx, n')
  {
    if n < n' {
      DecodePackPrefix(data, idx, n, n' - 1);
      DecodePackExtends(data, idx, n' - 1);
    }
  }

  /** One more slot only appends. */
  lemma DecodePackExtends(data: seq<uint8>, idx: nat, n: nat)
    requires PackFits(data, idx, n + 1)
    ensures DecodePack(data, idx, n) <= DecodePack(data, idx, n + 1)
  {
  }

  /**
   A pack reads no byte outside its slots: two buffers that agree on the
   bytes from idx + 8 to the end of slot n decode to the same messages.
   */
  lemma {:induction false} DecodePackLocal(data: seq<uint8>, other: seq<uint8>, idx: nat, n: nat)
    requires PackFits(data, idx, n) && PackFits(other, idx, n)
    requires data[idx + 8..SlotBase(idx, n)] == other[idx + 8..SlotBase(idx, n)]
    ensures DecodePack(data, idx, n) == DecodePack(other, idx, n)
  {
    if n > 0 {
      var lo, hi := SlotBase(idx, n - 1), SlotBase(idx, n);
      SliceOfSlice(data, idx + 8, hi, 0, lo - (idx + 8));
      SliceOfSlice(other, idx + 8, hi, 0, lo - (idx + 8));
      DecodePackLocal(data, other, idx, n - 1);
      SliceOfSlice(data, idx + 8, hi, lo - (idx + 8), hi - (idx + 8));
      SliceOfSlice(other, idx + 8, hi, lo - (idx + 8), hi - (idx + 8));
      assert Slot(data, idx, n - 1) == Slot(other, idx, n - 1);
    }
  }

  /**
   A one-message pack with the marker at offset 12: the slot at offset 20 has
   header byte 0x02 (type 0 by the formula), byte 0x10 (id type 1, serial
   number, UA type 0), and the codes of a serial number such as
   "ABCDEFGHIJ0123456789". The pack decodes to that one Basic ID message.
   */
  lemma {:induction false} SerialNumberPack(prefix: seq<uint8>, serial: string, tail: seq<uint8>)
    requires |prefix| == 20 && |serial| == 20 && |tail| >= 3
    requires forall i :: 0 <= i < |serial| ==> IsIdChar(serial[i])
    ensures var data := prefix + [0x02, 0x10] + IdCodes(serial) + tail;
      && PackFits(data, 12, 1)
      && DecodePack(data, 12, 1) == [BasicId(1, 0, serial)]
      && KindSeen(data, 12, 1, BASIC_ID)
  {
    var data := prefix + [0x02, 0x10] + IdCodes(serial) + tail;
    var slot := Slot(data, 12, 0);
    var codes := IdCodes(serial);
    assert slot[0] == data[20] == 0x02 && slot[1] == data[21] == 0x10;
    forall i | 0 <= i < 20 ensures slot[2..22][i] == codes[i] {
      assert slot[2 + i] == data[22 + i] == codes[i];
    }
    assert slot[2..22] == codes;
    AsciiStringRoundTrip(serial);
    assert SlotType(data, 12, 0) == BASIC_ID;
  }
}
