/** What the Hytera codec preserves, frame by frame and over whole runs. */
module HyteraTheorems {
  import opened Options
  import opened Bytes
  import opened ByteValues
  import opened LinkControl
  import opened Dmrd
  import opened LcBurst
  import opened SlotType
  import opened IpscHeader
  import opened Streams
  import opened Hytera

  // ---------- Parts ----------

  /** Padding and swapping an odd payload, then swapping and cutting, gives it back. */
  lemma SwapTwice(d: seq<bv8>)
    requires |d| % 2 == 1
    ensures Swapped(Swapped(d)) == d
  {
    var once := Swapped(d);
    forall i | 0 <= i < |d|
      ensures Swapped(once)[i] == d[i]
    {
      assert Partner(Partner(i)) == i && Partner(i) < |once|;
    }
  }

  lemma Id24RoundTrip(id: Id)
    ensures IdFrom24LE(Id24LE(id)) == Low24(id)
  {
    hide Value, LowByte;
    LowByteValue(id);
    LowByteValue(id / 0x100);
    LowByteValue(id / 0x1_0000);
    ThreeDigits(id);
  }

  /** The frame kind as the receiver states it: voice is a sync frame exactly in phase 0. */
  function KindOf(p: Packet): (nat, nat) {
    if p.frameType == 2 then (2, p.dtypeOrVSeq) else (if p.dtypeOrVSeq == 0 then 1 else 0, p.dtypeOrVSeq)
  }

  lemma SlotTypeRoundTrip(p: Packet)
    requires EncodeSlotType(p).Some?
    ensures var t := EncodeSlotType(p).value;
      DecodeSlotType(t) == Some(KindOf(p)) && t < 0x1_0000 && t != SYNC && t != WAKEUP_REQUEST && (t == TERMINATOR <==> IsTerminator(p))
  {
  }

  // ---------- One frame ----------

  function FieldsOf(p: Packet, slotType: nat): Fields {
    Fields(p.slot, slotType, KindOf(p).0, KindOf(p).1, Low24(p.src), Low24(p.dst), p.groupCall, p.dmrData)
  }

  lemma FrontRead(p: Packet, slotType: nat, seqNo: bv8, colorCode: bv8)
    requires |p.dmrData| == 33 && slotType < 0x1_0000
    ensures var d := FrameOf(p, slotType, seqNo, colorCode);
      HasNativePrefix(d) && d[4] == seqNo && Read16(d[18..20]) == slotType && (d[12] != 0x01) == p.slot
  {
    hide Swapped, Tail, Word16, Read16, ColorByte;
    var d := FrameOf(p, slotType, seqNo, colorCode);
    Word16RoundTrip(slotType);
    assert d[..26] == Front(p.slot, seqNo, PacketTypeOf(p), slotType, ColorByte(colorCode));
    assert d[18..20] == d[..26][18..20] == Word16(slotType);
  }

  lemma BackRead(p: Packet, slotType: nat, seqNo: bv8, colorCode: bv8)
    requires |p.dmrData| == 33
    ensures var d := FrameOf(p, slotType, seqNo, colorCode);
      && Swapped(d[26..60]) == p.dmrData && (d[62] == 0x01) == p.groupCall
      && IdFrom24LE(d[68..]) == Low24(p.src) && IdFrom24LE(d[64..68]) == Low24(p.dst)
  {
    hide Swapped, Front, Id24LE, IdFrom24LE, ColorByte, Low24;
    var d := FrameOf(p, slotType, seqNo, colorCode);
    assert d[26..60] == Swapped(p.dmrData);
    assert d[60..] == Tail(p);
    assert d[62] == Tail(p)[2] && d[64..68] == Tail(p)[4..8] == Id24LE(p.dst) && d[68..] == Tail(p)[8..] == Id24LE(p.src);
    SwapTwice(p.dmrData);
    Id24RoundTrip(p.src);
    Id24RoundTrip(p.dst);
  }

  /** Reading back a frame gives the packet's fields, its ids cut to 24 bits and its voice kind normalised. */
  lemma FrameRoundTrip(p: Packet, seqNo: bv8, colorCode: bv8)
    requires |p.dmrData| == 33 && EncodeSlotType(p).Some?
    ensures ReadFrame(FrameOf(p, EncodeSlotType(p).value, seqNo, colorCode)) == Read(FieldsOf(p, EncodeSlotType(p).value))
  {
    hide FrameOf, Swapped, IdFrom24LE, DecodeSlotType, EncodeSlotType, Read16, Low24;
    SlotTypeRoundTrip(p);
    FrontRead(p, EncodeSlotType(p).value, seqNo, colorCode);
    BackRead(p, EncodeSlotType(p).value, seqNo, colorCode);
  }

  /** The digit whose four copies make up the slot type: the data type, or the voice phase counted from 0xB for A and 0x7 for C. */
  function Digit(p: Packet): nat {
    if p.frameType == 2 then (if p.dtypeOrVSeq < 6 then p.dtypeOrVSeq else p.dtypeOrVSeq - 2)
    else if p.dtypeOrVSeq < 2 then 11 + p.dtypeOrVSeq else 5 + p.dtypeOrVSeq
  }

  lemma SlotTypeDigits(p: Packet)
    requires EncodeSlotType(p).Some?
    ensures Digit(p) < 15 && EncodeSlotType(p).value == 0x1111 * Digit(p)
  {
  }

  lemma CopiedDigit(n: nat)
    requires n < 16
    ensures var w := Word16(0x1111 * n); w[0] == w[1] && Value(w[0]) == 17 * n
  {
    hide Value, LowByte;
    LowByteValue(0x1111 * n);
    LowByteValue(0x1111 * n / 0x100);
    assert 0x1111 * n / 0x100 == 17 * n;
    assert 0x1111 * n % 0x100 == 17 * n;
    SameValue(LowByte(0x1111 * n), LowByte(0x1111 * n / 0x100));
  }

  lemma SameValue(a: bv8, b: bv8)
    requires Value(a) == Value(b)
    ensures a == b
  {
    hide Value;
    ValueIs(a, b);
  }

  /** Where a repeater finds everything: numbers, slot, kind, color code, call type and ids, each at its bytes. */
  lemma FrameLayout(p: Packet, seqNo: bv8, colorCode: bv8)
    requires |p.dmrData| == 33 && EncodeSlotType(p).Some?
    ensures var d := FrameOf(p, EncodeSlotType(p).value, seqNo, colorCode);
      && d[0] == d[1] == d[2] == d[3] == 0x5A && d[4] == seqNo
      && d[8] == (if p.frameType == 2 && p.dtypeOrVSeq == 2 then 0x43 else 0x41)
      && d[12] == (if p.slot then 0x02 else 0x01) && d[16] == d[17] == (if p.slot then 0x22 else 0x11)
      && d[18] == d[19] && Value(d[18]) == 17 * Digit(p)
      && d[20] == d[21] == colorCode | (colorCode << 4)
      && d[62] == (if p.groupCall then 0x01 else 0x00)
      && Value(d[64]) + 0x100 * Value(d[65]) + 0x1_0000 * Value(d[66]) == p.dst % 0x100_0000
      && Value(d[68]) + 0x100 * Value(d[69]) + 0x1_0000 * Value(d[70]) == p.src % 0x100_0000
  {
    hide FrameOf, Value, DataSlotType, VoiceSlotType;
    SlotTypeDigits(p);
    CopiedDigit(Digit(p));
    FrontLayout(p, EncodeSlotType(p).value, seqNo, colorCode);
    TailLayout(p, EncodeSlotType(p).value, seqNo, colorCode);
  }

  lemma FrontLayout(p: Packet, slotType: nat, seqNo: bv8, colorCode: bv8)
    requires |p.dmrData| == 33
    ensures var d := FrameOf(p, slotType, seqNo, colorCode);
      && d[0] == d[1] == d[2] == d[3] == 0x5A && d[4] == seqNo
      && d[8] == (if p.frameType == 2 && p.dtypeOrVSeq == 2 then 0x43 else 0x41)
      && d[12] == (if p.slot then 0x02 else 0x01) && d[16] == d[17] == (if p.slot then 0x22 else 0x11)
      && d[18] == Word16(slotType)[0] && d[19] == Word16(slotType)[1]
      && d[20] == d[21] == colorCode | (colorCode << 4)
  {
    hide Swapped, Word16, Tail;
    var d := FrameOf(p, slotType, seqNo, colorCode);
    var front := Front(p.slot, seqNo, PacketTypeOf(p), slotType, ColorByte(colorCode));
    assert forall k :: 0 <= k < 26 ==> d[k] == front[k];
  }

  lemma TailLayout(p: Packet, slotType: nat, seqNo: bv8, colorCode: bv8)
    requires |p.dmrData| == 33
    ensures var d := FrameOf(p, slotType, seqNo, colorCode);
      && d[62] == (if p.groupCall then 0x01 else 0x00)
      && Value(d[64]) + 0x100 * Value(d[65]) + 0x1_0000 * Value(d[66]) == p.dst % 0x100_0000
      && Value(d[68]) + 0x100 * Value(d[69]) + 0x1_0000 * Value(d[70]) == p.src % 0x100_0000
  {
    hide Swapped, Front, Value, LowByte;
    var d := FrameOf(p, slotType, seqNo, colorCode);
    assert forall k :: 0 <= k < 12 ==> d[60 + k] == Tail(p)[k];
    Id24RoundTrip(p.src);
    Id24RoundTrip(p.dst);
  }

  /** A frame that lost its first nine bytes, prefix and sequence byte included, still says the same. */
  lemma UnprefixedRead(p: Packet, seqNo: bv8, colorCode: bv8, front: seq<bv8>)
    requires |p.dmrData| == 33 && EncodeSlotType(p).Some? && |front| == 9
    ensures ReadFrame(front + FrameOf(p, EncodeSlotType(p).value, seqNo, colorCode)[9..]) == Read(FieldsOf(p, EncodeSlotType(p).value))
  {
    hide *;
    var t := EncodeSlotType(p).value;
    var d := FrameOf(p, t, seqNo, colorCode);
    FrameRoundTrip(p, seqNo, colorCode);
    SecondHeader(p, t, seqNo, colorCode);
    SameBehind(d, front + d[9..]);
  }

  /** From the tenth byte on, two frames with the second header pattern agree, and so does what they say. */
  lemma SameBehind(d: seq<bv8>, e: seq<bv8>)
    requires |d| == |e| == 72 && d[9..] == e[9..]
    requires d[9] == 0x00 && d[10] == 0x05 && d[11] == 0x01 && (d[12] == 0x01 || d[12] == 0x02)
    requires Read16(d[16..18]) == 0x1111 || Read16(d[16..18]) == 0x2222
    ensures ReadFrame(d) == ReadFrame(e)
  {
    hide Swapped, IdFrom24LE, DecodeSlotType, Read16, HasNativePrefix;
    assert forall k :: 9 <= k < 72 ==> d[k] == d[9..][k - 9] && e[k] == e[9..][k - 9];
    assert e[16..18] == d[16..18] && e[18..20] == d[18..20] && e[26..60] == d[26..60];
    assert e[64..68] == d[64..68] && e[68..] == d[68..];
  }

  lemma SecondHeader(p: Packet, slotType: nat, seqNo: bv8, colorCode: bv8)
    requires |p.dmrData| == 33
    ensures var d := FrameOf(p, slotType, seqNo, colorCode);
      && d[9] == 0x00 && d[10] == 0x05 && d[11] == 0x01 && (d[12] == 0x01 || d[12] == 0x02)
      && (Read16(d[16..18]) == 0x1111 || Read16(d[16..18]) == 0x2222)
  {
    hide Swapped, Word16, Tail, Value;
    var d := FrameOf(p, slotType, seqNo, colorCode);
    assert d[..26] == Front(p.slot, seqNo, PacketTypeOf(p), slotType, ColorByte(colorCode));
    assert d[16..18] == d[..26][16..18] == if p.slot then [0x22, 0x22] else [0x11, 0x11];
    assert Value(0x22) == 0x22 && Value(0x11) == 0x11 by {
      MarkValues();
    }
  }

  lemma MarkValues()
    ensures Value(0x22) == 0x22 && Value(0x11) == 0x11
  {
  }

  /** The slot type is one digit, at most 0xC, four times. */
  ghost predicate InUse(t: nat) {
    exists n: nat :: n <= 12 && t == 0x1111 * n
  }

  lemma UsedIff(t: nat)
    ensures InUse(t) <==> !IgnoredType(t)
  {
    if InUse(t) {
      var n: nat :| n <= 12 && t == 0x1111 * n;
      assert DecodeSlotType(0x1111 * n).Some?;
    }
    if DecodeSlotType(t).Some? {
      assert t == 0x1111 * (t / 0x1111) && t / 0x1111 <= 12;
    }
  }

  /**
    What becomes of any bytes at all: fewer than 38 are malformed; without a header or a slot type in use they are ignored; of the
    others only 72 bytes can be read, 38 stop the original, and every other length is malformed.
   */
  lemma ReadingIs(d: seq<bv8>)
    ensures var used := |d| >= 38 && HasHeader(d) && InUse(Read16(d[18..20]));
      && (ReadFrame(d).Malformed? <==> |d| < 38 || (used && |d| != 38 && |d| != 72))
      && (ReadFrame(d).Ignored? <==> |d| >= 38 && !used)
      && (ReadFrame(d).Stops? <==> used && |d| == 38)
      && (ReadFrame(d).Read? <==> used && |d| == 72)
  {
    hide HasHeader, Read16, IgnoredType, InUse, IdFrom24LE;
    if |d| >= 38 {
      UsedIff(Read16(d[18..20]));
    }
  }

  /** What arrives, but for the numbers the receiver gives out. */
  ghost predicate SamePacket(q: Packet, p: Packet) {
    && q.slot == p.slot && q.groupCall == p.groupCall && q.src == Low24(p.src) && q.dst == Low24(p.dst)
    && (q.frameType, q.dtypeOrVSeq) == KindOf(p) && q.dmrData == p.dmrData
  }

  /** End to end: the packet is delivered if and only if its sequence byte is not the one last seen on the slot. */
  lemma EndToEnd(s: State, r: State, p: Packet, colorCode: bv8, now: nat, bridgeId: nat)
    requires |p.dmrData| == 33 && EncodeSlotType(p).Some?
    ensures var (s', e) := EncodedAs(s, p, colorCode);
      e.Encoded? && |e.data| == 72 && e.data[4] == LowByte(SlotAt(s', p.slot).outSeq) &&
      var (r', o) := Decoded(r, e.data, now, bridgeId);
      && (o.Delivered? <==> SlotAt(r, p.slot).inLastSeq != Some(e.data[4]))
      && (o.Delivered? ==> SamePacket(o.packet, p) && o.packet.repeater == bridgeId && SlotAt(r', p.slot).inLastSeq == Some(e.data[4]))
      && SlotAt(r', !p.slot) == SlotAt(r, !p.slot)
  {
    hide FrameOf, ReadFrame, EncodeSlotType, ShouldStartNewInboundStream, Successor, LowByte, Low24;
    var (s', e) := EncodedAs(s, p, colorCode);
    assert SlotAt(s', p.slot).outSeq == (SlotAt(s, p.slot).outSeq + 1) % 256;
    FrameRoundTrip(p, e.data[4], colorCode);
    SlotTypeRoundTrip(p);
    FrontRead(p, EncodeSlotType(p).value, LowByte(SlotAt(s', p.slot).outSeq), colorCode);
  }

  // ---------- Standardised link control ----------

  /** The data type whose parity mask a header or terminator uses. */
  function LcType(p: Packet): bv8 {
    if p.dtypeOrVSeq == 1 then VOICE_LC_HEADER else TERMINATOR_WITH_LC
  }

  /**
    A standardised header or terminator that crosses the Hytera link still holds its link control: decoding the
    burst of the delivered packet gives the 12 bytes, masked parity included, and they name the same call.
   */
  lemma StandardizedEndToEnd(p: Packet, colorCode: bv8, so: bv8, delivered: Packet)
    requires p.frameType == 2 && (p.dtypeOrVSeq == 1 || p.dtypeOrVSeq == 2)
    requires SamePacket(delivered, Standardized(p, colorCode, so)) && |delivered.dmrData| == 33
    ensures var c := Call(p.src, p.dst, p.groupCall, so);
      LcIn(delivered.dmrData) == Recovered(LcOf(c, LcType(p))) && CallOf(LcOf(c, LcType(p))) == OnAir(c)
  {
    hide LcIn, BuiltBurst, StandardLc, CallOf, OnAir;
    LcRoundTrip(StandardLc(p.src, p.dst, p.groupCall, so, LcType(p)), LcType(p), colorCode & 0x0F);
    CallRoundTrip(Call(p.src, p.dst, p.groupCall, so), LcType(p));
  }

  /**
    Standardising changes the burst of headers and terminators, and nothing else: the new burst has the data sync, and says of itself
    the color code and whether it is a header or a terminator.
   */
  lemma StandardizedBurst(p: Packet, colorCode: bv8, so: bv8)
    ensures var q := Standardized(p, colorCode, so);
      if p.frameType == 2 && (p.dtypeOrVSeq == 1 || p.dtypeOrVSeq == 2)
      then
        && q.(dmrData := p.dmrData) == p && |q.dmrData| == 33 && Bits(q.dmrData)[108..156] == Bits(DATA_SYNC)
        && Bits(q.dmrData)[98..106] == Bits([((colorCode & 0xF) << 4) | (if p.dtypeOrVSeq == 1 then 0x01 else 0x02)])
      else q == p
  {
    hide BuiltBurst, StandardLc, Bits;
    var t := LcType(p);
    SlotTypeInBurst(StandardLc(p.src, p.dst, p.groupCall, so, t), t, colorCode & 0x0F);
    NibbleTwice(colorCode);
  }

  lemma NibbleTwice(c: bv8)
    ensures (c & 0x0F) & 0xF == c & 0xF
    ensures 0x01 & 0xF == 0x01 as bv8 && 0x02 & 0xF == 0x02 as bv8
  {
  }

  // ---------- A link without loss ----------

  /** The sender numbers frames slot by slot and the receiver last saw the sender's last number, or nothing. */
  ghost predicate InStep(s: State, r: State) {
    forall b: bool :: SlotAt(s, b).outSeq < 256 &&
      (SlotAt(r, b).inLastSeq.Some? ==> SlotAt(r, b).inLastSeq.value == LowByte(SlotAt(s, b).outSeq))
  }

  ghost predicate Encodable(p: Packet) {
    |p.dmrData| == 33 && EncodeSlotType(p).Some?
  }

  /** Sender, receiver and what is delivered, once a packet is sent and its frame passed on. */
  datatype Hop = Hop(sender: State, receiver: State, out: seq<Packet>)

  function Pass(s: State, r: State, p: Packet, colorCode: bv8, now: nat, bridgeId: nat): Hop
    requires |p.dmrData| == 33
  {
    var (s', e) := EncodedAs(s, p, colorCode);
    if e.Unsupported? then Hop(s', r, [])
    else
      var (r', o) := Decoded(r, e.data, now, bridgeId);
      Hop(s', r', if o.Delivered? then [o.packet] else [])
  }

  /** What the receiver delivers when each frame is passed on as it is sent. */
  function Relayed(s: State, r: State, ps: seq<Packet>, times: seq<nat>, colorCode: bv8, bridgeId: nat): seq<Packet>
    requires |times| == |ps| && forall i :: 0 <= i < |ps| ==> |ps[i].dmrData| == 33
    decreases |ps|
  {
    if ps == [] then []
    else
      var hop := Pass(s, r, ps[0], colorCode, times[0], bridgeId);
      hop.out + Relayed(hop.sender, hop.receiver, ps[1..], times[1..], colorCode, bridgeId)
  }

  lemma NextByteDiffers(n: nat)
    requires n < 256
    ensures LowByte((n + 1) % 256) != LowByte(n)
  {
    hide LowByte, Value;
    LowByteValue(n);
    LowByteValue((n + 1) % 256);
  }

  lemma StepInStep(s: State, r: State, p: Packet, colorCode: bv8, now: nat, bridgeId: nat)
    requires InStep(s, r) && Encodable(p)
    ensures var hop := Pass(s, r, p, colorCode, now, bridgeId);
      |hop.out| == 1 && SamePacket(hop.out[0], p) && InStep(hop.sender, hop.receiver)
  {
    hide Decoded, EncodeSlotType, FrameOf, LowByte, SamePacket;
    EndToEnd(s, r, p, colorCode, now, bridgeId);
    NextByteDiffers(SlotAt(s, p.slot).outSeq);
    var (s', e) := EncodedAs(s, p, colorCode);
    assert SlotAt(s', p.slot).outSeq == (SlotAt(s, p.slot).outSeq + 1) % 256;
    assert SlotAt(s', !p.slot) == SlotAt(s, !p.slot);
  }

  /** Nothing is lost, repeated or reordered: every packet sent, on either slot, arrives with its contents. */
  lemma {:induction false} Lossless(s: State, r: State, ps: seq<Packet>, times: seq<nat>, colorCode: bv8, bridgeId: nat)
    requires |times| == |ps| && (forall i :: 0 <= i < |ps| ==> |ps[i].dmrData| == 33 && Encodable(ps[i])) && InStep(s, r)
    ensures var out := Relayed(s, r, ps, times, colorCode, bridgeId);
      |out| == |ps| && forall i :: 0 <= i < |ps| ==> SamePacket(out[i], ps[i])
    decreases |ps|
  {
    hide Pass, InStep, SamePacket, Encodable;
    if ps != [] {
      StepInStep(s, r, ps[0], colorCode, times[0], bridgeId);
      var hop := Pass(s, r, ps[0], colorCode, times[0], bridgeId);
      Lossless(hop.sender, hop.receiver, ps[1..], times[1..], colorCode, bridgeId);
      var rest := Relayed(hop.sender, hop.receiver, ps[1..], times[1..], colorCode, bridgeId);
      var out := Relayed(s, r, ps, times, colorCode, bridgeId);
      assert out == hop.out + rest;
      forall i | 0 <= i < |ps|
        ensures SamePacket(out[i], ps[i])
      {
        assert i > 0 ==> out[i] == rest[i - 1] && ps[i] == ps[1..][i - 1];
      }
    }
  }
}
