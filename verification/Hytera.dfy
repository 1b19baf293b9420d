/**
  The Hytera wire codec, from internal/hytera/server.go: DMRD packets to and from 72-byte frames, with
  the per-slot state that numbers frames, drops repeats and splits calls into streams.
 */
module Hytera {
  import opened Options
  import opened Bytes
  import opened ByteValues
  import opened LinkControl
  import opened Dmrd
  import opened LcBurst
  import opened IpscHeader
  import opened Streams

  datatype SlotState = SlotState(
    inLastSeq: Option<bv8>, mmdvmSeq: nat, outSeq: nat, streamId: nat, active: bool,
    inSrc: Id, inDst: Id, inGroupCall: bool, lastInbound: nat)

  const NEW_SLOT := SlotState(None, 0, 0, 0, false, 0, 0, false, 0)

  const PREFIX: bv8 := 0x5A
  const PACKET_A: bv8 := 0x41
  const PACKET_TERMINATOR: bv8 := 0x43
  const PRIVACY_INDICATOR: nat := 0x0000
  const LC_HEADER: nat := 0x1111
  const TERMINATOR: nat := 0x2222
  const WAKEUP_REQUEST: nat := 0xDDDD
  const SYNC: nat := 0xEEEE
  const GROUP_HANG_TIME: nat := 6000
  const PRIVATE_HANG_TIME: nat := 4000

  // ---------- Standardised link control ----------

  /** Headers and terminators get a fresh standard link control in their burst; other packets pass. */
  function Standardized(p: Packet, colorCode: bv8, so: bv8): Packet {
    if p.frameType == 2 && p.dtypeOrVSeq == 1 then
      p.(dmrData := BuiltBurst(StandardLc(p.src, p.dst, p.groupCall, so, VOICE_LC_HEADER), VOICE_LC_HEADER, colorCode & 0x0F))
    else if p.frameType == 2 && p.dtypeOrVSeq == 2 then
      p.(dmrData := BuiltBurst(StandardLc(p.src, p.dst, p.groupCall, so, TERMINATOR_WITH_LC), TERMINATOR_WITH_LC, colorCode & 0x0F))
    else p
  }

  method StandardizeMotoLCPacketWithSO(p: Packet, colorCode: bv8, so: bv8) returns (out: Packet)
    ensures out == Standardized(p, colorCode, so)
  {
    hide BuiltBurst, StandardLc;
    out := p;
    var cc := colorCode & 0x0F;
    if p.frameType == 2 && p.dtypeOrVSeq == 1 {
      var lc := BuildStandardLCBytesForDataType(p.src, p.dst, p.groupCall, so, VOICE_LC_HEADER);
      var burst := BuildLCDataBurst(lc, VOICE_LC_HEADER, cc);
      out := out.(dmrData := burst);
    } else if p.frameType == 2 && p.dtypeOrVSeq == 2 {
      var lc := BuildStandardLCBytesForDataType(p.src, p.dst, p.groupCall, so, TERMINATOR_WITH_LC);
      var burst := BuildLCDataBurst(lc, TERMINATOR_WITH_LC, cc);
      out := out.(dmrData := burst);
    }
  }

  // ---------- Slot types ----------

  /** The data types with a slot type, and it; then the voice phases A to F. */
  function DataSlotType(dtype: nat): Option<nat> {
    match dtype
    case 0 => Some(PRIVACY_INDICATOR)
    case 1 => Some(LC_HEADER)
    case 2 => Some(TERMINATOR)
    case 3 => Some(0x3333)
    case 6 => Some(0x4444)
    case 7 => Some(0x5555)
    case 8 => Some(0x6666)
    case _ => None
  }

  function VoiceSlotType(phase: nat): Option<nat> {
    match phase
    case 0 => Some(0xBBBB)
    case 1 => Some(0xCCCC)
    case 2 => Some(0x7777)
    case 3 => Some(0x8888)
    case 4 => Some(0x9999)
    case 5 => Some(0xAAAA)
    case _ => None
  }

  function EncodeSlotType(p: Packet): Option<nat> {
    if p.frameType == 2 then DataSlotType(p.dtypeOrVSeq) else VoiceSlotType(p.dtypeOrVSeq)
  }

  /** Frame type and data type or voice phase; sync and wakeup are not here. */
  function DecodeSlotType(slotType: nat): Option<(nat, nat)> {
    match slotType
    case 0x1111 => Some((2, 1))
    case 0x2222 => Some((2, 2))
    case 0x3333 => Some((2, 3))
    case 0x4444 => Some((2, 6))
    case 0x5555 => Some((2, 7))
    case 0x6666 => Some((2, 8))
    case 0xBBBB => Some((1, 0))
    case 0xCCCC => Some((0, 1))
    case 0x7777 => Some((0, 2))
    case 0x8888 => Some((0, 3))
    case 0x9999 => Some((0, 4))
    case 0xAAAA => Some((0, 5))
    case 0x0000 => Some((2, 0))
    case _ => None
  }

  // ---------- Payload and ids ----------

  /** The other byte of a pair. */
  function Partner(i: nat): nat {
    if i % 2 == 0 then i + 1 else i - 1
  }

  /** Bytes swapped in pairs; an odd payload is padded first, an even one loses its last byte afterwards. */
  function Swapped(data: seq<bv8>): (out: seq<bv8>)
    requires data != []
    ensures |out| == if |data| % 2 == 1 then |data| + 1 else |data| - 1
  {
    if |data| % 2 == 1 then
      var padded := data + [0];
      seq(|padded|, i requires 0 <= i < |padded| => padded[Partner(i)])
    else
      seq(|data| - 1, i requires 0 <= i < |data| - 1 => data[Partner(i)])
  }

  /** Byte by byte: the two bytes of each pair change places; after an odd payload's last byte there was a zero. */
  predicate PairsSwapped(data: seq<bv8>, out: seq<bv8>) {
    && data != [] && |out| == (if |data| % 2 == 1 then |data| + 1 else |data| - 1)
    && (forall i: nat :: i % 2 == 0 && i + 1 < |data| - 1 ==> out[i] == data[i + 1] && out[i + 1] == data[i])
    && (if |data| % 2 == 1 then out[|data| - 1] == 0x00 && out[|data|] == data[|data| - 1] else out[|data| - 2] == data[|data| - 1])
  }

  lemma SwapsPairs(data: seq<bv8>)
    requires data != []
    ensures PairsSwapped(data, Swapped(data))
  {
    hide Partner;
    var out, n := Swapped(data), |data|;
    forall i: nat | i % 2 == 0 && i + 1 < n - 1
      ensures out[i] == data[i + 1] && out[i + 1] == data[i]
    {
      Pair(i);
    }
    if n % 2 == 1 {
      Pair(n - 1);
    } else {
      Pair(n - 2);
    }
  }

  /** An empty payload has no last byte to lose, which stops the original. */
  method SwapDMRPayload(data: seq<bv8>) returns (r: Option<seq<bv8>>)
    ensures r == if data == [] then None else Some(Swapped(data))
    ensures r.Some? ==> PairsSwapped(data, r.value)
  {
    hide Partner, PairsSwapped;
    if data == [] {
      return None;
    }
    var odd := |data| % 2 == 1;
    var padded := if odd then data + [0] else data;
    var buf := SwapPairs(padded);
    var out := if odd then buf else buf[..|buf| - 1];
    assert |out| == |Swapped(data)|;
    forall k: nat | k < |out|
      ensures out[k] == Swapped(data)[k]
    {
      assert out[k] == padded[Partner(k)];
    }
    assert out == Swapped(data);
    SwapsPairs(data);
    r := Some(out);
  }

  lemma Pair(i: nat)
    requires i % 2 == 0
    ensures Partner(i) == i + 1 && Partner(i + 1) == i
  {
  }

  lemma PartnerInRange(n: nat, i: nat)
    requires n % 2 == 0 && i < n
    ensures Partner(i) < n
  {
  }

  /** The swapping loop, in place on a copy. */
  method SwapPairs(data: seq<bv8>) returns (out: seq<bv8>)
    requires |data| % 2 == 0
    ensures |out| == |data| && forall k :: 0 <= k < |out| ==> Partner(k) < |data| && out[k] == data[Partner(k)]
  {
    hide Partner;
    var n := |data|;
    forall k: nat | k < n
      ensures Partner(k) < n
    {
      PartnerInRange(n, k);
    }
    var buf := new bv8[n](i requires 0 <= i < n => data[i]);
    var h := 0;
    while 2 * h + 1 < n
      invariant 0 <= 2 * h <= n
      invariant forall k :: 0 <= k < 2 * h ==> buf[k] == data[Partner(k)]
      invariant forall k :: 2 * h <= k < n ==> buf[k] == data[k]
    {
      Pair(2 * h);
      buf[2 * h], buf[2 * h + 1] := buf[2 * h + 1], buf[2 * h];
      h := h + 1;
    }
    out := buf[..];
  }

  /** An id as four bytes, low byte first, the last one zero. */
  function Id24LE(id: Id): (s: seq<bv8>)
    ensures |s| == 4
  {
    [LowByte(id), LowByte(id / 0x100), LowByte(id / 0x1_0000), 0x00]
  }

  function IdFrom24LE(s: seq<bv8>): Id
    requires |s| == 4
  {
    Value(s[0]) + Value(s[1]) * 0x100 + Value(s[2]) * 0x1_0000
  }

  // ---------- The frame ----------

  /** The 26 bytes before the payload. */
  function Front(slot: bool, seqNo: bv8, packetType: bv8, slotType: nat, cc: bv8): (s: seq<bv8>)
    ensures |s| == 26
  {
    [PREFIX, PREFIX, PREFIX, PREFIX, seqNo, 0xE0, 0x00, 0x00, packetType, 0x00, 0x05, 0x01, if slot then 0x02 else 0x01,
     0x00, 0x00, 0x00] +
    (if slot then [0x22, 0x22] else [0x11, 0x11]) + Word16(slotType) + [cc, cc, 0x00, 0x00, 0x40, 0x5C]
  }

  /** The 12 bytes after it. */
  function Tail(p: Packet): (s: seq<bv8>)
    ensures |s| == 12
  {
    [0x63, 0x02, if p.groupCall then 0x01 else 0x00, 0x00] + Id24LE(p.dst) + Id24LE(p.src)
  }

  /** The color code twice in one byte. */
  function ColorByte(colorCode: bv8): bv8 {
    colorCode | (colorCode << 4)
  }

  function PacketTypeOf(p: Packet): bv8 {
    if IsTerminator(p) then PACKET_TERMINATOR else PACKET_A
  }

  function FrameOf(p: Packet, slotType: nat, seqNo: bv8, colorCode: bv8): (s: seq<bv8>)
    requires |p.dmrData| == 33
    ensures |s| == 72
  {
    Front(p.slot, seqNo, PacketTypeOf(p), slotType, ColorByte(colorCode)) + Swapped(p.dmrData) + Tail(p)
  }

  predicate HasNativePrefix(data: seq<bv8>) {
    |data| >= 4 && data[0] == PREFIX && data[1] == PREFIX && data[2] == PREFIX && data[3] == PREFIX
  }

  predicate HasHeader(data: seq<bv8>) {
    HasNativePrefix(data) ||
    (|data| >= 20 && data[9] == 0x00 && data[10] == 0x05 && data[11] == 0x01 && (data[12] == 0x01 || data[12] == 0x02) &&
     (Read16(data[16..18]) == 0x1111 || Read16(data[16..18]) == 0x2222))
  }

  datatype Fields = Fields(slot: bool, slotType: nat, frameType: nat, dtype: nat, src: Id, dst: Id, groupCall: bool, dmrData: seq<bv8>)

  datatype Reading = Read(fields: Fields) | Ignored | Malformed | Stops

  predicate IgnoredType(slotType: nat) {
    slotType == SYNC || slotType == WAKEUP_REQUEST || DecodeSlotType(slotType).None?
  }

  /** A frame with a header and a slot type in use, but no payload: swapping its payload is an error that stops the original. */
  predicate NoPayload(data: seq<bv8>) {
    |data| == 38 && HasHeader(data) && !IgnoredType(Read16(data[18..20]))
  }

  /** What the bytes of a frame say. */
  function ReadFrame(data: seq<bv8>): Reading
  {
    if |data| < 38 then Malformed
    else if !HasHeader(data) then Ignored
    else
      var slotType := Read16(data[18..20]);
      var kind := DecodeSlotType(slotType);
      var tail := |data| - 12;
      if IgnoredType(slotType) then Ignored
      else if tail == 26 then Stops
      else if |Swapped(data[26..tail])| != 33 then Malformed
      else
        Read(Fields(data[12] != 0x01, slotType, kind.value.0, kind.value.1,
                    IdFrom24LE(data[tail + 8..]), IdFrom24LE(data[tail + 4..tail + 8]), data[tail + 2] == 0x01,
                    Swapped(data[26..tail])))
  }

  // ---------- The slot state ----------

  predicate ShouldStartNewInboundStream(st: SlotState, f: Fields, now: nat) {
    if !st.active then true
    else if f.slotType != LC_HEADER then false
    else if st.inSrc != f.src || st.inDst != f.dst || st.inGroupCall != f.groupCall then true
    else st.lastInbound == 0 || now - st.lastInbound > (if f.groupCall then GROUP_HANG_TIME else PRIVATE_HANG_TIME)
  }

  /** Frames with the native prefix repeat their sequence byte when they repeat. */
  predicate Repeats(st: SlotState, data: seq<bv8>) {
    HasNativePrefix(data) && |data| > 4 && st.inLastSeq == Some(data[4])
  }

  datatype State = State(slots: map<bool, SlotState>, nextStreamId: nat)

  function SlotAt(s: State, slot: bool): SlotState {
    if slot in s.slots then s.slots[slot] else NEW_SLOT
  }

  /** The slot once a frame is taken in. */
  function TakenIn(st: SlotState, data: seq<bv8>, f: Fields, now: nat, nextStreamId: nat): SlotState {
    var st1 := if HasNativePrefix(data) && |data| > 4 then st.(inLastSeq := Some(data[4])) else st;
    var streamId := if ShouldStartNewInboundStream(st, f, now) then nextStreamId else st.streamId;
    st1.(streamId := streamId, active := f.slotType != TERMINATOR, inSrc := f.src, inDst := f.dst, inGroupCall := f.groupCall,
         lastInbound := now, mmdvmSeq := (st.mmdvmSeq + 1) % 256)
  }

  datatype Outcome = Delivered(packet: Packet) | Skipped | Rejected | Stopped

  function Decoded(s: State, data: seq<bv8>, now: nat, bridgeId: nat): (State, Outcome)
  {
    match ReadFrame(data)
    case Stops => (s, Stopped)
    case Malformed => (s, Rejected)
    case Ignored => (s, Skipped)
    case Read(f) =>
      var st := SlotAt(s, f.slot);
      if Repeats(st, data) then (s.(slots := s.slots[f.slot := st]), Skipped)
      else
        var st' := TakenIn(st, data, f, now, s.nextStreamId);
        (State(s.slots[f.slot := st'], if ShouldStartNewInboundStream(st, f, now) then Successor(s.nextStreamId) else s.nextStreamId),
         Delivered(Packet(st.mmdvmSeq, f.src, f.dst, bridgeId, f.slot, f.groupCall, f.frameType, f.dtype, st'.streamId, f.dmrData)))
  }

  datatype Encoding = Encoded(data: seq<bv8>) | Unsupported

  /** The sequence byte moves on even when the packet has no encoding. */
  function EncodedAs(s: State, p: Packet, colorCode: bv8): (r: (State, Encoding))
    requires |p.dmrData| == 33
    ensures r.1.Encoded? ==> |r.1.data| == 72
  {
    var st := SlotAt(s, p.slot);
    var st' := st.(outSeq := (st.outSeq + 1) % 256);
    var slotType := EncodeSlotType(p);
    (s.(slots := s.slots[p.slot := st']),
     if slotType.None? then Unsupported else Encoded(FrameOf(p, slotType.value, LowByte(st'.outSeq), colorCode)))
  }

  method PutFront(buf: array<bv8>, slot: bool, seqNo: bv8, packetType: bv8, slotType: nat, cc: bv8)
    requires buf.Length >= 26
    modifies buf
    ensures buf[..26] == Front(slot, seqNo, packetType, slotType, cc)
  {
    hide Word16;
    var lead := [PREFIX, PREFIX, PREFIX, PREFIX, seqNo, 0xE0, 0x00, 0x00, packetType, 0x00, 0x05, 0x01,
                 if slot then 0x02 else 0x01, 0x00, 0x00, 0x00];
    Put(buf, 0, lead);
    Put(buf, 16, if slot then [0x22, 0x22] else [0x11, 0x11]);
    Put(buf, 18, Word16(slotType));
    Put(buf, 20, [cc, cc, 0x00, 0x00, 0x40, 0x5C]);
    assert buf[..16 + 2 + 2 + 6] ==
      lead + (if slot then [0x22, 0x22] else [0x11, 0x11]) + Word16(slotType) + [cc, cc, 0x00, 0x00, 0x40, 0x5C];
  }

  method BuildFrame(p: Packet, slotType: nat, seqNo: bv8, colorCode: bv8) returns (data: seq<bv8>)
    requires |p.dmrData| == 33
    ensures data == FrameOf(p, slotType, seqNo, colorCode)
    ensures forall i: nat :: i % 2 == 0 && i < 32 ==> data[26 + i] == p.dmrData[i + 1] && data[27 + i] == p.dmrData[i]
    ensures data[58] == 0x00 && data[59] == p.dmrData[32]
  {
    hide Swapped, Front, Tail, ColorByte, PacketTypeOf;
    var swapped := SwapDMRPayload(p.dmrData);
    var payload := swapped.value;
    var buf := new bv8[26 + |payload| + 12](_ => 0);
    PutFront(buf, p.slot, seqNo, PacketTypeOf(p), slotType, ColorByte(colorCode));
    Put(buf, 26, payload);
    Put(buf, 26 + |payload|, Tail(p));
    data := buf[..];
    assert buf[..72] == buf[..];
    assert forall i: nat :: i < 34 ==> data[26 + i] == payload[i];
  }

  class Server {
    var slots: map<bool, SlotState>
    var nextStreamId: nat
    const colorCode: bv8
    const bridgeId: nat

    function Now(): State
      reads this
    {
      State(slots, nextStreamId)
    }

    constructor (colorCode: bv8, bridgeId: nat)
      ensures Now() == State(map[false := NEW_SLOT, true := NEW_SLOT], 1)
      ensures this.colorCode == colorCode && this.bridgeId == bridgeId
    {
      slots, nextStreamId := map[false := NEW_SLOT, true := NEW_SLOT], 1;
      this.colorCode, this.bridgeId := colorCode, bridgeId;
    }

    method EncodeFromMMDVM(p: Packet) returns (r: Encoding)
      requires |p.dmrData| == 33
      modifies this`slots
      ensures (Now(), r) == EncodedAs(old(Now()), p, colorCode)
    {
      hide FrameOf, LowByte, DataSlotType, VoiceSlotType;
      var st := SlotAt(Now(), p.slot);
      st := st.(outSeq := (st.outSeq + 1) % 256);
      slots := slots[p.slot := st];
      var slotType := EncodeSlotType(p);
      if slotType.None? {
        return Unsupported;
      }
      var data := BuildFrame(p, slotType.value, LowByte(st.outSeq), colorCode);
      r := Encoded(data);
    }

    method DecodeToMMDVM(data: seq<bv8>, now: nat) returns (r: Outcome)
      modifies this`slots, this`nextStreamId
      ensures (Now(), r) == Decoded(old(Now()), data, now, bridgeId)
      ensures r.Stopped? <==> NoPayload(data)
    {
      if |data| < 38 {
        return Rejected;
      }
      if !HasHeader(data) {
        return Skipped;
      }
      var slot := data[12] != 0x01;
      var slotType := Read16(data[18..20]);
      if slotType == SYNC || slotType == WAKEUP_REQUEST {
        return Skipped;
      }
      var kind := DecodeSlotType(slotType);
      if kind.None? {
        return Skipped;
      }
      var tail := |data| - 12;
      var swapped := SwapDMRPayload(data[26..tail]);
      if swapped.None? {
        return Stopped;
      }
      var payload := swapped.value;
      if |payload| != 33 {
        return Rejected;
      }
      var f := Fields(slot, slotType, kind.value.0, kind.value.1, IdFrom24LE(data[tail + 8..]), IdFrom24LE(data[tail + 4..tail + 8]),
                      data[tail + 2] == 0x01, payload);
      assert ReadFrame(data) == Read(f);
      hide ReadFrame, HasHeader, DecodeSlotType, IdFrom24LE, Swapped;
      r := TakeIn(data, f, now);
    }

    /** Drops a repeated frame; otherwise files it under its call's stream. */
    method TakeIn(data: seq<bv8>, f: Fields, now: nat) returns (r: Outcome)
      requires |data| > 38 && ReadFrame(data) == Read(f)
      modifies this`slots, this`nextStreamId
      ensures (Now(), r) == Decoded(old(Now()), data, now, bridgeId) && !r.Stopped?
    {
      hide ReadFrame;
      var st := SlotAt(Now(), f.slot);
      slots := slots[f.slot := st];
      if HasNativePrefix(data) {
        if st.inLastSeq == Some(data[4]) {
          return Skipped;
        }
        st := st.(inLastSeq := Some(data[4]));
      }
      if !st.active || ShouldStartNewInboundStream(st, f, now) {
        st := st.(streamId := nextStreamId);
        nextStreamId := Successor(nextStreamId);
        st := st.(active := true);
      }
      if f.slotType == TERMINATOR {
        st := st.(active := false);
      }
      st := st.(inSrc := f.src, inDst := f.dst, inGroupCall := f.groupCall, lastInbound := now);
      r := Delivered(Packet(st.mmdvmSeq, f.src, f.dst, bridgeId, f.slot, f.groupCall, f.frameType, f.dtype, st.streamId, f.dmrData));
      st := st.(mmdvmSeq := (st.mmdvmSeq + 1) % 256);
      slots := slots[f.slot := st];
      assert slots == old(slots)[f.slot := st];
    }
  }
}
