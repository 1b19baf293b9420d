/** Packets written by one translator, read by another: what an IPSC peer running this code makes of our packets. */
module TranslatorRoundTrip {
  import opened LinkControl
  import opened Dmrd
  import opened LcBurst
  import opened IpscHeader
  import F = ForwardTranslator
  import R = ReverseTranslator

  /** What a receiver holds when the bytes arrive. */
  ghost predicate Arrives(f: R.Frame, sent: seq<seq<bv8>>) {
    f.data in sent && f.data != [] && f.packetType == f.data[0]
  }

  ghost predicate SameCall(f: R.Frame, p: Packet, callControl: nat) {
    && R.Translatable(f) && R.GroupCallOf(f) == p.groupCall && SlotIn(f.data) == p.slot
    && SrcIn(f.data) == Low24(p.src) && DstIn(f.data) == Low24(p.dst) && CallControlIn(f.data) == callControl % 0x1_0000_0000
  }

  /** The transport header of any packet we send is read back with the same call, call type, slot and 24-bit addresses. */
  lemma HeaderRead(
    st: F.Stream, p: Packet, peerId: nat, isEnd: bool, isData: bool, marker: bool, payloadType: bv8, body: seq<bv8>, f: R.Frame)
    requires |body| >= 1 && (payloadType == F.VOICE_PAYLOAD || payloadType == F.TERMINATOR_PAYLOAD)
    requires f.data == F.Wire(st, p, peerId, isEnd, isData, marker, payloadType, body) && f.packetType == f.data[0]
    ensures SameCall(f, p, st.callControl) && EndIn(f.data) == isEnd && f.data[30..] == body
  {
    hide HeaderBytes, RtpBytes, CallControlIn, RtpSeqIn, TimestampIn, MarkerIn, EndIn, SlotIn, SrcIn, DstIn, PeerIn, Low24;
    HeaderRoundTrip(F.HeaderFor(st, p, peerId, isEnd, isData), F.RtpFor(st, marker, payloadType), body);
  }

  /** A header or terminator arrives as one, and its 12 bytes are on the air again after the second translation. */
  lemma LcRelayed(st: F.Stream, i: F.Input, peerId: nat, f: R.Frame, there: R.Stream, repeater: nat, colorCode: bv8)
    requires (F.KindOf(i).VoiceHeader? || F.KindOf(i).Terminator?) && Arrives(f, F.Sent(st, i, peerId))
    ensures SameCall(f, i.packet, st.callControl)
    ensures R.KindOf(f, false) == (if F.KindOf(i).VoiceHeader? then R.VoiceHeader else R.Terminator)
    ensures LcIn(R.PacketFor(there, f, R.KindOf(f, false), repeater, colorCode).dmrData) == Recovered(i.lc)
  {
    hide F.Wire, EndIn, SameCall, BuiltBurst, LcIn, R.SrcFor, R.DstFor, F.RtpCounted;
    var p, header, d := i.packet, F.KindOf(i).VoiceHeader?, f.data;
    var body := F.LcBody(if header then 0x01 else 0x02, 0x80, p.slot, i.lc);
    if !header {
      HeaderRead(st, p, peerId, true, false, false, F.TERMINATOR_PAYLOAD, body, f);
    } else if d == F.HeaderWire(st, i, peerId, st.firstPacket) {
      HeaderRead(st, p, peerId, false, false, st.firstPacket, F.VOICE_PAYLOAD, body, f);
    } else {
      SecondHeaderCall(st);
      HeaderRead(F.RtpCounted(st), p, peerId, false, false, false, F.VOICE_PAYLOAD, body, f);
    }
    CallTranslatable(f, p, st.callControl);
    assert d[30] == d[30..][0] == body[0];
    assert |d| == 30 + |d[30..]| == 54;
    SliceOfTail(d, 30, 8, 20);
    assert body[8..20] == i.lc;
    LcRoundTrip(i.lc, R.DataTypeOf(R.KindOf(f, false)), colorCode);
  }

  lemma SliceOfTail(d: seq<bv8>, from: nat, a: nat, b: nat)
    requires a <= b && from + b <= |d|
    ensures d[from..][a..b] == d[from + a..from + b]
  {
  }

  lemma SecondHeaderCall(st: F.Stream)
    ensures F.RtpCounted(st).callControl == st.callControl
  {
  }

  lemma CallTranslatable(f: R.Frame, p: Packet, callControl: nat)
    requires SameCall(f, p, callControl)
    ensures R.Translatable(f)
  {
  }

  /** A voice packet arrives as voice on the same call, with the same 19 vocoder bytes where the receiver reads them. */
  lemma VoiceRelayed(st: F.Stream, i: F.Input, peerId: nat, f: R.Frame)
    requires F.KindOf(i).Voice? && Arrives(f, F.Sent(st, i, peerId))
    ensures SameCall(f, i.packet, st.callControl)
    ensures R.KindOf(f, false).Voice? && |f.data| >= 52 && f.data[33..52] == i.voice.value.0
  {
    hide F.Wire, EndIn, SameCall, F.VoiceBody;
    var p, d := i.packet, f.data;
    var body := F.VoiceBody(st.burstIndex % 6, p, i.voice.value.0, i.voice.value.1);
    HeaderRead(st, p, peerId, false, false, false, F.VOICE_PAYLOAD, body, f);
    CallTranslatable(f, p, st.callControl);
    assert d[30] == d[30..][0] == body[0];
    SliceOfTail(d, 30, 3, 22);
    VoiceBodyParts(st.burstIndex % 6, p, i.voice.value.0, i.voice.value.1);
  }

  lemma VoiceBodyParts(phase: nat, p: Packet, ambe: F.Ambe, emb: F.Embedded)
    ensures var body := F.VoiceBody(phase, p, ambe, emb); (body[0] == R.SLOT1 || body[0] == R.SLOT2) && body[3..22] == ambe
  {
  }
}
