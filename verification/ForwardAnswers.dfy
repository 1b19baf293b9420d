/** What each packet to a repeater becomes, byte by byte as a receiver reads it, in every run that obeys the search. */
module ForwardAnswers {
  import opened Options
  import opened ByteValues
  import opened LinkControl
  import opened Dmrd
  import opened IpscHeader
  import opened ForwardTranslator
  import opened Streams
  import opened ForwardTheorems
  import FP = ForwardPhases
  import FS = ForwardServing

  // ---------- What the bytes show ----------

  /** A data packet, or one with the end flag: after it the header's own sequence number moves on. */
  predicate MovesOn(d: Data) {
    |d| >= 31 && (d[0] == 0x83 || d[0] == 0x84 || EndIn(d))
  }

  function Moves(ds: seq<Data>): nat {
    if ds == [] then 0 else Moves(ds[..|ds| - 1]) + if MovesOn(ds[|ds| - 1]) then 1 else 0
  }

  /** How many IPSC packets a packet becomes. */
  function Copies(i: Input): nat {
    var p := i.packet;
    if p.frameType == 2 then
      if p.dtypeOrVSeq == 1 then 2 else if p.dtypeOrVSeq in {0, 2, 3, 4, 5, 6, 7, 8, 10} then 1 else 0
    else if p.frameType == 0 || p.frameType == 1 then (if i.voice.Some? then 1 else 0)
    else 0
  }

  /** The header says whose packet it is, and which packet after ds sent before. */
  predicate Addressed(d: Data, p: Packet, peerId: nat, ds: seq<Data>) {
    && |d| >= 31 && Read32(d[1..5]) == peerId % 0x1_0000_0000 && Value(d[5]) == Moves(ds) % 256
    && IdOf(d[6..9]) == Low24(p.src) && IdOf(d[9..12]) == Low24(p.dst) && (d[12] == 0x02 <==> p.groupCall)
    && (d[17] & 0x20 != 0 <==> p.slot) && (d[17] & 0x40 != 0 <==> p.frameType == 2 && p.dtypeOrVSeq == 2)
    && d[0] == (if p.frameType == 2 && p.dtypeOrVSeq != 1 && p.dtypeOrVSeq != 2 then (if p.groupCall then 0x83 else 0x84)
                else if p.groupCall then 0x80 else 0x81)
  }

  /** Call control, RTP sequence number and timestamp of the n-th packet of a call. */
  predicate Timed(d: Data, n: nat, callControl: nat) {
    |d| >= 31 && Read32(d[13..17]) == callControl && Read16(d[20..22]) == n % 0x1_0000 && Read32(d[22..26]) == 480 * n % 0x1_0000_0000
  }

  predicate SlotMark(b: bv8, slot: bool) {
    b == if slot then 0x8A else 0x0A
  }

  /** A header, terminator or data packet: its burst type, the slot, and the 12 bytes of the link control where a reader looks. */
  predicate HoldsLc(d: Data, i: Input) {
    && |d| == 54 && Value(d[30]) == i.packet.dtypeOrVSeq && SlotMark(d[35], i.packet.slot) && d[38..50] == i.lc
    && d[31] == if i.packet.dtypeOrVSeq == 1 || i.packet.dtypeOrVSeq == 2 then 0x80 else 0xC0
  }

  /** A voice packet of a phase: slot, vocoder bytes, and behind phase A the embedded signalling, in E the addresses too. */
  predicate HoldsVoice(d: Data, i: Input, phase: nat) {
    && i.voice.Some? && |d| == FP.VoiceLength(phase) && SlotMark(d[30], i.packet.slot) && d[33..52] == i.voice.value.0
    && (phase != 0 ==> d[52..56] == i.voice.value.1)
    && (phase == 4 ==> IdOf(d[59..62]) == Low24(i.packet.dst) && IdOf(d[62..65]) == Low24(i.packet.src))
  }

  // ---------- The sequence number in the header ----------

  ghost predicate Numbers(s: State, log: seq<Emission<Data>>) {
    forall h :: 0 <= h < |s.streams| ==> s.streams[h].ipscSeq == Moves(Of(log, h)) % 256
  }

  lemma MovesAppend(ds: seq<Data>, d: Data)
    ensures Moves(ds + [d]) == Moves(ds) + if MovesOn(d) then 1 else 0
  {
    assert (ds + [d])[..|ds|] == ds;
  }

  lemma WireMoves(st: Stream, p: Packet, peerId: nat, isEnd: bool, isData: bool, marker: bool, payloadType: bv8, body: seq<bv8>)
    requires |body| >= 1 && (payloadType == VOICE_PAYLOAD || payloadType == TERMINATOR_PAYLOAD)
    ensures MovesOn(Wire(st, p, peerId, isEnd, isData, marker, payloadType, body)) <==> isData || isEnd
  {
    hide HeaderBytes, RtpBytes, EndIn;
    HeaderRoundTrip(HeaderFor(st, p, peerId, isEnd, isData), RtpFor(st, marker, payloadType), body);
  }

  lemma SentMoves(st: Stream, ds: seq<Data>, i: Input, peerId: nat)
    ensures Moves(ds + Sent(st, i, peerId)) == Moves(ds) + if KindOf(i).Terminator? || KindOf(i).Data? then 1 else 0
  {
    hide Wire, Moves, MovesOn, KindOf, LcBody, VoiceBody, RtpCounted;
    var p := i.packet;
    match KindOf(i) {
      case VoiceHeader =>
        var one, two := HeaderWire(st, i, peerId, st.firstPacket), HeaderWire(RtpCounted(st), i, peerId, false);
        WireMoves(st, p, peerId, false, false, st.firstPacket, VOICE_PAYLOAD, LcBody(0x01, 0x80, p.slot, i.lc));
        WireMoves(RtpCounted(st), p, peerId, false, false, false, VOICE_PAYLOAD, LcBody(0x01, 0x80, p.slot, i.lc));
        MovesAppend(ds, one);
        MovesAppend(ds + [one], two);
        assert ds + [one] + [two] == ds + [one, two];
      case Terminator =>
        WireMoves(st, p, peerId, true, false, false, TERMINATOR_PAYLOAD, LcBody(0x02, 0x80, p.slot, i.lc));
        MovesAppend(ds, TerminatorWire(st, i, peerId));
      case Data =>
        WireMoves(st, p, peerId, false, true, st.firstPacket, VOICE_PAYLOAD, LcBody(LowByte(p.dtypeOrVSeq), 0xC0, p.slot, i.lc));
        MovesAppend(ds, DataWire(st, i, peerId));
      case Voice =>
        VoiceKind(i);
        WireMoves(st, p, peerId, false, false, false, VOICE_PAYLOAD,
                  VoiceBody(st.burstIndex % 6, p, i.voice.value.0, i.voice.value.1));
        MovesAppend(ds, VoiceWire(st, i, peerId));
      case _ =>
        assert ds + [] == ds;
    }
  }

  lemma NumberOn(st: Stream, i: Input, n: nat)
    requires st.ipscSeq == n % 256
    ensures Advanced(st, i).ipscSeq == (n + if KindOf(i).Terminator? || KindOf(i).Data? then 1 else 0) % 256
  {
    hide KindOf, RtpCounted, NextBurst;
    RtpCountedKeeps(st);
    RtpCountedKeeps(RtpCounted(st));
    NextBurstKeeps(st);
    NextBurstKeeps(RtpCounted(st));
    assert (n % 256 + 1) % 256 == (n + 1) % 256;
  }

  lemma NextBurstKeeps(st: Stream)
    ensures NextBurst(st).ipscSeq == st.ipscSeq
  {
  }

  lemma NumbersOn(s: State, log: seq<Emission<Data>>, e: Event)
    requires Inv(s, log) && Numbers(s, log) && Acts(s, e)
    ensures Numbers(After(s, e), log + Emitted(s, e))
  {
    hide Opened, Server, KindOf, Sent, Of, WithoutAliases, Tracks, Advanced, Moves, NthId, LastOf;
    var i, p := e.input, e.input.packet;
    var o, h := Opened(s, p, e.now, e.found), Server(s, p, e.found);
    ServerInRange(s, i, e.now, e.found);
    NumbersOpened(s, log, p, e.now, e.found);
    var st := Serving(s, i, e.now, e.found);
    assert st.ipscSeq == o.streams[h].ipscSeq;
    SentMoves(st, Of(log, h), i, e.peerId);
    NumberOn(st, i, Moves(Of(log, h)));
    forall g | 0 <= g < |After(s, e).streams|
      ensures After(s, e).streams[g].ipscSeq == Moves(Of(log + Emitted(s, e), g)) % 256
    {
      OfTagged(log, h, Sent(st, i, e.peerId), g);
    }
  }

  lemma NumbersOpened(s: State, log: seq<Emission<Data>>, p: Packet, now: nat, found: Option<nat>)
    requires Inv(s, log) && Numbers(s, log)
    ensures Numbers(Opened(s, p, now, found), log)
  {
    hide Of, Tracks, NthId, LastOf;
    if |Opened(s, p, now, found).streams| > |s.streams| {
      NoneOf(log, |s.streams|);
    }
  }

  lemma {:induction false} NumbersAlways(es: seq<Event>)
    ensures Numbers(Final(es), Log(es))
  {
    if es != [] {
      var before, e := es[..|es| - 1], es[|es| - 1];
      NumbersAlways(before);
      Always(before);
      hide Inv, Numbers;
      if Acts(Final(before), e) {
        NumbersOn(Final(before), Log(before), e);
      } else {
        assert Log(before) + [] == Log(before);
        SameNumbers(Final(before), e, Log(before));
      }
    }
  }

  lemma SameNumbers(s: State, e: Event, log: seq<Emission<Data>>)
    requires Numbers(s, log) && !Acts(s, e)
    ensures Numbers(After(s, e), log)
  {
  }

  // ---------- The answer ----------

  lemma WireAddressed(
    st: Stream, p: Packet, peerId: nat, isEnd: bool, isData: bool, marker: bool, payloadType: bv8, body: seq<bv8>, ds: seq<Data>)
    requires |body| >= 1 && (payloadType == VOICE_PAYLOAD || payloadType == TERMINATOR_PAYLOAD) && st.ipscSeq == Moves(ds) % 256
    requires isEnd <==> p.frameType == 2 && p.dtypeOrVSeq == 2
    requires isData <==> p.frameType == 2 && p.dtypeOrVSeq != 1 && p.dtypeOrVSeq != 2
    ensures var d := Wire(st, p, peerId, isEnd, isData, marker, payloadType, body); Addressed(d, p, peerId, ds) && d[30..] == body
  {
    hide HeaderBytes, RtpBytes, CallControlIn, RtpSeqIn, TimestampIn, MarkerIn, Low24, Moves, Value, IdOf, Read32;
    HeaderRoundTrip(HeaderFor(st, p, peerId, isEnd, isData), RtpFor(st, marker, payloadType), body);
  }

  lemma LcPlace(d: Data, i: Input, burst: bv8, parity: bv8)
    requires |d| >= 30 && d[30..] == LcBody(burst, parity, i.packet.slot, i.lc) && Value(burst) == i.packet.dtypeOrVSeq
    requires parity == if i.packet.dtypeOrVSeq == 1 || i.packet.dtypeOrVSeq == 2 then 0x80 else 0xC0
    ensures HoldsLc(d, i)
  {
    hide Value;
    var body := LcBody(burst, parity, i.packet.slot, i.lc);
    assert forall k :: 0 <= k < 24 ==> d[30 + k] == body[k];
    assert d[38..50] == body[8..20] == i.lc;
  }

  lemma VoicePlace(d: Data, i: Input, phase: nat)
    requires i.voice.Some? && |d| >= 30 && d[30..] == VoiceBody(phase, i.packet, i.voice.value.0, i.voice.value.1)
    ensures HoldsVoice(d, i, phase)
  {
    hide IdBytes, IdOf, Low24;
    var body := VoiceBody(phase, i.packet, i.voice.value.0, i.voice.value.1);
    assert forall k :: 0 <= k < |body| ==> d[30 + k] == body[k];
    assert d[33..52] == body[3..22] == i.voice.value.0;
    if phase != 0 {
      assert d[52..56] == body[22..26] == i.voice.value.1;
    }
    if phase == 4 {
      assert d[59..62] == body[29..32] == IdBytes(i.packet.dst);
      assert d[62..65] == body[32..35] == IdBytes(i.packet.src);
      IdRoundTrip(i.packet.dst);
      IdRoundTrip(i.packet.src);
    }
  }

  ghost predicate Reads(d: Data, i: Input, peerId: nat, ds: seq<Data>, phase: nat) {
    Addressed(d, i.packet, peerId, ds) && if i.packet.frameType == 2 then HoldsLc(d, i) else HoldsVoice(d, i, phase)
  }

  lemma LcWireReads(
    st: Stream, i: Input, peerId: nat, isEnd: bool, isData: bool, marker: bool, payloadType: bv8, burst: bv8, parity: bv8, ds: seq<Data>)
    requires i.packet.frameType == 2 && (payloadType == VOICE_PAYLOAD || payloadType == TERMINATOR_PAYLOAD)
    requires st.ipscSeq == Moves(ds) % 256 && Value(burst) == i.packet.dtypeOrVSeq
    requires (isEnd <==> i.packet.dtypeOrVSeq == 2) && (isData <==> i.packet.dtypeOrVSeq != 1 && i.packet.dtypeOrVSeq != 2)
    requires parity == if i.packet.dtypeOrVSeq == 1 || i.packet.dtypeOrVSeq == 2 then 0x80 else 0xC0
    ensures var d := Wire(st, i.packet, peerId, isEnd, isData, marker, payloadType, LcBody(burst, parity, i.packet.slot, i.lc));
      forall phase :: Reads(d, i, peerId, ds, phase)
  {
    hide Wire, Addressed, LcBody, HoldsLc, HoldsVoice, Moves, Value;
    var body := LcBody(burst, parity, i.packet.slot, i.lc);
    WireAddressed(st, i.packet, peerId, isEnd, isData, marker, payloadType, body, ds);
    LcPlace(Wire(st, i.packet, peerId, isEnd, isData, marker, payloadType, body), i, burst, parity);
  }

  /** Everything sent for an input, on a stream that sent ds before and is in the given phase. */
  lemma SentReads(st: Stream, ds: seq<Data>, i: Input, peerId: nat, phase: nat)
    requires st.ipscSeq == Moves(ds) % 256 && st.burstIndex % 6 == phase
    ensures var sent := Sent(st, i, peerId);
      |sent| == Copies(i) && forall k :: 0 <= k < |sent| ==> Reads(sent[k], i, peerId, ds, phase)
  {
    hide Wire, Reads, Moves, LcBody, VoiceBody, RtpCounted, Value, LowByte;
    var p := i.packet;
    if p.frameType == 2 {
      SmallValues(p.dtypeOrVSeq);
      RtpCountedKeeps(st);
      if p.dtypeOrVSeq == 1 {
        LcWireReads(st, i, peerId, false, false, st.firstPacket, VOICE_PAYLOAD, 0x01, 0x80, ds);
        LcWireReads(RtpCounted(st), i, peerId, false, false, false, VOICE_PAYLOAD, 0x01, 0x80, ds);
      } else if p.dtypeOrVSeq == 2 {
        LcWireReads(st, i, peerId, true, false, false, TERMINATOR_PAYLOAD, 0x02, 0x80, ds);
      } else if KindOf(i).Data? {
        LcWireReads(st, i, peerId, false, true, st.firstPacket, VOICE_PAYLOAD, LowByte(p.dtypeOrVSeq), 0xC0, ds);
      }
    } else if KindOf(i).Voice? {
      var body := VoiceBody(phase, p, i.voice.value.0, i.voice.value.1);
      WireAddressed(st, p, peerId, false, false, false, VOICE_PAYLOAD, body, ds);
      VoicePlace(VoiceWire(st, i, peerId), i, phase);
      VoiceReads(VoiceWire(st, i, peerId), i, peerId, ds, phase);
    }
  }

  lemma VoiceReads(d: Data, i: Input, peerId: nat, ds: seq<Data>, phase: nat)
    requires i.packet.frameType != 2 && Addressed(d, i.packet, peerId, ds) && HoldsVoice(d, i, phase)
    ensures Reads(d, i, peerId, ds, phase)
  {
  }

  lemma SmallValues(n: nat)
    ensures Value(0x01) == 1 && Value(0x02) == 2 && (n < 256 ==> Value(LowByte(n)) == n)
  {
    hide LowByte;
    LowByteValue(n);
  }

  /** The stream that serves an input: numbered, in phase, and under its call control. */
  lemma ServingFacts(s: State, log: seq<Emission<Data>>, hist: seq<Emission<FP.Turn>>, e: Event)
    requires Inv(s, log) && Numbers(s, log) && FP.PhaseInv(s, hist) && Acts(s, e)
    ensures var st, h := Serving(s, e.input, e.now, e.found), Server(s, e.input.packet, e.found);
      && st.ipscSeq == Moves(Of(log, h)) % 256 && st.burstIndex == FP.VoicesSince(Of(hist, h)) % 6
      && st.callControl == NthId(h) && Tracks(st, Of(log, h), true)
  {
    hide Opened, Server, Of, Tracks, Moves, FP.VoicesSince, FP.AllPhased, NthId, LastOf;
    var i, p := e.input, e.input.packet;
    ServerInRange(s, i, e.now, e.found);
    OpenedInv(s, log, p, e.now, e.found);
    NumbersOpened(s, log, p, e.now, e.found);
    FP.OpenedInPhase(s, hist, p, e.now, e.found);
    var h := Server(s, p, e.found);
    TouchedTracks(Opened(s, p, e.now, e.found).streams[h], Of(log, h), true, p, e.now);
  }

  /**
    What each packet becomes, in every run: two headers, or one terminator, data or voice packet, or nothing, all on the stream
    that serves it. Each tells the peer, the addresses, call type, slot and call control, is numbered after what the stream sent
    before, and holds the link control or the voice of its phase where a receiver reads them.
   */
  lemma AnswerIff(es: seq<Event>, n: nat, h: nat)
    requires FS.Searched(es) && n < |es| && FS.Serves(es, n, h)
    ensures var i, ds, sent := es[n].input, Of(Log(es[..n]), h), Emitted(Final(es[..n]), es[n]);
      var phase := FP.VoicesSince(Of(FP.History(es[..n]), h)) % 6;
      && |sent| == Copies(i)
      && forall k: nat :: k < |sent| ==>
        sent[k].stream == h && Timed(sent[k].packet, |ds| + k, NthId(h)) && Reads(sent[k].packet, i, es[n].peerId, ds, phase)
  {
    hide *;
    var s, e, log, hist := Final(es[..n]), es[n], Log(es[..n]), FP.History(es[..n]);
    FS.ServesIff(es, n, h);
    ObeysActs(es, n, h);
    Always(es[..n]);
    NumbersAlways(es[..n]);
    FP.PhasesKept(es[..n]);
    ServingFacts(s, log, hist, e);
    var st, ds := Serving(s, e.input, e.now, e.found), Of(log, h);
    SentReads(st, ds, e.input, e.peerId, FP.VoicesSince(Of(hist, h)) % 6);
    SentAll(st, ds, e.input, e.peerId);
    SentCounted(st, ds, e.input, e.peerId);
  }

  /** What is sent for an event that is served. */
  lemma ObeysActs(es: seq<Event>, n: nat, h: nat)
    requires FS.Searched(es) && n < |es| && FS.Serves(es, n, h)
    ensures var s, e := Final(es[..n]), es[n];
      Acts(s, e) && e.Translate? && LegalServer(s, e.input, e.found) && FS.Taken(e) &&
      var sent := Sent(Serving(s, e.input, e.now, e.found), e.input, e.peerId);
      |Emitted(s, e)| == |sent| && forall k :: 0 <= k < |sent| ==> Emitted(s, e)[k] == Emission(h, sent[k])
  {
    hide Sent, Serving, Server, Final, Shape, Live;
  }

  lemma SentCounted(st: Stream, ds: seq<Data>, i: Input, peerId: nat)
    requires Tracks(Advanced(st, i), ds + Sent(st, i, peerId), !KindOf(i).Terminator?)
    ensures forall k: nat :: k < |Sent(st, i, peerId)| ==> Timed(Sent(st, i, peerId)[k], |ds| + k, st.callControl)
  {
    hide Counted, Timed, Sent, KindOf, Advanced, FirstMarked, EndIsLast, AnyStarter, Ended, Counts;
    AdvancedKeepsCall(st, i);
    var all, sent := ds + Sent(st, i, peerId), Sent(st, i, peerId);
    forall k: nat | k < |sent|
      ensures Timed(sent[k], |ds| + k, st.callControl)
    {
      assert all[|ds| + k] == sent[k];
      CountedTimed(sent[k], |ds| + k, st.callControl);
    }
  }

  lemma CountedTimed(d: Data, n: nat, callControl: nat)
    requires Counted(d, n, callControl)
    ensures Timed(d, n, callControl)
  {
    hide Read32, Read16;
  }
}
