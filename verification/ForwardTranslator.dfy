/**
  MMDVM to IPSC translation, from internal/ipsc/translator.go. Stream ids are aliases of stream
  objects; an object is named here by its place in the list of all objects created. Decoding the
  radio burst is foreign code: an input carries its results.
 */
module ForwardTranslator {
  import opened Options
  import opened Bytes
  import opened ByteValues
  import opened LinkControl
  import opened Dmrd
  import opened LcBurst
  import opened IpscHeader
  import opened Streams

  type Ambe = s: seq<bv8> | |s| == 19 witness seq(19, i => 0)
  type Embedded = s: seq<bv8> | |s| == 4 witness seq(4, i => 0)

  /** A DMRD packet with the full link control and the voice read from its burst; a data burst has no voice. */
  datatype Input = Input(packet: Packet, lc: Lc, voice: Option<(Ambe, Embedded)>)

  datatype Stream = Stream(
    callControl: nat, rtpSeq: nat, rtpTimestamp: nat, ipscSeq: nat, burstIndex: nat, firstPacket: bool,
    src: Id, dst: Id, slot: bool, groupCall: bool, lastSeen: nat)

  /** The live aliases, all stream objects ever created, and the last call control given out. */
  datatype State = State(aliases: map<nat, nat>, streams: seq<Stream>, lastCall: nat)

  const REUSE_WINDOW: nat := 8000
  const TIMESTAMP_INCREMENT: nat := 480

  const VOICE_PAYLOAD: bv8 := 0x5D
  const TERMINATOR_PAYLOAD: bv8 := 0x5E

  predicate VoiceFrame(p: Packet) {
    p.frameType == 0 || p.frameType == 1
  }

  // ---------- Which stream a packet belongs to ----------

  predicate SameRoute(st: Stream, p: Packet, now: nat) {
    && st.src == p.src && st.dst == p.dst && st.groupCall == p.groupCall && st.slot == p.slot
    && st.lastSeen != 0 && now - st.lastSeen <= REUSE_WINDOW
  }

  ghost predicate Shape(s: State) {
    forall k :: k in s.aliases ==> s.aliases[k] < |s.streams|
  }

  ghost predicate Live(s: State, h: nat) {
    h in s.aliases.Values
  }

  /** A voice packet under a new stream id continues a recent stream with the same addresses. */
  ghost predicate LegalFind(s: State, p: Packet, now: nat, found: Option<nat>)
    requires Shape(s)
  {
    match found
    case Some(h) => VoiceFrame(p) && Live(s, h) && h < |s.streams| && SameRoute(s.streams[h], p, now)
    case None => VoiceFrame(p) ==> forall k :: k in s.aliases ==> !SameRoute(s.streams[s.aliases[k]], p, now)
  }

  function NewStream(s: State, p: Packet, now: nat): Stream {
    Stream(Successor(s.lastCall), 0, 0, 0, 0, true, p.src, p.dst, p.slot, p.groupCall, now)
  }

  function Server(s: State, p: Packet, found: Option<nat>): nat {
    if p.streamId in s.aliases then s.aliases[p.streamId] else if found.Some? then found.value else |s.streams|
  }

  function Opened(s: State, p: Packet, now: nat, found: Option<nat>): State {
    if p.streamId in s.aliases then s
    else if found.Some? then s.(aliases := s.aliases[p.streamId := found.value])
    else State(s.aliases[p.streamId := |s.streams|], s.streams + [NewStream(s, p, now)], Successor(s.lastCall))
  }

  // ---------- What a packet turns into ----------

  datatype Kind = VoiceHeader | Terminator | Data | Voice | Skipped | Nothing

  function KindOf(i: Input): Kind {
    var p := i.packet;
    if p.frameType == 2 then
      if p.dtypeOrVSeq == 1 then VoiceHeader
      else if p.dtypeOrVSeq == 2 then Terminator
      else if p.dtypeOrVSeq in {0, 3, 4, 5, 6, 7, 8, 10} then Data
      else Nothing
    else if VoiceFrame(p) then (if i.voice.Some? then Voice else Skipped)
    else Nothing
  }

  function SlotByte(slot: bool): bv8 {
    if slot then 0x8A else 0x0A
  }

  /** The body of headers, terminators and data packets: 24 bytes around the link control. */
  function LcBody(burst: bv8, parity: bv8, slot: bool, lc: Lc): (s: seq<bv8>)
    ensures |s| == 24
  {
    [burst, parity, 0x00, 0x0A, 0x80, SlotByte(slot), 0x00, 0x60] + lc + [0, 0, 0, 0]
  }

  /** The body of a voice burst: 22 bytes for burst A, 36 for E with the addresses repeated, 27 for the others. */
  function VoiceBody(phase: nat, p: Packet, ambe: Ambe, emb: Embedded): (s: seq<bv8>)
    ensures |s| == (if phase == 0 then 22 else if phase == 4 then 36 else 27)
  {
    if phase == 0 then [SlotByte(p.slot), 0x14, 0x40] + ambe
    else if phase == 4 then [SlotByte(p.slot), 0x22, 0x16] + ambe + emb + [0, 0, 0] + IdBytes(p.dst) + IdBytes(p.src) + [0x14]
    else [SlotByte(p.slot), 0x19, 0x06] + ambe + emb + [0]
  }

  function HeaderFor(st: Stream, p: Packet, peerId: nat, isEnd: bool, isData: bool): Header {
    Header(isData, p.groupCall, peerId, st.ipscSeq, p.src, p.dst, st.callControl, p.slot, isEnd)
  }

  function RtpFor(st: Stream, marker: bool, payloadType: bv8): Rtp {
    Rtp(marker, payloadType, st.rtpSeq, st.rtpTimestamp)
  }

  function RtpCounted(st: Stream): Stream {
    st.(rtpSeq := (st.rtpSeq + 1) % 0x1_0000, rtpTimestamp := (st.rtpTimestamp + TIMESTAMP_INCREMENT) % WORD32)
  }

  function IpscCounted(st: Stream): Stream {
    st.(ipscSeq := (st.ipscSeq + 1) % 256)
  }

  function NextBurst(st: Stream): Stream {
    st.(burstIndex := (st.burstIndex + 1) % 6)
  }

  function Touched(st: Stream, p: Packet, now: nat): Stream {
    st.(src := p.src, dst := p.dst, slot := p.slot, groupCall := p.groupCall, lastSeen := now)
  }

  /** The bytes of one IPSC packet. */
  function Wire(
    st: Stream, p: Packet, peerId: nat, isEnd: bool, isData: bool, marker: bool, payloadType: bv8, body: seq<bv8>): (d: seq<bv8>)
    ensures |d| == 30 + |body|
  {
    HeaderBytes(HeaderFor(st, p, peerId, isEnd, isData)) + RtpBytes(RtpFor(st, marker, payloadType)) + body
  }

  function HeaderWire(st: Stream, i: Input, peerId: nat, marker: bool): seq<bv8> {
    Wire(st, i.packet, peerId, false, false, marker, VOICE_PAYLOAD, LcBody(0x01, 0x80, i.packet.slot, i.lc))
  }

  function TerminatorWire(st: Stream, i: Input, peerId: nat): seq<bv8> {
    Wire(st, i.packet, peerId, true, false, false, TERMINATOR_PAYLOAD, LcBody(0x02, 0x80, i.packet.slot, i.lc))
  }

  function DataWire(st: Stream, i: Input, peerId: nat): seq<bv8> {
    Wire(st, i.packet, peerId, false, true, st.firstPacket, VOICE_PAYLOAD,
         LcBody(LowByte(i.packet.dtypeOrVSeq), 0xC0, i.packet.slot, i.lc))
  }

  function VoiceWire(st: Stream, i: Input, peerId: nat): seq<bv8>
    requires i.voice.Some?
  {
    Wire(st, i.packet, peerId, false, false, false, VOICE_PAYLOAD,
         VoiceBody(st.burstIndex % 6, i.packet, i.voice.value.0, i.voice.value.1))
  }

  /** The packets sent for an input, on a stream as it was before. */
  function Sent(st: Stream, i: Input, peerId: nat): seq<seq<bv8>> {
    match KindOf(i)
    case VoiceHeader => [HeaderWire(st, i, peerId, st.firstPacket), HeaderWire(RtpCounted(st), i, peerId, false)]
    case Terminator => [TerminatorWire(st, i, peerId)]
    case Data => [DataWire(st, i, peerId)]
    case Voice => [VoiceWire(st, i, peerId)]
    case _ => []
  }

  /** The stream after an input. */
  function Advanced(st: Stream, i: Input): Stream {
    match KindOf(i)
    case VoiceHeader => RtpCounted(RtpCounted(st)).(firstPacket := false, burstIndex := 0)
    case Terminator => IpscCounted(RtpCounted(st))
    case Data => IpscCounted(RtpCounted(st)).(firstPacket := false)
    case Voice => NextBurst(RtpCounted(st))
    case Skipped => NextBurst(st)
    case Nothing => st
  }

  predicate Accepted(i: Input) {
    i.packet.streamId < WORD32
  }

  ghost predicate LegalServer(s: State, i: Input, found: Option<nat>) {
    Shape(s) && Accepted(i) && (found.Some? ==> Live(s, found.value))
  }

  lemma ServerInRange(s: State, i: Input, now: nat, found: Option<nat>)
    requires LegalServer(s, i, found)
    ensures Server(s, i.packet, found) < |Opened(s, i.packet, now, found).streams| && Shape(Opened(s, i.packet, now, found))
  {
    if found.Some? {
      var k :| k in s.aliases && s.aliases[k] == found.value;
    }
  }

  /** The stream that serves an input, once it is opened and its addresses are set. */
  function Serving(s: State, i: Input, now: nat, found: Option<nat>): Stream
    requires LegalServer(s, i, found)
  {
    ServerInRange(s, i, now, found);
    Touched(Opened(s, i.packet, now, found).streams[Server(s, i.packet, found)], i.packet, now)
  }

  function Next(s: State, i: Input, now: nat, found: Option<nat>): State
    requires LegalServer(s, i, found)
  {
    ServerInRange(s, i, now, found);
    var o, h := Opened(s, i.packet, now, found), Server(s, i.packet, found);
    State(if KindOf(i).Terminator? then WithoutAliases(o.aliases, h) else o.aliases,
          o.streams[h := Advanced(Serving(s, i, now, found), i)], o.lastCall)
  }

  // ---------- Writing packets ----------

  method BuildIPSCHeader(buf: array<bv8>, h: Header)
    requires buf.Length >= 18
    modifies buf
    ensures buf[..18] == HeaderBytes(h)
    ensures forall k :: 18 <= k < buf.Length ==> buf[k] == old(buf[k])
  {
    hide PacketType, CallInfo, Word32, IdBytes, LowByte;
    Put(buf, 0, [PacketType(h)]);
    Put(buf, 1, Word32(h.peerId));
    Put(buf, 5, [LowByte(h.ipscSeq)]);
    Put(buf, 6, IdBytes(h.src));
    Put(buf, 9, IdBytes(h.dst));
    Put(buf, 12, [if h.groupCall then 0x02 else 0x01]);
    Put(buf, 13, Word32(h.callControl));
    Put(buf, 17, [CallInfo(h)]);
  }

  /** Writes the RTP header and moves the stream's RTP counters on. */
  method BuildRTPHeader(buf: array<bv8>, st: Stream, marker: bool, payloadType: bv8) returns (st': Stream)
    requires buf.Length >= 30
    modifies buf
    ensures buf[..30] == old(buf[..18]) + RtpBytes(RtpFor(st, marker, payloadType))
    ensures forall k :: 30 <= k < buf.Length ==> buf[k] == old(buf[k])
    ensures st' == RtpCounted(st)
  {
    hide Word32, Word16;
    Put(buf, 18, [0x80, if marker then payloadType | 0x80 else payloadType]);
    Put(buf, 20, Word16(st.rtpSeq));
    Put(buf, 22, Word32(st.rtpTimestamp));
    Put(buf, 26, Word32(0));
    st' := RtpCounted(st);
  }

  /** Builds one packet in a fresh buffer: both headers, then the body. */
  method Build(st: Stream, p: Packet, peerId: nat, isEnd: bool, isData: bool, marker: bool, payloadType: bv8, body: seq<bv8>)
    returns (data: seq<bv8>, st': Stream)
    ensures data == Wire(st, p, peerId, isEnd, isData, marker, payloadType, body) && st' == RtpCounted(st)
  {
    hide HeaderBytes, RtpBytes, HeaderFor, RtpFor, RtpCounted;
    var buf := new bv8[30 + |body|](_ => 0);
    BuildIPSCHeader(buf, HeaderFor(st, p, peerId, isEnd, isData));
    st' := BuildRTPHeader(buf, st, marker, payloadType);
    Put(buf, 30, body);
    data := buf[..];
    assert buf[..30 + |body|] == buf[..];
  }

  /** The startup headers: two of them, the first with the marker if nothing was sent before. */
  method BuildVoiceHeaders(st: Stream, i: Input, peerId: nat) returns (packets: seq<seq<bv8>>, st': Stream)
    ensures packets == [HeaderWire(st, i, peerId, st.firstPacket), HeaderWire(RtpCounted(st), i, peerId, false)]
    ensures st' == RtpCounted(RtpCounted(st))
  {
    hide Wire, RtpCounted, LcBody;
    packets, st' := [], st;
    for n := 0 to 2
      invariant n == 0 ==> packets == [] && st' == st
      invariant n == 1 ==> packets == [HeaderWire(st, i, peerId, st.firstPacket)] && st' == RtpCounted(st)
      invariant n == 2 ==> st' == RtpCounted(RtpCounted(st))
      invariant n == 2 ==>
        packets == [HeaderWire(st, i, peerId, st.firstPacket), HeaderWire(RtpCounted(st), i, peerId, false)]
    {
      var data;
      data, st' := Build(st', i.packet, peerId, false, false, n == 0 && st.firstPacket, VOICE_PAYLOAD,
                         LcBody(0x01, 0x80, i.packet.slot, i.lc));
      packets := packets + [data];
    }
  }

  // ---------- The translator ----------

  class Translator {
    var peerId: nat
    var forwardStreams: map<nat, nat>
    var streams: seq<Stream>
    var nextCallControl: nat

    function Now(): State
      reads this
    {
      State(forwardStreams, streams, nextCallControl)
    }

    constructor ()
      ensures Now() == State(map[], [], 0)
    {
      peerId := 0;
      forwardStreams, streams, nextCallControl := map[], [], 0;
    }

    /** A live stream with the packet's addresses, seen within the window. */
    method FindRecentForwardStream(p: Packet, now: nat) returns (found: Option<nat>)
      requires Shape(Now())
      ensures found.Some? ==> found.value < |streams| && Live(Now(), found.value) && SameRoute(streams[found.value], p, now)
      ensures found.None? ==> forall k :: k in forwardStreams ==> !SameRoute(streams[forwardStreams[k]], p, now)
    {
      hide SameRoute;
      var todo := forwardStreams.Keys;
      while todo != {}
        invariant todo <= forwardStreams.Keys
        invariant forall k :: k in forwardStreams && k !in todo ==> !SameRoute(streams[forwardStreams[k]], p, now)
        decreases |todo|
      {
        var k :| k in todo;
        if SameRoute(streams[forwardStreams[k]], p, now) {
          return Some(forwardStreams[k]);
        }
        todo := todo - {k};
      }
      return None;
    }

    /** Finds or creates the packet's stream. */
    method Open(p: Packet, now: nat) returns (h: nat, ghost found: Option<nat>)
      requires Shape(Now())
      modifies this`forwardStreams, this`streams, this`nextCallControl
      ensures p.streamId in old(forwardStreams) ==> found == None
      ensures p.streamId !in old(forwardStreams) ==> LegalFind(old(Now()), p, now, found)
      ensures h == Server(old(Now()), p, found) && Now() == Opened(old(Now()), p, now, found)
    {
      hide SameRoute;
      found := None;
      if p.streamId in forwardStreams {
        return forwardStreams[p.streamId], None;
      }
      var recent := None;
      if VoiceFrame(p) {
        recent := FindRecentForwardStream(p, now);
      }
      found := recent;
      if recent.Some? {
        h := recent.value;
        forwardStreams := forwardStreams[p.streamId := h];
      } else {
        h := |streams|;
        streams := streams + [NewStream(Now(), p, now)];
        nextCallControl := Successor(nextCallControl);
        forwardStreams := forwardStreams[p.streamId := h];
      }
    }

    /** Sends what an input turns into on its stream. */
    method Serve(i: Input, now: nat, h: nat) returns (packets: seq<seq<bv8>>)
      requires h < |streams|
      modifies this`forwardStreams, this`streams
      ensures var st := Touched(old(streams[h]), i.packet, now);
        && packets == Sent(st, i, peerId) && streams == old(streams)[h := Advanced(st, i)]
        && forwardStreams == if KindOf(i).Terminator? then WithoutAliases(old(forwardStreams), h) else old(forwardStreams)
    {
      hide Wire, RtpCounted, IpscCounted, LcBody, VoiceBody, Touched, WithoutAliases;
      var p := i.packet;
      var st := Touched(streams[h], p, now);
      packets := [];
      if p.frameType == 2 {
        if p.dtypeOrVSeq == 1 {
          packets, st := BuildVoiceHeaders(st, i, peerId);
          st := st.(firstPacket := false, burstIndex := 0);
        } else if p.dtypeOrVSeq == 2 {
          var data;
          data, st := Build(st, p, peerId, true, false, false, TERMINATOR_PAYLOAD, LcBody(0x02, 0x80, p.slot, i.lc));
          st := IpscCounted(st);
          packets := [data];
          forwardStreams := RemoveAliases(forwardStreams, h);
        } else if p.dtypeOrVSeq in {0, 3, 4, 5, 6, 7, 8, 10} {
          var data;
          data, st := Build(st, p, peerId, false, true, st.firstPacket, VOICE_PAYLOAD,
                            LcBody(LowByte(p.dtypeOrVSeq), 0xC0, p.slot, i.lc));
          st := IpscCounted(st).(firstPacket := false);
          packets := [data];
        }
      } else if VoiceFrame(p) {
        if i.voice.Some? {
          var data;
          data, st := Build(st, p, peerId, false, false, false, VOICE_PAYLOAD,
                            VoiceBody(st.burstIndex % 6, p, i.voice.value.0, i.voice.value.1));
          packets := [data];
        }
        st := NextBurst(st);
      }
      streams := streams[h := st];
    }

    method TranslateToIPSC(i: Input, now: nat) returns (packets: seq<seq<bv8>>, ghost found: Option<nat>)
      requires Shape(Now())
      modifies this`forwardStreams, this`streams, this`nextCallControl
      ensures i.packet.streamId >= 0x1_0000_0000 ==> packets == [] && Now() == old(Now())
      ensures i.packet.streamId < 0x1_0000_0000 ==>
        && LegalServer(old(Now()), i, found)
        && (i.packet.streamId in old(forwardStreams) || LegalFind(old(Now()), i.packet, now, found))
        && Now() == Next(old(Now()), i, now, found)
        && packets == Sent(Serving(old(Now()), i, now, found), i, peerId)
    {
      packets, found := [], None;
      if !Accepted(i) {
        return;
      }
      var h;
      h, found := Open(i.packet, now);
      ServerInRange(old(Now()), i, now, found);
      hide KindOf, Sent, Advanced, Touched, WithoutAliases, Server, Opened;
      packets := Serve(i, now, h);
    }

    /** Forgets one stream id. */
    method CleanupStream(streamId: nat)
      modifies this`forwardStreams
      ensures forwardStreams == old(forwardStreams) - {streamId}
    {
      forwardStreams := forwardStreams - {streamId};
    }
  }
}
