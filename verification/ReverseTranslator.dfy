/**
  IPSC to MMDVM translation, from internal/ipsc/translator.go. Call-control words are aliases
  of stream objects; an object is named here by its place in the list of all objects created.
  Decoding the full link control, synthesising one, and encoding a voice burst are foreign
  code: a frame carries their results.
 */
module ReverseTranslator {
  import opened Options
  import opened ByteValues
  import opened LinkControl
  import opened Dmrd
  import opened LcBurst
  import opened IpscHeader
  import EmbeddedLc
  import opened Streams

  /** A received packet. */
  datatype Frame = Frame(packetType: bv8, data: seq<bv8>, recovered: Option<(Id, Id)>, standardLc: Lc, voice: LcBurst.Burst)

  datatype Stream = Stream(
    streamId: nat, seqNo: nat, burstIndex: nat, started: bool, peerId: nat, src: Id, dst: Id, slot: bool, groupCall: bool,
    lastSeen: nat, embedded: Option<seq<bv8>>)

  /** All stream objects ever created, the live aliases, and the last stream id given out. */
  datatype State = State(aliases: map<nat, nat>, streams: seq<Stream>, lastId: nat)

  const REUSE_WINDOW: nat := 1500

  const HEAD: bv8 := 0x01
  const TERM: bv8 := 0x02
  const CSBK: bv8 := 0x03
  const SLOT1: bv8 := 0x0A
  const SLOT2: bv8 := 0x8A

  predicate Supported(packetType: bv8) {
    packetType == 0x80 || packetType == 0x81 || packetType == 0x83 || packetType == 0x84
  }

  predicate Translatable(f: Frame) {
    |f.data| >= 31 && Supported(f.packetType)
  }

  /** A packet of a supported type that ends before its burst type is an error that stops the original. */
  datatype Translation = Translated(packets: seq<Packet>) | Stopped

  predicate GroupCallOf(f: Frame) {
    f.packetType == 0x80 || f.packetType == 0x83
  }

  /** The addresses come from a link control that decodes, if the frame has one. */
  predicate Trusted(f: Frame)
    requires Translatable(f)
  {
    |f.data| >= 50 && (f.data[30] == HEAD || f.data[30] == TERM) && f.recovered.Some?
  }

  function SrcOf(f: Frame): Id
    requires Translatable(f)
  {
    if Trusted(f) then f.recovered.value.0 else SrcIn(f.data)
  }

  function DstOf(f: Frame): Id
    requires Translatable(f)
  {
    if Trusted(f) then f.recovered.value.1 else DstIn(f.data)
  }

  // ---------- Which stream a frame belongs to ----------

  predicate Recent(st: Stream, now: nat) {
    st.lastSeen != 0 && now - st.lastSeen <= REUSE_WINDOW
  }

  predicate SameRoute(st: Stream, f: Frame, now: nat)
    requires Translatable(f)
  {
    && st.src == SrcOf(f) && st.dst == DstOf(f) && st.groupCall == GroupCallOf(f) && st.slot == SlotIn(f.data)
    && Recent(st, now)
  }

  predicate SamePeer(st: Stream, f: Frame, now: nat)
    requires Translatable(f)
  {
    st.peerId == PeerIn(f.data) && st.groupCall == GroupCallOf(f) && st.slot == SlotIn(f.data) && Recent(st, now)
  }

  ghost predicate Shape(s: State) {
    forall k :: k in s.aliases ==> s.aliases[k] < |s.streams|
  }

  ghost predicate Live(s: State, h: nat) {
    h in s.aliases.Values
  }

  /** A live stream with the same addresses; failing that, and for frames without a trusted link control, one of the same peer. */
  ghost predicate LegalFind(s: State, f: Frame, now: nat, found: Option<nat>)
    requires Shape(s) && Translatable(f)
  {
    var noRoute := forall k :: k in s.aliases ==> !SameRoute(s.streams[s.aliases[k]], f, now);
    match found
    case Some(h) =>
      && Live(s, h) && h < |s.streams|
      && (SameRoute(s.streams[h], f, now) ||
          (noRoute && !Trusted(f) && f.data[30] != HEAD && SamePeer(s.streams[h], f, now)))
    case None =>
      && noRoute
      && (Trusted(f) || f.data[30] == HEAD || forall k :: k in s.aliases ==> !SamePeer(s.streams[s.aliases[k]], f, now))
  }

  function NewStream(s: State, f: Frame, now: nat): Stream
    requires Translatable(f)
  {
    Stream(Successor(s.lastId), 0, 0, false, PeerIn(f.data), SrcOf(f), DstOf(f), SlotIn(f.data), GroupCallOf(f), now, None)
  }

  /** The stream that serves a frame. */
  function Server(s: State, f: Frame, found: Option<nat>): nat
    requires Translatable(f)
  {
    if CallControlIn(f.data) in s.aliases then s.aliases[CallControlIn(f.data)]
    else if found.Some? then found.value
    else |s.streams|
  }

  /** The state once the frame has its stream. */
  function Opened(s: State, f: Frame, now: nat, found: Option<nat>): State
    requires Translatable(f)
  {
    var key := CallControlIn(f.data);
    if key in s.aliases then s
    else if found.Some? then s.(aliases := s.aliases[key := found.value])
    else State(s.aliases[key := |s.streams|], s.streams + [NewStream(s, f, now)], Successor(s.lastId))
  }

  // ---------- What the frame does to its stream ----------

  datatype Kind = VoiceHeader | Terminator | Voice | Data(dataType: bv8) | Nothing

  function KindOf(f: Frame, started: bool): Kind
    requires Translatable(f)
  {
    var burst := f.data[30];
    if burst == HEAD then (if started then Nothing else VoiceHeader)
    else if burst == TERM then (if EndIn(f.data) then Terminator else Nothing)
    else if burst == SLOT1 || burst == SLOT2 then (if |f.data| < 52 then Nothing else Voice)
    else if burst == CSBK then Data(CSBK)
    else if |f.data| >= 50 && burst <= 10 then Data(burst)
    else Nothing
  }

  function DataTypeOf(k: Kind): bv8 {
    match k
    case VoiceHeader => VOICE_LC_HEADER
    case Terminator => TERMINATOR_WITH_LC
    case Data(t) => t
    case _ => 0
  }

  /** The link control of a data burst: the one received, or a synthesised one with its call type set. */
  function LcFor(f: Frame, dataType: bv8): Lc {
    if |f.data| >= 50 then f.data[38..50]
    else if dataType == VOICE_LC_HEADER || dataType == TERMINATOR_WITH_LC then f.standardLc[0 := if GroupCallOf(f) then 0x00 else 0x03]
    else f.standardLc
  }

  /** The stream's addresses win over the frame's, unless they are zero. */
  function SrcFor(st: Stream, f: Frame): Id
    requires Translatable(f)
  {
    if st.src != 0 then st.src else SrcOf(f)
  }

  function DstFor(st: Stream, f: Frame): Id
    requires Translatable(f)
  {
    if st.dst != 0 then st.dst else DstOf(f)
  }

  function DataPacket(st: Stream, f: Frame, dataType: bv8, repeater: nat, colorCode: bv8): Packet
    requires Translatable(f)
  {
    Packet(st.seqNo, SrcFor(st, f), DstFor(st, f), repeater, SlotIn(f.data), GroupCallOf(f), 2, Value(dataType), st.streamId,
           BuiltBurst(LcFor(f, dataType), dataType, colorCode))
  }

  function VoicePacket(st: Stream, f: Frame, repeater: nat): Packet
    requires Translatable(f)
  {
    var phase := st.burstIndex % 6;
    Packet(st.seqNo, SrcFor(st, f), DstFor(st, f), repeater, SlotIn(f.data), GroupCallOf(f),
           if phase == 0 then 1 else 0, phase, st.streamId, f.voice)
  }

  /** The packet a frame turns into, on a stream as it was before. */
  function PacketFor(st: Stream, f: Frame, k: Kind, repeater: nat, colorCode: bv8): Packet
    requires Translatable(f)
  {
    if k.Voice? then VoicePacket(st, f, repeater) else DataPacket(st, f, DataTypeOf(k), repeater, colorCode)
  }

  /** The sequence number is a byte; the voice phase runs from A to F. */
  function NextSeq(n: nat): nat {
    (n + 1) % 256
  }

  function NextBurst(n: nat): nat {
    (n + 1) % 6
  }

  /** The embedded link control that the voice after a header carries: that of the header's call. */
  function EmbeddedFor(st: Stream, f: Frame): Option<seq<bv8>>
    requires Translatable(f)
  {
    Some(EmbeddedLc.Fragments(SrcFor(st, f), DstFor(st, f), GroupCallOf(f)))
  }

  function Advanced(st: Stream, f: Frame, k: Kind, now: nat): Stream
    requires Translatable(f)
  {
    match k
    case VoiceHeader =>
      st.(lastSeen := now, seqNo := NextSeq(st.seqNo), started := true, burstIndex := 0, embedded := EmbeddedFor(st, f))
    case Voice => st.(lastSeen := now, seqNo := NextSeq(st.seqNo), burstIndex := NextBurst(st.burstIndex))
    case Nothing => st.(lastSeen := now)
    case _ => st.(lastSeen := now, seqNo := NextSeq(st.seqNo))
  }

  ghost predicate LegalServer(s: State, f: Frame, found: Option<nat>) {
    Shape(s) && Translatable(f) && (found.Some? ==> Live(s, found.value))
  }

  lemma ServerInRange(s: State, f: Frame, now: nat, found: Option<nat>)
    requires LegalServer(s, f, found)
    ensures Server(s, f, found) < |Opened(s, f, now, found).streams| && Shape(Opened(s, f, now, found))
  {
    if found.Some? {
      var k :| k in s.aliases && s.aliases[k] == found.value;
    }
  }

  function KindAt(s: State, f: Frame, now: nat, found: Option<nat>): Kind
    requires LegalServer(s, f, found)
  {
    ServerInRange(s, f, now, found);
    KindOf(f, Opened(s, f, now, found).streams[Server(s, f, found)].started)
  }

  /** The state after a frame. */
  function Next(s: State, f: Frame, now: nat, found: Option<nat>): State
    requires LegalServer(s, f, found)
  {
    ServerInRange(s, f, now, found);
    var o, h := Opened(s, f, now, found), Server(s, f, found);
    var k := KindAt(s, f, now, found);
    State(if k.Terminator? then WithoutAliases(o.aliases, h) else o.aliases, o.streams[h := Advanced(o.streams[h], f, k, now)], o.lastId)
  }

  /** What a frame is translated to. */
  function Output(s: State, f: Frame, now: nat, found: Option<nat>, repeater: nat, colorCode: bv8): Option<Packet>
    requires LegalServer(s, f, found)
  {
    ServerInRange(s, f, now, found);
    var k := KindAt(s, f, now, found);
    if k.Nothing? then None
    else Some(PacketFor(Opened(s, f, now, found).streams[Server(s, f, found)], f, k, repeater, colorCode))
  }

  /** A packet does not depend on when its stream was last seen. */
  lemma Timeless(st: Stream, f: Frame, now: nat, dataType: bv8, repeater: nat, colorCode: bv8)
    requires Translatable(f)
    ensures DataPacket(st.(lastSeen := now), f, dataType, repeater, colorCode) == DataPacket(st, f, dataType, repeater, colorCode)
    ensures VoicePacket(st.(lastSeen := now), f, repeater) == VoicePacket(st, f, repeater)
  {
    hide BuiltBurst, LcFor, SrcOf, DstOf, SlotIn, GroupCallOf, Value;
  }

  /** The switch on the burst type: the packets, the stream afterwards, and whether the call has ended. */
  method Turn(st: Stream, f: Frame, now: nat, repeater: nat, colorCode: bv8)
    returns (packets: seq<Packet>, st': Stream, ended: bool)
    requires Translatable(f)
    ensures var k := KindOf(f, st.started);
      && packets == (if k.Nothing? then [] else [PacketFor(st, f, k, repeater, colorCode)])
      && st' == Advanced(st, f, k, now) && ended == k.Terminator?
  {
    hide DataPacket, VoicePacket, EndIn, NextSeq, NextBurst, SrcOf, DstOf, GroupCallOf, EmbeddedLc.Fragments;
    packets, st', ended := [], st.(lastSeen := now), false;
    var burst := f.data[30];
    if burst == HEAD {
      if !st'.started {
        Timeless(st, f, now, VOICE_LC_HEADER, repeater, colorCode);
        packets := [DataPacket(st', f, VOICE_LC_HEADER, repeater, colorCode)];
        var fragments := EmbeddedLc.EncodeEmbeddedLC(SrcFor(st', f), DstFor(st', f), GroupCallOf(f));
        st' := st'.(seqNo := NextSeq(st'.seqNo), started := true, burstIndex := 0, embedded := Some(fragments));
      }
    } else if burst == TERM {
      if EndIn(f.data) {
        Timeless(st, f, now, TERMINATOR_WITH_LC, repeater, colorCode);
        packets := [DataPacket(st', f, TERMINATOR_WITH_LC, repeater, colorCode)];
        st' := st'.(seqNo := NextSeq(st'.seqNo));
        ended := true;
      }
    } else if burst == SLOT1 || burst == SLOT2 {
      if |f.data| >= 52 {
        Timeless(st, f, now, 0, repeater, colorCode);
        packets := [VoicePacket(st', f, repeater)];
        st' := st'.(seqNo := NextSeq(st'.seqNo), burstIndex := NextBurst(st'.burstIndex));
      }
    } else if burst == CSBK || (|f.data| >= 50 && burst <= 10) {
      Timeless(st, f, now, burst, repeater, colorCode);
      packets := [DataPacket(st', f, burst, repeater, colorCode)];
      st' := st'.(seqNo := NextSeq(st'.seqNo));
    }
  }

  // ---------- The translator ----------

  class Translator {
    var repeaterId: nat
    var colorCode: bv8
    var reverseStreams: map<nat, nat>
    var streams: seq<Stream>
    var nextStreamId: nat

    function Now(): State
      reads this
    {
      State(reverseStreams, streams, nextStreamId)
    }

    constructor ()
      ensures Now() == State(map[], [], 0)
    {
      repeaterId, colorCode := 0, 0;
      reverseStreams, streams, nextStreamId := map[], [], 0;
    }

    /** A live stream with the frame's addresses, seen within the window. */
    method FindRecentReverseStream(f: Frame, now: nat) returns (found: Option<nat>)
      requires Shape(Now()) && Translatable(f)
      ensures found.Some? ==> found.value < |streams| && Live(Now(), found.value) && SameRoute(streams[found.value], f, now)
      ensures found.None? ==> forall k :: k in reverseStreams ==> !SameRoute(streams[reverseStreams[k]], f, now)
    {
      hide SameRoute;
      var todo := reverseStreams.Keys;
      while todo != {}
        invariant todo <= reverseStreams.Keys
        invariant forall k :: k in reverseStreams && k !in todo ==> !SameRoute(streams[reverseStreams[k]], f, now)
        decreases |todo|
      {
        var k :| k in todo;
        if SameRoute(streams[reverseStreams[k]], f, now) {
          return Some(reverseStreams[k]);
        }
        todo := todo - {k};
      }
      return None;
    }

    /** A live stream of the frame's peer, seen within the window. */
    method FindRecentReverseStreamByPeer(f: Frame, now: nat) returns (found: Option<nat>)
      requires Shape(Now()) && Translatable(f)
      ensures found.Some? ==> found.value < |streams| && Live(Now(), found.value) && SamePeer(streams[found.value], f, now)
      ensures found.None? ==> forall k :: k in reverseStreams ==> !SamePeer(streams[reverseStreams[k]], f, now)
    {
      hide SamePeer;
      var todo := reverseStreams.Keys;
      while todo != {}
        invariant todo <= reverseStreams.Keys
        invariant forall k :: k in reverseStreams && k !in todo ==> !SamePeer(streams[reverseStreams[k]], f, now)
        decreases |todo|
      {
        var k :| k in todo;
        if SamePeer(streams[reverseStreams[k]], f, now) {
          return Some(reverseStreams[k]);
        }
        todo := todo - {k};
      }
      return None;
    }

    /** Finds or creates the frame's stream. */
    method Open(f: Frame, now: nat) returns (h: nat, ghost found: Option<nat>)
      requires Shape(Now()) && Translatable(f)
      modifies this`reverseStreams, this`streams, this`nextStreamId
      ensures CallControlIn(f.data) in old(reverseStreams) ==> found == None
      ensures CallControlIn(f.data) !in old(reverseStreams) ==> LegalFind(old(Now()), f, now, found)
      ensures h == Server(old(Now()), f, found) && Now() == Opened(old(Now()), f, now, found)
    {
      hide SameRoute, SamePeer;
      var key := CallControlIn(f.data);
      found := None;
      if key in reverseStreams {
        return reverseStreams[key], None;
      }
      var recent := FindRecentReverseStream(f, now);
      if recent.None? && !Trusted(f) && f.data[30] != HEAD {
        recent := FindRecentReverseStreamByPeer(f, now);
      }
      found := recent;
      if recent.Some? {
        h := recent.value;
        reverseStreams := reverseStreams[key := h];
      } else {
        h := |streams|;
        streams := streams + [NewStream(Now(), f, now)];
        nextStreamId := Successor(nextStreamId);
        reverseStreams := reverseStreams[key := h];
      }
    }

    /** Turns a frame into a packet on its stream. */
    method Serve(f: Frame, now: nat, h: nat) returns (packets: seq<Packet>)
      requires Translatable(f) && h < |streams|
      modifies this`reverseStreams, this`streams
      ensures var k := KindOf(f, old(streams[h].started));
        && packets == (if k.Nothing? then [] else [PacketFor(old(streams[h]), f, k, repeaterId, colorCode)])
        && streams == old(streams)[h := Advanced(old(streams[h]), f, k, now)]
        && reverseStreams == if k.Terminator? then WithoutAliases(old(reverseStreams), h) else old(reverseStreams)
    {
      hide KindOf, PacketFor, Advanced, WithoutAliases;
      var st, ended;
      packets, st, ended := Turn(streams[h], f, now, repeaterId, colorCode);
      streams := streams[h := st];
      if ended {
        reverseStreams := RemoveAliases(reverseStreams, h);
      }
    }

    method TranslateToMMDVM(f: Frame, now: nat) returns (r: Translation, ghost found: Option<nat>)
      requires Shape(Now())
      modifies this`reverseStreams, this`streams, this`nextStreamId
      ensures r.Stopped? <==> |f.data| == 30 && f.packetType in {0x80, 0x81, 0x83, 0x84}
      ensures |f.data| <= 30 || f.packetType !in {0x80, 0x81, 0x83, 0x84} ==>
        Now() == old(Now()) && (r.Translated? ==> r.packets == [])
      ensures |f.data| > 30 && f.packetType in {0x80, 0x81, 0x83, 0x84} ==>
        && LegalServer(old(Now()), f, found)
        && (CallControlIn(f.data) in old(reverseStreams) || LegalFind(old(Now()), f, now, found))
        && Now() == Next(old(Now()), f, now, found)
        && r == Translated(match Output(old(Now()), f, now, found, repeaterId, colorCode) case None => [] case Some(p) => [p])
    {
      found := None;
      if |f.data| < 30 || !Supported(f.packetType) {
        return Translated([]), None;
      }
      if |f.data| <= 30 {
        return Stopped, None;
      }
      var h;
      h, found := Open(f, now);
      ServerInRange(old(Now()), f, now, found);
      hide KindOf, PacketFor, Advanced, WithoutAliases, Server, Opened;
      var packets := Serve(f, now, h);
      r := Translated(packets);
    }
  }
}
