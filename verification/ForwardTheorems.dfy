/** RTP discipline of the packets translated to IPSC, over all runs. */
module ForwardTheorems {
  import opened Options
  import opened ByteValues
  import opened Dmrd
  import opened IpscHeader
  import opened ForwardTranslator
  import opened Streams

  type Data = seq<bv8>

  datatype Event =
    | Translate(input: Input, now: nat, found: Option<nat>, peerId: nat)
    | Cleanup(streamId: nat)

  const START := State(map[], [], 0)

  ghost predicate Acts(s: State, e: Event) {
    e.Translate? && LegalServer(s, e.input, e.found)
  }

  /** Every run of the translator is a run here; events that no search could give are skipped. */
  ghost function After(s: State, e: Event): State {
    if e.Cleanup? then s.(aliases := s.aliases - {e.streamId})
    else if Acts(s, e) then Next(s, e.input, e.now, e.found)
    else s
  }

  ghost function Final(es: seq<Event>): State {
    if es == [] then START else After(Final(es[..|es| - 1]), es[|es| - 1])
  }

  function Tagged(h: nat, ds: seq<Data>): seq<Emission<Data>> {
    seq(|ds|, i requires 0 <= i < |ds| => Emission(h, ds[i]))
  }

  ghost function Emitted(s: State, e: Event): seq<Emission<Data>> {
    if Acts(s, e)
    then Tagged(Server(s, e.input.packet, e.found), Sent(Serving(s, e.input, e.now, e.found), e.input, e.peerId))
    else []
  }

  ghost function Log(es: seq<Event>): seq<Emission<Data>> {
    if es == [] then [] else Log(es[..|es| - 1]) + Emitted(Final(es[..|es| - 1]), es[|es| - 1])
  }

  // ---------- The discipline ----------

  /** The packet is the n-th of its call: sequence number n, timestamp 480 n, and the call's control word. */
  predicate Counted(d: Data, n: nat, callControl: nat) {
    && |d| >= 31 && CallControlIn(d) == callControl
    && RtpSeqIn(d) == n % 0x1_0000 && TimestampIn(d) == TIMESTAMP_INCREMENT * n % WORD32
  }

  predicate Marked(d: Data) {
    |d| >= 31 && MarkerIn(d)
  }

  predicate Ends(d: Data) {
    |d| >= 31 && EndIn(d)
  }

  ghost predicate AllCounted(ds: seq<Data>, callControl: nat) {
    forall n :: 0 <= n < |ds| ==> Counted(ds[n], n, callControl)
  }

  /** A voice header or a data packet. */
  predicate Starter(d: Data) {
    |d| >= 31 && (d[0] == 0x83 || d[0] == 0x84 || d[30] == 0x01)
  }

  ghost predicate AnyStarter(ds: seq<Data>) {
    exists i :: 0 <= i < |ds| && Starter(ds[i])
  }

  /** The RTP marker is on the first voice header or data packet, and on nothing else. */
  ghost predicate FirstMarked(ds: seq<Data>) {
    forall i :: 0 <= i < |ds| ==> (Marked(ds[i]) <==> Starter(ds[i]) && !AnyStarter(ds[..i]))
  }

  /** Nothing follows a packet with the end flag. */
  ghost predicate EndIsLast(ds: seq<Data>) {
    forall i :: 0 <= i < |ds| && Ends(ds[i]) ==> i == |ds| - 1
  }

  ghost predicate Discipline(ds: seq<Data>, callControl: nat) {
    AllCounted(ds, callControl) && FirstMarked(ds) && EndIsLast(ds)
  }

  /** So the marker is set at most once in a call. */
  lemma MarkedOnce(ds: seq<Data>, i: nat, j: nat)
    requires FirstMarked(ds) && i < j < |ds| && Marked(ds[i])
    ensures !Marked(ds[j])
  {
    assert ds[..j][i] == ds[i];
  }

  // ---------- One stream ----------

  ghost predicate Ended(ds: seq<Data>) {
    exists i :: 0 <= i < |ds| && Ends(ds[i])
  }

  predicate Counts(st: Stream, n: nat) {
    st.rtpSeq == n % 0x1_0000 && st.rtpTimestamp == TIMESTAMP_INCREMENT * n % WORD32
  }

  /** A stream object knows how much was sent on it, and is dead after the end. */
  ghost predicate Tracks(st: Stream, ds: seq<Data>, live: bool) {
    && Counts(st, |ds|) && st.callControl < WORD32
    && (st.firstPacket <==> !AnyStarter(ds)) && (live ==> !Ended(ds))
    && Discipline(ds, st.callControl)
  }

  lemma CountOn(st: Stream, n: nat)
    requires Counts(st, n)
    ensures Counts(RtpCounted(st), n + 1)
  {
    WrapAdd(n, 1);
    WrapAdd(TIMESTAMP_INCREMENT * n, TIMESTAMP_INCREMENT);
    assert TIMESTAMP_INCREMENT * n + TIMESTAMP_INCREMENT == TIMESTAMP_INCREMENT * (n + 1);
  }

  lemma WrapAdd(a: nat, b: nat)
    ensures (a % 0x1_0000 + b) % 0x1_0000 == (a + b) % 0x1_0000
    ensures (a % WORD32 + b) % WORD32 == (a + b) % WORD32
  {
    var q, r := a / 0x1_0000, a / WORD32;
    assert a + b == 0x1_0000 * q + (a % 0x1_0000 + b);
    assert a + b == WORD32 * r + (a % WORD32 + b);
  }

  /** What a reader finds in a packet built on a stream. */
  lemma WireRead(st: Stream, p: Packet, peerId: nat, isEnd: bool, isData: bool, marker: bool, payloadType: bv8, body: seq<bv8>, n: nat)
    requires |body| >= 1 && (payloadType == VOICE_PAYLOAD || payloadType == TERMINATOR_PAYLOAD)
    requires Counts(st, n) && st.callControl < WORD32
    ensures var d := Wire(st, p, peerId, isEnd, isData, marker, payloadType, body);
      && Counted(d, n, st.callControl) && (Marked(d) <==> marker) && (Ends(d) <==> isEnd)
      && (Starter(d) <==> isData || body[0] == 0x01)
  {
    hide HeaderBytes, RtpBytes, CallControlIn, RtpSeqIn, TimestampIn, MarkerIn, EndIn;
    HeaderRoundTrip(HeaderFor(st, p, peerId, isEnd, isData), RtpFor(st, marker, payloadType), body);
    assert Wire(st, p, peerId, isEnd, isData, marker, payloadType, body)[30] == body[0];
  }

  lemma DisciplineAppend(ds: seq<Data>, d: Data, callControl: nat)
    requires Discipline(ds, callControl) && !Ended(ds) && Counted(d, |ds|, callControl)
    requires Marked(d) <==> Starter(d) && !AnyStarter(ds)
    ensures Discipline(ds + [d], callControl)
    ensures AnyStarter(ds + [d]) <==> AnyStarter(ds) || Starter(d)
    ensures Ended(ds + [d]) <==> Ended(ds) || Ends(d)
  {
    hide Counted, Marked, Ends, Starter;
    var es := ds + [d];
    assert forall i :: 0 <= i < |ds| ==> es[i] == ds[i];
    assert es[|ds|] == d;
    forall i | 0 <= i < |es|
      ensures Marked(es[i]) <==> Starter(es[i]) && !AnyStarter(es[..i])
    {
      assert es[..i] == if i < |ds| then ds[..i] else ds;
    }
  }

  /** One packet sent on a live stream, which then counts on; the marker goes only on a first packet. */
  lemma SentOne(st: Stream, ds: seq<Data>, d: Data, st': Stream, isEnd: bool)
    requires Tracks(st, ds, true) && Counted(d, |ds|, st.callControl) && (Ends(d) <==> isEnd)
    requires (Marked(d) <==> Starter(d) && st.firstPacket) && (st'.firstPacket <==> st.firstPacket && !Starter(d))
    requires Counts(st', |ds| + 1) && st'.callControl == st.callControl
    ensures Tracks(st', ds + [d], !isEnd)
  {
    hide Discipline, Counted, Marked, Ends, Counts, Starter;
    DisciplineAppend(ds, d, st.callControl);
  }

  /** Everything sent for an input keeps the stream tracked. */
  lemma SentAll(st: Stream, ds: seq<Data>, i: Input, peerId: nat)
    requires Tracks(st, ds, true)
    ensures Tracks(Advanced(st, i), ds + Sent(st, i, peerId), !KindOf(i).Terminator?)
  {
    hide Wire, Counted, Marked, Ends, Starter, Counts, LcBody, VoiceBody, Discipline, RtpCounted, KindOf;
    BodyLead(i);
    var p, n := i.packet, |ds|;
    CountOn(st, n);
    RtpCountedKeeps(st);
    match KindOf(i) {
      case VoiceHeader =>
        var body := LcBody(0x01, 0x80, p.slot, i.lc);
        var next := RtpCounted(st);
        var one, two := HeaderWire(st, i, peerId, st.firstPacket), HeaderWire(next, i, peerId, false);
        CountOn(next, n + 1);
        RtpCountedKeeps(next);
        WireRead(st, p, peerId, false, false, st.firstPacket, VOICE_PAYLOAD, body, n);
        WireRead(next, p, peerId, false, false, false, VOICE_PAYLOAD, body, n + 1);
        var middle := next.(firstPacket := false);
        CountsSame(next, middle, n + 1);
        SentOne(st, ds, one, middle, false);
        CountsSame(RtpCounted(next), Advanced(st, i), n + 2);
        SentOne(middle, ds + [one], two, Advanced(st, i), false);
        assert ds + [one] + [two] == ds + [one, two];
      case Terminator =>
        WireRead(st, p, peerId, true, false, false, TERMINATOR_PAYLOAD, LcBody(0x02, 0x80, p.slot, i.lc), n);
        CountsSame(RtpCounted(st), Advanced(st, i), n + 1);
        SentOne(st, ds, TerminatorWire(st, i, peerId), Advanced(st, i), true);
      case Data =>
        WireRead(st, p, peerId, false, true, st.firstPacket, VOICE_PAYLOAD, LcBody(LowByte(p.dtypeOrVSeq), 0xC0, p.slot, i.lc), n);
        CountsSame(RtpCounted(st), Advanced(st, i), n + 1);
        SentOne(st, ds, DataWire(st, i, peerId), Advanced(st, i), false);
      case Voice =>
        VoiceKind(i);
        WireRead(st, p, peerId, false, false, false, VOICE_PAYLOAD,
                 VoiceBody(st.burstIndex % 6, p, i.voice.value.0, i.voice.value.1), n);
        CountsSame(RtpCounted(st), Advanced(st, i), n + 1);
        SentOne(st, ds, VoiceWire(st, i, peerId), Advanced(st, i), false);
      case _ =>
        CountsSame(st, Advanced(st, i), n);
        assert ds + [] == ds;
    }
  }

  /** The burst types: headers have type 1, terminators and voice another. */
  lemma BodyLead(i: Input)
    ensures LcBody(0x01, 0x80, i.packet.slot, i.lc)[0] == 0x01 && LcBody(0x02, 0x80, i.packet.slot, i.lc)[0] != 0x01
    ensures i.voice.Some? ==>
      forall phase: nat :: VoiceBody(phase, i.packet, i.voice.value.0, i.voice.value.1)[0] != 0x01
  {
  }

  lemma VoiceKind(i: Input)
    requires KindOf(i).Voice?
    ensures i.voice.Some?
  {
  }

  lemma RtpCountedKeeps(st: Stream)
    ensures RtpCounted(st) == st.(rtpSeq := RtpCounted(st).rtpSeq, rtpTimestamp := RtpCounted(st).rtpTimestamp)
  {
  }

  lemma CountsSame(st: Stream, st': Stream, n: nat)
    requires Counts(st, n) && st.rtpSeq == st'.rtpSeq && st.rtpTimestamp == st'.rtpTimestamp
    ensures Counts(st', n)
  {
  }

  // ---------- The whole translator ----------

  ghost predicate Inv(s: State, log: seq<Emission<Data>>) {
    && Shape(s) && s.lastCall == LastOf(|s.streams|)
    && (forall h :: 0 <= h < |s.streams| ==> Tracks(s.streams[h], Of(log, h), Live(s, h)))
    && (forall h :: 0 <= h < |s.streams| ==> s.streams[h].callControl == NthId(h))
    && (forall i :: 0 <= i < |log| ==> log[i].stream < |s.streams|)
  }

  lemma {:induction false} OfTagged(log: seq<Emission<Data>>, h: nat, ds: seq<Data>, g: nat)
    ensures Of(log + Tagged(h, ds), g) == if g == h then Of(log, g) + ds else Of(log, g)
  {
    if ds == [] {
      assert log + Tagged(h, ds) == log;
      assert Of(log, g) + ds == Of(log, g);
    } else {
      var n := |ds| - 1;
      OfTagged(log, h, ds[..n], g);
      assert log + Tagged(h, ds) == (log + Tagged(h, ds[..n])) + [Emission(h, ds[n])];
      OfAppend(log + Tagged(h, ds[..n]), Emission(h, ds[n]), g);
      assert ds == ds[..n] + [ds[n]];
      assert Of(log, g) + ds[..n] + [ds[n]] == Of(log, g) + ds;
    }
  }

  lemma Created(s: State, p: Packet, now: nat)
    requires Successor(s.lastCall) < WORD32
    ensures Tracks(NewStream(s, p, now), [], true)
  {
  }

  lemma OpenedInv(s: State, log: seq<Emission<Data>>, p: Packet, now: nat, found: Option<nat>)
    requires Inv(s, log) && (found.Some? ==> Live(s, found.value))
    ensures Inv(Opened(s, p, now, found), log) && Live(Opened(s, p, now, found), Server(s, p, found))
    ensures Server(s, p, found) < |Opened(s, p, now, found).streams|
  {
    hide Tracks, Of, NthId, Successor;
    var o, h, key := Opened(s, p, now, found), Server(s, p, found), p.streamId;
    if found.Some? {
      var k :| k in s.aliases && s.aliases[k] == found.value;
    }
    assert o.aliases[key] == h && key in o.aliases;
    forall g
      ensures Live(o, g) <==> Live(s, g) || g == h
    {
      if Live(s, g) {
        var k :| k in s.aliases && s.aliases[k] == g;
        assert o.aliases[k] == g;
      }
    }
    if |o.streams| > |s.streams| {
      NthSuccessor(|s.streams|);
      assert NthId(|s.streams|) < WORD32 by {
        IdFits(|s.streams|);
      }
      NoneOf(log, h);
      Created(s, p, now);
    }
  }

  lemma IdFits(n: nat)
    ensures NthId(n) < WORD32
  {
  }

  lemma TouchedTracks(st: Stream, ds: seq<Data>, live: bool, p: Packet, now: nat)
    requires Tracks(st, ds, live)
    ensures Tracks(Touched(st, p, now), ds, live)
  {
  }

  lemma AdvancedKeepsCall(st: Stream, i: Input)
    ensures Advanced(st, i).callControl == st.callControl
  {
  }

  lemma NextInv(s: State, log: seq<Emission<Data>>, e: Event)
    requires Inv(s, log) && Acts(s, e)
    ensures Inv(After(s, e), log + Emitted(s, e))
  {
    hide Opened, Server, KindOf, Sent, Of, NthId, WithoutAliases, Tracks, Advanced, LastOf;
    var i, p := e.input, e.input.packet;
    var o, h := Opened(s, p, e.now, e.found), Server(s, p, e.found);
    OpenedInv(s, log, p, e.now, e.found);
    ServerInRange(s, i, e.now, e.found);
    var st := Serving(s, i, e.now, e.found);
    TouchedTracks(o.streams[h], Of(log, h), true, p, e.now);
    SentAll(st, Of(log, h), i, e.peerId);
    AdvancedKeepsCall(st, i);
    Fewer(o.aliases, h);
    var next := After(s, e);
    forall g | 0 <= g < |next.streams|
      ensures Tracks(next.streams[g], Of(log + Emitted(s, e), g), Live(next, g))
    {
      OfTagged(log, h, Sent(st, i, e.peerId), g);
      ClosedLive(o.aliases, h, g);
    }
  }

  lemma CleanupInv(s: State, log: seq<Emission<Data>>, e: Event)
    requires Inv(s, log) && e.Cleanup?
    ensures Inv(After(s, e), log)
  {
    hide Of, NthId, LastOf;
    var next := After(s, e);
    forall h | Live(next, h)
      ensures Live(s, h)
    {
      var k :| k in next.aliases && next.aliases[k] == h;
      assert s.aliases[k] == h;
    }
  }

  lemma {:induction false} Always(es: seq<Event>)
    ensures Inv(Final(es), Log(es))
  {
    hide Inv;
    if es == [] {
      StartInv();
    } else {
      var before, e := es[..|es| - 1], es[|es| - 1];
      Always(before);
      if Acts(Final(before), e) {
        NextInv(Final(before), Log(before), e);
      } else {
        assert Log(before) + [] == Log(before);
        if e.Cleanup? {
          CleanupInv(Final(before), Log(before), e);
        }
      }
    }
  }

  lemma StartInv()
    ensures Inv(START, [])
  {
  }

  /**
    In every run, whatever stream ids lead to one stream object and whichever are forgotten, the n-th packet
    sent on it carries its call control, RTP sequence n modulo 2^16 and timestamp 480 n modulo 2^32; the RTP
    marker is on the first header or data packet and on no other; and nothing follows a packet with the end flag.
   */
  lemma StreamDiscipline(es: seq<Event>, h: nat)
    requires h < |Final(es).streams|
    ensures Discipline(Of(Log(es), h), NthId(h))
  {
    hide Discipline, Of, Log, Final, Live;
    Always(es);
  }

  /** The call-control words on the packets of a log. */
  function Calls(log: seq<Emission<Data>>): (ids: seq<nat>)
    ensures |ids| == |log|
  {
    seq(|log|, i requires 0 <= i < |log| => if |log[i].packet| >= 31 then CallControlIn(log[i].packet) else 0)
  }

  lemma CallsInLog(es: seq<Event>, i: nat)
    requires i < |Log(es)|
    ensures Log(es)[i].stream < |Final(es).streams| && Calls(Log(es))[i] == NthId(Log(es)[i].stream)
  {
    Always(es);
    var log := Log(es);
    hide Log, Final, NthId, Live, Of, FirstMarked, EndIsLast;
    EachOf(log, i);
    StreamDiscipline(es, log[i].stream);
  }

  /** Until the 32-bit counter comes round, the same holds of all packets that carry one call control. */
  lemma CallDiscipline(es: seq<Event>, callControl: nat)
    requires |Final(es).streams| < WORD32
    ensures Discipline(Carrying(Log(es), Calls(Log(es)), callControl), callControl)
  {
    hide Discipline, Log, Final, Calls;
    var log := Log(es);
    forall i | 0 <= i < |log|
      ensures log[i].stream < |Final(es).streams| && Calls(log)[i] == NthId(log[i].stream)
    {
      CallsInLog(es, i);
    }
    if 0 < callControl <= |Final(es).streams| {
      assert NthId(callControl - 1) == callControl;
      CarryingIsOf(log, Calls(log), callControl - 1);
      StreamDiscipline(es, callControl - 1);
    } else {
      CarryingNone(log, Calls(log), callControl);
      NothingSent(callControl);
    }
  }

  lemma NothingSent(callControl: nat)
    ensures Discipline([], callControl)
  {
  }
}
