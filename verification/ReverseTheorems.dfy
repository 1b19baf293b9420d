/** The protocol that every call obeys in the packets translated from IPSC, over all runs. */
module ReverseTheorems {
  import opened Options
  import opened ByteValues
  import opened LinkControl
  import opened Dmrd
  import opened LcBurst
  import opened IpscHeader
  import opened EmbeddedLc
  import opened ReverseTranslator
  import opened Streams

  /** A frame, when it comes, the stream the search may find for it, and the settings at that time. */
  datatype Event = Event(frame: Frame, now: nat, found: Option<nat>, repeater: nat, colorCode: bv8)

  const START := State(map[], [], 0)

  ghost predicate Acts(s: State, e: Event) {
    LegalServer(s, e.frame, e.found)
  }

  /** Every run of the translator is a run here; events that no search could give are skipped. */
  ghost function Final(es: seq<Event>): State {
    if es == [] then START
    else
      var s, e := Final(es[..|es| - 1]), es[|es| - 1];
      if Acts(s, e) then Next(s, e.frame, e.now, e.found) else s
  }

  ghost function Emitted(s: State, e: Event): seq<Emission<Packet>> {
    if !Acts(s, e) then []
    else
      match Output(s, e.frame, e.now, e.found, e.repeater, e.colorCode)
      case None => []
      case Some(p) => [Emission(Server(s, e.frame, e.found), p)]
  }

  ghost function Log(es: seq<Event>): seq<Emission<Packet>> {
    if es == [] then [] else Log(es[..|es| - 1]) + Emitted(Final(es[..|es| - 1]), es[|es| - 1])
  }

  // ---------- The protocol ----------

  predicate IsHeader(p: Packet) {
    p.frameType == 2 && p.dtypeOrVSeq == 1
  }

  predicate IsVoice(p: Packet) {
    p.frameType != 2
  }

  /** Voice packets since the last header, or since the start. */
  function VoicesSince(ps: seq<Packet>): nat {
    if ps == [] then 0
    else
      var n, p := VoicesSince(ps[..|ps| - 1]), ps[|ps| - 1];
      if IsHeader(p) then 0 else if IsVoice(p) then n + 1 else n
  }

  ghost predicate Numbered(ps: seq<Packet>) {
    forall k :: 0 <= k < |ps| ==> ps[k].seqNo == k % 256
  }

  ghost predicate OneHeader(ps: seq<Packet>) {
    forall i, j :: 0 <= i < j < |ps| ==> !(IsHeader(ps[i]) && IsHeader(ps[j]))
  }

  /** At most one terminator, and nothing after it. */
  ghost predicate TerminatorEnds(ps: seq<Packet>) {
    forall i :: 0 <= i < |ps| && IsTerminator(ps[i]) ==> i == |ps| - 1
  }

  /** Voice runs through the phases 0 to 5, from 0 after the header, and phase 0 is the sync frame. */
  predicate InPhase(p: Packet, voices: nat) {
    IsVoice(p) ==> p.dtypeOrVSeq == voices % 6 && p.frameType == if voices % 6 == 0 then 1 else 0
  }

  ghost predicate Phased(ps: seq<Packet>) {
    forall k :: 0 <= k < |ps| ==> InPhase(ps[k], VoicesSince(ps[..k]))
  }

  /** The addresses the stream was created with are on every packet, unless they were zero. */
  predicate Keeps(p: Packet, id: nat, src: Id, dst: Id) {
    p.streamId == id && (src != 0 ==> p.src == src) && (dst != 0 ==> p.dst == dst)
  }

  ghost predicate Addressed(ps: seq<Packet>, id: nat, src: Id, dst: Id) {
    forall k :: 0 <= k < |ps| ==> Keeps(ps[k], id, src, dst)
  }

  ghost predicate Protocol(ps: seq<Packet>) {
    Numbered(ps) && OneHeader(ps) && TerminatorEnds(ps) && Phased(ps)
  }

  // ---------- One stream ----------

  ghost predicate HasHeader(ps: seq<Packet>) {
    exists i :: 0 <= i < |ps| && IsHeader(ps[i])
  }

  ghost predicate Ended(ps: seq<Packet>) {
    exists i :: 0 <= i < |ps| && IsTerminator(ps[i])
  }

  /** The stream holds the embedded link control of the call its header names. */
  ghost predicate Embeds(st: Stream, ps: seq<Packet>) {
    forall i :: 0 <= i < |ps| && IsHeader(ps[i]) ==> st.embedded == Some(Fragments(ps[i].src, ps[i].dst, ps[i].groupCall))
  }

  /** A stream object knows what was sent on it: it is live just until its terminator. */
  ghost predicate Tracks(st: Stream, ps: seq<Packet>, live: bool) {
    && st.seqNo == |ps| % 256 && st.burstIndex == VoicesSince(ps) % 6
    && (st.started <==> HasHeader(ps)) && (live <==> !Ended(ps))
    && Protocol(ps) && Addressed(ps, st.streamId, st.src, st.dst) && Embeds(st, ps)
  }

  predicate OfFrame(p: Packet, st: Stream, f: Frame)
    requires Translatable(f)
  {
    p.src == SrcFor(st, f) && p.dst == DstFor(st, f) && p.groupCall == GroupCallOf(f)
  }

  /** What kind of packet comes out of each kind of frame. */
  lemma KindShows(st: Stream, f: Frame, repeater: nat, colorCode: bv8)
    requires Translatable(f)
    ensures var k := KindOf(f, st.started);
      var p := PacketFor(st, f, k, repeater, colorCode);
      && (!k.Nothing? ==> (IsHeader(p) <==> k.VoiceHeader?) && (IsTerminator(p) <==> k.Terminator?) && (IsVoice(p) <==> k.Voice?))
      && p.seqNo == st.seqNo && Keeps(p, st.streamId, st.src, st.dst) && (k.Voice? ==> InPhase(p, st.burstIndex)) && OfFrame(p, st, f)
  {
    hide Value, BuiltBurst, LcFor, SrcOf, DstOf, SlotIn, EndIn, GroupCallOf;
    var k := KindOf(f, st.started);
    ValueIs(DataTypeOf(k), VOICE_LC_HEADER);
    ValueIs(DataTypeOf(k), TERMINATOR_WITH_LC);
    assert Value(VOICE_LC_HEADER) == 1 && Value(TERMINATOR_WITH_LC) == 2 by {
      SmallValues();
    }
  }

  lemma SmallValues()
    ensures Value(VOICE_LC_HEADER) == 1 && Value(TERMINATOR_WITH_LC) == 2
  {
  }

  lemma VoicesAppend(ps: seq<Packet>, p: Packet)
    ensures VoicesSince(ps + [p]) == if IsHeader(p) then 0 else VoicesSince(ps) + if IsVoice(p) then 1 else 0
  {
    assert (ps + [p])[..|ps|] == ps;
  }

  lemma ProtocolAppend(ps: seq<Packet>, p: Packet)
    requires Protocol(ps) && !Ended(ps) && p.seqNo == |ps| % 256 && InPhase(p, VoicesSince(ps))
    requires IsHeader(p) ==> !HasHeader(ps)
    ensures Protocol(ps + [p])
  {
    hide InPhase, VoicesSince, IsHeader, IsTerminator;
    var qs := ps + [p];
    forall k | 0 <= k < |qs|
      ensures InPhase(qs[k], VoicesSince(qs[..k]))
    {
      assert k < |ps| ==> qs[k] == ps[k] && qs[..k] == ps[..k];
      assert k == |ps| ==> qs[..k] == ps;
    }
    assert forall i :: 0 <= i < |ps| ==> qs[i] == ps[i];
  }

  /** A packet sent on a live stream is tracked. */
  lemma Sent(st: Stream, ps: seq<Packet>, f: Frame, k: Kind, p: Packet, now: nat)
    requires Tracks(st, ps, true) && !k.Nothing? && Translatable(f) && OfFrame(p, st, f)
    requires (IsHeader(p) <==> k.VoiceHeader?) && (IsTerminator(p) <==> k.Terminator?) && (IsVoice(p) <==> k.Voice?)
    requires p.seqNo == st.seqNo && Keeps(p, st.streamId, st.src, st.dst) && (k.Voice? ==> InPhase(p, st.burstIndex))
    requires k.VoiceHeader? ==> !st.started
    ensures Tracks(Advanced(st, f, k, now), ps + [p], !k.Terminator?)
  {
    hide Protocol, IsHeader, IsTerminator, IsVoice, VoicesSince, Keeps, SrcFor, DstFor, GroupCallOf, Fragments;
    var qs := ps + [p];
    assert forall i :: 0 <= i < |ps| ==> qs[i] == ps[i];
    assert qs[|ps|] == p;
    assert InPhase(p, VoicesSince(ps));
    ProtocolAppend(ps, p);
    VoicesAppend(ps, p);
    assert HasHeader(qs) <==> HasHeader(ps) || IsHeader(p);
    assert Ended(qs) <==> Ended(ps) || IsTerminator(p);
  }

  // ---------- The whole translator ----------

  ghost predicate Inv(s: State, log: seq<Emission<Packet>>) {
    && Shape(s)
    && s.lastId == LastOf(|s.streams|)
    && (forall h :: 0 <= h < |s.streams| ==> Tracks(s.streams[h], Of(log, h), Live(s, h)))
    && (forall h :: 0 <= h < |s.streams| ==> s.streams[h].streamId == NthId(h))
    && (forall i :: 0 <= i < |log| ==> log[i].stream < |s.streams|)
  }

  /** Finding or creating the frame's stream keeps the invariant and makes the stream live. */
  lemma OpenedInv(s: State, log: seq<Emission<Packet>>, f: Frame, now: nat, found: Option<nat>)
    requires Inv(s, log) && LegalServer(s, f, found)
    ensures Inv(Opened(s, f, now, found), log) && Live(Opened(s, f, now, found), Server(s, f, found))
  {
    hide Tracks, Of, NthId, Successor, CallControlIn, PeerIn, SrcOf, DstOf, SlotIn, GroupCallOf;
    var o, h, key := Opened(s, f, now, found), Server(s, f, found), CallControlIn(f.data);
    ServerInRange(s, f, now, found);
    assert o.aliases[key] == h && key in o.aliases;
    forall g
      ensures Live(o, g) <==> Live(s, g) || g == h
    {
      if Live(s, g) {
        var k :| k in s.aliases && s.aliases[k] == g;
        assert o.aliases[k] == g;
      }
    }
    if |o.streams| > |s.streams| {
      NthSuccessor(|s.streams|);
      NoneOf(log, h);
      Created(s, f, now);
    }
  }

  lemma Created(s: State, f: Frame, now: nat)
    requires Translatable(f)
    ensures Tracks(NewStream(s, f, now), [], true)
  {
  }

  lemma NextInv(s: State, log: seq<Emission<Packet>>, e: Event)
    requires Inv(s, log) && Acts(s, e)
    ensures Inv(Next(s, e.frame, e.now, e.found), log + Emitted(s, e))
  {
    hide Opened, Server, KindOf, PacketFor, Of, NthId, WithoutAliases, Tracks;
    var f := e.frame;
    var o, h := Opened(s, f, e.now, e.found), Server(s, f, e.found);
    OpenedInv(s, log, f, e.now, e.found);
    ServerInRange(s, f, e.now, e.found);
    var st := o.streams[h];
    var k := KindOf(f, st.started);
    var next := Next(s, f, e.now, e.found);
    if k.Nothing? {
      assert log + Emitted(s, e) == log;
      Untouched(st, Of(log, h), f, Live(o, h), e.now);
      return;
    }
    var p := PacketFor(st, f, k, e.repeater, e.colorCode);
    assert Emitted(s, e) == [Emission(h, p)];
    KindShows(st, f, e.repeater, e.colorCode);
    KindStarted(f, st.started);
    Sent(st, Of(log, h), f, k, p, e.now);
    forall g | 0 <= g < |next.streams|
      ensures Tracks(next.streams[g], Of(log + Emitted(s, e), g), Live(next, g))
    {
      OfAppend(log, Emission(h, p), g);
      ClosedLive(o.aliases, h, g);
    }
    SameId(st, f, k, e.now);
    assert Shape(next) by {
      assert forall a :: a in next.aliases ==> a in o.aliases && next.aliases[a] == o.aliases[a] by {
        Fewer(o.aliases, h);
      }
    }
  }

  lemma Untouched(st: Stream, ps: seq<Packet>, f: Frame, live: bool, now: nat)
    requires Tracks(st, ps, live) && Translatable(f)
    ensures Tracks(Advanced(st, f, Nothing, now), ps, live)
  {
  }

  lemma KindStarted(f: Frame, started: bool)
    requires Translatable(f)
    ensures KindOf(f, started).VoiceHeader? ==> !started
  {
  }

  lemma SameId(st: Stream, f: Frame, k: Kind, now: nat)
    requires Translatable(f)
    ensures Advanced(st, f, k, now).streamId == st.streamId
  {
  }

  lemma {:induction false} Always(es: seq<Event>)
    ensures Inv(Final(es), Log(es))
  {
    hide Inv;
    if es == [] {
      assert Inv(START, []) by {
        StartInv();
      }
    } else {
      var before, e := es[..|es| - 1], es[|es| - 1];
      Always(before);
      if Acts(Final(before), e) {
        NextInv(Final(before), Log(before), e);
      } else {
        assert Log(before) + [] == Log(before);
      }
    }
  }

  lemma StartInv()
    ensures Inv(START, [])
  {
  }

  /**
    In every run, the packets made on one stream object are numbered 0, 1, 2, ... modulo 256, hold at most
    one header, at most one terminator with nothing after it, voice in phase, and the addresses the
    stream was created with; no call-control word leads to the stream once its terminator is out; and the
    embedded link control kept for its voice is that of the call its header names.
   */
  lemma StreamProtocol(es: seq<Event>, h: nat)
    requires h < |Final(es).streams|
    ensures Protocol(Of(Log(es), h))
    ensures var st := Final(es).streams[h]; Addressed(Of(Log(es), h), NthId(h), st.src, st.dst)
    ensures Ended(Of(Log(es), h)) <==> !Live(Final(es), h)
    ensures Embeds(Final(es).streams[h], Of(Log(es), h))
  {
    hide Protocol, Addressed, Ended, Embeds, Of, Log, Final;
    Always(es);
  }

  predicate SameOrigin(a: Stream, b: Stream) {
    && a.streamId == b.streamId && a.src == b.src && a.dst == b.dst
    && a.slot == b.slot && a.groupCall == b.groupCall && a.peerId == b.peerId
  }

  lemma NextKeepsOrigin(s: State, e: Event, h: nat)
    requires Acts(s, e) && h < |s.streams|
    ensures var next := Next(s, e.frame, e.now, e.found); h < |next.streams| && SameOrigin(s.streams[h], next.streams[h])
  {
    hide KindOf, NewStream, CallControlIn, WithoutAliases;
    ServerInRange(s, e.frame, e.now, e.found);
  }

  /** A stream object keeps the id and the addresses it was created with. */
  lemma {:induction false} CreationFixed(es: seq<Event>, n: nat, h: nat)
    requires n <= |es| && h < |Final(es[..n]).streams|
    ensures h < |Final(es).streams| && SameOrigin(Final(es[..n]).streams[h], Final(es).streams[h])
  {
    if n == |es| {
      assert es[..n] == es;
    } else {
      var before, e := es[..|es| - 1], es[|es| - 1];
      assert before[..n] == es[..n];
      CreationFixed(before, n, h);
      hide Next;
      if Acts(Final(before), e) {
        NextKeepsOrigin(Final(before), e, h);
      }
    }
  }

  // ---------- By stream id ----------

  /** The stream ids on the packets of a log. */
  function StreamIds(log: seq<Emission<Packet>>): (ids: seq<nat>)
    ensures |ids| == |log|
  {
    seq(|log|, i requires 0 <= i < |log| => log[i].packet.streamId)
  }

  lemma IdsInLog(es: seq<Event>, i: nat)
    requires i < |Log(es)|
    ensures Log(es)[i].stream < |Final(es).streams| && Log(es)[i].packet.streamId == NthId(Log(es)[i].stream)
  {
    Always(es);
    var log := Log(es);
    hide Log, Final, NthId, Live;
    EachOf(log, i);
    StreamProtocol(es, log[i].stream);
  }

  /** Until the 32-bit id counter comes round, the same holds of all packets that carry one stream id. */
  lemma IdProtocol(es: seq<Event>, id: nat)
    requires |Final(es).streams| < WORD32
    ensures Protocol(Carrying(Log(es), StreamIds(Log(es)), id))
    ensures 0 < id <= |Final(es).streams| ==>
      var st := Final(es).streams[id - 1]; Addressed(Carrying(Log(es), StreamIds(Log(es)), id), id, st.src, st.dst)
  {
    hide Protocol, Addressed, Ended, Live, Log, Final;
    var log := Log(es);
    forall i | 0 <= i < |log|
      ensures log[i].stream < |Final(es).streams| && log[i].packet.streamId == NthId(log[i].stream)
    {
      IdsInLog(es, i);
    }
    if 0 < id <= |Final(es).streams| {
      assert NthId(id - 1) == id;
      CarryingIsOf(log, StreamIds(log), id - 1);
      StreamProtocol(es, id - 1);
    } else {
      CarryingNone(log, StreamIds(log), id);
      NothingObeys();
    }
  }

  lemma NothingObeys()
    ensures Protocol([])
  {
  }

  /** A data burst carries the link control the repeater sent: decoding it gives the 12 bytes back. */
  lemma PayloadCarried(s: State, f: Frame, now: nat, found: Option<nat>, repeater: nat, colorCode: bv8)
    requires LegalServer(s, f, found) && |f.data| >= 50
    ensures var out := Output(s, f, now, found, repeater, colorCode);
      out.Some? && !IsVoice(out.value) ==> LcIn(out.value.dmrData) == Recovered(f.data[38..50])
  {
    hide BuiltBurst, LcIn, KindAt, Opened, Server;
    var k := KindAt(s, f, now, found);
    LcRoundTrip(f.data[38..50], DataTypeOf(k), colorCode);
  }
}
