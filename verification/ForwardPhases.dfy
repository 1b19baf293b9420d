/** The A to F phase of the voice sent to IPSC, over all runs: phase A has 52 bytes, E 66, the others 57. */
module ForwardPhases {
  import opened Options
  import opened Dmrd
  import opened IpscHeader
  import opened ForwardTranslator
  import opened ForwardTheorems
  import opened Streams

  /** A packet taken in on a stream and what was sent for it. */
  datatype Turn = Turn(input: Input, sent: seq<Data>)

  ghost function Taken(s: State, e: Event): seq<Emission<Turn>> {
    if Acts(s, e)
    then [Emission(Server(s, e.input.packet, e.found), Turn(e.input, Sent(Serving(s, e.input, e.now, e.found), e.input, e.peerId)))]
    else []
  }

  ghost function History(es: seq<Event>): seq<Emission<Turn>> {
    if es == [] then [] else History(es[..|es| - 1]) + Taken(Final(es[..|es| - 1]), es[|es| - 1])
  }

  /** Voice packets taken in since the last header, those whose burst turned out to be data included. */
  function VoicesSince(ts: seq<Turn>): nat {
    if ts == [] then 0
    else
      var n, k := VoicesSince(ts[..|ts| - 1]), KindOf(ts[|ts| - 1].input);
      if k.VoiceHeader? then 0 else if k.Voice? || k.Skipped? then n + 1 else n
  }

  function VoiceLength(phase: nat): nat {
    if phase == 0 then 52 else if phase == 4 then 66 else 57
  }

  /** The turn sends its voice in the given phase. */
  ghost predicate Phased(t: Turn, voices: nat) {
    KindOf(t.input).Voice? ==>
      |t.sent| == 1 && |t.sent[0]| == VoiceLength(voices % 6) && t.sent[0][33..52] == t.input.voice.value.0
  }

  ghost predicate AllPhased(ts: seq<Turn>) {
    forall k :: 0 <= k < |ts| ==> Phased(ts[k], VoicesSince(ts[..k]))
  }

  ghost predicate InPhase(st: Stream, ts: seq<Turn>) {
    st.burstIndex == VoicesSince(ts) % 6 && AllPhased(ts)
  }

  lemma VoiceSent(st: Stream, i: Input, peerId: nat, voices: nat)
    requires st.burstIndex == voices % 6
    ensures Phased(Turn(i, Sent(st, i, peerId)), voices)
  {
    hide HeaderBytes, RtpBytes, HeaderFor, RtpFor, KindOf;
    if KindOf(i).Voice? {
      VoiceKind(i);
      var body := VoiceBody(st.burstIndex % 6, i.packet, i.voice.value.0, i.voice.value.1);
      assert Sent(st, i, peerId) == [VoiceWire(st, i, peerId)];
      assert VoiceWire(st, i, peerId)[33..52] == body[3..22] == i.voice.value.0;
    }
  }

  lemma AllPhasedAppend(ts: seq<Turn>, t: Turn)
    requires AllPhased(ts) && Phased(t, VoicesSince(ts))
    ensures AllPhased(ts + [t])
  {
    hide Phased, VoicesSince;
    var us := ts + [t];
    forall k | 0 <= k < |us|
      ensures Phased(us[k], VoicesSince(us[..k]))
    {
      assert us[..k] == if k < |ts| then ts[..k] else ts;
    }
  }

  lemma AdvancedBurst(st: Stream, i: Input)
    ensures var k := KindOf(i);
      Advanced(st, i).burstIndex == if k.VoiceHeader? then 0 else if k.Voice? || k.Skipped? then (st.burstIndex + 1) % 6 else st.burstIndex
  {
    hide KindOf;
  }

  lemma VoicesOn(ts: seq<Turn>, t: Turn)
    ensures var k := KindOf(t.input);
      VoicesSince(ts + [t]) == if k.VoiceHeader? then 0 else VoicesSince(ts) + if k.Voice? || k.Skipped? then 1 else 0
  {
    hide KindOf;
    assert (ts + [t])[..|ts|] == ts;
  }

  lemma BurstCounted(st: Stream, ts: seq<Turn>, t: Turn)
    requires st.burstIndex == VoicesSince(ts) % 6
    ensures Advanced(st, t.input).burstIndex == VoicesSince(ts + [t]) % 6
  {
    hide VoicesSince, KindOf, Advanced;
    AdvancedBurst(st, t.input);
    VoicesOn(ts, t);
    NextModSix(VoicesSince(ts));
  }

  lemma NextModSix(n: nat)
    ensures (n % 6 + 1) % 6 == (n + 1) % 6
  {
  }

  /** A turn on a stream. */
  lemma TurnTaken(st: Stream, ts: seq<Turn>, i: Input, peerId: nat)
    requires InPhase(st, ts)
    ensures InPhase(Advanced(st, i), ts + [Turn(i, Sent(st, i, peerId))])
  {
    hide AllPhased, Sent, Advanced, VoicesSince, Phased;
    var t := Turn(i, Sent(st, i, peerId));
    VoiceSent(st, i, peerId, VoicesSince(ts));
    AllPhasedAppend(ts, t);
    BurstCounted(st, ts, t);
  }

  ghost predicate PhaseInv(s: State, hist: seq<Emission<Turn>>) {
    && (forall h :: 0 <= h < |s.streams| ==> InPhase(s.streams[h], Of(hist, h)))
    && (forall i :: 0 <= i < |hist| ==> hist[i].stream < |s.streams|)
  }

  lemma NewInPhase(s: State, p: Packet, now: nat)
    ensures InPhase(NewStream(s, p, now), [])
  {
  }

  lemma TouchedInPhase(st: Stream, ts: seq<Turn>, p: Packet, now: nat)
    requires InPhase(st, ts)
    ensures InPhase(Touched(st, p, now), ts)
  {
  }

  lemma OpenedInPhase(s: State, hist: seq<Emission<Turn>>, p: Packet, now: nat, found: Option<nat>)
    requires PhaseInv(s, hist)
    ensures PhaseInv(Opened(s, p, now, found), hist)
  {
    hide InPhase, Of;
    if |Opened(s, p, now, found).streams| > |s.streams| {
      NoneOf(hist, |s.streams|);
      NewInPhase(s, p, now);
    }
  }

  lemma NextInPhase(s: State, hist: seq<Emission<Turn>>, e: Event)
    requires PhaseInv(s, hist) && Acts(s, e)
    ensures PhaseInv(After(s, e), hist + Taken(s, e))
  {
    hide InPhase, Of, Opened, Server, Sent, Advanced, Touched, WithoutAliases;
    var i, p := e.input, e.input.packet;
    var o, h := Opened(s, p, e.now, e.found), Server(s, p, e.found);
    ServerInRange(s, i, e.now, e.found);
    OpenedInPhase(s, hist, p, e.now, e.found);
    var st := Serving(s, i, e.now, e.found);
    TouchedInPhase(o.streams[h], Of(hist, h), p, e.now);
    TurnTaken(st, Of(hist, h), i, e.peerId);
    var t := Turn(i, Sent(st, i, e.peerId));
    assert Taken(s, e) == [Emission(h, t)];
    forall g | 0 <= g < |After(s, e).streams|
      ensures InPhase(After(s, e).streams[g], Of(hist + Taken(s, e), g))
    {
      OfAppend(hist, Emission(h, t), g);
    }
  }

  /** In every run, every voice packet on every stream has the length and the vocoder bytes of its phase. */
  lemma {:induction false} PhasesKept(es: seq<Event>)
    ensures PhaseInv(Final(es), History(es))
  {
    if es != [] {
      var before, e := es[..|es| - 1], es[|es| - 1];
      PhasesKept(before);
      hide PhaseInv;
      if Acts(Final(before), e) {
        NextInPhase(Final(before), History(before), e);
      } else {
        assert History(before) + [] == History(before);
        SameStreams(Final(before), e, History(before));
      }
    }
  }

  lemma SameStreams(s: State, e: Event, hist: seq<Emission<Turn>>)
    requires PhaseInv(s, hist) && !Acts(s, e)
    ensures PhaseInv(After(s, e), hist)
  {
  }

  /**
    In every run, the voice packet sent for the k-th packet taken in on a stream is of phase A to F by the number of
    voice packets taken in there since the last header: 52 bytes for A, 66 for E, 57 for the others.
   */
  lemma VoicePhases(es: seq<Event>, h: nat, k: nat)
    requires h < |Final(es).streams| && k < |Of(History(es), h)|
    ensures var ts := Of(History(es), h); Phased(ts[k], VoicesSince(ts[..k]))
  {
    hide Phased, VoicesSince, Of, History, Final;
    PhasesKept(es);
  }
}
