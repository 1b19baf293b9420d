/** What each frame from a repeater becomes, in every run that obeys the search. */
module ReverseAnswers {
  import opened Options
  import opened ByteValues
  import opened Dmrd
  import LcBurst
  import opened IpscHeader
  import opened ReverseTranslator
  import opened Streams
  import opened ReverseTheorems
  import opened ReverseServing

  /** The frame is worth a packet on a stream that sent ps before. */
  ghost predicate Speaks(f: Frame, ps: seq<Packet>)
    requires |f.data| >= 31
  {
    var burst := f.data[30];
    if burst == 0x01 then !HasHeader(ps)
    else if burst == 0x02 then EndIn(f.data)
    else if burst == 0x0A || burst == 0x8A then |f.data| >= 52
    else burst == 0x03 || (|f.data| >= 50 && burst <= 10)
  }

  /** The packet a voice frame becomes: phase and sync follow from what was sent, and the burst is the frame's. */
  ghost predicate VoiceOf(p: Packet, ps: seq<Packet>, f: Frame) {
    var phase := VoicesSince(ps) % 6;
    p.frameType == (if phase == 0 then 1 else 0) && p.dtypeOrVSeq == phase && p.dmrData == f.voice
  }

  /** The packet any other frame becomes: its burst type, and a burst around the link control it carries or stands for. */
  ghost predicate DataOf(p: Packet, f: Frame, colorCode: bv8)
    requires |f.data| >= 31
  {
    var burst := f.data[30];
    var lc := if |f.data| >= 50 then f.data[38..50]
              else if burst == 0x03 then f.standardLc
              else [if IsGroup(f) then 0x00 else 0x03] + f.standardLc[1..];
    p.frameType == 2 && p.dtypeOrVSeq == Value(burst) && p.dmrData == LcBurst.BuiltBurst(lc, burst, colorCode)
  }

  /** What all packets have: the next number, the stream's id and addresses unless these are zero, the frame's slot and call type. */
  ghost predicate Stamped(p: Packet, st: Stream, ps: seq<Packet>, f: Frame, repeater: nat)
    requires Translatable(f)
  {
    && p.seqNo == |ps| % 256 && p.streamId == st.streamId && p.repeater == repeater
    && p.src == (if st.src != 0 then st.src else Addresses(f).0) && p.dst == (if st.dst != 0 then st.dst else Addresses(f).1)
    && p.slot == SlotIn(f.data) && p.groupCall == IsGroup(f)
  }

  lemma OutputIs(st: Stream, ps: seq<Packet>, f: Frame, repeater: nat, colorCode: bv8)
    requires Translatable(f) && Tracks(st, ps, true)
    ensures var k := KindOf(f, st.started);
      && (Speaks(f, ps) <==> !k.Nothing?)
      && (Speaks(f, ps) ==>
          var p := PacketFor(st, f, k, repeater, colorCode);
          && Stamped(p, st, ps, f, repeater)
          && (if f.data[30] == 0x0A || f.data[30] == 0x8A then VoiceOf(p, ps, f) else DataOf(p, f, colorCode)))
  {
    hide SrcOf, DstOf, GroupCallOf, Addresses, IsGroup, SlotIn, EndIn, LcBurst.BuiltBurst, Value;
    hide VoicesSince, HasHeader, Protocol, Addressed, Embeds;
    AddressesAre(f);
    assert f.standardLc[0 := if GroupCallOf(f) then 0x00 else 0x03] == [if IsGroup(f) then 0x00 else 0x03] + f.standardLc[1..];
  }

  /** The stream that serves a frame, when the packet is made and afterwards. */
  lemma ServingKeeps(s: State, f: Frame, now: nat, found: Option<nat>)
    requires LegalServer(s, f, found) && Server(s, f, found) < |Opened(s, f, now, found).streams|
    ensures var s', o, h := Next(s, f, now, found), Opened(s, f, now, found), Server(s, f, found);
      |s'.streams| == |o.streams| && SameOrigin(o.streams[h], s'.streams[h])
  {
    hide Opened, Server, KindOf, WithoutAliases, NextSeq, NextBurst, EmbeddedFor;
  }

  lemma StampedBoth(a: Stream, b: Stream, ps: seq<Packet>, f: Frame, repeater: nat)
    requires SameOrigin(a, b) && Translatable(f)
    ensures forall p :: Stamped(p, a, ps, f, repeater) <==> Stamped(p, b, ps, f, repeater)
  {
  }

  /**
    What each frame becomes, in every run: at most one packet, on the stream that serves it. A header becomes one unless
    its stream already sent one, a terminator if it has the end flag, voice if it is long enough, and everything else if it is
    long enough or a control block; number and voice phase follow from what the stream sent before.
   */
  lemma AnswerIff(es: seq<Event>, n: nat, h: nat)
    requires Searched(es) && n < |es| && Serves(es, n, h)
    ensures h < |Final(es[..n + 1]).streams|
    ensures var f, ps, sent := es[n].frame, Of(Log(es[..n]), h), Emitted(Final(es[..n]), es[n]);
      if !Speaks(f, ps) then sent == []
      else
        && |sent| == 1 && sent[0].stream == h && Stamped(sent[0].packet, Final(es[..n + 1]).streams[h], ps, f, es[n].repeater)
        && (if f.data[30] == 0x0A || f.data[30] == 0x8A then VoiceOf(sent[0].packet, ps, f)
            else DataOf(sent[0].packet, f, es[n].colorCode))
  {
    hide *;
    var s, e, log := Final(es[..n]), es[n], Log(es[..n]);
    ServedFacts(es, n, h);
    Always(es[..n]);
    OpenedInv(s, log, e.frame, e.now, e.found);
    ServedTracks(s, log, e, h);
    ServerInRange(s, e.frame, e.now, e.found);
    var before := Opened(s, e.frame, e.now, e.found).streams[h];
    OutputIs(before, Of(log, h), e.frame, e.repeater, e.colorCode);
    EmittedIs(s, e);
    StepIs(es, n);
    ServingKeeps(s, e.frame, e.now, e.found);
    StampedBoth(before, Final(es[..n + 1]).streams[h], Of(log, h), e.frame, e.repeater);
  }

  lemma ServedFacts(es: seq<Event>, n: nat, h: nat)
    requires Searched(es) && n < |es| && Serves(es, n, h)
    ensures var s, e := Final(es[..n]), es[n];
      && Translatable(e.frame) && |e.frame.data| >= 31 && Acts(s, e) && LegalServer(s, e.frame, e.found)
      && h == Server(s, e.frame, e.found)
  {
    hide Final, LegalFind, Server, Shape, Live;
  }

  lemma ServedTracks(s: State, log: seq<Emission<Packet>>, e: Event, h: nat)
    requires LegalServer(s, e.frame, e.found) && h == Server(s, e.frame, e.found)
    requires var o := Opened(s, e.frame, e.now, e.found); Inv(o, log) && Live(o, h)
    ensures var o := Opened(s, e.frame, e.now, e.found); h < |o.streams| && Tracks(o.streams[h], Of(log, h), true)
  {
    hide Opened, Server, Of, Tracks;
    ServerInRange(s, e.frame, e.now, e.found);
  }

  /** What is sent for a frame. */
  lemma EmittedIs(s: State, e: Event)
    requires Acts(s, e) && Server(s, e.frame, e.found) < |Opened(s, e.frame, e.now, e.found).streams|
    ensures var h := Server(s, e.frame, e.found);
      var st := Opened(s, e.frame, e.now, e.found).streams[h];
      var k := KindOf(e.frame, st.started);
      Emitted(s, e) == if k.Nothing? then [] else [Emission(h, PacketFor(st, e.frame, k, e.repeater, e.colorCode))]
  {
    hide Opened, Server, KindOf, PacketFor;
  }
}
