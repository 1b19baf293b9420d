/** Over all runs of the Hytera receiver, a stream id names one call. */
module HyteraStreams {
  import Options
  import opened Dmrd
  import opened IpscHeader
  import opened Streams
  import opened Hytera

  datatype Event = Event(data: seq<bv8>, now: nat, bridgeId: nat)

  /** A packet and when it was delivered. */
  datatype Delivery = Delivery(packet: Packet, now: nat)

  /**
    A run: the receiver's state, how many streams it has started, which of them each slot is on,
    and what it delivered, each packet with the number of its stream.
   */
  datatype Run = Run(state: State, started: nat, current: map<bool, nat>, log: seq<Emission<Delivery>>)

  const START := Run(State(map[false := NEW_SLOT, true := NEW_SLOT], 1), 0, map[false := 0, true := 0], [])

  predicate Accepts(s: State, e: Event) {
    Decoded(s, e.data, e.now, e.bridgeId).1.Delivered?
  }

  function After(r: Run, e: Event): Run {
    var (s, o) := Decoded(r.state, e.data, e.now, e.bridgeId);
    match o
    case Delivered(p) =>
      var starts := StartsStream(r.state, e);
      var stream := if starts then r.started else CurrentOf(r, p.slot);
      Run(s, if starts then r.started + 1 else r.started, r.current[p.slot := stream], r.log + [Emission(stream, Delivery(p, e.now))])
    case _ => r.(state := s)
  }

  function CurrentOf(r: Run, slot: bool): nat {
    if slot in r.current then r.current[slot] else 0
  }

  /** The frame starts a stream: it takes the next id of the counter both slots share. */
  predicate StartsStream(s: State, e: Event) {
    ReadFrame(e.data).Read? &&
    var f := ReadFrame(e.data).fields;
    ShouldStartNewInboundStream(SlotAt(s, f.slot), f, e.now)
  }

  function Final(es: seq<Event>): Run {
    if es == [] then START else After(Final(es[..|es| - 1]), es[|es| - 1])
  }

  // ---------- The calls ----------

  predicate IsHeader(p: Packet) {
    p.frameType == 2 && p.dtypeOrVSeq == 1
  }

  function HangTime(groupCall: bool): nat {
    if groupCall then 6000 else 4000
  }

  predicate SameAddresses(a: Packet, b: Packet) {
    a.src == b.src && a.dst == b.dst && a.groupCall == b.groupCall
  }

  /**
    Delivery b goes on with the call of delivery a on the same slot: a has not ended it, and if b is a link control
    header it names the same call within the hang time. (Time 0 is the original's zero time.)
   */
  predicate Continues(a: Delivery, b: Delivery) {
    && !IsTerminator(a.packet)
    && (IsHeader(b.packet) ==>
          SameAddresses(a.packet, b.packet) && a.now != 0 && b.now - a.now <= HangTime(b.packet.groupCall))
  }

  /** One call: all on one slot, and each packet continues the one before, so that nothing follows a terminator. */
  ghost predicate OneCall(ds: seq<Delivery>, slot: bool) {
    && (forall i :: 0 <= i < |ds| ==> ds[i].packet.slot == slot)
    && (forall i :: 0 < i < |ds| ==> Continues(ds[i - 1], ds[i]))
  }

  ghost predicate IsCall(ds: seq<Delivery>) {
    OneCall(ds, false) || OneCall(ds, true)
  }

  /** The slot's fields after a delivery. */
  predicate Remembers(st: SlotState, d: Delivery) {
    && st.active == !IsTerminator(d.packet)
    && st.inSrc == d.packet.src && st.inDst == d.packet.dst && st.inGroupCall == d.packet.groupCall && st.lastInbound == d.now
  }

  /** An active slot is on a stream of its own and remembers its last packet. */
  ghost predicate SlotInv(r: Run, b: bool) {
    var st, ds := SlotAt(r.state, b), Of(r.log, CurrentOf(r, b));
    st.active ==>
      CurrentOf(r, b) < r.started && st.streamId == NthId(CurrentOf(r, b)) &&
      ds != [] && OneCall(ds, b) && Remembers(st, ds[|ds| - 1])
  }

  ghost predicate Inv(r: Run) {
    && r.state.nextStreamId == NthId(r.started)
    && SlotInv(r, false) && SlotInv(r, true)
    && (forall h :: 0 <= h < r.started ==> IsCall(Of(r.log, h)))
    && (forall i :: 0 <= i < |r.log| ==>
          r.log[i].stream < r.started && r.log[i].packet.packet.streamId == NthId(r.log[i].stream))
  }

  lemma SuccessorOfNth(n: nat)
    ensures Successor(NthId(n)) == NthId(n + 1)
  {
    NthSuccessor(n + 1);
  }

  /** What a delivered packet shows of the step. */
  lemma DeliveredStep(s: State, e: Event)
    requires Accepts(s, e)
    ensures var (s', o) := Decoded(s, e.data, e.now, e.bridgeId);
      var starts, b := StartsStream(s, e), o.packet.slot;
      && o.packet.streamId == SlotAt(s', b).streamId
      && SlotAt(s', b).streamId == (if starts then s.nextStreamId else SlotAt(s, b).streamId)
      && s'.nextStreamId == (if starts then Successor(s.nextStreamId) else s.nextStreamId)
      && Remembers(SlotAt(s', b), Delivery(o.packet, e.now))
      && SlotAt(s', !b) == SlotAt(s, !b)
  {
    hide IdFrom24LE, Swapped, HasHeader, Successor;
    KindsOfFrames(e.data);
  }

  /** A stream is started on an idle slot, or when the packet does not continue the last delivery there. */
  lemma StartsIff(s: State, e: Event, last: Delivery)
    requires Accepts(s, e)
    ensures var p := Decoded(s, e.data, e.now, e.bridgeId).1.packet;
      var st := SlotAt(s, p.slot);
      && (!st.active ==> StartsStream(s, e))
      && (Remembers(st, last) ==> (StartsStream(s, e) <==> !Continues(last, Delivery(p, e.now))))
  {
    hide IdFrom24LE, Swapped, HasHeader, Successor;
    KindsOfFrames(e.data);
  }

  lemma KindsOfFrames(data: seq<bv8>)
    requires ReadFrame(data).Read?
    ensures var f := ReadFrame(data).fields;
      && (f.frameType == 2 && f.dtype == 2 <==> f.slotType == TERMINATOR)
      && (f.frameType == 2 && f.dtype == 1 <==> f.slotType == LC_HEADER)
  {
    hide IdFrom24LE, Swapped, HasHeader, Read16;
  }

  lemma CallGrows(ds: seq<Delivery>, d: Delivery, slot: bool)
    requires OneCall(ds, slot) && d.packet.slot == slot && (ds != [] ==> Continues(ds[|ds| - 1], d))
    ensures OneCall(ds + [d], slot)
  {
    hide Continues;
    var qs := ds + [d];
    assert forall i :: 0 <= i < |ds| ==> qs[i] == ds[i];
  }

  /** Two active slots are on different streams, since a stream keeps to one slot. */
  lemma SlotsApart(r: Run)
    requires Inv(r) && SlotAt(r.state, false).active && SlotAt(r.state, true).active
    ensures CurrentOf(r, false) != CurrentOf(r, true)
  {
    hide Of, NthId, Remembers;
    assert Of(r.log, CurrentOf(r, false))[0].packet.slot == false;
    assert Of(r.log, CurrentOf(r, true))[0].packet.slot == true;
  }

  lemma AfterInv(r: Run, e: Event)
    requires Inv(r) && Accepts(r.state, e)
    ensures Inv(After(r, e))
  {
    hide Decoded, Of, NthId, Successor, OneCall, IsTerminator, StartsStream, Continues;
    DeliveredStep(r.state, e);
    var (s, o) := Decoded(r.state, e.data, e.now, e.bridgeId);
    var d, b := Delivery(o.packet, e.now), o.packet.slot;
    var starts := StartsStream(r.state, e);
    var h := if starts then r.started else CurrentOf(r, b);
    var r' := After(r, e);
    var ds := Of(r.log, h);
    SuccessorOfNth(r.started);
    assert SlotInv(r, b) && SlotInv(r, !b);
    StartsIff(r.state, e, d);
    if starts {
      NoneOf(r.log, h);
      EmptyCall(b);
    } else {
      StartsIff(r.state, e, ds[|ds| - 1]);
    }
    CallGrows(ds, d, b);
    if SlotAt(r.state, !b).active && !starts {
      SlotsApart(r);
      assert CurrentOf(r, !b) != h;
    }
    forall g
      ensures Of(r'.log, g) == if g == h then ds + [d] else Of(r.log, g)
    {
      OfAppend(r.log, Emission(h, d), g);
    }
    forall g | 0 <= g < r'.started
      ensures IsCall(Of(r'.log, g))
    {
    }
    assert SlotInv(r', b);
    assert SlotInv(r', !b);
  }

  lemma EmptyCall(slot: bool)
    ensures OneCall([], slot)
  {
  }

  lemma SkippedInv(r: Run, e: Event)
    requires Inv(r) && !Accepts(r.state, e)
    ensures Inv(After(r, e))
  {
    hide Of, NthId, Successor, OneCall, ReadFrame, ShouldStartNewInboundStream, TakenIn, IsCall, Remembers;
  }

  lemma {:induction false} Always(es: seq<Event>)
    ensures Inv(Final(es))
  {
    hide Inv, After, Accepts;
    if es == [] {
      StartInv();
    } else {
      var before, e := es[..|es| - 1], es[|es| - 1];
      Always(before);
      if Accepts(Final(before).state, e) {
        AfterInv(Final(before), e);
      } else {
        SkippedInv(Final(before), e);
      }
    }
  }

  lemma StartInv()
    ensures Inv(START)
  {
  }

  /** The stream ids on the packets of a log. */
  function Ids(log: seq<Emission<Delivery>>): (ids: seq<nat>)
    ensures |ids| == |log|
  {
    seq(|log|, i requires 0 <= i < |log| => log[i].packet.packet.streamId)
  }

  /**
    In every run, until the 32-bit counter comes round, the packets delivered under one stream id are one call:
    on one slot, nothing after a terminator, and every link control header after the first packet names the call
    of the packet before it, within the hang time.
   */
  lemma IdIsCall(es: seq<Event>, id: nat)
    requires Final(es).started < WORD32
    ensures var log := Final(es).log; IsCall(Carrying(log, Ids(log), id))
  {
    hide Final, IsCall, SlotInv;
    Always(es);
    var r := Final(es);
    if 0 < id <= r.started {
      assert NthId(id - 1) == id;
      CarryingIsOf(r.log, Ids(r.log), id - 1);
    } else {
      CarryingNone(r.log, Ids(r.log), id);
      assert IsCall([]) by {
        NoCall();
      }
    }
  }

  lemma NoCall()
    ensures IsCall([])
  {
    EmptyCall(false);
  }

  // ---------- One slot ----------

  /** What was delivered on one slot, with its streams. */
  function OnSlot(log: seq<Emission<Delivery>>, slot: bool): seq<Emission<Delivery>> {
    if log == [] then []
    else
      var rest, last := OnSlot(log[..|log| - 1], slot), log[|log| - 1];
      if last.packet.packet.slot == slot then rest + [last] else rest
  }

  lemma OnSlotAppend(log: seq<Emission<Delivery>>, e: Emission<Delivery>, slot: bool)
    ensures OnSlot(log + [e], slot) == if e.packet.packet.slot == slot then OnSlot(log, slot) + [e] else OnSlot(log, slot)
  {
    assert (log + [e])[..|log|] == log;
  }

  ghost predicate Numbered(ps: seq<Emission<Delivery>>) {
    forall k :: 0 <= k < |ps| ==> ps[k].packet.packet.seqNo == k % 256
  }

  /** Consecutive packets of a slot share a stream exactly when the second continues the first. */
  ghost predicate Segmented(ps: seq<Emission<Delivery>>) {
    forall k :: 0 < k < |ps| ==> (ps[k].stream == ps[k - 1].stream <==> Continues(ps[k - 1].packet, ps[k].packet))
  }

  /** What the receiver knows of a slot, from what it delivered there. */
  ghost predicate SlotTold(r: Run, slot: bool) {
    var st, ps := SlotAt(r.state, slot), OnSlot(r.log, slot);
    && st.mmdvmSeq == |ps| % 256 && Numbered(ps) && Segmented(ps)
    && (forall k :: 0 <= k < |ps| ==> ps[k].stream < r.started)
    && (if ps == [] then !st.active else ps[|ps| - 1].stream == CurrentOf(r, slot) && Remembers(st, ps[|ps| - 1].packet))
  }

  lemma DeliveredNumber(s: State, e: Event)
    requires Accepts(s, e)
    ensures var (s', o) := Decoded(s, e.data, e.now, e.bridgeId);
      var b := o.packet.slot;
      o.packet.seqNo == SlotAt(s, b).mmdvmSeq && SlotAt(s', b).mmdvmSeq == (SlotAt(s, b).mmdvmSeq + 1) % 256
  {
    hide ReadFrame, ShouldStartNewInboundStream, Successor;
  }

  lemma SkippedSlot(s: State, e: Event, slot: bool)
    requires !Accepts(s, e)
    ensures SlotAt(Decoded(s, e.data, e.now, e.bridgeId).0, slot) == SlotAt(s, slot)
  {
    hide ReadFrame, ShouldStartNewInboundStream, TakenIn, Successor;
  }

  lemma ListGrows(ps: seq<Emission<Delivery>>, x: Emission<Delivery>)
    requires Numbered(ps) && Segmented(ps) && x.packet.packet.seqNo == |ps| % 256
    requires ps != [] ==>
      (x.stream == ps[|ps| - 1].stream <==> Continues(ps[|ps| - 1].packet, x.packet))
    ensures Numbered(ps + [x]) && Segmented(ps + [x])
  {
    hide Continues;
    var qs := ps + [x];
    assert forall k :: 0 <= k < |ps| ==> qs[k] == ps[k];
  }

  lemma NextNumber(n: nat)
    ensures (n % 256 + 1) % 256 == (n + 1) % 256
  {
  }

  /** What a delivery adds to its slot's list. */
  lemma ToldDelivery(r: Run, e: Event)
    requires Accepts(r.state, e)
    requires var p := Decoded(r.state, e.data, e.now, e.bridgeId).1.packet; SlotTold(r, p.slot)
    ensures var p := Decoded(r.state, e.data, e.now, e.bridgeId).1.packet; SlotTold(After(r, e), p.slot)
  {
    hide Decoded, StartsStream, OnSlot, Numbered, Segmented, Continues, Remembers;
    DeliveredStep(r.state, e);
    DeliveredNumber(r.state, e);
    var p := Decoded(r.state, e.data, e.now, e.bridgeId).1.packet;
    var ps := OnSlot(r.log, p.slot);
    var starts := StartsStream(r.state, e);
    var x := Emission(if starts then r.started else CurrentOf(r, p.slot), Delivery(p, e.now));
    OnSlotAppend(r.log, x, p.slot);
    StartsIff(r.state, e, if ps == [] then x.packet else ps[|ps| - 1].packet);
    ListGrows(ps, x);
    NextNumber(|ps|);
  }

  lemma ToldNext(r: Run, e: Event, slot: bool)
    requires SlotTold(r, slot)
    ensures SlotTold(After(r, e), slot)
  {
    hide Decoded, StartsStream, OnSlot, Numbered, Segmented, Remembers;
    if Accepts(r.state, e) {
      var p := Decoded(r.state, e.data, e.now, e.bridgeId).1.packet;
      if slot == p.slot {
        ToldDelivery(r, e);
      } else {
        DeliveredStep(r.state, e);
        assert slot == !p.slot;
        OnSlotAppend(r.log, After(r, e).log[|r.log|], slot);
      }
    } else {
      SkippedSlot(r.state, e, slot);
    }
  }

  /**
    In every run the packets delivered on a slot are numbered 0, 1, 2, ... modulo 256, across all calls, and the
    stream changes from one packet to the next exactly when the next does not continue the call.
   */
  lemma {:induction false} SlotHistory(es: seq<Event>, slot: bool)
    ensures var ps := OnSlot(Final(es).log, slot); Numbered(ps) && Segmented(ps)
    ensures SlotTold(Final(es), slot)
  {
    if es == [] {
      assert OnSlot([], slot) == [];
    } else {
      SlotHistory(es[..|es| - 1], slot);
      hide After, Numbered, Segmented, OnSlot;
      ToldNext(Final(es[..|es| - 1]), es[|es| - 1], slot);
    }
  }

  // ---------- Which frames are delivered ----------

  /** The frame begins with the four prefix bytes, and so has a sequence byte. */
  predicate HasNumber(data: seq<bv8>) {
    |data| > 4 && data[0] == 0x5A && data[1] == 0x5A && data[2] == 0x5A && data[3] == 0x5A
  }

  /** Event i was delivered on the slot, and had a sequence byte. */
  ghost predicate Took(es: seq<Event>, i: nat, slot: bool)
    requires i < |es|
  {
    && Accepts(Final(es[..i]).state, es[i]) && HasNumber(es[i].data)
    && ReadFrame(es[i].data).Read? && ReadFrame(es[i].data).fields.slot == slot
  }

  ghost predicate LastTook(es: seq<Event>, n: nat, slot: bool, i: nat)
    requires n <= |es|
  {
    i < n && Took(es, i, slot) && forall k: nat :: i < k < n ==> !Took(es, k, slot)
  }

  /** The slot remembers the sequence byte of the last delivered frame that had one. */
  ghost predicate RemembersNumber(es: seq<Event>, n: nat, slot: bool, st: SlotState)
    requires n <= |es|
  {
    match st.inLastSeq
    case None => forall i: nat :: i < n ==> !Took(es, i, slot)
    case Some(b) => exists i: nat :: LastTook(es, n, slot, i) && es[i].data[4] == b
  }

  /** What one frame does to the number remembered. */
  lemma NumberStep(s: State, e: Event, slot: bool)
    ensures var s' := Decoded(s, e.data, e.now, e.bridgeId).0;
      SlotAt(s', slot).inLastSeq ==
        if Accepts(s, e) && HasNumber(e.data) && ReadFrame(e.data).Read? && ReadFrame(e.data).fields.slot == slot
        then Options.Some(e.data[4]) else SlotAt(s, slot).inLastSeq
  {
    hide ReadFrame, ShouldStartNewInboundStream, Successor;
  }

  lemma StateAfter(r: Run, e: Event)
    ensures After(r, e).state == Decoded(r.state, e.data, e.now, e.bridgeId).0
  {
    hide Decoded, StartsStream;
  }

  lemma NumberOn(es: seq<Event>, n: nat, slot: bool, st: SlotState, st': SlotState)
    requires n < |es| && RemembersNumber(es, n, slot, st)
    requires st'.inLastSeq == if Took(es, n, slot) then Options.Some(es[n].data[4]) else st.inLastSeq
    ensures RemembersNumber(es, n + 1, slot, st')
  {
    hide Accepts, ReadFrame, Final;
    if Took(es, n, slot) {
      assert LastTook(es, n + 1, slot, n);
    } else if st.inLastSeq.Some? {
      var i: nat :| LastTook(es, n, slot, i) && es[i].data[4] == st.inLastSeq.value;
      assert LastTook(es, n + 1, slot, i);
    }
  }

  lemma {:induction false} NumbersAlways(es: seq<Event>, n: nat, slot: bool)
    requires n <= |es|
    ensures RemembersNumber(es, n, slot, SlotAt(Final(es[..n]).state, slot))
  {
    if n > 0 {
      hide Decoded, ReadFrame, RemembersNumber, After;
      NumbersAlways(es, n - 1, slot);
      assert es[..n][..n - 1] == es[..n - 1];
      var r := Final(es[..n - 1]);
      StateAfter(r, es[n - 1]);
      NumberStep(r.state, es[n - 1], slot);
      NumberOn(es, n - 1, slot, SlotAt(r.state, slot), SlotAt(Final(es[..n]).state, slot));
    }
  }

  /**
    A frame is delivered, in every run, exactly if it can be read and does not repeat the sequence byte of the last delivered
    frame on its slot that had one.
   */
  lemma DeliveredIff(es: seq<Event>, n: nat)
    requires n < |es|
    ensures Accepts(Final(es[..n]).state, es[n]) <==>
      && ReadFrame(es[n].data).Read?
      && !(HasNumber(es[n].data) &&
           exists i: nat :: LastTook(es, n, ReadFrame(es[n].data).fields.slot, i) && es[i].data[4] == es[n].data[4])
  {
    if ReadFrame(es[n].data).Read? {
      var slot := ReadFrame(es[n].data).fields.slot;
      NumbersAlways(es, n, slot);
      AcceptsIff(Final(es[..n]).state, es[n]);
      hide Accepts, ReadFrame, Final, Took;
      forall i: nat, j: nat | LastTook(es, n, slot, i) && LastTook(es, n, slot, j)
        ensures i == j
      {
      }
    }
  }

  lemma AcceptsIff(s: State, e: Event)
    requires ReadFrame(e.data).Read?
    ensures Accepts(s, e) <==> !(HasNumber(e.data) && SlotAt(s, ReadFrame(e.data).fields.slot).inLastSeq == Options.Some(e.data[4]))
  {
    hide ReadFrame, ShouldStartNewInboundStream, Successor;
  }
}
