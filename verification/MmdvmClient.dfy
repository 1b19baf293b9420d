/**
  The MMDVM client's packet paths, from internal/mmdvm/client.go: rewrite, timeslot
  arbitration, delivery, and the loops that drain waiting calls after a terminator.
 */
module MmdvmClient {
  import opened Dmrd
  import opened Rewrite
  import opened Timeslot
  import TimeslotTheorems

  type Queue = seq<Pending<Packet>>

  // ---------- What a drain delivers ----------

  predicate HasTerminator(packets: seq<Packet>) {
    exists i :: 0 <= i < |packets| && IsTerminator(packets[i])
  }

  /** The terminator after which a drain goes on. */
  function LastTerminator(packets: seq<Packet>): (p: Packet)
    requires HasTerminator(packets)
    ensures p in packets && IsTerminator(p)
  {
    var n := |packets| - 1;
    if IsTerminator(packets[n]) then packets[n]
    else
      assert HasTerminator(packets[..n]) by {
        var i :| 0 <= i < |packets| && IsTerminator(packets[i]);
        assert packets[..n][i] == packets[i];
      }
      LastTerminator(packets[..n])
  }

  /** How many waiting calls a drain delivers: up to and including the first without a terminator. */
  function Served(q: Queue): (n: nat)
    ensures n <= |q|
  {
    if q == [] then 0 else if HasTerminator(q[0].packets) then 1 + Served(q[1..]) else 1
  }

  /** All packets of a queue, front call first. */
  function Flat(q: Queue): seq<Packet> {
    if q == [] then [] else q[0].packets + Flat(q[1..])
  }

  /** Every waiting call is complete, so a drain empties the queue. */
  ghost predicate AllComplete(q: Queue) {
    forall i :: 0 <= i < |q| ==> HasTerminator(q[i].packets)
  }

  /** Each buffer is nonempty and holds packets of its own stream only. */
  ghost predicate OwnPackets(q: Queue) {
    forall i :: 0 <= i < |q| ==> q[i].packets != [] && OwnedBy(q[i].packets, q[i].streamId)
  }

  ghost predicate OwnedBy(packets: seq<Packet>, id: nat) {
    forall j :: 0 <= j < |packets| ==> packets[j].streamId == id
  }

  /** What `Served` counts, said outright. */
  lemma {:induction false} ServedIs(q: Queue, k: nat)
    requires k <= |q| && forall i :: 0 <= i < k ==> HasTerminator(q[i].packets)
    ensures k == |q| ==> Served(q) == k && AllComplete(q)
    ensures k < |q| && !HasTerminator(q[k].packets) ==> Served(q) == k + 1 && !AllComplete(q)
    decreases |q|
  {
    if q != [] && k > 0 {
      ServedIs(q[1..], k - 1);
      assert AllComplete(q) <==> AllComplete(q[1..]) by {
        if AllComplete(q[1..]) {
          forall i | 0 <= i < |q|
            ensures HasTerminator(q[i].packets)
          {
            if i > 0 {
              assert q[i] == q[1..][i - 1];
            }
          }
        } else {
          var i :| 0 <= i < |q[1..]| && !HasTerminator(q[1..][i].packets);
          assert !HasTerminator(q[i + 1].packets);
        }
      }
    }
  }

  lemma {:induction false} FlatAppend(a: Queue, p: Pending<Packet>)
    ensures Flat(a + [p]) == Flat(a) + p.packets
    decreases |a|
  {
    if a == [] {
      assert a + [p] == [p];
    } else {
      assert (a + [p])[1..] == a[1..] + [p];
      FlatAppend(a[1..], p);
    }
  }

  lemma NothingFlat()
    ensures Flat([]) == []
  {
  }

  /** The slot after a drain started by its active stream. */
  ghost predicate DrainedTo(before: Slot<Packet>, after: Slot<Packet>) {
    var q := before.pending;
    && after.pending == q[Served(q)..]
    && (after.active.None? <==> AllComplete(q))
    && (after.active.Some? ==> Served(q) > 0 && after.active.value.streamId == q[Served(q) - 1].streamId)
  }

  predicate ActiveIs<T>(s: Slot<T>, id: nat) {
    s.active.Some? && s.active.value.streamId == id
  }

  ghost predicate Ready(slots: seq<Slot<Packet>>) {
    |slots| == 2 && forall i :: 0 <= i < 2 ==> TimeslotTheorems.Shape(slots[i]) && OwnPackets(slots[i].pending)
  }

  lemma ReadyAfterDrain(before: Slot<Packet>, after: Slot<Packet>)
    requires TimeslotTheorems.Shape(before) && OwnPackets(before.pending) && before.active.Some? && DrainedTo(before, after)
    ensures TimeslotTheorems.Shape(after) && OwnPackets(after.pending)
  {
    hide OwnedBy, HasTerminator;
    var q, n := before.pending, Served(before.pending);
    forall i | 0 <= i < |after.pending|
      ensures after.pending[i] == q[n + i]
    {
    }
    if after.active.None? {
      ServedIs(q, |q|);
    }
  }

  /** The slot after k complete calls of a drain; the stream that may release it next is `current`. */
  ghost predicate Midway(before: Slot<Packet>, now: Slot<Packet>, current: nat, k: nat) {
    var q := before.pending;
    && k <= |q| && ActiveIs(now, current) && now.pending == q[k..]
    && (forall i :: 0 <= i < k ==> HasTerminator(q[i].packets))
  }

  lemma StartMidway(s: Slot<Packet>, id: nat)
    requires ActiveIs(s, id)
    ensures Midway(s, s, id, 0)
  {
  }

  /** A stream that does not hold the slot releases nothing. */
  lemma ForeignRelease(s: Slot<Packet>, id: nat)
    requires !ActiveIs(s, id)
    ensures forall time :: Released(s, id, time) == s
    ensures Returned(s, id) == []
  {
  }

  /** One release in the middle of a drain. */
  lemma MidwayRelease(before: Slot<Packet>, now: Slot<Packet>, current: nat, k: nat, time: int)
    requires Midway(before, now, current, k) && OwnPackets(before.pending)
    ensures var q, after := before.pending, Released(now, current, time);
      && (k == |q| ==> Returned(now, current) == [] && DrainedTo(before, after) && Served(q) == k)
      && (k < |q| ==>
            && Returned(now, current) == q[k].packets && q[k].packets != [] && OwnedBy(q[k].packets, q[k].streamId)
            && if HasTerminator(q[k].packets) then Midway(before, after, q[k].streamId, k + 1)
               else DrainedTo(before, after) && Served(q) == k + 1)
  {
    ServedIs(before.pending, k);
  }

  // ---------- The client ----------

  /**
    One direction of a client: the rules and the timeslot manager it uses, and what it passed on.
    Towards the repeaters that is `net` with the manager all clients share; towards the master
    it is `rf` and `fallback` with the client's own manager.
   */
  class Path {
    const manager: Manager<Packet>
    /** Whether a timeslot manager is set at all; without one every packet passes. */
    const arbitrated: bool
    const rf: seq<Rule>
    const net: seq<Rule>
    const fallback: seq<Rule>
    const name: string
    /** What the client has passed on, oldest first. */
    var delivered: seq<Packet>

    ghost predicate Valid()
      reads this, manager
    {
      Ready(manager.slots)
    }

    constructor (c: Config, manager: Manager<Packet>, arbitrated: bool, name: string)
      requires Ready(manager.slots)
      ensures Valid() && this.manager == manager && this.arbitrated == arbitrated && delivered == []
      ensures rf == RfRules(c) && net == NetRules(c) && fallback == FallbackRules(c)
    {
      var r, n, f := BuildRewriteRules(c);
      rf, net, fallback := r, n, f;
      this.manager, this.arbitrated := manager, arbitrated;
      this.name := name;
      delivered := [];
    }

    /** Passes on one released buffer; returns whether it held a terminator, and of which stream. */
    method Deliver(buffered: seq<Packet>) returns (hasTerminator: bool, streamId: nat)
      modifies this`delivered
      ensures delivered == old(delivered) + buffered
      ensures hasTerminator == HasTerminator(buffered)
      ensures hasTerminator ==> streamId == LastTerminator(buffered).streamId
    {
      hasTerminator, streamId := false, 0;
      for i := 0 to |buffered|
        invariant delivered == old(delivered) + buffered[..i]
        invariant hasTerminator == HasTerminator(buffered[..i])
        invariant hasTerminator ==> streamId == LastTerminator(buffered[..i]).streamId
      {
        assert buffered[..i + 1][..i] == buffered[..i];
        var pkt := buffered[i];
        delivered := delivered + [pkt];
        if IsTerminator(pkt) {
          hasTerminator, streamId := true, pkt.streamId;
        }
      }
      assert buffered[..|buffered|] == buffered;
    }

    /** Delivers waiting calls one after the other for as long as each is complete. */
    method DrainPending(slot: bool, streamId: nat)
      requires Valid()
      modifies this`delivered, manager`slots
      ensures Valid()
      ensures var i := SlotIndex(slot); var s := old(manager.slots)[i];
        && manager.slots == old(manager.slots)[i := manager.slots[i]]
        && (!ActiveIs(s, streamId) ==> manager.slots == old(manager.slots) && delivered == old(delivered))
        && (ActiveIs(s, streamId) ==>
              DrainedTo(s, manager.slots[i]) && delivered == old(delivered) + Flat(s.pending[..Served(s.pending)]))
    {
      hide TimeslotTheorems.Shape, OwnPackets, Midway, DrainedTo, HasTerminator, Served, Flat, Released, Returned;
      NothingFlat();
      var idx := SlotIndex(slot);
      ghost var s := manager.slots[idx];
      ghost var q := s.pending;
      ghost var mine := ActiveIs(s, streamId);
      if mine {
        StartMidway(s, streamId);
      } else {
        ForeignRelease(s, streamId);
      }
      var current := streamId;
      ghost var k := 0;
      while true
        invariant |manager.slots| == 2 && manager.slots == old(manager.slots)[idx := manager.slots[idx]]
        invariant !mine ==> k == 0 && manager.slots == old(manager.slots) && current == streamId
        invariant mine ==> Midway(s, manager.slots[idx], current, k)
        invariant k <= |q| && delivered == old(delivered) + Flat(q[..k])
        decreases |q| - k
      {
        var now: int := *;
        if mine {
          MidwayRelease(s, manager.slots[idx], current, k, now);
        }
        var buffered := manager.Release(slot, current, now);
        if |buffered| == 0 {
          if mine {
            ReadyAfterDrain(s, manager.slots[idx]);
          }
          return;
        }
        assert mine && q[..k + 1] == q[..k] + [q[k]];
        FlatAppend(q[..k], q[k]);
        var hasTerminator, next := Deliver(buffered);
        if !hasTerminator {
          ReadyAfterDrain(s, manager.slots[idx]);
          return;
        }
        current := next;
        k := k + 1;
      }
    }

    /** A packet from the master: rewritten by the inbound chain, arbitrated, passed on, and drained after. */
    method HandleOutboundPacket(packet: Packet, now: int)
      requires Valid()
      modifies this`delivered, manager`slots
      ensures Valid()
      ensures FirstMatch(net, packet) == |net| ==> delivered == old(delivered) && manager.slots == old(manager.slots)
      ensures FirstMatch(net, packet) < |net| ==>
        Handled(arbitrated, old(manager.slots), manager.slots, manager.timeout, Applied(net, packet), name, now, old(delivered), delivered)
    {
      var pkt, matched := Apply(net, packet);
      if !matched {
        return;
      }
      var _ := Arbitrate(pkt, name, now);
    }

    /** A packet for the master: the specific outbound rules first, the pass-all rules as a fallback. */
    method HandleInboundPacket(packet: Packet, now: int) returns (passed: bool)
      requires Valid()
      modifies this`delivered, manager`slots
      ensures Valid() && |manager.slots| == 2
      ensures Inbound(old(manager.slots), manager.slots, manager.timeout, packet, now, old(delivered), delivered)
      ensures passed == InboundPasses(old(manager.slots), manager.timeout, packet, now)
      ensures if passed then |delivered| > |old(delivered)| else delivered == old(delivered)
    {
      KeepsStream(rf, packet);
      KeepsStream(fallback, packet);
      var pkt, ok := Apply(rf, packet);
      if !ok {
        pkt, ok := Apply(fallback, packet);
        if !ok {
          return false;
        }
      }
      passed := Arbitrate(pkt, "ipsc", now);
    }

    /** What a packet for the master does: nothing if no rule lets it through. */
    ghost predicate Inbound(before: seq<Slot<Packet>>, after: seq<Slot<Packet>>, timeout: nat, p: Packet, now: int,
                            out: seq<Packet>, out': seq<Packet>)
      requires |before| == |after| == 2
    {
      if Routable(rf, fallback, p)
      then Handled(arbitrated, before, after, timeout, Routed(rf, fallback, p), "ipsc", now, out, out')
      else after == before && out' == out
    }

    /** Whether it goes out at once. */
    ghost predicate InboundPasses(before: seq<Slot<Packet>>, timeout: nat, p: Packet, now: int)
      requires |before| == 2
    {
      Routable(rf, fallback, p) &&
      (!arbitrated || Passes(before[SlotIndex(Routed(rf, fallback, p).slot)], timeout, p.streamId, now))
    }

    /** The manager and what was delivered, before, between and after the first packets of a burst. */
    ghost predicate Trail(trail: seq<(seq<Slot<Packet>>, seq<Packet>)>, timeout: nat, packets: seq<Packet>, times: seq<int>)
      requires |times| == |packets|
    {
      && 0 < |trail| <= |packets| + 1 && (forall i :: 0 <= i < |trail| ==> |trail[i].0| == 2)
      && forall i :: 0 <= i < |trail| - 1 ==>
           Inbound(trail[i].0, trail[i + 1].0, timeout, packets[i], times[i], trail[i].1, trail[i + 1].1)
    }

    /** One of the packets handled so far went out at once. */
    ghost predicate AnyPassed(trail: seq<(seq<Slot<Packet>>, seq<Packet>)>, timeout: nat, packets: seq<Packet>, times: seq<int>)
      requires |times| == |packets| && Trail(trail, timeout, packets, times)
    {
      exists i :: 0 <= i < |trail| - 1 && InboundPasses(trail[i].0, timeout, packets[i], times[i])
    }

    lemma TrailGrows(trail: seq<(seq<Slot<Packet>>, seq<Packet>)>, timeout: nat, packets: seq<Packet>, times: seq<int>,
                     next: (seq<Slot<Packet>>, seq<Packet>))
      requires |times| == |packets| && Trail(trail, timeout, packets, times) && |trail| <= |packets| && |next.0| == 2
      requires var n := |trail| - 1; Inbound(trail[n].0, next.0, timeout, packets[n], times[n], trail[n].1, next.1)
      ensures Trail(trail + [next], timeout, packets, times)
      ensures var n := |trail| - 1;
        AnyPassed(trail + [next], timeout, packets, times)
        <==> AnyPassed(trail, timeout, packets, times) || InboundPasses(trail[n].0, timeout, packets[n], times[n])
    {
      hide Inbound, InboundPasses;
      var longer := trail + [next];
      assert forall i :: 0 <= i < |trail| ==> longer[i] == trail[i];
    }

    /** The packets of one burst, in order. */
    method HandleInboundPackets(packets: seq<Packet>, times: seq<int>)
      returns (matched: bool, ghost trail: seq<(seq<Slot<Packet>>, seq<Packet>)>)
      requires Valid() && |times| == |packets|
      modifies this`delivered, manager`slots
      ensures Valid() && |trail| == |packets| + 1 && Trail(trail, manager.timeout, packets, times)
      ensures trail[0] == (old(manager.slots), old(delivered)) && trail[|packets|] == (manager.slots, delivered)
      ensures matched == AnyPassed(trail, manager.timeout, packets, times)
      ensures if matched then |delivered| > |old(delivered)| else delivered == old(delivered)
    {
      matched := false;
      trail := [(manager.slots, delivered)];
      hide Inbound, InboundPasses, Ready;
      assert Trail(trail, manager.timeout, packets, times) && !AnyPassed(trail, manager.timeout, packets, times);
      hide Trail, AnyPassed;
      for n := 0 to |packets|
        invariant Valid() && |manager.slots| == 2 && |trail| == n + 1
        invariant trail[0] == (old(manager.slots), old(delivered)) && trail[n] == (manager.slots, delivered)
        invariant Trail(trail, manager.timeout, packets, times)
        invariant matched == AnyPassed(trail, manager.timeout, packets, times)
        invariant if matched then |delivered| > |old(delivered)| else delivered == old(delivered)
      {
        var passed := HandleInboundPacket(packets[n], times[n]);
        matched := matched || passed;
        TrailGrows(trail, manager.timeout, packets, times, (manager.slots, delivered));
        trail := trail + [(manager.slots, delivered)];
      }
    }

    /** Submits a rewritten packet and, if it may pass, passes it on and drains after a terminator. */
    method Arbitrate(pkt: Packet, network: string, now: int) returns (passed: bool)
      requires Valid()
      modifies this`delivered, manager`slots
      ensures Valid()
      ensures Handled(arbitrated, old(manager.slots), manager.slots, manager.timeout, pkt, network, now, old(delivered), delivered)
      ensures passed == (!arbitrated || Passes(old(manager.slots)[SlotIndex(pkt.slot)], manager.timeout, pkt.streamId, now))
      ensures passed == (|delivered| > |old(delivered)|)
    {
      if !arbitrated {
        delivered := delivered + [pkt];
        return true;
      }
      hide TimeslotTheorems.Shape, OwnPackets, Served, Flat, DrainedTo;
      var i := SlotIndex(pkt.slot);
      ReadyAfterSubmit(manager.slots[i], manager.timeout, pkt, network, now);
      passed := manager.Submit(pkt.slot, pkt.streamId, network, pkt, now);
      if !passed {
        return;
      }
      delivered := delivered + [pkt];
      if IsTerminator(pkt) {
        DrainPending(pkt.slot, pkt.streamId);
      }
    }
  }

  /** The packet as the outbound path rewrites it, and whether any rule lets it through. */
  function Routed(rf: seq<Rule>, fallback: seq<Rule>, p: Packet): Packet {
    if FirstMatch(rf, p) < |rf| then Applied(rf, p) else Applied(fallback, p)
  }

  predicate Routable(rf: seq<Rule>, fallback: seq<Rule>, p: Packet) {
    FirstMatch(rf, p) < |rf| || FirstMatch(fallback, p) < |fallback|
  }

  lemma KeepsStream(rules: seq<Rule>, p: Packet)
    ensures Applied(rules, p).streamId == p.streamId
  {
  }

  /**
    The effect of one packet on its slot and on what was delivered. Without a manager it is delivered.
    Otherwise a packet that has to wait is only buffered; one that passes is delivered, and a
    terminator then delivers exactly the calls that `Served` counts, in queue order, and leaves the slot as a drain does.
   */
  ghost predicate Handled(arbitrated: bool, before: seq<Slot<Packet>>, after: seq<Slot<Packet>>, timeout: nat, p: Packet,
                          network: string, now: int, out: seq<Packet>, out': seq<Packet>)
    requires |before| == |after| == 2
  {
    var i := SlotIndex(p.slot);
    var s := Submitted(before[i], timeout, p.streamId, network, p, now);
    && after == before[i := after[i]]
    && if !arbitrated then after == before && out' == out + [p]
       else if !Passes(before[i], timeout, p.streamId, now) then after[i] == s && out' == out
       else if !IsTerminator(p) then after[i] == s && out' == out + [p]
       else DrainedTo(s, after[i]) && out' == out + [p] + Flat(s.pending[..Served(s.pending)])
  }

  /** Buffering a packet under its own stream id keeps buffers to their streams. */
  lemma OwnAfterBuffering(q: Queue, p: Packet, network: string)
    requires OwnPackets(q)
    ensures OwnPackets(Buffered(q, p.streamId, network, p))
  {
    var i := TimeslotTheorems.BufferPlace(q, p.streamId, network, p);
    var q' := Buffered(q, p.streamId, network, p);
    assert forall k :: 0 <= k < |q| && k != i ==> q'[k] == q[k];
  }

  /** Submitting a packet under its own stream id keeps queues well formed. */
  lemma ReadyAfterSubmit(s: Slot<Packet>, timeout: nat, p: Packet, network: string, now: int)
    requires TimeslotTheorems.Shape(s) && OwnPackets(s.pending)
    ensures var s' := Submitted(s, timeout, p.streamId, network, p, now);
      && TimeslotTheorems.Shape(s') && OwnPackets(s'.pending)
      && (Passes(s, timeout, p.streamId, now) ==> ActiveIs(s', p.streamId))
  {
    var s' := Submitted(s, timeout, p.streamId, network, p, now);
    assert TimeslotTheorems.Shape(s') by {
      TimeslotTheorems.SubmitShape(s, timeout, p.streamId, network, p, now);
    }
    hide TimeslotTheorems.Shape, Buffered, OwnedBy;
    OwnAfterBuffering(s.pending, p, network);
  }
}
