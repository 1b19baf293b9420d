/**
  A timeslot shared by several clients, from internal/mmdvm/client.go and internal/timeslot/manager.go. A client handles
  one packet at a time: it submits it and, after a terminator, drains the slot by one release after another before it
  takes the next packet. The calls of other clients may come between any two of these. What is granted is what Submit
  lets pass and what Release returns.
 */
module Arbitration {
  import opened Options
  import opened Dmrd
  import opened Timeslot
  import opened MmdvmClient
  import TT = TimeslotTheorems

  /** A client, by its network's name, submits a packet, or makes the next release of its drain. */
  datatype Call = Submission(network: string, packet: Packet, now: int) | Drain(network: string, now: int)

  /** A packet that may go out, and when that was decided. */
  datatype Grant = Grant(packet: Packet, at: int)

  /** The slot, the stream that each draining client has to release next, and the grants so far. */
  datatype World = World(slot: Slot<Packet>, drains: map<string, nat>, granted: seq<Grant>)

  const START := World(Slot(None, []), map[], [])

  function Grants(ps: seq<Packet>, now: int): (g: seq<Grant>)
    ensures |g| == |ps|
  {
    seq(|ps|, i requires 0 <= i < |ps| => Grant(ps[i], now))
  }

  function AfterSubmission(w: World, timeout: nat, n: string, p: Packet, now: int): World {
    var s := Submitted(w.slot, timeout, p.streamId, n, p, now);
    if !Passes(w.slot, timeout, p.streamId, now) then w.(slot := s)
    else World(s, if IsTerminator(p) then w.drains[n := p.streamId] else w.drains, w.granted + [Grant(p, now)])
  }

  /** One round of a drain: it goes on with the stream of the last terminator it released, if there is one. */
  function AfterRelease(w: World, n: string, now: int): World
    requires n in w.drains
  {
    var ps := Returned(w.slot, w.drains[n]);
    World(Released(w.slot, w.drains[n], now),
          if HasTerminator(ps) then w.drains[n := LastTerminator(ps).streamId] else w.drains - {n}, w.granted + Grants(ps, now))
  }

  /** A call that its client can make: a packet only between drains, a release only within one. */
  predicate Possible(w: World, c: Call) {
    c.Submission? <==> c.network !in w.drains
  }

  /** Every run of the clients is a run here; calls that no client can make are skipped. */
  function Step(w: World, timeout: nat, c: Call): World {
    if !Possible(w, c) then w
    else
      match c
      case Submission(n, p, now) => AfterSubmission(w, timeout, n, p, now)
      case Drain(n, now) => AfterRelease(w, n, now)
  }

  function Run(timeout: nat, cs: seq<Call>): World {
    if cs == [] then START else Step(Run(timeout, cs[..|cs| - 1]), timeout, cs[|cs| - 1])
  }

  // ---------- When the slot may change hands ----------

  function StreamAt(g: seq<Grant>, i: nat): nat
    requires i < |g|
  {
    g[i].packet.streamId
  }

  /** A terminator of the stream is among the first n grants. */
  ghost predicate Terminated(g: seq<Grant>, n: nat, id: nat)
    requires n <= |g|
  {
    exists k: nat :: k < n && IsTerminator(g[k].packet) && StreamAt(g, k) == id
  }

  /** The grants change stream only behind a terminator of the old stream or a silence longer than the timeout. */
  ghost predicate Orderly(g: seq<Grant>, timeout: nat) {
    forall i: nat :: 0 < i < |g| ==>
      StreamAt(g, i) == StreamAt(g, i - 1) || Terminated(g, i, StreamAt(g, i - 1)) || g[i].at - g[i - 1].at > timeout
  }

  /** The active stream is that of the last grant, and was last heard then. */
  ghost predicate HeldByLast(w: World) {
    w.slot.active.Some? ==>
      w.granted != [] && w.slot.active.value.streamId == StreamAt(w.granted, |w.granted| - 1)
      && w.slot.active.value.lastSeen == w.granted[|w.granted| - 1].at
  }

  /** Every stream that a drain has still to release has ended at some time. */
  ghost predicate DrainsEnded(w: World) {
    forall n :: n in w.drains ==> Terminated(w.granted, |w.granted|, w.drains[n])
  }

  ghost predicate Inv(w: World, timeout: nat) {
    && TT.Shape(w.slot) && OwnPackets(w.slot.pending) && HeldByLast(w) && Orderly(w.granted, timeout)
    && DrainsEnded(w)
    && (w.slot.active.None? && w.granted != [] ==> Terminated(w.granted, |w.granted|, StreamAt(w.granted, |w.granted| - 1)))
  }

  lemma TerminatedLater(g: seq<Grant>, more: seq<Grant>, id: nat)
    requires Terminated(g, |g|, id)
    ensures Terminated(g + more, |g + more|, id)
  {
    var k: nat :| k < |g| && IsTerminator(g[k].packet) && StreamAt(g, k) == id;
    assert (g + more)[k] == g[k];
  }

  /** Grants of one stream keep the log orderly if the first of them may follow. */
  lemma OrderlyAppend(g: seq<Grant>, more: seq<Grant>, timeout: nat, id: nat)
    requires Orderly(g, timeout) && forall i :: 0 <= i < |more| ==> more[i].packet.streamId == id
    requires g != [] && more != [] ==>
      var n := |g|;
      StreamAt(g, n - 1) == id || Terminated(g, n, StreamAt(g, n - 1)) || more[0].at - g[n - 1].at > timeout
    ensures Orderly(g + more, timeout)
  {
    var h := g + more;
    forall i: nat | 0 < i < |h|
      ensures StreamAt(h, i) == StreamAt(h, i - 1) || Terminated(h, i, StreamAt(h, i - 1)) || h[i].at - h[i - 1].at > timeout
    {
      if i <= |g| {
        assert h[i - 1] == g[i - 1];
        if Terminated(g, i, StreamAt(g, i - 1)) {
          var k: nat :| k < i && IsTerminator(g[k].packet) && StreamAt(g, k) == StreamAt(g, i - 1);
          assert h[k] == g[k];
        }
      }
    }
  }

  lemma SubmissionInv(w: World, timeout: nat, n: string, p: Packet, now: int)
    requires Inv(w, timeout)
    ensures Inv(AfterSubmission(w, timeout, n, p, now), timeout)
  {
    hide TT.Shape, OwnPackets, Orderly, Buffered;
    ReadyAfterSubmit(w.slot, timeout, p, n, now);
    if Passes(w.slot, timeout, p.streamId, now) {
      var more := [Grant(p, now)];
      OrderlyAppend(w.granted, more, timeout, p.streamId);
      var g := w.granted + more;
      assert g[|g| - 1] == Grant(p, now);
      var w' := AfterSubmission(w, timeout, n, p, now);
      forall m | m in w'.drains
        ensures Terminated(g, |g|, w'.drains[m])
      {
        if m in w.drains && w.drains[m] == w'.drains[m] {
          TerminatedLater(w.granted, more, w.drains[m]);
        }
      }
    }
  }

  /** What a release by the active stream returns and leaves. */
  lemma HandOver(s: Slot<Packet>, id: nat, now: int)
    requires TT.Shape(s) && OwnPackets(s.pending) && ActiveIs(s, id)
    ensures TT.Shape(Released(s, id, now)) && OwnPackets(Released(s, id, now).pending)
    ensures s.pending == [] ==> Returned(s, id) == [] && Released(s, id, now) == Slot(None, [])
    ensures s.pending != [] ==>
      var ps, s', b := Returned(s, id), Released(s, id, now), s.pending[0].streamId;
      ps != [] && OwnedBy(ps, b) && ActiveIs(s', b) && s'.active.value.lastSeen == now
  {
    var s' := Released(s, id, now);
    assert forall i :: 0 <= i < |s'.pending| ==> s'.pending[i] == s.pending[i + 1];
  }

  /** A release that finds nothing: by a stream that does not hold the slot, or with nobody waiting. */
  lemma NothingReturned(w: World, n: string, now: int)
    requires n in w.drains && Returned(w.slot, w.drains[n]) == []
    ensures AfterRelease(w, n, now) == World(Released(w.slot, w.drains[n], now), w.drains - {n}, w.granted)
  {
    hide Returned, Released;
    NoTerminator(Returned(w.slot, w.drains[n]));
    assert w.granted + Grants([], now) == w.granted;
  }

  lemma ReleaseInv(w: World, timeout: nat, n: string, now: int)
    requires Inv(w, timeout) && n in w.drains
    ensures Inv(AfterRelease(w, n, now), timeout)
  {
    hide TT.Shape, OwnPackets, Orderly, Terminated, DrainsEnded, Released, Returned, HasTerminator, LastTerminator;
    var id := w.drains[n];
    DrainsStillEnded(w, n, now);
    assert Terminated(w.granted, |w.granted|, id) by {
      DrainEnded(w, n);
    }
    if !ActiveIs(w.slot, id) {
      ForeignRelease(w.slot, id);
      NothingReturned(w, n, now);
      return;
    }
    HandOver(w.slot, id, now);
    var ps := Returned(w.slot, id);
    if ps == [] {
      NothingReturned(w, n, now);
    } else {
      var more := Grants(ps, now);
      OrderlyAppend(w.granted, more, timeout, w.slot.pending[0].streamId);
      var g := w.granted + more;
      assert g[|g| - 1] == more[|more| - 1];
    }
  }

  lemma DrainEnded(w: World, n: string)
    requires DrainsEnded(w) && n in w.drains
    ensures Terminated(w.granted, |w.granted|, w.drains[n])
  {
  }

  lemma DrainsStillEnded(w: World, n: string, now: int)
    requires n in w.drains && DrainsEnded(w)
    ensures DrainsEnded(AfterRelease(w, n, now))
  {
    hide Released, Returned, HasTerminator, LastTerminator, Terminated;
    var ps, w' := Returned(w.slot, w.drains[n]), AfterRelease(w, n, now);
    forall m | m in w'.drains
      ensures Terminated(w'.granted, |w'.granted|, w'.drains[m])
    {
      if m != n {
        TerminatedLater(w.granted, Grants(ps, now), w.drains[m]);
      } else {
        TerminatorGranted(w.granted, ps, now);
      }
    }
  }

  lemma NoTerminator(ps: seq<Packet>)
    requires ps == []
    ensures !HasTerminator(ps)
  {
  }

  lemma TerminatorGranted(g: seq<Grant>, ps: seq<Packet>, now: int)
    requires HasTerminator(ps)
    ensures var h := g + Grants(ps, now); Terminated(h, |h|, LastTerminator(ps).streamId)
  {
    var h := g + Grants(ps, now);
    var k :| 0 <= k < |ps| && ps[k] == LastTerminator(ps);
    assert h[|g| + k] == Grant(ps[k], now);
  }

  lemma {:induction false} Always(timeout: nat, cs: seq<Call>)
    ensures Inv(Run(timeout, cs), timeout)
  {
    hide Inv;
    if cs == [] {
      StartInv(timeout);
    } else {
      var w, c := Run(timeout, cs[..|cs| - 1]), cs[|cs| - 1];
      Always(timeout, cs[..|cs| - 1]);
      if Possible(w, c) {
        match c {
          case Submission(n, p, now) => SubmissionInv(w, timeout, n, p, now);
          case Drain(n, now) => ReleaseInv(w, timeout, n, now);
        }
      }
    }
  }

  lemma StartInv(timeout: nat)
    ensures Inv(START, timeout)
  {
  }

  /**
    The purpose of arbitration, whatever clients do between the releases of a drain: in every run, when the granted
    packets go from one stream to another, a terminator of the old stream has been granted, or nothing was granted
    for longer than the timeout.
   */
  lemma HandoverJustified(timeout: nat, cs: seq<Call>)
    ensures Orderly(Run(timeout, cs).granted, timeout)
  {
    hide Orderly, Run;
    Always(timeout, cs);
  }
}
