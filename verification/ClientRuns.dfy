/** A client's packet path is a run of the shared timeslot: one submission, then one release after another while its drain lasts. */
module ClientRuns {
  import opened Dmrd
  import opened Timeslot
  import TimeslotTheorems
  import opened MmdvmClient
  import opened Arbitration

  /** The releases that a client makes, at the given times, until its drain is over. */
  function Drained(w: World, n: string, times: seq<int>): World
    decreases |times|
  {
    if times == [] || n !in w.drains then w else Drained(AfterRelease(w, n, times[0]), n, times[1..])
  }

  function Packets(g: seq<Grant>): (ps: seq<Packet>)
    ensures |ps| == |g|
  {
    seq(|g|, i requires 0 <= i < |g| => g[i].packet)
  }

  /** The same queue and the same active stream; when the stream was last heard may differ. */
  predicate SameSlot(a: Slot<Packet>, b: Slot<Packet>) {
    && a.pending == b.pending && (a.active.None? <==> b.active.None?)
    && (a.active.Some? ==> a.active.value.streamId == b.active.value.streamId)
  }

  lemma PacketsAppend(g: seq<Grant>, ps: seq<Packet>, now: int)
    ensures Packets(g + Grants(ps, now)) == Packets(g) + ps
  {
  }

  lemma {:induction false} FlatSplit(q: Queue, k: nat, m: nat)
    requires k < m <= |q|
    ensures Flat(q[k..m]) == q[k].packets + Flat(q[k + 1..m])
  {
    assert q[k..m][1..] == q[k + 1..m];
  }

  /** The terminator that a drain goes on with belongs to the stream it was granted. */
  lemma OwnTerminator(ps: seq<Packet>, id: nat)
    requires OwnedBy(ps, id) && HasTerminator(ps)
    ensures LastTerminator(ps).streamId == id
  {
  }

  /** The rest of a drain, k calls into it. */
  lemma {:induction false} DrainRun(before: Slot<Packet>, w: World, n: string, k: nat, times: seq<int>)
    requires n in w.drains && Midway(before, w.slot, w.drains[n], k) && OwnPackets(before.pending) && |times| > |before.pending| - k
    ensures var w', q := Drained(w, n, times), before.pending;
      && DrainedTo(before, w'.slot) && w'.drains == w.drains - {n} && k <= Served(q) <= |q|
      && Packets(w'.granted) == Packets(w.granted) + Flat(q[k..Served(q)])
    decreases |before.pending| - k
  {
    hide OwnPackets, Midway, DrainedTo, HasTerminator, LastTerminator, Served, Flat, Released, Returned;
    var q, id := before.pending, w.drains[n];
    MidwayRange(before, w.slot, id, k);
    MidwayRelease(before, w.slot, id, k, times[0]);
    var one := AfterRelease(w, n, times[0]);
    var ps := Returned(w.slot, id);
    PacketsAppend(w.granted, ps, times[0]);
    if k == |q| {
      NoTerminator(ps);
      NothingFlat();
      assert q[k..k] == [];
    } else if HasTerminator(ps) {
      OwnTerminator(ps, q[k].streamId);
      DrainRun(before, one, n, k + 1, times[1..]);
      FlatSplit(q, k, Served(q));
      assert one.drains - {n} == w.drains - {n};
    } else {
      FlatSplit(q, k, k + 1);
      NothingFlat();
      assert q[k + 1..k + 1] == [];
    }
  }

  lemma MidwayRange(before: Slot<Packet>, now: Slot<Packet>, current: nat, k: nat)
    requires Midway(before, now, current, k)
    ensures k <= |before.pending|
  {
  }

  lemma DrainedSame(s: Slot<Packet>, a: Slot<Packet>, b: Slot<Packet>)
    requires DrainedTo(s, a) && DrainedTo(s, b)
    ensures SameSlot(a, b)
  {
  }

  /** The world w' grants, after what w granted, what out' has after out. */
  predicate Grows(w: World, w': World, out: seq<Packet>, out': seq<Packet>) {
    |out| <= |out'| && out'[..|out|] == out && Packets(w'.granted) == Packets(w.granted) + out'[|out|..]
  }

  lemma GrowsBy(w: World, w': World, out: seq<Packet>, out': seq<Packet>, more: seq<Packet>)
    requires out' == out + more && Packets(w'.granted) == Packets(w.granted) + more
    ensures Grows(w, w', out, out')
  {
    hide Packets;
    assert out'[|out|..] == more;
  }

  /** A submitted packet that is no terminator, or has to wait, starts no drain. */
  lemma NoDrain(w: World, timeout: nat, p: Packet, n: string, now: int, out: seq<Packet>, out': seq<Packet>, times: seq<int>)
    requires n !in w.drains && !(Passes(w.slot, timeout, p.streamId, now) && IsTerminator(p))
    requires out' == if Passes(w.slot, timeout, p.streamId, now) then out + [p] else out
    ensures var w' := Drained(AfterSubmission(w, timeout, n, p, now), n, times);
      w'.slot == Submitted(w.slot, timeout, p.streamId, n, p, now) && w'.drains == w.drains && Grows(w, w', out, out')
  {
    hide Submitted, Passes, Grows;
    var passes := Passes(w.slot, timeout, p.streamId, now);
    var more := if passes then [p] else [];
    PacketsAppend(w.granted, more, now);
    assert passes ==> Grants(more, now) == [Grant(p, now)];
    assert !passes ==> w.granted + Grants(more, now) == w.granted;
    GrowsBy(w, AfterSubmission(w, timeout, n, p, now), out, out', more);
  }

  /** A terminator that passes is followed by a whole drain. */
  lemma WholeDrain(w: World, timeout: nat, p: Packet, n: string, now: int, out: seq<Packet>, out': seq<Packet>, times: seq<int>)
    requires TimeslotTheorems.Shape(w.slot) && OwnPackets(w.slot.pending) && n !in w.drains && |times| > |w.slot.pending|
    requires Passes(w.slot, timeout, p.streamId, now) && IsTerminator(p)
    requires var q := Submitted(w.slot, timeout, p.streamId, n, p, now).pending; out' == out + [p] + Flat(q[..Served(q)])
    ensures var w' := Drained(AfterSubmission(w, timeout, n, p, now), n, times);
      && DrainedTo(Submitted(w.slot, timeout, p.streamId, n, p, now), w'.slot) && w'.drains == w.drains && Grows(w, w', out, out')
  {
    hide TimeslotTheorems.Shape, OwnPackets, DrainedTo, Served, Flat, Submitted, Passes, Grows;
    hide Midway, ActiveIs, Drained, IsTerminator, Packets;
    var s, one := Submitted(w.slot, timeout, p.streamId, n, p, now), AfterSubmission(w, timeout, n, p, now);
    ReadyAfterSubmit(w.slot, timeout, p, n, now);
    StartMidway(s, p.streamId);
    QueueKept(w.slot, timeout, n, p, now);
    DrainRun(s, one, n, 0, times);
    var rest := Flat(s.pending[..Served(s.pending)]);
    assert s.pending[0..Served(s.pending)] == s.pending[..Served(s.pending)];
    PacketsAppend(w.granted, [p], now);
    assert Grants([p], now) == [Grant(p, now)];
    assert out + [p] + rest == out + ([p] + rest);
    assert one.drains - {n} == w.drains;
    assert Packets(w.granted) + [p] + rest == Packets(w.granted) + ([p] + rest);
    GrowsBy(w, Drained(one, n, times), out, out', [p] + rest);
  }

  /**
    What a path does with a packet is what the calls of its client do: it leaves the slot, but for when a stream was last heard, and
    delivers the packets, of the submission followed by the releases of the drain; the other slot and other drains are untouched.
   */
  lemma PathIsRun(before: seq<Slot<Packet>>, after: seq<Slot<Packet>>, timeout: nat, p: Packet, n: string, now: int,
                  out: seq<Packet>, out': seq<Packet>, w: World, times: seq<int>)
    requires Ready(before) && |after| == 2 && Handled(true, before, after, timeout, p, n, now, out, out')
    requires w.slot == before[if p.slot then 1 else 0] && n !in w.drains && |times| > |w.slot.pending|
    ensures var w', i := Drained(AfterSubmission(w, timeout, n, p, now), n, times), if p.slot then 1 else 0;
      SameSlot(w'.slot, after[i]) && after[1 - i] == before[1 - i] && w'.drains == w.drains && Grows(w, w', out, out')
  {
    hide TimeslotTheorems.Shape, OwnPackets, DrainedTo, Served, Flat, Submitted, Passes, Grows, Drained, AfterSubmission;
    if Passes(w.slot, timeout, p.streamId, now) && IsTerminator(p) {
      WholeDrain(w, timeout, p, n, now, out, out', times);
      var s, w' := Submitted(w.slot, timeout, p.streamId, n, p, now), Drained(AfterSubmission(w, timeout, n, p, now), n, times);
      DrainedSame(s, w'.slot, after[if p.slot then 1 else 0]);
    } else {
      NoDrain(w, timeout, p, n, now, out, out', times);
    }
  }

  lemma QueueKept(s: Slot<Packet>, timeout: nat, n: string, p: Packet, now: int)
    requires Passes(s, timeout, p.streamId, now)
    ensures |Submitted(s, timeout, p.streamId, n, p, now).pending| <= |s.pending|
  {
  }
}
