/** When a timeslot shared by several clients lets a packet pass, read off the calls and the grants alone. */
module Admission {
  import opened Timeslot
  import opened MmdvmClient
  import opened Arbitration
  import TT = TimeslotTheorems

  /** Call m released the stream of the last grant, and nothing was granted from then on. */
  ghost predicate FreedBy(timeout: nat, cs: seq<Call>, m: nat)
    requires m < |cs| && Run(timeout, cs).granted != []
  {
    var w, g := Run(timeout, cs[..m]), Run(timeout, cs).granted;
    w.granted == g && cs[m].Drain? && cs[m].network in w.drains && w.drains[cs[m].network] == StreamAt(g, |g| - 1)
  }

  ghost predicate Freed(timeout: nat, cs: seq<Call>)
    requires Run(timeout, cs).granted != []
  {
    exists m: nat :: m < |cs| && FreedBy(timeout, cs, m)
  }

  // ---------- A free slot is one that was released ----------

  lemma GrantsGrow(w: World, timeout: nat, c: Call)
    ensures w.granted <= Step(w, timeout, c).granted
  {
    hide Submitted, Passes, Released, Returned, HasTerminator, LastTerminator;
  }

  lemma {:induction false} GrantsStay(timeout: nat, cs: seq<Call>, m: nat)
    requires m <= |cs|
    ensures |Run(timeout, cs[..m]).granted| <= |Run(timeout, cs).granted|
  {
    hide Step;
    if m == |cs| {
      assert cs[..m] == cs;
    } else {
      var before := cs[..|cs| - 1];
      assert before[..m] == cs[..m];
      GrantsStay(timeout, before, m);
      GrantsGrow(Run(timeout, before), timeout, cs[|cs| - 1]);
    }
  }

  /** What one call does to a slot that a stream holds or that is free. */
  lemma StepFrees(w: World, timeout: nat, c: Call)
    requires Inv(w, timeout)
    ensures var w' := Step(w, timeout, c);
      && (w'.granted != w.granted ==> w'.slot.active.Some?)
      && (w'.granted == w.granted ==>
          (w'.slot.active.None? <==>
           w.slot.active.None? || (c.Drain? && c.network in w.drains && w.drains[c.network] == StreamAt(w.granted, |w.granted| - 1))))
  {
    hide TT.Shape, OwnPackets, Orderly, DrainsEnded, Terminated, Buffered;
    if c.Drain? && Possible(w, c) {
      var id := w.drains[c.network];
      if !ActiveIs(w.slot, id) {
        ForeignRelease(w.slot, id);
        NothingReturned(w, c.network, c.now);
      } else {
        HandOver(w.slot, id, c.now);
        if w.slot.pending == [] {
          NothingReturned(w, c.network, c.now);
        }
      }
    }
  }

  /** The slot is free if and only if nothing was granted yet, or the stream of the last grant was released since. */
  lemma {:induction false} FreeIff(timeout: nat, cs: seq<Call>)
    ensures var w := Run(timeout, cs); w.slot.active.None? <==> w.granted == [] || Freed(timeout, cs)
  {
    hide Step, Inv;
    if cs != [] {
      var n := |cs| - 1;
      var before, c := cs[..n], cs[n];
      var w, w' := Run(timeout, before), Run(timeout, cs);
      FreeIff(timeout, before);
      Always(timeout, before);
      StepFrees(w, timeout, c);
      GrantsGrow(w, timeout, c);
      forall m: nat | m < n
        ensures before[..m] == cs[..m]
        ensures |Run(timeout, before[..m]).granted| <= |w.granted|
      {
        assert before[..m] == cs[..m];
        GrantsStay(timeout, before, m);
      }
      if w'.granted == w.granted && w.granted != [] {
        assert FreedBy(timeout, cs, n) <==>
          c.Drain? && c.network in w.drains && w.drains[c.network] == StreamAt(w.granted, |w.granted| - 1);
        if Freed(timeout, before) {
          var m: nat :| m < n && FreedBy(timeout, before, m);
          assert FreedBy(timeout, cs, m);
        }
        if Freed(timeout, cs) {
          var m: nat :| m < |cs| && FreedBy(timeout, cs, m);
          assert m < n ==> FreedBy(timeout, before, m);
        }
      }
    }
  }

  /**
    Every packet that a client can submit, in every run: it is held back exactly if the last grant is of another stream,
    at most the timeout old, and no client has released that stream since; otherwise it is granted at once.
   */
  lemma AdmittedIff(timeout: nat, cs: seq<Call>, c: Call)
    requires c.Submission? && Possible(Run(timeout, cs), c)
    ensures var g := Run(timeout, cs).granted;
      Run(timeout, cs + [c]).granted ==
        if g != [] && StreamAt(g, |g| - 1) != c.packet.streamId && c.now - g[|g| - 1].at <= timeout && !Freed(timeout, cs)
        then g else g + [Grant(c.packet, c.now)]
  {
    hide Freed, Submitted, TT.Shape, OwnPackets, Orderly, DrainsEnded, Terminated;
    assert (cs + [c])[..|cs|] == cs;
    FreeIff(timeout, cs);
    Always(timeout, cs);
  }
}
