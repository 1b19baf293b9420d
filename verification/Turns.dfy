/**
  Whether a terminator belongs to the turn it ends: when a timeslot shared by several clients goes from one stream to
  another within the timeout, had the first ended in that very turn?
 */
module Turns {
  import opened Dmrd
  import opened Timeslot
  import opened MmdvmClient
  import opened Arbitration
  import TT = TimeslotTheorems

  /** The last of n grants ends its turn: there is a terminator, and behind it only that stream was granted. */
  ghost predicate EndedTurn(g: seq<Grant>, n: nat)
    requires 0 < n <= |g|
  {
    exists k: nat :: k < n && IsTerminator(g[k].packet) && forall j: nat :: k <= j < n ==> StreamAt(g, j) == StreamAt(g, n - 1)
  }

  ghost predicate OrderlyTurns(g: seq<Grant>, timeout: nat) {
    forall i: nat :: 0 < i < |g| ==> MayFollow(g, i, timeout)
  }

  /** Grant i goes on with the turn before it, or that turn had ended, or it had been silent for longer than the timeout. */
  ghost predicate MayFollow(g: seq<Grant>, i: nat, timeout: nat)
    requires 0 < i < |g|
  {
    StreamAt(g, i) == StreamAt(g, i - 1) || EndedTurn(g, i) || g[i].at - g[i - 1].at > timeout
  }

  /** The turn that the last grant belongs to has not ended. */
  ghost predicate TurnOpen(w: World) {
    w.granted != [] && !EndedTurn(w.granted, |w.granted|)
  }

  /**
    The calls that take the slot from an open turn: within the timeout, the release of a stream that holds the
    slot while another waits, or a packet of another stream that finds the slot free.
   */
  ghost predicate Breaks(w: World, timeout: nat, c: Call) {
    && Possible(w, c) && TurnOpen(w) && c.now - w.granted[|w.granted| - 1].at <= timeout
    && (if c.Submission? then w.slot.active.None? && c.packet.streamId != StreamAt(w.granted, |w.granted| - 1)
        else HandsOver(w.slot, w.drains[c.network]))
  }

  lemma SameBefore(g: seq<Grant>, more: seq<Grant>, i: nat, timeout: nat)
    requires 0 < i < |g|
    ensures MayFollow(g + more, i, timeout) <==> MayFollow(g, i, timeout)
  {
    EndedBefore(g, more, i);
  }

  lemma EndedBefore(g: seq<Grant>, more: seq<Grant>, n: nat)
    requires 0 < n <= |g|
    ensures EndedTurn(g + more, n) <==> EndedTurn(g, n)
  {
    var h := g + more;
    assert h[..n] == g[..n];
    if EndedTurn(g, n) {
      SamePrefix(g, h, n);
    }
    if EndedTurn(h, n) {
      SamePrefix(h, g, n);
    }
  }

  lemma SamePrefix(g: seq<Grant>, h: seq<Grant>, n: nat)
    requires 0 < n <= |g| && n <= |h| && g[..n] == h[..n] && EndedTurn(g, n)
    ensures EndedTurn(h, n)
  {
    var k: nat :| k < n && IsTerminator(g[k].packet) && forall j: nat :: k <= j < n ==> StreamAt(g, j) == StreamAt(g, n - 1);
    assert forall j: nat :: j < n ==> g[j] == g[..n][j] && h[j] == h[..n][j];
    assert forall j: nat :: k <= j < n ==> StreamAt(h, j) == StreamAt(g, j);
  }

  /** Grants of one stream keep the turns orderly if and only if the first of them may follow. */
  lemma TurnsAppend(g: seq<Grant>, more: seq<Grant>, timeout: nat, id: nat)
    requires more != [] && forall i :: 0 <= i < |more| ==> more[i].packet.streamId == id
    ensures OrderlyTurns(g + more, timeout) <==>
      OrderlyTurns(g, timeout) &&
      (g == [] || StreamAt(g, |g| - 1) == id || EndedTurn(g, |g|) || more[0].at - g[|g| - 1].at > timeout)
  {
    hide EndedTurn;
    var h, n := g + more, |g|;
    forall i: nat | 0 < i < n
      ensures MayFollow(h, i, timeout) <==> MayFollow(g, i, timeout)
    {
      SameBefore(g, more, i, timeout);
    }
    forall i: nat | n < i < |h|
      ensures MayFollow(h, i, timeout)
    {
      assert h[i] == more[i - n] && h[i - 1] == more[i - 1 - n];
    }
    if n > 0 {
      EndedBefore(g, more, n);
      assert h[n] == more[0] && h[n - 1] == g[n - 1];
      assert MayFollow(h, n, timeout) <==>
        StreamAt(g, n - 1) == id || EndedTurn(g, n) || more[0].at - g[n - 1].at > timeout;
    }
  }

  lemma SubmissionBreaks(w: World, timeout: nat, n: string, p: Packet, now: int)
    requires Inv(w, timeout) && n !in w.drains
    ensures OrderlyTurns(AfterSubmission(w, timeout, n, p, now).granted, timeout) <==>
      OrderlyTurns(w.granted, timeout) && !Breaks(w, timeout, Submission(n, p, now))
  {
    hide TT.Shape, OwnPackets, Orderly, OrderlyTurns, EndedTurn, Buffered, DrainsEnded, Terminated;
    if Passes(w.slot, timeout, p.streamId, now) {
      TurnsAppend(w.granted, [Grant(p, now)], timeout, p.streamId);
    }
  }

  lemma ReleaseBreaks(w: World, timeout: nat, n: string, now: int)
    requires Inv(w, timeout) && n in w.drains
    ensures OrderlyTurns(AfterRelease(w, n, now).granted, timeout) <==>
      OrderlyTurns(w.granted, timeout) && !Breaks(w, timeout, Drain(n, now))
  {
    hide OwnPackets, OwnedBy, Orderly, OrderlyTurns, EndedTurn, Released, Returned, DrainsEnded, Terminated;
    var id := w.drains[n];
    if !ActiveIs(w.slot, id) {
      ForeignRelease(w.slot, id);
      NothingReturned(w, n, now);
    } else {
      HandOver(w.slot, id, now);
      if w.slot.pending == [] {
        NothingReturned(w, n, now);
      } else {
        var ps, b := Returned(w.slot, id), w.slot.pending[0].streamId;
        GrantsOwned(ps, now, b);
        TurnsAppend(w.granted, Grants(ps, now), timeout, b);
      }
    }
  }

  lemma GrantsOwned(ps: seq<Packet>, now: int, id: nat)
    requires OwnedBy(ps, id)
    ensures forall i :: 0 <= i < |ps| ==> Grants(ps, now)[i].packet.streamId == id && Grants(ps, now)[i].at == now
  {
  }

  lemma StepBreaks(w: World, timeout: nat, c: Call)
    requires Inv(w, timeout)
    ensures OrderlyTurns(Step(w, timeout, c).granted, timeout) <==> OrderlyTurns(w.granted, timeout) && !Breaks(w, timeout, c)
  {
    hide Inv, OrderlyTurns, Breaks, AfterSubmission, AfterRelease;
    if !Possible(w, c) {
      ImpossibleKeeps(w, timeout, c);
    } else {
      match c {
        case Submission(n, p, now) => SubmissionBreaks(w, timeout, n, p, now);
        case Drain(n, now) => ReleaseBreaks(w, timeout, n, now);
      }
    }
  }

  lemma ImpossibleKeeps(w: World, timeout: nat, c: Call)
    requires !Possible(w, c)
    ensures !Breaks(w, timeout, c)
  {
  }

  /** No call of the run takes the slot from an open turn. */
  ghost predicate NoneBreaks(timeout: nat, cs: seq<Call>) {
    forall i :: 0 <= i < |cs| ==> !Breaks(Run(timeout, cs[..i]), timeout, cs[i])
  }

  lemma NoneBreaksNext(timeout: nat, cs: seq<Call>)
    requires cs != []
    ensures var n := |cs| - 1;
      NoneBreaks(timeout, cs) <==> NoneBreaks(timeout, cs[..n]) && !Breaks(Run(timeout, cs[..n]), timeout, cs[n])
  {
    hide Run, Breaks;
    var before := cs[..|cs| - 1];
    assert forall i :: 0 <= i < |before| ==> before[i] == cs[i] && before[..i] == cs[..i];
  }

  /**
    In every run, every stream that loses the slot within the timeout had ended in that very turn, if and only if no
    call takes the slot from an open turn.
   */
  lemma {:induction false} TurnsJustifiedIff(timeout: nat, cs: seq<Call>)
    ensures OrderlyTurns(Run(timeout, cs).granted, timeout) <==> NoneBreaks(timeout, cs)
  {
    if cs == [] {
      return;
    }
    hide NoneBreaks, Breaks, OrderlyTurns, Inv, Step, Run;
    var n := |cs| - 1;
    TurnsJustifiedIff(timeout, cs[..n]);
    Always(timeout, cs[..n]);
    RunNext(timeout, cs);
    NoneBreaksNext(timeout, cs);
    StepBreaks(Run(timeout, cs[..n]), timeout, cs[n]);
  }

  // ---------- Streams that do not speak while they are released ----------

  ghost predicate BeingReleased(w: World, id: nat) {
    exists n :: n in w.drains && w.drains[n] == id
  }

  /** No packet of a stream is submitted while a release by that stream is outstanding. */
  ghost predicate QuietWhileReleased(timeout: nat, cs: seq<Call>) {
    forall i :: 0 <= i < |cs| && cs[i].Submission? ==> !BeingReleased(Run(timeout, cs[..i]), cs[i].packet.streamId)
  }

  /** A stream that is being released is not waiting and, if it holds the slot, has ended its turn; so has the last of a free slot. */
  ghost predicate Quiet(w: World) {
    && (forall k :: 0 <= k < |w.slot.pending| ==> !BeingReleased(w, w.slot.pending[k].streamId))
    && (w.slot.active.Some? && BeingReleased(w, w.slot.active.value.streamId) ==> !TurnOpen(w))
    && (w.slot.active.None? ==> !TurnOpen(w))
  }

  lemma QuietNeverBreaks(w: World, timeout: nat, c: Call)
    requires Quiet(w)
    ensures !Breaks(w, timeout, c)
  {
    hide EndedTurn;
    if c.Drain? && c.network in w.drains && HandsOver(w.slot, w.drains[c.network]) {
      assert BeingReleased(w, w.slot.active.value.streamId);
    }
  }

  /** A terminator among the last grants, all of one stream, ends its turn. */
  lemma TurnEnds(g: seq<Grant>, more: seq<Grant>, id: nat, k: nat)
    requires k < |more| && IsTerminator(more[k].packet) && forall i :: 0 <= i < |more| ==> more[i].packet.streamId == id
    ensures EndedTurn(g + more, |g + more|)
  {
    var h := g + more;
    assert forall j: nat :: |g| <= j < |h| ==> h[j] == more[j - |g|];
    assert IsTerminator(h[|g| + k].packet);
  }

  /** The streams that wait after a submission: those before, and the packet's own if it has to wait. */
  lemma WaitingAfter(s: Slot<Packet>, timeout: nat, p: Packet, n: string, now: int, k: nat)
    requires TT.Shape(s) && k < |Submitted(s, timeout, p.streamId, n, p, now).pending|
    ensures var id := Submitted(s, timeout, p.streamId, n, p, now).pending[k].streamId;
      && (Passes(s, timeout, p.streamId, now) ==> id != p.streamId)
      && (id == p.streamId || exists j :: 0 <= j < |s.pending| && s.pending[j].streamId == id)
  {
    hide Buffered;
    var i := TT.BufferPlace(s.pending, p.streamId, n, p);
  }

  lemma SubmissionQuiet(w: World, timeout: nat, n: string, p: Packet, now: int)
    requires Inv(w, timeout) && Quiet(w) && n !in w.drains && !BeingReleased(w, p.streamId)
    ensures Quiet(AfterSubmission(w, timeout, n, p, now))
  {
    hide TT.Shape, OwnPackets, Orderly, EndedTurn, Buffered, DrainsEnded, Terminated;
    var w' := AfterSubmission(w, timeout, n, p, now);
    var passes := Passes(w.slot, timeout, p.streamId, now);
    forall id
      ensures BeingReleased(w', id) <==> BeingReleased(w, id) || (passes && IsTerminator(p) && id == p.streamId)
    {
      if BeingReleased(w, id) {
        var m :| m in w.drains && w.drains[m] == id;
        assert m in w'.drains && w'.drains[m] == id;
      }
      if passes && IsTerminator(p) && id == p.streamId {
        assert n in w'.drains && w'.drains[n] == id;
      }
    }
    hide BeingReleased;
    forall k: nat | k < |w'.slot.pending|
      ensures !BeingReleased(w', w'.slot.pending[k].streamId)
    {
      WaitingAfter(w.slot, timeout, p, n, now, k);
    }
    if passes && IsTerminator(p) {
      TurnEnds(w.granted, [Grant(p, now)], p.streamId, 0);
    }
  }

  lemma ReleaseQuiet(w: World, timeout: nat, n: string, now: int)
    requires Inv(w, timeout) && Quiet(w) && n in w.drains
    ensures Quiet(AfterRelease(w, n, now))
  {
    var id, w' := w.drains[n], AfterRelease(w, n, now);
    assert BeingReleased(w, id);
    hide OwnPackets, Orderly, EndedTurn, DrainsEnded, Terminated, Released, Returned;
    if !ActiveIs(w.slot, id) {
      ForeignRelease(w.slot, id);
      NothingReturned(w, n, now);
      StillReleased(w, w', n);
      return;
    }
    HandOver(w.slot, id, now);
    if w.slot.pending == [] {
      NothingReturned(w, n, now);
      return;
    }
    var ps, b := Returned(w.slot, id), w.slot.pending[0].streamId;
    GrantsOwned(ps, now, b);
    if HasTerminator(ps) {
      var k :| 0 <= k < |ps| && IsTerminator(ps[k]);
      TurnEnds(w.granted, Grants(ps, now), b, k);
    }
    StillReleased(w, w', n);
    QueueAdvanced(w.slot, id, now);
  }

  /** Only the drain that made the release may have a new stream. */
  lemma StillReleased(w: World, w': World, n: string)
    requires forall m :: m in w'.drains && m != n ==> m in w.drains && w'.drains[m] == w.drains[m]
    ensures forall id :: BeingReleased(w', id) ==> BeingReleased(w, id) || (n in w'.drains && w'.drains[n] == id)
  {
    forall id | BeingReleased(w', id)
      ensures BeingReleased(w, id) || (n in w'.drains && w'.drains[n] == id)
    {
      var m :| m in w'.drains && w'.drains[m] == id;
    }
  }

  lemma QueueAdvanced(s: Slot<Packet>, id: nat, now: int)
    requires TT.Shape(s) && ActiveIs(s, id) && s.pending != []
    ensures var q := Released(s, id, now).pending;
      forall k :: 0 <= k < |q| ==> q[k].streamId == s.pending[k + 1].streamId && q[k].streamId != s.pending[0].streamId
  {
  }

  lemma {:induction false} AlwaysQuiet(timeout: nat, cs: seq<Call>)
    requires QuietWhileReleased(timeout, cs)
    ensures Quiet(Run(timeout, cs)) && NoneBreaks(timeout, cs)
  {
    if cs != [] {
      var before, c := cs[..|cs| - 1], cs[|cs| - 1];
      assert forall i :: 0 <= i < |before| ==> before[i] == cs[i] && before[..i] == cs[..i];
      AlwaysQuiet(timeout, before);
      Always(timeout, before);
      var w := Run(timeout, before);
      hide Run, Quiet, NoneBreaks, Breaks, Inv, BeingReleased, AfterSubmission, AfterRelease;
      QuietNeverBreaks(w, timeout, c);
      NoneBreaksNext(timeout, cs);
      RunNext(timeout, cs);
      if Possible(w, c) {
        match c {
          case Submission(n, p, now) => SubmissionQuiet(w, timeout, n, p, now);
          case Drain(n, now) => ReleaseQuiet(w, timeout, n, now);
        }
      }
    }
  }

  lemma RunNext(timeout: nat, cs: seq<Call>)
    requires cs != []
    ensures Run(timeout, cs) == Step(Run(timeout, cs[..|cs| - 1]), timeout, cs[|cs| - 1])
  {
  }

  /** If no packet of a stream is submitted while that stream is being released, every terminator belongs to the turn it ends. */
  lemma TurnsJustified(timeout: nat, cs: seq<Call>)
    requires QuietWhileReleased(timeout, cs)
    ensures OrderlyTurns(Run(timeout, cs).granted, timeout)
  {
    hide OrderlyTurns, Run, Quiet, NoneBreaks;
    AlwaysQuiet(timeout, cs);
    TurnsJustifiedIff(timeout, cs);
  }

  // ---------- Streams that say nothing after their terminator ----------

  ghost predicate WasSubmitted(cs: seq<Call>, p: Packet) {
    exists i :: 0 <= i < |cs| && cs[i].Submission? && cs[i].packet == p
  }

  ghost predicate AllSubmitted(cs: seq<Call>, ps: seq<Packet>) {
    forall i :: 0 <= i < |ps| ==> WasSubmitted(cs, ps[i])
  }

  /** Nothing is made up: what is granted and what waits was submitted. */
  ghost predicate Sourced(cs: seq<Call>, w: World) {
    && (forall i :: 0 <= i < |w.granted| ==> WasSubmitted(cs, w.granted[i].packet))
    && (forall k :: 0 <= k < |w.slot.pending| ==> AllSubmitted(cs, w.slot.pending[k].packets))
  }

  lemma SubmittedLater(cs: seq<Call>, c: Call, p: Packet)
    ensures WasSubmitted(cs, p) ==> WasSubmitted(cs + [c], p)
    ensures c.Submission? && c.packet == p ==> WasSubmitted(cs + [c], p)
  {
    var ds := cs + [c];
    assert ds[|cs|] == c;
    if WasSubmitted(cs, p) {
      var i :| 0 <= i < |cs| && cs[i].Submission? && cs[i].packet == p;
      assert ds[i] == cs[i];
    }
  }

  lemma SourcedLater(cs: seq<Call>, c: Call, w: World)
    requires Sourced(cs, w)
    ensures Sourced(cs + [c], w)
  {
    hide WasSubmitted;
    forall p
      ensures WasSubmitted(cs, p) ==> WasSubmitted(cs + [c], p)
    {
      SubmittedLater(cs, c, p);
    }
  }

  lemma SubmissionSourced(cs: seq<Call>, w: World, timeout: nat, n: string, p: Packet, now: int)
    requires Sourced(cs, w) && WasSubmitted(cs, p)
    ensures Sourced(cs, AfterSubmission(w, timeout, n, p, now))
  {
    hide WasSubmitted, Buffered;
    var i := TT.BufferPlace(w.slot.pending, p.streamId, n, p);
  }

  lemma ReleaseSourced(cs: seq<Call>, w: World, n: string, now: int)
    requires Sourced(cs, w) && n in w.drains
    ensures Sourced(cs, AfterRelease(w, n, now))
  {
    hide WasSubmitted, HasTerminator, LastTerminator;
    var id := w.drains[n];
    var w' := AfterRelease(w, n, now);
    assert AllSubmitted(cs, Returned(w.slot, id));
    forall k | 0 <= k < |w'.slot.pending|
      ensures AllSubmitted(cs, w'.slot.pending[k].packets)
    {
      assert w'.slot.pending[k] == if ActiveIs(w.slot, id) then w.slot.pending[k + 1] else w.slot.pending[k];
    }
  }

  lemma {:induction false} AlwaysSourced(timeout: nat, cs: seq<Call>)
    ensures Sourced(cs, Run(timeout, cs))
  {
    if cs != [] {
      var before, c := cs[..|cs| - 1], cs[|cs| - 1];
      AlwaysSourced(timeout, before);
      var w := Run(timeout, before);
      hide Run, Sourced, WasSubmitted, AfterSubmission, AfterRelease;
      RunNext(timeout, cs);
      assert before + [c] == cs;
      SourcedLater(before, c, w);
      if Possible(w, c) {
        match c {
          case Submission(n, p, now) =>
            SubmittedLater(before, c, p);
            SubmissionSourced(cs, w, timeout, n, p, now);
          case Drain(n, now) => ReleaseSourced(cs, w, n, now);
        }
      }
    }
  }

  /** No packet of a stream is submitted, by any client, after a terminator of that stream. */
  ghost predicate EndsOnce(cs: seq<Call>) {
    forall i, j :: 0 <= i < j < |cs| && cs[i].Submission? && cs[j].Submission? && IsTerminator(cs[i].packet) ==>
      cs[i].packet.streamId != cs[j].packet.streamId
  }

  /** A condition on the packets alone: if streams say nothing after their terminator, every terminator belongs to the turn it ends. */
  lemma EndedStreamsJustified(timeout: nat, cs: seq<Call>)
    requires EndsOnce(cs)
    ensures OrderlyTurns(Run(timeout, cs).granted, timeout)
  {
    forall i | 0 <= i < |cs| && cs[i].Submission?
      ensures !BeingReleased(Run(timeout, cs[..i]), cs[i].packet.streamId)
    {
      NotReleasedYet(timeout, cs, i);
    }
    TurnsJustified(timeout, cs);
  }

  /** A stream that is being released had its terminator submitted. */
  lemma EndedBySubmission(timeout: nat, cs: seq<Call>, id: nat) returns (j: nat)
    requires BeingReleased(Run(timeout, cs), id)
    ensures j < |cs| && cs[j].Submission? && IsTerminator(cs[j].packet) && cs[j].packet.streamId == id
  {
    hide Run;
    var w := Run(timeout, cs);
    Always(timeout, cs);
    AlwaysSourced(timeout, cs);
    var n :| n in w.drains && w.drains[n] == id;
    var k: nat :| k < |w.granted| && IsTerminator(w.granted[k].packet) && StreamAt(w.granted, k) == id;
    assert WasSubmitted(cs, w.granted[k].packet);
    j :| 0 <= j < |cs| && cs[j].Submission? && cs[j].packet == w.granted[k].packet;
  }

  lemma NotReleasedYet(timeout: nat, cs: seq<Call>, i: nat)
    requires EndsOnce(cs) && i < |cs| && cs[i].Submission?
    ensures !BeingReleased(Run(timeout, cs[..i]), cs[i].packet.streamId)
  {
    hide Run, BeingReleased;
    if BeingReleased(Run(timeout, cs[..i]), cs[i].packet.streamId) {
      var j := EndedBySubmission(timeout, cs[..i], cs[i].packet.streamId);
      assert false;
    }
  }
}
