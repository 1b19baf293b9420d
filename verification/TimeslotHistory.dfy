/** What a timeslot answers, read off the run alone: the outputs so far, their times, and the releases since. */
module TimeslotHistory {
  import opened Timeslot
  import opened TimeslotTheorems

  // ---------- What the run shows ----------

  function LastOutput<P>(out: seq<Output<P>>): Output<P>
    requires out != []
  {
    out[|out| - 1]
  }

  /** After n events: something was handed out, and its stream has not released the slot since. */
  ghost predicate Taken<P>(es: seq<Event<P>>, n: nat, out: seq<Output<P>>)
    requires n <= |es|
  {
    && out != [] && LastOutput(out).event < n
    && forall k: nat :: LastOutput(out).event < k < n && es[k].Release? ==> es[k].id != LastOutput(out).entry.id
  }

  /** The slot is taken by the stream. */
  ghost predicate Holds<P>(es: seq<Event<P>>, n: nat, out: seq<Output<P>>, id: nat)
    requires n <= |es|
  {
    Taken(es, n, out) && LastOutput(out).entry.id == id
  }

  /** How long ago something was handed out. */
  function Silence<P>(es: seq<Event<P>>, out: seq<Output<P>>, now: int): int
    requires out != [] && LastOutput(out).event < |es|
  {
    now - es[LastOutput(out).event].now
  }

  // ---------- The state is the history ----------

  /** The active call is the stream of the last output, and was last heard then. */
  ghost predicate ActiveIsLast<P>(es: seq<Event<P>>, n: nat, l: Ledger<P>)
    requires n <= |es|
  {
    && (forall k :: 0 <= k < |l.out| ==> l.out[k].event < n)
    && (l.slot.active.Some? <==> Taken(es, n, l.out))
    && (l.slot.active.Some? ==>
        l.slot.active.value.streamId == LastOutput(l.out).entry.id && l.slot.active.value.lastSeen == es[LastOutput(l.out).event].now)
  }

  lemma TakenNow<P>(es: seq<Event<P>>, n: nat, out: seq<Output<P>>)
    requires n < |es| && out != [] && LastOutput(out).event == n
    ensures Taken(es, n + 1, out)
  {
  }

  lemma TakenOn<P>(es: seq<Event<P>>, n: nat, out: seq<Output<P>>)
    requires n < |es| && (out != [] ==> LastOutput(out).event < n)
    ensures Taken(es, n + 1, out) <==> Taken(es, n, out) && !(es[n].Release? && es[n].id == LastOutput(out).entry.id)
  {
  }

  lemma SubmitKeepsLast<P>(es: seq<Event<P>>, n: nat, l: Ledger<P>, timeout: nat)
    requires n < |es| && es[n].Submit? && ActiveIsLast(es, n, l)
    ensures ActiveIsLast(es, n + 1, Next(l, timeout, es[n], n))
  {
    hide Taken, Buffered;
    var l' := Next(l, timeout, es[n], n);
    if Passes(l.slot, timeout, es[n].id, es[n].now) {
      assert LastOutput(l'.out) == Output(Entry(n, es[n].id, es[n].packet), n);
      TakenNow(es, n, l'.out);
    } else {
      TakenOn(es, n, l.out);
    }
  }

  lemma ReleaseKeepsLast<P>(es: seq<Event<P>>, n: nat, l: Ledger<P>, timeout: nat)
    requires n < |es| && es[n].Release? && ActiveIsLast(es, n, l) && Shape(l.slot) && Filed(es, l.slot.pending)
    ensures ActiveIsLast(es, n + 1, Next(l, timeout, es[n], n))
  {
    hide Taken, Shape, Filed;
    var l', id := Next(l, timeout, es[n], n), es[n].id;
    TakenOn(es, n, l.out);
    if HandsOver(l.slot, id) {
      FirstBuffer(es, l.slot);
      var back := l.slot.pending[0].packets;
      assert LastOutput(l'.out) == Output(back[|back| - 1], n);
      TakenNow(es, n, l'.out);
    } else {
      assert l'.out == l.out;
    }
  }

  /** The first buffer holds packets of its own stream. */
  lemma FirstBuffer<P>(es: seq<Event<P>>, s: Slot<Entry<P>>)
    requires Shape(s) && Filed(es, s.pending) && s.pending != []
    ensures s.pending[0].packets != []
    ensures forall j :: 0 <= j < |s.pending[0].packets| ==> s.pending[0].packets[j].id == s.pending[0].streamId
  {
  }

  lemma FiledSooner<P>(es: seq<Event<P>>, n: nat, q: seq<Pending<Entry<P>>>)
    requires n <= |es| && Filed(es[..n], q)
    ensures Filed(es, q)
  {
  }

  lemma {:induction false} LastAlways<P>(timeout: nat, es: seq<Event<P>>, n: nat)
    requires n <= |es|
    ensures ActiveIsLast(es, n, Play(timeout, es[..n]))
  {
    if n > 0 {
      hide ActiveIsLast, Next, Shape, Filed;
      var before := es[..n - 1];
      assert es[..n][..n - 1] == before;
      LastAlways(timeout, es, n - 1);
      if es[n - 1].Submit? {
        SubmitKeepsLast(es, n - 1, Play(timeout, before), timeout);
      } else {
        ShapeAlways(timeout, before);
        FiledAlways(timeout, before);
        FiledSooner(es, n - 1, Play(timeout, before).slot.pending);
        ReleaseKeepsLast(es, n - 1, Play(timeout, before), timeout);
      }
    }
  }

  // ---------- Submissions ----------

  /** Another stream has the slot, and handed something out at most the timeout ago. */
  ghost predicate MustWait<P>(timeout: nat, es: seq<Event<P>>, n: nat, out: seq<Output<P>>)
    requires n < |es|
  {
    Taken(es, n, out) && LastOutput(out).entry.id != es[n].id && Silence(es, out, es[n].now) <= timeout
  }

  /** Another stream has the slot, but has been silent for longer. */
  ghost predicate TakesOver<P>(timeout: nat, es: seq<Event<P>>, n: nat, out: seq<Output<P>>)
    requires n < |es|
  {
    Taken(es, n, out) && LastOutput(out).entry.id != es[n].id && Silence(es, out, es[n].now) > timeout
  }

  /**
    Every submission of every run: it waits exactly if another stream has the slot and handed something out at most the
    timeout ago; otherwise it is handed out at once, and exactly if another stream had the slot, all that was waiting is
    thrown away.
   */
  lemma SubmissionIff<P>(timeout: nat, es: seq<Event<P>>, n: nat)
    requires n < |es| && es[n].Submit?
    ensures var l, l' := Play(timeout, es[..n]), Play(timeout, es[..n + 1]);
      && l'.out == (if MustWait(timeout, es, n, l.out) then l.out else l.out + [Output(Entry(n, es[n].id, es[n].packet), n)])
      && l'.discarded == (if TakesOver(timeout, es, n, l.out) then l.discarded + Waiting(l.slot.pending) else l.discarded)
      && (TakesOver(timeout, es, n, l.out) ==> Waiting(l'.slot.pending) == [])
  {
    hide Taken, Buffered;
    assert es[..n + 1][..n] == es[..n];
    LastAlways(timeout, es, n);
  }

  // ---------- Releases ----------

  ghost predicate AllOf<P>(w: seq<Entry<P>>, id: nat) {
    forall i :: 0 <= i < |w| ==> w[i].id == id
  }

  ghost predicate NoneOf<P>(w: seq<Entry<P>>, id: nat) {
    forall i :: 0 <= i < |w| ==> w[i].id != id
  }

  /** The oldest waiting packet, by the number of its submission, is the first. */
  ghost predicate OldestFirst<P>(w: seq<Entry<P>>) {
    forall i :: 0 <= i < |w| ==> w[0].tag <= w[i].tag
  }

  lemma {:induction false} NotWaiting<P>(es: seq<Event<P>>, q: seq<Pending<Entry<P>>>, id: nat)
    requires Filed(es, q) && forall i :: 0 <= i < |q| ==> q[i].streamId != id
    ensures NoneOf(Waiting(q), id)
    decreases |q|
  {
    if q != [] {
      FiledRest(es, q);
      NotWaiting(es, q[1..], id);
    }
  }

  lemma FiledRest<P>(es: seq<Event<P>>, q: seq<Pending<Entry<P>>>)
    requires q != [] && Filed(es, q)
    ensures Filed(es, q[1..])
  {
  }

  lemma {:induction false} NoneOlder<P>(q: seq<Pending<Entry<P>>>, t: nat)
    requires forall i :: 0 <= i < |q| ==> Increasing(q[i].packets) && (q[i].packets != [] ==> t <= q[i].packets[0].tag)
    ensures forall i :: 0 <= i < |Waiting(q)| ==> t <= Waiting(q)[i].tag
    decreases |q|
  {
    if q != [] {
      NoneOlder(q[1..], t);
    }
  }

  /** The first buffer of the queue: one stream, whole, and the one that has waited longest. */
  lemma FirstWaits<P>(timeout: nat, es: seq<Event<P>>)
    ensures var q := Play(timeout, es).slot.pending; q == [] <==> Waiting(q) == []
    ensures var q := Play(timeout, es).slot.pending; q != [] ==>
      var w, b, rest := Waiting(q), q[0].packets, Waiting(q[1..]);
      w == b + rest && b != [] && AllOf(b, w[0].id) && NoneOf(rest, w[0].id) && OldestFirst(w)
  {
    var l := Play(timeout, es);
    var q := l.slot.pending;
    ShapeAlways(timeout, es);
    FiledAlways(timeout, es);
    StreamOrder(timeout, es);
    FirstComeFirstServed(timeout, es);
    hide Play;
    if q != [] {
      FirstBuffer(es, l.slot);
      assert Waiting(q) == q[0].packets + Waiting(q[1..]);
      FiledRest(es, q);
      NotWaiting(es, q[1..], q[0].streamId);
      QueueByAge(l, |es|);
      NoneOlder(q, q[0].packets[0].tag);
    }
  }

  lemma QueueByAge<P>(l: Ledger<P>, n: nat)
    requires Fifo(l, n) && Shape(l.slot) && l.slot.pending != []
    ensures var q := l.slot.pending;
      forall i :: 0 <= i < |q| ==> q[0].packets != [] && q[i].packets != [] && q[0].packets[0].tag <= q[i].packets[0].tag
  {
    var q, s := l.slot.pending, l.batches + Firsts(l.slot.pending);
    forall i | 0 <= i < |q|
      ensures q[0].packets != [] && q[i].packets != [] && q[0].packets[0].tag <= q[i].packets[0].tag
    {
      assert s[|l.batches|] == q[0].packets[0].tag;
      assert s[|l.batches| + i] == q[i].packets[0].tag;
    }
  }

  /**
    Every release of every run: if its stream has the slot and something is waiting, it hands out all that waits of the
    stream that has waited longest, in order, and leaves the rest; otherwise it hands out nothing and leaves all.
   */
  lemma ReleaseIff<P>(timeout: nat, es: seq<Event<P>>, n: nat)
    requires n < |es| && es[n].Release?
    ensures var l, l' := Play(timeout, es[..n]), Play(timeout, es[..n + 1]);
      var w, w' := Waiting(l.slot.pending), Waiting(l'.slot.pending);
      && l'.discarded == l.discarded
      && (Holds(es, n, l.out, es[n].id) && w != [] ==>
          && |w'| < |w| && l'.out == l.out + Outputs(w[..|w| - |w'|], n) && w' == w[|w| - |w'|..]
          && AllOf(w[..|w| - |w'|], w[0].id) && NoneOf(w', w[0].id) && OldestFirst(w))
      && (!(Holds(es, n, l.out, es[n].id) && w != []) ==> l'.out == l.out && w' == w)
  {
    hide Taken, AllOf, NoneOf, OldestFirst;
    assert es[..n + 1][..n] == es[..n];
    LastAlways(timeout, es, n);
    FirstWaits(timeout, es[..n]);
    var l, l' := Play(timeout, es[..n]), Play(timeout, es[..n + 1]);
    assert l' == Next(l, timeout, es[n], n);
    hide Play;
    var q, id := l.slot.pending, es[n].id;
    if HandsOver(l.slot, id) {
      var w, b, rest := Waiting(q), q[0].packets, Waiting(q[1..]);
      assert w[..|b|] == b && w[|b|..] == rest;
    } else {
      assert l'.out == l.out;
    }
  }
}
