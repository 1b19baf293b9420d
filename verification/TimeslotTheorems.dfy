/**
  Conservation and order on a timeslot, over every run of submissions and releases.
  Each packet is tagged with the number of the event that submitted it; the manager
  never looks inside a packet, so the tags follow the packets.
 */
module TimeslotTheorems {
  import opened Options
  import opened Timeslot

  datatype Event<+P> =
    | Submit(id: nat, network: string, packet: P, now: int)
    | Release(id: nat, now: int)

  datatype Entry<+P> = Entry(tag: nat, id: nat, packet: P)

  /** A packet handed to the caller, and the event that handed it over. */
  datatype Output<+P> = Output(entry: Entry<P>, event: nat)

  /** The slot, with a record of everything that left it. */
  datatype Ledger<+P> = Ledger(slot: Slot<Entry<P>>, out: seq<Output<P>>, discarded: seq<Entry<P>>, batches: seq<nat>)

  /** All buffered packets, front of the queue first. */
  function Waiting<P>(q: seq<Pending<Entry<P>>>): seq<Entry<P>> {
    if q == [] then [] else q[0].packets + Waiting(q[1..])
  }

  function Outputs<P>(entries: seq<Entry<P>>, event: nat): (o: seq<Output<P>>)
    ensures |o| == |entries|
  {
    seq(|entries|, i requires 0 <= i < |entries| => Output(entries[i], event))
  }

  function Next<P>(l: Ledger<P>, timeout: nat, e: Event<P>, n: nat): Ledger<P> {
    match e
    case Submit(id, network, packet, now) =>
      var x := Entry(n, id, packet);
      Ledger(
        Submitted(l.slot, timeout, id, network, x, now),
        if Passes(l.slot, timeout, id, now) then l.out + [Output(x, n)] else l.out,
        if TimedOut(l.slot, timeout, id, now) then l.discarded + Waiting(l.slot.pending) else l.discarded,
        l.batches)
    case Release(id, now) =>
      Ledger(
        Released(l.slot, id, now),
        l.out + Outputs(Returned(l.slot, id), n),
        l.discarded,
        if HandsOver(l.slot, id) && Returned(l.slot, id) != [] then l.batches + [Returned(l.slot, id)[0].tag] else l.batches)
  }

  /** The ledger after a run on a fresh slot. */
  function Play<P>(timeout: nat, es: seq<Event<P>>): Ledger<P>
    decreases |es|
  {
    if es == [] then Ledger(Slot(None, []), [], [], [])
    else Next(Play(timeout, es[..|es| - 1]), timeout, es[|es| - 1], |es| - 1)
  }

  // ---------- The shape of a slot ----------

  /** Pending ids are distinct, the active id is not pending, a free slot has no queue, and no buffer is empty. */
  ghost predicate Shape<T>(s: Slot<T>) {
    && (forall i, j :: 0 <= i < j < |s.pending| ==> s.pending[i].streamId != s.pending[j].streamId)
    && (forall i :: 0 <= i < |s.pending| ==> s.active.Some? && s.pending[i].streamId != s.active.value.streamId)
    && (forall i :: 0 <= i < |s.pending| ==> s.pending[i].packets != [])
  }

  /** Where buffering puts the packet. */
  lemma {:induction false} BufferPlace<T>(q: seq<Pending<T>>, id: nat, network: string, x: T) returns (i: nat)
    ensures i <= |q|
    ensures Buffered(q, id, network, x)
         == if i == |q| then q + [Pending(id, network, [x])] else q[i := q[i].(packets := q[i].packets + [x])]
    ensures i < |q| ==> q[i].streamId == id
    ensures forall k :: 0 <= k < i ==> q[k].streamId != id
  {
    i := 0;
    while i < |q| && q[i].streamId != id
      invariant 0 <= i <= |q| && forall k :: 0 <= k < i ==> q[k].streamId != id
    {
      i := i + 1;
    }
    BufferedAt(q, if i == |q| then -1 else i, id, network, x);
  }

  lemma SubmitShape<T>(s: Slot<T>, timeout: nat, id: nat, network: string, x: T, now: int)
    requires Shape(s)
    ensures Shape(Submitted(s, timeout, id, network, x, now))
  {
    hide Buffered;
    var i := BufferPlace(s.pending, id, network, x);
  }

  lemma ShapeStep<P>(l: Ledger<P>, timeout: nat, e: Event<P>, n: nat)
    requires Shape(l.slot)
    ensures Shape(Next(l, timeout, e, n).slot)
  {
    if e.Submit? {
      SubmitShape(l.slot, timeout, e.id, e.network, Entry(n, e.id, e.packet), e.now);
    }
  }

  lemma {:induction false} ShapeAlways<P>(timeout: nat, es: seq<Event<P>>)
    ensures Shape(Play(timeout, es).slot)
    decreases |es|
  {
    if es != [] {
      hide Next, Shape;
      ShapeAlways(timeout, es[..|es| - 1]);
      ShapeStep(Play(timeout, es[..|es| - 1]), timeout, es[|es| - 1], |es| - 1);
    } else {
      assert Play(timeout, es).slot.pending == [];
    }
  }

  // ---------- Conservation ----------

  function Tags<P>(s: seq<Entry<P>>): (t: seq<nat>)
    ensures |t| == |s|
  {
    seq(|s|, i requires 0 <= i < |s| => s[i].tag)
  }

  function OutTags<P>(s: seq<Output<P>>): (t: seq<nat>)
    ensures |t| == |s|
  {
    seq(|s|, i requires 0 <= i < |s| => s[i].entry.tag)
  }

  /** The numbers of the submissions of a run. */
  function SubmitTags<P>(es: seq<Event<P>>): multiset<nat>
    decreases |es|
  {
    if es == [] then multiset{}
    else SubmitTags(es[..|es| - 1]) + if es[|es| - 1].Submit? then multiset{|es| - 1} else multiset{}
  }

  ghost function Accounted<P>(l: Ledger<P>): multiset<nat> {
    multiset(OutTags(l.out)) + multiset(Tags(l.discarded)) + multiset(Tags(Waiting(l.slot.pending)))
  }

  lemma {:induction false} SubmitTagsOnce<P>(es: seq<Event<P>>, n: nat)
    ensures SubmitTags(es)[n] == if n < |es| && es[n].Submit? then 1 else 0
    decreases |es|
  {
    if es != [] {
      SubmitTagsOnce(es[..|es| - 1], n);
    }
  }

  lemma TagsAppend<P>(a: seq<Entry<P>>, b: seq<Entry<P>>)
    ensures multiset(Tags(a + b)) == multiset(Tags(a)) + multiset(Tags(b))
  {
    assert Tags(a + b) == Tags(a) + Tags(b);
  }

  lemma OutTagsAppend<P>(a: seq<Output<P>>, b: seq<Output<P>>)
    ensures multiset(OutTags(a + b)) == multiset(OutTags(a)) + multiset(OutTags(b))
  {
    assert OutTags(a + b) == OutTags(a) + OutTags(b);
  }

  lemma {:induction false} BufferedTags<P>(q: seq<Pending<Entry<P>>>, id: nat, network: string, x: Entry<P>)
    ensures multiset(Tags(Waiting(Buffered(q, id, network, x)))) == multiset(Tags(Waiting(q))) + multiset{x.tag}
    decreases |q|
  {
    assert Tags([x]) == [x.tag];
    if q == [] {
      assert Waiting(Buffered(q, id, network, x)) == [x];
    } else {
      var rest := q[1..];
      var b := Buffered(q, id, network, x);
      TagsAppend(q[0].packets, Waiting(rest));
      if q[0].streamId == id {
        assert b[1..] == rest && b[0].packets == q[0].packets + [x];
        TagsAppend(q[0].packets + [x], Waiting(rest));
        TagsAppend(q[0].packets, [x]);
      } else {
        BufferedTags(rest, id, network, x);
        assert b[1..] == Buffered(rest, id, network, x) && b[0] == q[0];
        TagsAppend(q[0].packets, Waiting(b[1..]));
      }
    }
  }

  lemma SubmitConserves<P>(l: Ledger<P>, timeout: nat, e: Event<P>, n: nat)
    requires e.Submit? && (l.slot.active.None? ==> l.slot.pending == [])
    ensures Accounted(Next(l, timeout, e, n)) == Accounted(l) + multiset{n}
  {
    var x := Entry(n, e.id, e.packet);
    OutTagsAppend(l.out, [Output(x, n)]);
    assert OutTags([Output(x, n)]) == [n];
    TagsAppend(l.discarded, Waiting(l.slot.pending));
    BufferedTags(l.slot.pending, e.id, e.network, x);
  }

  lemma ReleaseConserves<P>(l: Ledger<P>, timeout: nat, e: Event<P>, n: nat)
    requires e.Release?
    ensures Accounted(Next(l, timeout, e, n)) == Accounted(l)
  {
    var back := Returned(l.slot, e.id);
    OutTagsAppend(l.out, Outputs(back, n));
    assert OutTags(Outputs(back, n)) == Tags(back);
    if HandsOver(l.slot, e.id) {
      TagsAppend(l.slot.pending[0].packets, Waiting(l.slot.pending[1..]));
    }
  }

  lemma {:induction false} Conservation<P>(timeout: nat, es: seq<Event<P>>)
    ensures Accounted(Play(timeout, es)) == SubmitTags(es)
    decreases |es|
  {
    if es != [] {
      hide Accounted, Next, Shape;
      var n := |es| - 1;
      var l, e := Play(timeout, es[..n]), es[n];
      Conservation(timeout, es[..n]);
      ShapeAlways(timeout, es[..n]);
      if e.Submit? {
        FreeMeansEmpty(l.slot);
        SubmitConserves(l, timeout, e, n);
      } else {
        ReleaseConserves(l, timeout, e, n);
      }
    }
  }

  lemma FreeMeansEmpty<T>(s: Slot<T>)
    requires Shape(s)
    ensures s.active.None? ==> s.pending == []
  {
    if s.pending != [] {
      assert s.pending[0].packets != [];
    }
  }

  /**
    Every submitted packet has exactly one fate: it was handed out exactly once, or thrown
    away by a timeout exactly once, or it is waiting in exactly one place.
   */
  lemma ExactlyOneFate<P>(timeout: nat, es: seq<Event<P>>, n: nat)
    requires n < |es| && es[n].Submit?
    ensures var l := Play(timeout, es);
      multiset(OutTags(l.out))[n] + multiset(Tags(l.discarded))[n] + multiset(Tags(Waiting(l.slot.pending)))[n] == 1
  {
    hide Play, SubmitTags;
    Conservation(timeout, es);
    SubmitTagsOnce(es, n);
  }

  // ---------- Packets stay what they are ----------

  /** The entry is the packet that event number `tag` submitted. */
  predicate Genuine<P(==)>(es: seq<Event<P>>, x: Entry<P>) {
    x.tag < |es| && es[x.tag].Submit? && es[x.tag].id == x.id && es[x.tag].packet == x.packet
  }

  /** The queue holds genuine packets, each filed under its own stream. */
  ghost predicate Filed<P>(es: seq<Event<P>>, q: seq<Pending<Entry<P>>>) {
    forall i, j :: 0 <= i < |q| && 0 <= j < |q[i].packets| ==> Genuine(es, q[i].packets[j]) && q[i].packets[j].id == q[i].streamId
  }

  /** Genuine outputs, each handed over by its own submission or by a later release. */
  ghost predicate Handed<P>(es: seq<Event<P>>, out: seq<Output<P>>) {
    forall k :: 0 <= k < |out| ==>
      && Genuine(es, out[k].entry) && out[k].event < |es|
      && (out[k].event == out[k].entry.tag || (es[out[k].event].Release? && out[k].entry.tag < out[k].event))
  }

  lemma FiledLater<P>(es: seq<Event<P>>, e: Event<P>, q: seq<Pending<Entry<P>>>, out: seq<Output<P>>)
    requires Filed(es, q) && Handed(es, out)
    ensures Filed(es + [e], q) && Handed(es + [e], out)
  {
  }

  lemma FiledStep<P>(l: Ledger<P>, timeout: nat, es: seq<Event<P>>, e: Event<P>)
    requires Filed(es, l.slot.pending) && Handed(es, l.out)
    ensures Filed(es + [e], Next(l, timeout, e, |es|).slot.pending)
    ensures Handed(es + [e], Next(l, timeout, e, |es|).out)
  {
    FiledLater(es, e, l.slot.pending, l.out);
    if e.Submit? {
      var i := BufferPlace(l.slot.pending, e.id, e.network, Entry(|es|, e.id, e.packet));
    }
  }

  lemma {:induction false} FiledAlways<P>(timeout: nat, es: seq<Event<P>>)
    ensures Filed(es, Play(timeout, es).slot.pending)
    ensures Handed(es, Play(timeout, es).out)
    decreases |es|
  {
    if es != [] {
      hide Next, Filed, Handed;
      var init, e := es[..|es| - 1], es[|es| - 1];
      assert es == init + [e];
      FiledAlways(timeout, init);
      FiledStep(Play(timeout, init), timeout, init, e);
    }
  }

  // ---------- Order within a stream ----------

  ghost predicate Increasing<P>(b: seq<Entry<P>>) {
    forall i, j :: 0 <= i < j < |b| ==> b[i].tag < b[j].tag
  }

  /** Everything of the stream that already left was submitted before everything in the buffer. */
  ghost predicate OlderThan<P>(out: seq<Output<P>>, p: Pending<Entry<P>>) {
    forall k, j :: 0 <= k < |out| && 0 <= j < |p.packets| && out[k].entry.id == p.streamId ==> out[k].entry.tag < p.packets[j].tag
  }

  /** Buffers are in submission order, and later than everything of their stream that already left. */
  ghost predicate QueueOrdered<P>(l: Ledger<P>) {
    forall i :: 0 <= i < |l.slot.pending| ==> Increasing(l.slot.pending[i].packets) && OlderThan(l.out, l.slot.pending[i])
  }

  /** What left is in submission order, stream by stream. */
  ghost predicate OutOrdered<P>(out: seq<Output<P>>) {
    forall a, b :: 0 <= a < b < |out| && out[a].entry.id == out[b].entry.id ==> out[a].entry.tag < out[b].entry.tag
  }

  lemma SubmitOrdered<P>(l: Ledger<P>, timeout: nat, es: seq<Event<P>>, e: Event<P>)
    requires e.Submit? && QueueOrdered(l) && OutOrdered(l.out)
    requires Shape(l.slot) && Filed(es, l.slot.pending) && Handed(es, l.out)
    ensures QueueOrdered(Next(l, timeout, e, |es|)) && OutOrdered(Next(l, timeout, e, |es|).out)
  {
    var x := Entry(|es|, e.id, e.packet);
    var l' := Next(l, timeout, e, |es|);
    if Passes(l.slot, timeout, e.id, e.now) {
      hide Buffered;
      FreeMeansEmpty(l.slot);
      assert l'.out == l.out + [Output(x, |es|)];
    } else {
      var i := BufferPlace(l.slot.pending, e.id, e.network, x);
      assert l'.out == l.out;
    }
  }

  lemma ReleaseOrdered<P>(l: Ledger<P>, timeout: nat, es: seq<Event<P>>, e: Event<P>)
    requires e.Release? && QueueOrdered(l) && OutOrdered(l.out)
    requires Shape(l.slot) && Filed(es, l.slot.pending) && Handed(es, l.out)
    ensures QueueOrdered(Next(l, timeout, e, |es|)) && OutOrdered(Next(l, timeout, e, |es|).out)
  {
    var l' := Next(l, timeout, e, |es|);
    if HandsOver(l.slot, e.id) {
      var q, back := l.slot.pending, l.slot.pending[0].packets;
      assert l'.slot.pending == q[1..];
      assert l'.out == l.out + Outputs(back, |es|);
      forall a, b | 0 <= a < b < |l'.out| && l'.out[a].entry.id == l'.out[b].entry.id
        ensures l'.out[a].entry.tag < l'.out[b].entry.tag
      {
        if b >= |l.out| {
          assert l'.out[b].entry == back[b - |l.out|];
          if a >= |l.out| {
            assert l'.out[a].entry == back[a - |l.out|];
          }
        }
      }
    }
  }

  /** Within a stream, packets are handed out in the order in which they were submitted. */
  lemma {:induction false} StreamOrder<P>(timeout: nat, es: seq<Event<P>>)
    ensures QueueOrdered(Play(timeout, es)) && OutOrdered(Play(timeout, es).out)
    decreases |es|
  {
    if es != [] {
      hide Next, Filed, Handed, Shape, QueueOrdered, OutOrdered;
      var init, e := es[..|es| - 1], es[|es| - 1];
      StreamOrder(timeout, init);
      ShapeAlways(timeout, init);
      FiledAlways(timeout, init);
      if e.Submit? {
        SubmitOrdered(Play(timeout, init), timeout, init, e);
      } else {
        ReleaseOrdered(Play(timeout, init), timeout, init, e);
      }
    }
  }

  // ---------- First come, first served ----------

  /** When each waiting stream submitted the packet that is first in its buffer. */
  function Firsts<P>(q: seq<Pending<Entry<P>>>): (f: seq<nat>)
    ensures |f| == |q|
  {
    seq(|q|, i requires 0 <= i < |q| => if q[i].packets == [] then 0 else q[i].packets[0].tag)
  }

  ghost predicate Ascending(s: seq<nat>, bound: nat) {
    && (forall a, b :: 0 <= a < b < |s| ==> s[a] < s[b])
    && (forall a :: 0 <= a < |s| ==> s[a] < bound)
  }

  /** The streams served so far, then the streams waiting, all in the order of their first packets. */
  ghost predicate Fifo<P>(l: Ledger<P>, n: nat) {
    Ascending(l.batches + Firsts(l.slot.pending), n)
  }

  lemma FirstsBuffered<P>(q: seq<Pending<Entry<P>>>, id: nat, network: string, x: Entry<P>)
    requires forall i :: 0 <= i < |q| ==> q[i].packets != []
    ensures var f := Firsts(Buffered(q, id, network, x)); f == Firsts(q) || f == Firsts(q) + [x.tag]
  {
    hide Buffered;
    var i := BufferPlace(q, id, network, x);
    assert Firsts(Buffered(q, id, network, x)) == if i == |q| then Firsts(q) + [x.tag] else Firsts(q);
  }

  lemma AscendingOn(s: seq<nat>, n: nat, k: nat)
    requires Ascending(s, n) && k <= |s|
    ensures Ascending(s, n + 1) && Ascending(s + [n], n + 1) && Ascending(s[..k], n + 1)
  {
  }

  lemma SubmitFifo<P>(l: Ledger<P>, timeout: nat, e: Event<P>, n: nat)
    requires e.Submit? && Shape(l.slot) && Fifo(l, n)
    ensures Fifo(Next(l, timeout, e, n), n + 1)
  {
    hide Buffered, Ascending;
    var q, x := l.slot.pending, Entry(n, e.id, e.packet);
    FirstsBuffered(q, e.id, e.network, x);
    AscendingOn(l.batches + Firsts(q), n, |l.batches|);
    assert l.batches + (Firsts(q) + [n]) == l.batches + Firsts(q) + [n];
    assert l.batches + Firsts<P>([]) == (l.batches + Firsts(q))[..|l.batches|];
  }

  lemma ReleaseFifo<P>(l: Ledger<P>, timeout: nat, e: Event<P>, n: nat)
    requires e.Release? && Shape(l.slot) && Fifo(l, n)
    ensures Fifo(Next(l, timeout, e, n), n + 1)
  {
    hide Ascending;
    AscendingOn(l.batches + Firsts(l.slot.pending), n, 0);
    if HandsOver(l.slot, e.id) {
      var q := l.slot.pending;
      assert q[0].packets != [];
      assert l.batches + [Firsts(q)[0]] + Firsts(q[1..]) == l.batches + Firsts(q);
    }
  }

  /** Waiting streams are served in the order in which they began to wait. */
  lemma {:induction false} FirstComeFirstServed<P>(timeout: nat, es: seq<Event<P>>)
    ensures Fifo(Play(timeout, es), |es|)
    decreases |es|
  {
    if es != [] {
      hide Next, Shape, Fifo;
      var n := |es| - 1;
      FirstComeFirstServed(timeout, es[..n]);
      ShapeAlways(timeout, es[..n]);
      if es[n].Submit? {
        SubmitFifo(Play(timeout, es[..n]), timeout, es[n], n);
      } else {
        ReleaseFifo(Play(timeout, es[..n]), timeout, es[n], n);
      }
    }
  }
}
