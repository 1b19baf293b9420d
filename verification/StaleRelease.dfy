/** A run of three clients in which a late release takes the slot from a stream that has not ended. */
module StaleRelease {
  import opened Options
  import opened Dmrd
  import opened Timeslot
  import opened MmdvmClient
  import opened Arbitration
  import opened Turns

  /** A packet of a stream on slot 1. */
  function Of(stream: nat, terminator: bool): Packet {
    Packet(0, 1, 2, 3, false, true, if terminator then 2 else 0, if terminator then 2 else 0, stream, [])
  }

  function Busy(id: nat, network: string, q: Queue): Slot<Packet> {
    Slot(Some(ActiveCall(id, network, 0)), q)
  }

  function DrainsWith(d: map<string, nat>, n: string, p: Packet): map<string, nat> {
    if IsTerminator(p) then d[n := p.streamId] else d
  }

  lemma FreePasses(d: map<string, nat>, g: seq<Grant>, timeout: nat, p: Packet, n: string)
    requires n !in d
    ensures Step(World(Slot(None, []), d, g), timeout, Submission(n, p, 0))
         == World(Busy(p.streamId, n, []), DrainsWith(d, n, p), g + [Grant(p, 0)])
  {
  }

  lemma OwnPasses(d: map<string, nat>, g: seq<Grant>, timeout: nat, p: Packet, holder: string, n: string)
    requires n !in d
    ensures Step(World(Busy(p.streamId, holder, []), d, g), timeout, Submission(n, p, 0))
         == World(Busy(p.streamId, holder, []), DrainsWith(d, n, p), g + [Grant(p, 0)])
  {
  }

  lemma OtherWaits(d: map<string, nat>, g: seq<Grant>, timeout: nat, id: nat, holder: string, p: Packet, n: string)
    requires p.streamId != id && n !in d
    ensures Step(World(Busy(id, holder, []), d, g), timeout, Submission(n, p, 0))
         == World(Busy(id, holder, [Pending(p.streamId, n, [p])]), d, g)
  {
  }

  lemma LastReleased(d: map<string, nat>, g: seq<Grant>, timeout: nat, id: nat, holder: string, n: string)
    requires n in d && d[n] == id
    ensures Step(World(Busy(id, holder, []), d, g), timeout, Drain(n, 0)) == World(Slot(None, []), d - {n}, g)
  {
    NothingReturned(World(Busy(id, holder, []), d, g), n, 0);
  }

  lemma WaitingReleased(d: map<string, nat>, g: seq<Grant>, timeout: nat, id: nat, holder: string, n: string, p: Packet, m: string)
    requires n in d && d[n] == id
    ensures Step(World(Busy(id, holder, [Pending(p.streamId, m, [p])]), d, g), timeout, Drain(n, 0)).granted == g + [Grant(p, 0)]
  {
    assert Grants([p], 0) == [Grant(p, 0)];
  }

  lemma RunOn(timeout: nat, cs: seq<Call>, c: Call)
    ensures Run(timeout, cs + [c]) == Step(Run(timeout, cs), timeout, c)
  {
    assert (cs + [c])[..|cs|] == cs;
  }

  /** Two clients end stream 7, and the first of them drains; then client c has a turn with stream 8. */
  function TwoEndings(): seq<Call> {
    [Submission("a", Of(7, true), 0)] + [Submission("b", Of(7, true), 0)] + [Drain("a", 0)] +
    [Submission("c", Of(8, true), 0)] + [Drain("c", 0)]
  }

  lemma FirstEnding(timeout: nat)
    ensures Run(timeout, [Submission("a", Of(7, true), 0)])
         == World(Busy(7, "a", []), map["a" := 7], [Grant(Of(7, true), 0)])
  {
    assert Run(timeout, []) == START;
    hide Step, Run;
    var p := Of(7, true);
    RunOn(timeout, [], Submission("a", p, 0));
    FreePasses(map[], [], timeout, p, "a");
    assert [] + [Submission("a", p, 0)] == [Submission("a", p, 0)] && [] + [Grant(p, 0)] == [Grant(p, 0)];
  }

  lemma EndedTwice(timeout: nat)
    ensures var g := Grant(Of(7, true), 0);
      Run(timeout, [Submission("a", Of(7, true), 0)] + [Submission("b", Of(7, true), 0)] + [Drain("a", 0)])
      == World(Slot(None, []), map["b" := 7], [g] + [g])
  {
    hide Step, Run;
    var p := Of(7, true);
    var c1 := [Submission("a", p, 0)];
    var c2 := c1 + [Submission("b", p, 0)];
    FirstEnding(timeout);
    RunOn(timeout, c1, Submission("b", p, 0));
    OwnPasses(map["a" := 7], [Grant(p, 0)], timeout, p, "a", "b");
    RunOn(timeout, c2, Drain("a", 0));
    LastReleased(map["a" := 7, "b" := 7], [Grant(p, 0)] + [Grant(p, 0)], timeout, 7, "a", "a");
    assert map["a" := 7, "b" := 7] - {"a"} == map["b" := 7];
  }

  lemma AfterTwoEndings(timeout: nat)
    ensures var ga, gc := Grant(Of(7, true), 0), Grant(Of(8, true), 0);
      Run(timeout, TwoEndings()) == World(Slot(None, []), map["b" := 7], [ga] + [ga] + [gc])
  {
    hide Step, Run;
    var g, p := Grant(Of(7, true), 0), Of(8, true);
    var c3 := [Submission("a", Of(7, true), 0)] + [Submission("b", Of(7, true), 0)] + [Drain("a", 0)];
    var c4 := c3 + [Submission("c", p, 0)];
    EndedTwice(timeout);
    RunOn(timeout, c3, Submission("c", p, 0));
    FreePasses(map["b" := 7], [g] + [g], timeout, p, "c");
    RunOn(timeout, c4, Drain("c", 0));
    LastReleased(map["b" := 7, "c" := 8], [g] + [g] + [Grant(p, 0)], timeout, 8, "c", "c");
    assert map["b" := 7, "c" := 8] - {"c"} == map["b" := 7];
  }

  /**
    Without any such condition the terminator may be an old one: client b, slow to release stream 7, does so when client a
    speaks on that stream again and has not ended, and the slot goes to stream 9.
   */
  lemma StaleDrain(timeout: nat)
    ensures var calls := TwoEndings() + [Submission("a", Of(7, false), 0)] + [Submission("c", Of(9, false), 0)] + [Drain("b", 0)];
      !OrderlyTurns(Run(timeout, calls).granted, timeout)
  {
    hide Step, Run, TwoEndings;
    var v, c := Of(7, false), Of(9, false);
    var log := [Grant(Of(7, true), 0)] + [Grant(Of(7, true), 0)] + [Grant(Of(8, true), 0)];
    var c1 := TwoEndings() + [Submission("a", v, 0)];
    var c2 := c1 + [Submission("c", c, 0)];
    AfterTwoEndings(timeout);
    RunOn(timeout, TwoEndings(), Submission("a", v, 0));
    FreePasses(map["b" := 7], log, timeout, v, "a");
    RunOn(timeout, c1, Submission("c", c, 0));
    OtherWaits(map["b" := 7], log + [Grant(v, 0)], timeout, 7, "a", c, "c");
    RunOn(timeout, c2, Drain("b", 0));
    WaitingReleased(map["b" := 7], log + [Grant(v, 0)], timeout, 7, "a", "b", c, "c");
    var g := log + [Grant(v, 0)] + [Grant(c, 0)];
    assert Run(timeout, c2 + [Drain("b", 0)]).granted == g;
    assert StreamAt(g, 2) == 8 && StreamAt(g, 3) == 7 && StreamAt(g, 4) == 9 && !IsTerminator(g[3].packet);
    assert !EndedTurn(g, 4);
    assert !MayFollow(g, 4, timeout);
  }
}
