/**
  What both directions of the translator share: 32-bit id counters that skip 0, maps of aliases that
  lead to stream objects, and the log of what was sent on each object.
 */
module Streams {

  // ---------- Ids ----------

  const WORD32: nat := 0x1_0000_0000

  /** One more than the last id; a counter that comes to 0 goes to 1. */
  function Successor(last: nat): nat {
    var id := (last + 1) % WORD32;
    if id == 0 then 1 else id
  }

  /** The n-th id: 1, 2, and so on, back to 1 after 2^32 - 1 of them. */
  function NthId(n: nat): nat {
    1 + n % (WORD32 - 1)
  }

  function LastOf(n: nat): nat {
    if n == 0 then 0 else NthId(n - 1)
  }

  lemma NthSuccessor(n: nat)
    ensures Successor(LastOf(n)) == NthId(n)
  {
  }

  /** Two ids differ until the counter comes round. */
  lemma IdsDiffer(g: nat, h: nat)
    requires g < WORD32 - 1 && h < WORD32 - 1
    ensures NthId(g) == NthId(h) ==> g == h
  {
  }

  // ---------- Aliases ----------

  function WithoutAliases(aliases: map<nat, nat>, h: nat): map<nat, nat> {
    map k | k in aliases && aliases[k] != h :: aliases[k]
  }

  lemma ClosedLive(aliases: map<nat, nat>, h: nat, g: nat)
    ensures g in WithoutAliases(aliases, h).Values <==> g != h && g in aliases.Values
  {
    if g != h && g in aliases.Values {
      var k :| k in aliases && aliases[k] == g;
      assert WithoutAliases(aliases, h)[k] == g;
    }
  }

  lemma Fewer(aliases: map<nat, nat>, h: nat)
    ensures forall a :: a in WithoutAliases(aliases, h) ==> a in aliases && WithoutAliases(aliases, h)[a] == aliases[a]
  {
  }

  /** Deletes every alias of a stream object. */
  method RemoveAliases(aliases: map<nat, nat>, h: nat) returns (rest: map<nat, nat>)
    ensures rest == WithoutAliases(aliases, h)
  {
    rest := aliases;
    var todo := aliases.Keys;
    while todo != {}
      invariant todo <= aliases.Keys
      invariant forall k :: k in rest <==> k in aliases && (aliases[k] != h || k in todo)
      invariant forall k :: k in rest ==> rest[k] == aliases[k]
      decreases |todo|
    {
      var k :| k in todo;
      if rest[k] == h {
        rest := rest - {k};
      }
      todo := todo - {k};
    }
    assert rest == WithoutAliases(aliases, h);
  }

  // ---------- What was sent ----------

  /** A packet with the stream object it was made on. */
  datatype Emission<+T> = Emission(stream: nat, packet: T)

  /** The packets of one stream object. */
  function Of<T>(log: seq<Emission<T>>, h: nat): seq<T> {
    if log == [] then []
    else
      var rest, last := Of(log[..|log| - 1], h), log[|log| - 1];
      if last.stream == h then rest + [last.packet] else rest
  }

  lemma {:induction false} NoneOf<T>(log: seq<Emission<T>>, h: nat)
    requires forall i :: 0 <= i < |log| ==> log[i].stream != h
    ensures Of(log, h) == []
  {
    if log != [] {
      NoneOf(log[..|log| - 1], h);
    }
  }

  lemma OfAppend<T>(log: seq<Emission<T>>, e: Emission<T>, h: nat)
    ensures Of(log + [e], h) == if e.stream == h then Of(log, h) + [e.packet] else Of(log, h)
  {
    assert (log + [e])[..|log|] == log;
  }

  lemma {:induction false} EachOf<T>(log: seq<Emission<T>>, i: nat)
    requires i < |log|
    ensures log[i].packet in Of(log, log[i].stream)
  {
    var n := |log| - 1;
    if i < n {
      EachOf(log[..n], i);
    }
  }

  /** The packets whose id, read off the packet, is the given one. */
  function Carrying<T>(log: seq<Emission<T>>, ids: seq<nat>, id: nat): seq<T>
    requires |ids| == |log|
  {
    if log == [] then []
    else
      var n := |log| - 1;
      var rest := Carrying(log[..n], ids[..n], id);
      if ids[n] == id then rest + [log[n].packet] else rest
  }

  /** While ids are distinct, the packets that carry an id are those of one stream object. */
  lemma {:induction false} CarryingIsOf<T>(log: seq<Emission<T>>, ids: seq<nat>, h: nat)
    requires |ids| == |log| && h < WORD32 - 1
    requires forall i :: 0 <= i < |log| ==> log[i].stream < WORD32 - 1 && ids[i] == NthId(log[i].stream)
    ensures Carrying(log, ids, NthId(h)) == Of(log, h)
  {
    if log != [] {
      var n := |log| - 1;
      CarryingIsOf(log[..n], ids[..n], h);
      IdsDiffer(log[n].stream, h);
    }
  }

  lemma {:induction false} CarryingNone<T>(log: seq<Emission<T>>, ids: seq<nat>, id: nat)
    requires |ids| == |log| && forall i :: 0 <= i < |log| ==> ids[i] != id
    ensures Carrying(log, ids, id) == []
  {
    if log != [] {
      CarryingNone(log[..|log| - 1], ids[..|log| - 1], id);
    }
  }
}
