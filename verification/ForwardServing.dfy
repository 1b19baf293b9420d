/** Which stream serves each packet to a repeater, read off the packets before it, in every run that obeys the search. */
module ForwardServing {
  import opened Dmrd
  import opened ForwardTranslator
  import opened Streams
  import opened ForwardTheorems

  /** The event is one that the translator's search may bring about. */
  ghost predicate Obeys(s: State, e: Event) {
    Acts(s, e) && (e.input.packet.streamId in s.aliases || LegalFind(s, e.input.packet, e.now, e.found))
  }

  /** A packet that the translator takes. */
  predicate Taken(e: Event) {
    e.Translate? && e.input.packet.streamId < 0x1_0000_0000
  }

  ghost predicate Searched(es: seq<Event>) {
    forall i: nat :: i < |es| && Taken(es[i]) ==> Obeys(Final(es[..i]), es[i])
  }

  // ---------- What the run shows ----------

  /** Event i was served by stream h. */
  ghost predicate Serves(es: seq<Event>, i: nat, h: nat)
    requires i < |es|
  {
    Taken(es[i]) && Server(Final(es[..i]), es[i].input.packet, es[i].found) == h
  }

  /** A terminator. */
  predicate Closes(e: Event) {
    e.Translate? && e.input.packet.frameType == 2 && e.input.packet.dtypeOrVSeq == 2
  }

  /**
    After n events the stream id leads to stream h: a packet with it was served by h, h has not ended from then on, and the
    id was not forgotten since.
   */
  ghost predicate Leads(es: seq<Event>, n: nat, key: nat, h: nat)
    requires n <= |es|
  {
    exists i: nat :: i < n && LeadsSince(es, n, key, h, i)
  }

  ghost predicate LeadsSince(es: seq<Event>, n: nat, key: nat, h: nat, i: nat)
    requires i < n <= |es|
  {
    && Serves(es, i, h) && es[i].input.packet.streamId == key
    && (forall m: nat :: i <= m < n && Closes(es[m]) ==> !Serves(es, m, h))
    && (forall m: nat :: i < m < n ==> es[m] != Cleanup(key))
  }

  /** Event i is the first, or the last of n, that stream h served. */
  ghost predicate FirstServed(es: seq<Event>, h: nat, i: nat) {
    i < |es| && Serves(es, i, h) && forall m: nat :: m < i ==> !Serves(es, m, h)
  }

  ghost predicate LastServed(es: seq<Event>, n: nat, h: nat, i: nat)
    requires n <= |es|
  {
    i < n && Serves(es, i, h) && forall m: nat :: i < m < n ==> !Serves(es, m, h)
  }

  // ---------- The state is the history ----------

  ghost predicate AliasesLead(es: seq<Event>, n: nat, s: State)
    requires n <= |es|
  {
    forall key, h :: Leads(es, n, key, h) <==> key in s.aliases && s.aliases[key] == h
  }

  /** The stream has the addresses, call type and slot of the packet, and was last seen with it. */
  predicate SeenWith(st: Stream, e: Event) {
    && e.Translate? && st.src == e.input.packet.src && st.dst == e.input.packet.dst
    && st.groupCall == e.input.packet.groupCall && st.slot == e.input.packet.slot && st.lastSeen == e.now
  }

  ghost predicate Remembers(es: seq<Event>, n: nat, h: nat, st: Stream)
    requires n <= |es|
  {
    exists i: nat :: LastServed(es, n, h, i) && SeenWith(st, es[i])
  }

  ghost predicate Remembered(es: seq<Event>, n: nat, s: State)
    requires n <= |es|
  {
    && (forall h: nat :: h < |s.streams| ==> Remembers(es, n, h, s.streams[h]))
    && (forall h: nat, i: nat :: i < n && Serves(es, i, h) ==> h < |s.streams|)
  }

  lemma StepIs(es: seq<Event>, n: nat)
    requires n < |es|
    ensures Final(es[..n + 1]) == After(Final(es[..n]), es[n])
  {
    assert es[..n + 1][..n] == es[..n];
  }

  lemma ServesIff(es: seq<Event>, n: nat, h: nat)
    requires n < |es|
    ensures Serves(es, n, h) <==> Taken(es[n]) && h == Server(Final(es[..n]), es[n].input.packet, es[n].found)
  {
  }

  lemma LeadsOn(es: seq<Event>, n: nat, key: nat, h: nat)
    requires n < |es|
    ensures Leads(es, n + 1, key, h) <==>
      && (Leads(es, n, key, h) || (Serves(es, n, h) && es[n].input.packet.streamId == key))
      && !(Serves(es, n, h) && Closes(es[n])) && es[n] != Cleanup(key)
  {
    hide Final, Server, Closes;
    if Leads(es, n + 1, key, h) {
      var i: nat :| i < n + 1 && LeadsSince(es, n + 1, key, h, i);
      if i < n {
        assert LeadsSince(es, n, key, h, i);
      }
    }
    if !(Serves(es, n, h) && Closes(es[n])) && es[n] != Cleanup(key) {
      if Leads(es, n, key, h) {
        var i: nat :| i < n && LeadsSince(es, n, key, h, i);
        assert LeadsSince(es, n + 1, key, h, i);
      }
      if Serves(es, n, h) && es[n].input.packet.streamId == key {
        assert LeadsSince(es, n + 1, key, h, n);
      }
    }
  }

  /** The aliases after one packet. */
  lemma AliasesOn(s: State, e: Event, key: nat, h: nat)
    requires Acts(s, e)
    ensures var s', g := After(s, e), Server(s, e.input.packet, e.found);
      (key in s'.aliases && s'.aliases[key] == h) <==>
      && ((key in s.aliases && s.aliases[key] == h) || (g == h && e.input.packet.streamId == key))
      && !(g == h && Closes(e))
  {
    hide Advanced, NewStream, Touched;
    ServerInRange(s, e.input, e.now, e.found);
  }

  lemma {:induction false} AliasesAlways(es: seq<Event>, n: nat)
    requires Searched(es) && n <= |es|
    ensures AliasesLead(es, n, Final(es[..n]))
  {
    if n > 0 {
      var s, e := Final(es[..n - 1]), es[n - 1];
      AliasesAlways(es, n - 1);
      StepIs(es, n - 1);
      hide Leads, Next, Server, Closes, Final;
      forall key: nat, h: nat
        ensures Leads(es, n, key, h) <==> key in Final(es[..n]).aliases && Final(es[..n]).aliases[key] == h
      {
        LeadsOn(es, n - 1, key, h);
        if Taken(e) {
          AliasesOn(s, e, key, h);
        }
      }
    }
  }

  /** One packet touches its own stream only. */
  lemma StreamsOn(s: State, e: Event, h: nat)
    requires Acts(s, e)
    ensures var s', g := After(s, e), Server(s, e.input.packet, e.found);
      && g <= |s.streams| && |s'.streams| == (if g == |s.streams| then |s.streams| + 1 else |s.streams|)
      && s'.lastCall == (if g == |s.streams| then Successor(s.lastCall) else s.lastCall)
      && (h < |s.streams| && h != g ==> s'.streams[h] == s.streams[h])
      && SeenWith(s'.streams[g], e)
  {
    hide KindOf, WithoutAliases, RtpCounted, IpscCounted, NextBurst;
    ServerInRange(s, e.input, e.now, e.found);
    AdvancedSeen(Serving(s, e.input, e.now, e.found), e.input);
    if e.found.Some? {
      var k :| k in s.aliases && s.aliases[k] == e.found.value;
    }
  }

  lemma AdvancedSeen(st: Stream, i: Input)
    ensures var st' := Advanced(st, i);
      && st'.src == st.src && st'.dst == st.dst && st'.groupCall == st.groupCall && st'.slot == st.slot && st'.lastSeen == st.lastSeen
  {
  }

  lemma LastOn(es: seq<Event>, n: nat, h: nat)
    requires n < |es|
    ensures Serves(es, n, h) ==> LastServed(es, n + 1, h, n)
    ensures !Serves(es, n, h) ==> forall i: nat :: LastServed(es, n, h, i) ==> LastServed(es, n + 1, h, i)
  {
    hide Serves;
  }

  lemma RemembersIt(es: seq<Event>, n: nat, s: State, h: nat)
    requires n <= |es| && Remembered(es, n, s) && h < |s.streams|
    ensures Remembers(es, n, h, s.streams[h])
  {
  }

  lemma NotServed(es: seq<Event>, n: nat, h: nat, st: Stream)
    requires n < |es| && Remembers(es, n, h, st) && !Serves(es, n, h)
    ensures Remembers(es, n + 1, h, st)
  {
    hide Serves, SeenWith, LastServed;
    LastOn(es, n, h);
  }

  lemma ServedEarlier(es: seq<Event>, n: nat, s: State, i: nat, h: nat)
    requires n <= |es| && Remembered(es, n, s) && i < n && Serves(es, i, h)
    ensures h < |s.streams|
  {
  }

  lemma RemembersOn(es: seq<Event>, n: nat, s: State, s': State, h: nat)
    requires n < |es| && Taken(es[n]) && s == Final(es[..n]) && Remembered(es, n, s)
    requires Acts(s, es[n]) && s' == After(s, es[n]) && h < |s'.streams|
    ensures Remembers(es, n + 1, h, s'.streams[h])
  {
    hide Serves, Final, After, Server, SeenWith, LastServed, LegalServer, Remembered;
    ServesIff(es, n, h);
    StreamsOn(s, es[n], h);
    if Serves(es, n, h) {
      LastOn(es, n, h);
    } else {
      RemembersIt(es, n, s, h);
      NotServed(es, n, h, s.streams[h]);
    }
  }

  lemma RememberedOn(es: seq<Event>, n: nat, s: State, s': State)
    requires n < |es| && Taken(es[n]) && s == Final(es[..n]) && Remembered(es, n, s)
    requires Acts(s, es[n]) && s' == After(s, es[n])
    ensures Remembered(es, n + 1, s')
  {
    hide Final, After, Server, Remembers, Serves, LegalServer, Remembered;
    StreamsOn(s, es[n], 0);
    forall h: nat | h < |s'.streams|
      ensures Remembers(es, n + 1, h, s'.streams[h])
    {
      RemembersOn(es, n, s, s', h);
    }
    forall h: nat, i: nat | i < n + 1 && Serves(es, i, h)
      ensures h < |s'.streams|
    {
      if i < n {
        ServedEarlier(es, n, s, i, h);
      } else {
        ServesIff(es, n, h);
      }
    }
    Collected(es, n + 1, s');
  }

  lemma Collected(es: seq<Event>, n: nat, s: State)
    requires n <= |es| && forall h: nat :: h < |s.streams| ==> Remembers(es, n, h, s.streams[h])
    requires forall h: nat, i: nat :: i < n && Serves(es, i, h) ==> h < |s.streams|
    ensures Remembered(es, n, s)
  {
  }

  lemma RememberedSkip(es: seq<Event>, n: nat, s: State, s': State)
    requires n < |es| && !Taken(es[n]) && Remembered(es, n, s) && s'.streams == s.streams
    ensures Remembered(es, n + 1, s')
  {
    assert forall h :: !Serves(es, n, h);
    hide Remembers, Serves;
    forall h: nat | h < |s.streams|
      ensures Remembers(es, n + 1, h, s.streams[h])
    {
      NotServed(es, n, h, s.streams[h]);
    }
    forall h: nat, i: nat | i < n + 1 && Serves(es, i, h)
      ensures h < |s.streams|
    {
      ServedEarlier(es, n, s, i, h);
    }
  }

  /** In every run, a stream has the addresses of the last packet it served, and was last seen with it. */
  lemma {:induction false} RememberedAlways(es: seq<Event>, n: nat)
    requires Searched(es) && n <= |es|
    ensures Remembered(es, n, Final(es[..n]))
  {
    if n > 0 {
      RememberedAlways(es, n - 1);
      StepIs(es, n - 1);
      hide Next, Remembered;
      if Taken(es[n - 1]) {
        RememberedOn(es, n - 1, Final(es[..n - 1]), Final(es[..n]));
      } else {
        RememberedSkip(es, n - 1, Final(es[..n - 1]), Final(es[..n]));
      }
    }
  }

  // ---------- The search ----------

  /**
    A stream id leads to stream g, and the last packet that g served came at most 8000 ms before event n, with the same
    source, destination, call type and slot.
   */
  ghost predicate Continues(es: seq<Event>, n: nat, g: nat)
    requires n < |es| && es[n].Translate?
  {
    && (exists key :: Leads(es, n, key, g))
    && (exists i: nat :: LastServed(es, n, g, i) && es[i].now != 0 && es[n].now - es[i].now <= 8000
          && SameParties(es[i].input.packet, es[n].input.packet))
  }

  predicate SameParties(p: Packet, q: Packet) {
    p.src == q.src && p.dst == q.dst && p.groupCall == q.groupCall && p.slot == q.slot
  }

  lemma OneLast(es: seq<Event>, n: nat, g: nat, i: nat, j: nat)
    requires n <= |es| && LastServed(es, n, g, i) && LastServed(es, n, g, j)
    ensures i == j
  {
    hide Serves;
  }

  lemma SearchIff(es: seq<Event>, n: nat, g: nat)
    requires Searched(es) && n < |es| && es[n].Translate?
    ensures var s := Final(es[..n]);
      g < |s.streams| ==> (Continues(es, n, g) <==> Live(s, g) && SameRoute(s.streams[g], es[n].input.packet, es[n].now))
  {
    var s := Final(es[..n]);
    AliasesAlways(es, n);
    RememberedAlways(es, n);
    hide Leads, Final, Searched, Serves;
    if g < |s.streams| {
      assert Remembers(es, n, g, s.streams[g]);
      var i: nat :| LastServed(es, n, g, i) && SeenWith(s.streams[g], es[i]);
      forall j: nat | LastServed(es, n, g, j)
        ensures j == i
      {
        OneLast(es, n, g, i, j);
      }
      if Live(s, g) {
        var k :| k in s.aliases && s.aliases[k] == g;
        assert Leads(es, n, k, g);
      }
    }
  }

  lemma FirstIff(es: seq<Event>, n: nat, h: nat, s: State)
    requires n < |es| && Remembered(es, n, s) && Serves(es, n, h)
    ensures FirstServed(es, h, n) <==> h >= |s.streams|
  {
    hide Serves;
    if h < |s.streams| {
      assert Remembers(es, n, h, s.streams[h]);
    }
  }

  /**
    Which stream serves a packet, in every run. The one that its stream id leads to; failing that, for voice, a stream that
    the packet continues; failing that, a new one, and only then is a new call control given out.
   */
  lemma ServedIff(es: seq<Event>, n: nat, h: nat)
    requires Searched(es) && n < |es| && Serves(es, n, h)
    ensures var p := es[n].input.packet;
      if exists g :: Leads(es, n, p.streamId, g) then Leads(es, n, p.streamId, h)
      else if (p.frameType == 0 || p.frameType == 1) && exists g :: Continues(es, n, g) then Continues(es, n, h)
      else FirstServed(es, h, n)
    ensures var before, after := Final(es[..n]), Final(es[..n + 1]);
      if FirstServed(es, h, n)
      then h == |before.streams| && |after.streams| == h + 1 && after.lastCall == Successor(before.lastCall)
      else h < |before.streams| == |after.streams| && after.lastCall == before.lastCall
  {
    var s, p, now, found := Final(es[..n]), es[n].input.packet, es[n].now, es[n].found;
    assert h == Server(s, p, found) && Obeys(s, es[n]);
    AliasesAlways(es, n);
    RememberedAlways(es, n);
    StepIs(es, n);
    StreamsOn(s, es[n], h);
    FirstIff(es, n, h, s);
    forall g: nat | g < |s.streams|
      ensures Continues(es, n, g) <==> Live(s, g) && SameRoute(s.streams[g], p, now)
    {
      SearchIff(es, n, g);
    }
    hide Final, Next, Leads, SameRoute, FirstServed, Serves, Searched, Remembered;
    if p.streamId in s.aliases {
      assert Leads(es, n, p.streamId, s.aliases[p.streamId]);
    } else {
      assert forall g :: !Leads(es, n, p.streamId, g);
    }
  }
}
