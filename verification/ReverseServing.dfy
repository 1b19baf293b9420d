/** Which stream serves each frame from a repeater, read off the frames before it, in every run that obeys the search. */
module ReverseServing {
  import opened Options
  import opened LinkControl
  import opened IpscHeader
  import opened ReverseTranslator
  import opened Streams
  import opened ReverseTheorems

  /** The event is one that the translator's search may bring about. */
  ghost predicate Obeys(s: State, e: Event) {
    Acts(s, e) && (CallControlIn(e.frame.data) in s.aliases || LegalFind(s, e.frame, e.now, e.found))
  }

  /** Frames that are not translated change nothing; all others obey the search. */
  ghost predicate Searched(es: seq<Event>) {
    forall i: nat :: i < |es| && Translatable(es[i].frame) ==> Obeys(Final(es[..i]), es[i])
  }

  // ---------- What the run shows ----------

  /** Event i was served by stream h. */
  ghost predicate Serves(es: seq<Event>, i: nat, h: nat)
    requires i < |es|
  {
    Translatable(es[i].frame) && Server(Final(es[..i]), es[i].frame, es[i].found) == h
  }

  /** A terminator with the end flag. */
  predicate Closes(f: Frame) {
    |f.data| >= 31 && f.data[30] == 0x02 && EndIn(f.data)
  }

  /** After n events the call control leads to stream h: a frame with it was served by h, which has not ended from then on. */
  ghost predicate Leads(es: seq<Event>, n: nat, key: nat, h: nat)
    requires n <= |es|
  {
    exists i: nat :: i < n && LeadsSince(es, n, key, h, i)
  }

  ghost predicate LeadsSince(es: seq<Event>, n: nat, key: nat, h: nat, i: nat)
    requires i < n <= |es|
  {
    && Serves(es, i, h) && CallControlIn(es[i].frame.data) == key
    && forall m: nat :: i <= m < n && Closes(es[m].frame) ==> !Serves(es, m, h)
  }

  /** Event i is the first, or the last of n, that stream h served. */
  ghost predicate FirstServed(es: seq<Event>, h: nat, i: nat) {
    i < |es| && Serves(es, i, h) && forall m: nat :: m < i ==> !Serves(es, m, h)
  }

  ghost predicate LastServed(es: seq<Event>, n: nat, h: nat, i: nat)
    requires n <= |es|
  {
    i < n && Serves(es, i, h) && forall m: nat :: i < m < n ==> !Serves(es, m, h)
  }

  /** Source and destination of a frame: those of a link control that decodes, or else of the header. */
  function Addresses(f: Frame): (Id, Id)
    requires |f.data| >= 31
  {
    if |f.data| >= 50 && (f.data[30] == 0x01 || f.data[30] == 0x02) && f.recovered.Some? then f.recovered.value
    else (IdOf(f.data[6..9]), IdOf(f.data[9..12]))
  }

  predicate IsGroup(f: Frame) {
    f.packetType == 0x80 || f.packetType == 0x83
  }

  // ---------- The state is the history ----------

  ghost predicate AliasesLead(es: seq<Event>, n: nat, s: State)
    requires n <= |es|
  {
    forall key, h :: Leads(es, n, key, h) <==> key in s.aliases && s.aliases[key] == h
  }

  /** The stream has the addresses, peer, call type and slot of the frame. */
  predicate OpenedBy(st: Stream, f: Frame) {
    && Translatable(f) && (st.src, st.dst) == Addresses(f) && st.peerId == PeerIn(f.data)
    && st.groupCall == IsGroup(f) && st.slot == SlotIn(f.data)
  }

  /** A stream was opened by the first frame it served, and was last seen with the last. */
  ghost predicate Remembers(es: seq<Event>, n: nat, h: nat, st: Stream)
    requires n <= |es|
  {
    && (exists i: nat :: i < n && FirstServed(es, h, i) && OpenedBy(st, es[i].frame))
    && (exists i: nat :: LastServed(es, n, h, i) && st.lastSeen == es[i].now)
  }

  ghost predicate Remembered(es: seq<Event>, n: nat, s: State)
    requires n <= |es|
  {
    && (forall h: nat :: h < |s.streams| ==> Remembers(es, n, h, s.streams[h]))
    && (forall h: nat, i: nat :: i < n && Serves(es, i, h) ==> h < |s.streams|)
  }

  lemma StepIs(es: seq<Event>, n: nat)
    requires n < |es|
    ensures Final(es[..n + 1]) ==
      (if Acts(Final(es[..n]), es[n]) then Next(Final(es[..n]), es[n].frame, es[n].now, es[n].found) else Final(es[..n]))
  {
    assert es[..n + 1][..n] == es[..n];
  }

  lemma ServedTranslatable(es: seq<Event>, i: nat, h: nat)
    requires i < |es| && Serves(es, i, h)
    ensures Translatable(es[i].frame)
  {
  }

  lemma LeadsOn(es: seq<Event>, n: nat, key: nat, h: nat)
    requires n < |es|
    ensures Leads(es, n + 1, key, h) <==>
      && (Leads(es, n, key, h) || (Serves(es, n, h) && CallControlIn(es[n].frame.data) == key))
      && !(Serves(es, n, h) && Closes(es[n].frame))
  {
    hide Serves, Closes, CallControlIn;
    if Leads(es, n + 1, key, h) {
      var i: nat :| i < n + 1 && LeadsSince(es, n + 1, key, h, i);
      if i < n {
        assert LeadsSince(es, n, key, h, i);
      }
    }
    if !(Serves(es, n, h) && Closes(es[n].frame)) {
      if Leads(es, n, key, h) {
        var i: nat :| i < n && LeadsSince(es, n, key, h, i);
        assert LeadsSince(es, n + 1, key, h, i);
      }
      if Serves(es, n, h) {
        ServedTranslatable(es, n, h);
        assert CallControlIn(es[n].frame.data) == key ==> LeadsSince(es, n + 1, key, h, n);
      }
    }
  }

  /** The aliases after one frame. */
  lemma AliasesOn(s: State, f: Frame, now: nat, found: Option<nat>, key: nat, h: nat)
    requires LegalServer(s, f, found)
    ensures var s', g := Next(s, f, now, found), Server(s, f, found);
      (key in s'.aliases && s'.aliases[key] == h) <==>
      && ((key in s.aliases && s.aliases[key] == h) || (g == h && CallControlIn(f.data) == key))
      && !(g == h && Closes(f))
  {
    hide CallControlIn, EndIn, Advanced, NewStream;
    ServerInRange(s, f, now, found);
  }

  lemma AliasStep(es: seq<Event>, n: nat, s: State, s': State, key: nat, h: nat)
    requires n < |es| && s == Final(es[..n]) && AliasesLead(es, n, s)
    requires Translatable(es[n].frame) ==>
      LegalServer(s, es[n].frame, es[n].found) && s' == Next(s, es[n].frame, es[n].now, es[n].found)
    requires !Translatable(es[n].frame) ==> s' == s
    ensures Leads(es, n + 1, key, h) <==> key in s'.aliases && s'.aliases[key] == h
  {
    hide Leads, Next, Server, Closes, Final, LegalServer, CallControlIn;
    LeadsOn(es, n, key, h);
    if Translatable(es[n].frame) {
      AliasesOn(s, es[n].frame, es[n].now, es[n].found, key, h);
    }
  }

  lemma {:induction false} AliasesAlways(es: seq<Event>, n: nat)
    requires Searched(es) && n <= |es|
    ensures AliasesLead(es, n, Final(es[..n]))
  {
    if n > 0 {
      AliasesAlways(es, n - 1);
      StepIs(es, n - 1);
      hide Leads, Next, Final;
      forall key: nat, h: nat
        ensures Leads(es, n, key, h) <==> key in Final(es[..n]).aliases && Final(es[..n]).aliases[key] == h
      {
        AliasStep(es, n - 1, Final(es[..n - 1]), Final(es[..n]), key, h);
      }
    }
  }

  lemma AddressesAre(f: Frame)
    requires Translatable(f)
    ensures (SrcOf(f), DstOf(f)) == Addresses(f) && GroupCallOf(f) == IsGroup(f)
  {
  }

  /** One frame touches its own stream only, and that one keeps what it was opened with. */
  lemma StreamsOn(s: State, f: Frame, now: nat, found: Option<nat>, h: nat)
    requires LegalServer(s, f, found)
    ensures var s', g := Next(s, f, now, found), Server(s, f, found);
      && g <= |s.streams| && |s'.streams| == (if g == |s.streams| then |s.streams| + 1 else |s.streams|)
      && s'.lastId == (if g == |s.streams| then Successor(s.lastId) else s.lastId)
      && (h < |s.streams| && h != g ==> s'.streams[h] == s.streams[h])
      && (h < |s.streams| && h == g ==> s'.streams[h].lastSeen == now && SameOrigin(s'.streams[h], s.streams[h]))
      && (g == |s.streams| ==> s'.streams[g].lastSeen == now && OpenedBy(s'.streams[g], f))
  {
    hide CallControlIn, PeerIn, SlotIn, SrcOf, DstOf, Addresses, IsGroup, GroupCallOf;
    hide KindOf, WithoutAliases, EmbeddedFor, NextSeq, NextBurst;
    ServerInRange(s, f, now, found);
    AddressesAre(f);
    if found.Some? {
      var k :| k in s.aliases && s.aliases[k] == found.value;
    }
  }

  lemma StillOpened(a: Stream, b: Stream, f: Frame)
    requires OpenedBy(a, f) && (a == b || SameOrigin(b, a))
    ensures OpenedBy(b, f)
  {
  }

  lemma LastOn(es: seq<Event>, n: nat, h: nat)
    requires n < |es|
    ensures Serves(es, n, h) ==> LastServed(es, n + 1, h, n)
    ensures !Serves(es, n, h) ==> forall i: nat :: LastServed(es, n, h, i) ==> LastServed(es, n + 1, h, i)
  {
    hide Serves;
  }

  lemma FirstOn(es: seq<Event>, n: nat, h: nat, s: State)
    requires n < |es| && Remembered(es, n, s) && h >= |s.streams| && Serves(es, n, h)
    ensures FirstServed(es, h, n)
  {
    hide Serves, Remembers;
  }

  lemma RemembersIt(es: seq<Event>, n: nat, s: State, h: nat)
    requires n <= |es| && Remembered(es, n, s) && h < |s.streams|
    ensures Remembers(es, n, h, s.streams[h])
  {
  }

  lemma ServesIff(es: seq<Event>, n: nat, h: nat)
    requires n < |es| && Translatable(es[n].frame)
    ensures Serves(es, n, h) <==> h == Server(Final(es[..n]), es[n].frame, es[n].found)
  {
  }

  lemma RemembersOn(es: seq<Event>, n: nat, s: State, s': State, h: nat)
    requires n < |es| && Translatable(es[n].frame) && s == Final(es[..n]) && Remembered(es, n, s)
    requires LegalServer(s, es[n].frame, es[n].found) && s' == Next(s, es[n].frame, es[n].now, es[n].found) && h < |s'.streams|
    ensures Remembers(es, n + 1, h, s'.streams[h])
  {
    hide Serves, Final, Next, Server, OpenedBy, FirstServed, LastServed, LegalServer, SameOrigin, Remembered;
    var e := es[n];
    ServesIff(es, n, h);
    StreamsOn(s, e.frame, e.now, e.found, h);
    LastOn(es, n, h);
    if h < |s.streams| {
      RemembersIt(es, n, s, h);
      var i: nat :| i < n && FirstServed(es, h, i) && OpenedBy(s.streams[h], es[i].frame);
      StillOpened(s.streams[h], s'.streams[h], es[i].frame);
    } else {
      FirstOn(es, n, h, s);
    }
  }

  lemma ServedEarlier(es: seq<Event>, n: nat, s: State, i: nat, h: nat)
    requires n <= |es| && Remembered(es, n, s) && i < n && Serves(es, i, h)
    ensures h < |s.streams|
  {
  }

  lemma RememberedOn(es: seq<Event>, n: nat, s: State, s': State)
    requires n < |es| && Translatable(es[n].frame) && s == Final(es[..n]) && Remembered(es, n, s)
    requires LegalServer(s, es[n].frame, es[n].found) && s' == Next(s, es[n].frame, es[n].now, es[n].found)
    ensures Remembered(es, n + 1, s')
  {
    hide Final, Next, Server, Remembers, Serves, LegalServer, Remembered;
    assert |s.streams| <= |s'.streams| && Server(s, es[n].frame, es[n].found) < |s'.streams| by {
      StreamsOn(s, es[n].frame, es[n].now, es[n].found, 0);
    }
    forall h: nat | h < |s'.streams|
      ensures Remembers(es, n + 1, h, s'.streams[h])
    {
      RemembersOn(es, n, s, s', h);
    }
    forall h: nat, i: nat | i < n + 1 && Serves(es, i, h)
      ensures h < |s'.streams|
    {
      if i < n {
        ServedEarlier(es, n, s, i, h);
      } else {
        ServesIff(es, n, h);
      }
    }
    Collected(es, n + 1, s');
  }

  lemma Collected(es: seq<Event>, n: nat, s: State)
    requires n <= |es| && forall h: nat :: h < |s.streams| ==> Remembers(es, n, h, s.streams[h])
    requires forall h: nat, i: nat :: i < n && Serves(es, i, h) ==> h < |s.streams|
    ensures Remembered(es, n, s)
  {
  }

  lemma RememberedSkip(es: seq<Event>, n: nat, s: State)
    requires n < |es| && !Translatable(es[n].frame) && Remembered(es, n, s)
    ensures Remembered(es, n + 1, s)
  {
    assert forall h :: !Serves(es, n, h);
    hide Remembers, Serves;
    forall h: nat | h < |s.streams|
      ensures Remembers(es, n + 1, h, s.streams[h])
    {
      NotServed(es, n, h, s.streams[h]);
    }
    forall h: nat, i: nat | i < n + 1 && Serves(es, i, h)
      ensures h < |s.streams|
    {
      ServedEarlier(es, n, s, i, h);
    }
  }

  lemma {:induction false} RememberedAlways(es: seq<Event>, n: nat)
    requires Searched(es) && n <= |es|
    ensures Remembered(es, n, Final(es[..n]))
  {
    if n > 0 {
      RememberedAlways(es, n - 1);
      StepIs(es, n - 1);
      hide Next, Remembered;
      if Translatable(es[n - 1].frame) {
        RememberedOn(es, n - 1, Final(es[..n - 1]), Final(es[..n]));
      } else {
        RememberedSkip(es, n - 1, Final(es[..n]));
      }
    }
  }

  lemma NotServed(es: seq<Event>, n: nat, h: nat, st: Stream)
    requires n < |es| && Remembers(es, n, h, st) && !Serves(es, n, h)
    ensures Remembers(es, n + 1, h, st)
  {
    hide Serves, OpenedBy, FirstServed, LastServed;
    LastOn(es, n, h);
  }

  // ---------- The search ----------

  /** A call control leads to stream g, and the last frame that g served came at most 1500 ms before event n. */
  ghost predicate Current(es: seq<Event>, n: nat, g: nat)
    requires n < |es|
  {
    && (exists key :: Leads(es, n, key, g))
    && (exists i: nat :: LastServed(es, n, g, i) && es[i].now != 0 && es[n].now - es[i].now <= 1500)
  }

  /** Stream g is current and has the source, destination, call type and slot of the frame. */
  ghost predicate SameCall(es: seq<Event>, n: nat, g: nat)
    requires n < |es| && Translatable(es[n].frame)
  {
    var streams, f := Final(es[..n]).streams, es[n].frame;
    && g < |streams| && Current(es, n, g) && (streams[g].src, streams[g].dst) == Addresses(f)
    && streams[g].groupCall == IsGroup(f) && streams[g].slot == SlotIn(f.data)
  }

  /** Stream g is current and has the peer, call type and slot of the frame. */
  ghost predicate SameSender(es: seq<Event>, n: nat, g: nat)
    requires n < |es| && Translatable(es[n].frame)
  {
    var streams, f := Final(es[..n]).streams, es[n].frame;
    && g < |streams| && Current(es, n, g) && streams[g].peerId == PeerIn(f.data)
    && streams[g].groupCall == IsGroup(f) && streams[g].slot == SlotIn(f.data)
  }

  /** Neither a voice header nor a frame whose link control decodes. */
  predicate MayDrift(f: Frame)
    requires |f.data| >= 31
  {
    f.data[30] != 0x01 && !(|f.data| >= 50 && f.data[30] == 0x02 && f.recovered.Some?)
  }

  lemma CurrentIff(es: seq<Event>, n: nat, g: nat)
    requires Searched(es) && n < |es|
    ensures var s := Final(es[..n]);
      g < |s.streams| ==> (Current(es, n, g) <==> Live(s, g) && Recent(s.streams[g], es[n].now))
  {
    var s := Final(es[..n]);
    AliasesAlways(es, n);
    RememberedAlways(es, n);
    hide Leads, Final, LastServed, FirstServed, OpenedBy, Searched;
    if g < |s.streams| {
      assert Remembers(es, n, g, s.streams[g]);
      var i: nat :| LastServed(es, n, g, i) && s.streams[g].lastSeen == es[i].now;
      forall j: nat | LastServed(es, n, g, j)
        ensures j == i
      {
        OneLast(es, n, g, i, j);
      }
      if Live(s, g) {
        var k :| k in s.aliases && s.aliases[k] == g;
        assert Leads(es, n, k, g);
      }
    }
  }

  lemma OneLast(es: seq<Event>, n: nat, g: nat, i: nat, j: nat)
    requires n <= |es| && LastServed(es, n, g, i) && LastServed(es, n, g, j)
    ensures i == j
  {
    hide Serves;
  }

  lemma SearchIff(es: seq<Event>, n: nat, g: nat)
    requires Searched(es) && n < |es| && Translatable(es[n].frame)
    ensures var s, f, now := Final(es[..n]), es[n].frame, es[n].now;
      g < |s.streams| ==>
      && (SameCall(es, n, g) <==> Live(s, g) && SameRoute(s.streams[g], f, now))
      && (SameSender(es, n, g) <==> Live(s, g) && SamePeer(s.streams[g], f, now))
  {
    hide Current, Final, Live, Recent, Searched, SrcOf, DstOf, Addresses, PeerIn, SlotIn, IsGroup, GroupCallOf;
    CurrentIff(es, n, g);
    AddressesAre(es[n].frame);
  }

  /**
    Which stream serves a frame, in every run. The one that its call control leads to; failing that, a current one of
    the same addresses, call type and slot; failing that, for a frame that may have drifted, a current one of the same
    peer, call type and slot; failing that, a new one, and only then is a new id given out.
   */
  lemma ServedIff(es: seq<Event>, n: nat, h: nat)
    requires Searched(es) && n < |es| && Serves(es, n, h)
    ensures var f := es[n].frame; var key := CallControlIn(f.data);
      if exists g :: Leads(es, n, key, g) then Leads(es, n, key, h)
      else if exists g :: SameCall(es, n, g) then SameCall(es, n, h)
      else if MayDrift(f) && exists g :: SameSender(es, n, g) then SameSender(es, n, h)
      else FirstServed(es, h, n)
    ensures var before, after := Final(es[..n]), Final(es[..n + 1]);
      if FirstServed(es, h, n)
      then h == |before.streams| && |after.streams| == h + 1 && after.lastId == Successor(before.lastId)
        && OpenedBy(after.streams[h], es[n].frame)
      else h < |before.streams| == |after.streams| && after.lastId == before.lastId
  {
    var s, f, now, found := Final(es[..n]), es[n].frame, es[n].now, es[n].found;
    var key := CallControlIn(f.data);
    assert h == Server(s, f, found) && Obeys(s, es[n]);
    AliasesAlways(es, n);
    RememberedAlways(es, n);
    StepIs(es, n);
    StreamsOn(s, f, now, found, h);
    FirstIff(es, n, h, s);
    forall g: nat | g < |s.streams|
      ensures SameCall(es, n, g) <==> Live(s, g) && SameRoute(s.streams[g], f, now)
      ensures SameSender(es, n, g) <==> Live(s, g) && SamePeer(s.streams[g], f, now)
    {
      SearchIff(es, n, g);
    }
    TrustedIff(f);
    hide Final, Next, Leads, SameRoute, SamePeer, FirstServed, OpenedBy, Serves, Searched, Remembered, CallControlIn, Current;
    if key in s.aliases {
      assert Leads(es, n, key, s.aliases[key]);
    } else {
      assert forall g :: !Leads(es, n, key, g);
    }
  }

  lemma FirstIff(es: seq<Event>, n: nat, h: nat, s: State)
    requires n < |es| && Remembered(es, n, s) && Serves(es, n, h)
    ensures FirstServed(es, h, n) <==> h >= |s.streams|
  {
    hide Serves;
    if h < |s.streams| {
      assert Remembers(es, n, h, s.streams[h]);
    }
  }

  lemma TrustedIff(f: Frame)
    requires Translatable(f)
    ensures MayDrift(f) <==> !Trusted(f) && f.data[30] != HEAD
  {
  }
}
