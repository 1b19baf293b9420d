/** What the guard guarantees over whole runs. */
module GuardTheorems {
  import opened LinkControl
  import opened Dmrd
  import opened Guard

  datatype Event =
    | Ingress(source: string, pkt: Packet, now: int)
    | Forward(target: string, pkt: Packet, now: int)

  datatype Reply = Answered(verdict: Verdict) | Noted

  /** What one event does to a guard that first evicts, and what it answers. */
  function Step(s: State, ttls: Ttls, e: Event): State {
    Plain(Evicted(s, ttls, e.now), ttls, e)
  }

  /** The same on a guard that never evicts and only compares ages. */
  function Plain(s: State, ttls: Ttls, e: Event): State {
    match e
    case Ingress(source, p, now) => Admit(s, ttls, source, p, now)
    case Forward(target, p, now) => Marked(s, target, p, now)
  }

  function ReplyTo(s: State, ttls: Ttls, e: Event): Reply {
    match e
    case Ingress(source, p, now) => Answered(VerdictOf(s, ttls, source, p, now))
    case Forward(_, _, _) => Noted
  }

  /** The guard's state after a run. */
  function After(s: State, ttls: Ttls, es: seq<Event>): State
    decreases |es|
  {
    if es == [] then s else Step(After(s, ttls, es[..|es| - 1]), ttls, es[|es| - 1])
  }

  function PlainAfter(s: State, ttls: Ttls, es: seq<Event>): State
    decreases |es|
  {
    if es == [] then s else Plain(PlainAfter(s, ttls, es[..|es| - 1]), ttls, es[|es| - 1])
  }

  /** The i-th reply of a run. */
  function ReplyAt(s: State, ttls: Ttls, es: seq<Event>, i: nat): Reply
    requires i < |es|
  {
    ReplyTo(Evicted(After(s, ttls, es[..i]), ttls, es[i].now), ttls, es[i])
  }

  function PlainReplyAt(s: State, ttls: Ttls, es: seq<Event>, i: nat): Reply
    requires i < |es|
  {
    ReplyTo(PlainAfter(s, ttls, es[..i]), ttls, es[i])
  }

  /** The clock does not run backwards. */
  predicate Clocked(es: seq<Event>) {
    forall i, j :: 0 <= i < j < |es| ==> es[i].now <= es[j].now
  }

  // ---------- Eviction is invisible ----------

  /** Up to entries that are dead at the given time, the two maps agree. */
  ghost predicate SameTimes<K>(a: map<K, int>, b: map<K, int>, ttl: nat, now: int) {
    && (forall k :: k in a ==> k in b && a[k] == b[k])
    && (forall k :: k in b && now - b[k] <= ttl ==> k in a)
  }

  ghost predicate SameOwners<K>(a: map<K, Owner>, b: map<K, Owner>, ttl: nat, now: int) {
    && (forall k :: k in a ==> k in b && a[k] == b[k])
    && (forall k :: k in b && now - b[k].lastSeen <= ttl ==> k in a)
  }

  ghost predicate Similar(a: State, b: State, ttls: Ttls, now: int) {
    && SameOwners(a.owners, b.owners, ttls.call, now)
    && SameOwners(a.groupOwners, b.groupOwners, ttls.group, now)
    && SameTimes(a.recentIngress, b.recentIngress, ttls.dedup, now)
    && SameTimes(a.recentEgress, b.recentEgress, ttls.echo, now)
  }

  lemma EvictSimilar(a: State, b: State, ttls: Ttls, before: int, now: int)
    requires Similar(a, b, ttls, before) && before <= now
    ensures Similar(Evicted(a, ttls, now), b, ttls, now)
  {
  }

  lemma SameVerdict(a: State, b: State, ttls: Ttls, source: string, p: Packet, now: int)
    requires Similar(a, b, ttls, now)
    ensures VerdictOf(a, ttls, source, p, now) == VerdictOf(b, ttls, source, p, now)
  {
    hide SameOwners, SameTimes, Live, Held;
    var key := (source, FingerprintOf(p));
    SameLive(a.recentEgress, b.recentEgress, key, ttls.echo, now);
    SameLive(a.recentIngress, b.recentIngress, key, ttls.dedup, now);
    SameHolder(a.groupOwners, b.groupOwners, p.dst, ttls.group, now);
    SameHolder(a.owners, b.owners, p.slot, ttls.call, now);
  }

  lemma SameLive<K>(a: map<K, int>, b: map<K, int>, k: K, ttl: nat, now: int)
    requires SameTimes(a, b, ttl, now)
    ensures Live(a, k, ttl, now) == Live(b, k, ttl, now)
  {
  }

  lemma SameHolder<K>(a: map<K, Owner>, b: map<K, Owner>, k: K, ttl: nat, now: int)
    requires SameOwners(a, b, ttl, now)
    ensures Held(a, k, ttl, now) == Held(b, k, ttl, now)
    ensures Held(a, k, ttl, now) ==> a[k] == b[k]
  {
  }

  lemma ClaimSimilar<K>(a: map<K, Owner>, b: map<K, Owner>, ttl: nat, k: K, source: string, p: Packet, now: int)
    requires SameOwners(a, b, ttl, now)
    ensures SameOwners(Claimed(a, k, source, p, now), Claimed(b, k, source, p, now), ttl, now)
  {
  }

  lemma StepSimilar(a: State, b: State, ttls: Ttls, e: Event, before: int)
    requires Similar(a, b, ttls, before) && before <= e.now
    ensures Similar(Step(a, ttls, e), Plain(b, ttls, e), ttls, e.now)
    ensures ReplyTo(Evicted(a, ttls, e.now), ttls, e) == ReplyTo(b, ttls, e)
  {
    hide Evicted, SameOwners, Claimed;
    EvictSimilar(a, b, ttls, before, e.now);
    var a' := Evicted(a, ttls, e.now);
    if e.Ingress? {
      hide VerdictOf;
      SameVerdict(a', b, ttls, e.source, e.pkt, e.now);
      ClaimSimilar(a'.owners, b.owners, ttls.call, e.pkt.slot, e.source, e.pkt, e.now);
      ClaimSimilar(a'.groupOwners, b.groupOwners, ttls.group, e.pkt.dst, e.source, e.pkt, e.now);
    }
  }

  lemma {:induction false} RunSimilar(ttls: Ttls, es: seq<Event>, start: int)
    requires Clocked(es) && (es != [] ==> start <= es[0].now)
    ensures Similar(After(EMPTY, ttls, es), PlainAfter(EMPTY, ttls, es), ttls, if es == [] then start else es[|es| - 1].now)
    decreases |es|
  {
    hide Similar, Step, Plain;
    if es == [] {
      NothingSimilar(ttls, start);
    } else {
      var n := |es| - 1;
      var init := es[..n];
      RunSimilar(ttls, init, start);
      StepSimilar(After(EMPTY, ttls, init), PlainAfter(EMPTY, ttls, init), ttls, es[n], if n == 0 then start else init[n - 1].now);
    }
  }

  lemma NothingSimilar(ttls: Ttls, now: int)
    ensures Similar(EMPTY, EMPTY, ttls, now)
  {
  }

  /** On every run with a clock, evicting changes no answer. */
  lemma EvictionInvisible(ttls: Ttls, es: seq<Event>, i: nat)
    requires Clocked(es) && i < |es|
    ensures ReplyAt(EMPTY, ttls, es, i) == PlainReplyAt(EMPTY, ttls, es, i)
  {
    hide Similar, Step, Plain, ReplyTo, Evicted;
    var init := es[..i];
    RunSimilar(ttls, init, es[0].now);
    StepSimilar(After(EMPTY, ttls, init), PlainAfter(EMPTY, ttls, init), ttls, es[i], if i == 0 then es[0].now else init[i - 1].now);
  }

  // ---------- Exclusion ----------

  /** The i-th event is a packet that reached the slot on which it was accepted, or the group whose check it passed. */
  predicate AcceptedAt(s: State, ttls: Ttls, es: seq<Event>, i: nat)
    requires i < |es|
  {
    ReplyAt(s, ttls, es, i) == Answered(Accepted)
  }

  predicate PassedGroupAt(s: State, ttls: Ttls, es: seq<Event>, i: nat)
    requires i < |es|
  {
    && es[i].Ingress? && UsesGroup(es[i].pkt)
    && PassedGroup(ReplyAt(s, ttls, es, i).verdict)
  }

  /** A source holds k and was last heard at or after a time. */
  predicate HeldSince<K>(m: map<K, Owner>, k: K, source: string, since: int) {
    k in m && m[k].source == source && since <= m[k].lastSeen
  }

  /** Within the timeout, only an accepted terminator of the holder makes it lose the slot. */
  lemma SlotKept(s: State, ttls: Ttls, e: Event, slot: bool, source: string, since: int)
    requires HeldSince(s.owners, slot, source, since) && since <= e.now <= since + ttls.call
    requires !(e.Ingress? && e.pkt.slot == slot && e.source == source && IsTerminator(e.pkt)
               && ReplyTo(Evicted(s, ttls, e.now), ttls, e) == Answered(Accepted))
    ensures HeldSince(Step(s, ttls, e).owners, slot, source, since)
    ensures e.Ingress? && e.pkt.slot == slot && e.source != source ==> ReplyTo(Evicted(s, ttls, e.now), ttls, e) != Answered(Accepted)
  {
    var s' := Evicted(s, ttls, e.now);
    assert s'.owners[slot] == s.owners[slot];
  }

  lemma GroupKept(s: State, ttls: Ttls, e: Event, group: Id, source: string, since: int)
    requires group != 0 && HeldSince(s.groupOwners, group, source, since) && since <= e.now <= since + ttls.group
    requires !(e.Ingress? && UsesGroup(e.pkt) && e.pkt.dst == group && e.source == source && IsTerminator(e.pkt)
               && PassedGroup(VerdictOf(Evicted(s, ttls, e.now), ttls, e.source, e.pkt, e.now)))
    ensures HeldSince(Step(s, ttls, e).groupOwners, group, source, since)
    ensures e.Ingress? && UsesGroup(e.pkt) && e.pkt.dst == group && e.source != source
      ==> !PassedGroup(VerdictOf(Evicted(s, ttls, e.now), ttls, e.source, e.pkt, e.now))
  {
    var s' := Evicted(s, ttls, e.now);
    assert group in s'.groupOwners && s'.groupOwners[group] == s.groupOwners[group];
  }

  /** An accepted terminator of the given source on the slot, strictly between two events. */
  ghost predicate TerminatedBetween(s: State, ttls: Ttls, es: seq<Event>, i: nat, j: nat, slot: bool, source: string)
    requires j <= |es|
  {
    exists k :: i < k < j && es[k].Ingress? && es[k].source == source && es[k].pkt.slot == slot
      && IsTerminator(es[k].pkt) && AcceptedAt(s, ttls, es, k)
  }

  ghost predicate GroupTerminatedBetween(s: State, ttls: Ttls, es: seq<Event>, i: nat, j: nat, group: Id, source: string)
    requires j <= |es|
  {
    exists k :: i < k < j && es[k].Ingress? && es[k].source == source && es[k].pkt.dst == group
      && IsTerminator(es[k].pkt) && PassedGroupAt(s, ttls, es, k)
  }

  lemma {:induction false} SlotHeldUntil(s: State, ttls: Ttls, es: seq<Event>, i: nat, j: nat)
    requires Clocked(es) && i < j <= |es|
    requires es[i].Ingress? && AcceptedAt(s, ttls, es, i) && !IsTerminator(es[i].pkt)
    requires forall k :: i < k < j ==> es[k].now <= es[i].now + ttls.call
    requires !TerminatedBetween(s, ttls, es, i, j, es[i].pkt.slot, es[i].source)
    ensures HeldSince(After(s, ttls, es[..j]).owners, es[i].pkt.slot, es[i].source, es[i].now)
    decreases j
  {
    hide Step, Evicted, VerdictOf, HeldSince;
    assert es[..j][..j - 1] == es[..j - 1];
    if j == i + 1 {
      FirstClaim(After(s, ttls, es[..i]), ttls, es[i]);
    } else {
      SlotHeldUntil(s, ttls, es, i, j - 1);
      SlotKept(After(s, ttls, es[..j - 1]), ttls, es[j - 1], es[i].pkt.slot, es[i].source, es[i].now);
    }
  }

  lemma FirstClaim(s: State, ttls: Ttls, e: Event)
    requires e.Ingress? && !IsTerminator(e.pkt)
    ensures ReplyTo(Evicted(s, ttls, e.now), ttls, e) == Answered(Accepted)
      ==> HeldSince(Step(s, ttls, e).owners, e.pkt.slot, e.source, e.now)
    ensures UsesGroup(e.pkt) && PassedGroup(ReplyTo(Evicted(s, ttls, e.now), ttls, e).verdict)
      ==> HeldSince(Step(s, ttls, e).groupOwners, e.pkt.dst, e.source, e.now)
  {
  }

  /**
    One talker per slot: if a packet of one source is accepted and a packet of another
    source is accepted on the same slot within the call timeout, then the first source's
    terminator was accepted on that slot in between.
   */
  lemma SlotExclusion(s: State, ttls: Ttls, es: seq<Event>, i: nat, j: nat)
    requires Clocked(es) && i < j < |es|
    requires es[i].Ingress? && AcceptedAt(s, ttls, es, i) && !IsTerminator(es[i].pkt)
    requires es[j].Ingress? && AcceptedAt(s, ttls, es, j) && es[j].pkt.slot == es[i].pkt.slot
    requires es[j].source != es[i].source && es[j].now <= es[i].now + ttls.call
    ensures TerminatedBetween(s, ttls, es, i, j, es[i].pkt.slot, es[i].source)
  {
    hide Step, ReplyTo, Evicted;
    if !TerminatedBetween(s, ttls, es, i, j, es[i].pkt.slot, es[i].source) {
      SlotHeldUntil(s, ttls, es, i, j);
      SlotKept(After(s, ttls, es[..j]), ttls, es[j], es[i].pkt.slot, es[i].source, es[i].now);
    }
  }

  lemma {:induction false} GroupHeldUntil(s: State, ttls: Ttls, es: seq<Event>, i: nat, j: nat)
    requires Clocked(es) && i < j <= |es|
    requires PassedGroupAt(s, ttls, es, i) && !IsTerminator(es[i].pkt)
    requires forall k :: i < k < j ==> es[k].now <= es[i].now + ttls.group
    requires !GroupTerminatedBetween(s, ttls, es, i, j, es[i].pkt.dst, es[i].source)
    ensures HeldSince(After(s, ttls, es[..j]).groupOwners, es[i].pkt.dst, es[i].source, es[i].now)
    decreases j
  {
    hide Step, Evicted, VerdictOf, HeldSince;
    assert es[..j][..j - 1] == es[..j - 1];
    if j == i + 1 {
      FirstClaim(After(s, ttls, es[..i]), ttls, es[i]);
    } else {
      GroupHeldUntil(s, ttls, es, i, j - 1);
      GroupKept(After(s, ttls, es[..j - 1]), ttls, es[j - 1], es[i].pkt.dst, es[i].source, es[i].now);
    }
  }

  /** One talker per talkgroup, with the talkgroup timeout and the talkgroup check. */
  lemma GroupExclusion(s: State, ttls: Ttls, es: seq<Event>, i: nat, j: nat)
    requires Clocked(es) && i < j < |es|
    requires PassedGroupAt(s, ttls, es, i) && !IsTerminator(es[i].pkt)
    requires PassedGroupAt(s, ttls, es, j) && es[j].pkt.dst == es[i].pkt.dst
    requires es[j].source != es[i].source && es[j].now <= es[i].now + ttls.group
    ensures GroupTerminatedBetween(s, ttls, es, i, j, es[i].pkt.dst, es[i].source)
  {
    hide Step, Evicted, VerdictOf;
    if !GroupTerminatedBetween(s, ttls, es, i, j, es[i].pkt.dst, es[i].source) {
      GroupHeldUntil(s, ttls, es, i, j);
      GroupKept(After(s, ttls, es[..j]), ttls, es[j], es[i].pkt.dst, es[i].source, es[i].now);
    }
  }

  // ---------- Duplicates and echoes ----------

  predicate SeenSince(m: map<Key, int>, k: Key, since: int) {
    k in m && since <= m[k]
  }

  lemma SightingsKept(s: State, ttls: Ttls, e: Event, k: Key, since: int)
    requires since <= e.now
    ensures SeenSince(s.recentIngress, k, since) && e.now <= since + ttls.dedup ==> SeenSince(Step(s, ttls, e).recentIngress, k, since)
    ensures SeenSince(s.recentEgress, k, since) && e.now <= since + ttls.echo ==> SeenSince(Step(s, ttls, e).recentEgress, k, since)
  {
  }

  lemma {:induction false} IngressRemembered(s: State, ttls: Ttls, es: seq<Event>, i: nat, j: nat, k: Key)
    requires Clocked(es) && i < j <= |es| && SeenSince(After(s, ttls, es[..i + 1]).recentIngress, k, es[i].now)
    requires forall n :: i < n < j ==> es[n].now <= es[i].now + ttls.dedup
    ensures SeenSince(After(s, ttls, es[..j]).recentIngress, k, es[i].now)
    decreases j
  {
    hide Step;
    if j > i + 1 {
      IngressRemembered(s, ttls, es, i, j - 1, k);
      assert es[..j][..j - 1] == es[..j - 1];
      SightingsKept(After(s, ttls, es[..j - 1]), ttls, es[j - 1], k, es[i].now);
    }
  }

  lemma {:induction false} EgressRemembered(s: State, ttls: Ttls, es: seq<Event>, i: nat, j: nat, k: Key)
    requires Clocked(es) && i < j <= |es| && SeenSince(After(s, ttls, es[..i + 1]).recentEgress, k, es[i].now)
    requires forall n :: i < n < j ==> es[n].now <= es[i].now + ttls.echo
    ensures SeenSince(After(s, ttls, es[..j]).recentEgress, k, es[i].now)
    decreases j
  {
    hide Step;
    if j > i + 1 {
      EgressRemembered(s, ttls, es, i, j - 1, k);
      assert es[..j][..j - 1] == es[..j - 1];
      SightingsKept(After(s, ttls, es[..j - 1]), ttls, es[j - 1], k, es[i].now);
    }
  }

  /** The same packet is accepted twice from one source only if more than the dedup time has passed. */
  lemma DuplicatesSpaced(s: State, ttls: Ttls, es: seq<Event>, i: nat, j: nat)
    requires Clocked(es) && i < j < |es|
    requires es[i].Ingress? && AcceptedAt(s, ttls, es, i) && es[j].Ingress? && AcceptedAt(s, ttls, es, j)
    requires es[i].source == es[j].source && FingerprintOf(es[i].pkt) == FingerprintOf(es[j].pkt)
    ensures es[j].now > es[i].now + ttls.dedup
  {
    assert es[..i + 1][..i] == es[..i];
    var k := (es[i].source, FingerprintOf(es[i].pkt));
    assert SeenSince(After(s, ttls, es[..i + 1]).recentIngress, k, es[i].now);
    if es[j].now <= es[i].now + ttls.dedup {
      IngressRemembered(s, ttls, es, i, j, k);
    }
  }

  /** A packet just forwarded to a frontend is not taken back from it within the echo time. */
  lemma EchoesBlocked(s: State, ttls: Ttls, es: seq<Event>, i: nat, j: nat)
    requires Clocked(es) && i < j < |es|
    requires es[i].Forward? && es[j].Ingress? && es[i].target == es[j].source
    requires FingerprintOf(es[i].pkt) == FingerprintOf(es[j].pkt) && es[j].now <= es[i].now + ttls.echo
    ensures ReplyAt(s, ttls, es, j) == Answered(Echo)
  {
    assert es[..i + 1][..i] == es[..i];
    var k := (es[i].target, FingerprintOf(es[i].pkt));
    assert SeenSince(After(s, ttls, es[..i + 1]).recentEgress, k, es[i].now);
    EgressRemembered(s, ttls, es, i, j, k);
  }
}
