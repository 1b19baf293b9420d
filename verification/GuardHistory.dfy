/** The guard's answers read off the run alone: what came before, and how it was answered. */
module GuardHistory {
  import opened LinkControl
  import opened Dmrd
  import opened Guard
  import opened GuardTheorems

  function Replies(ttls: Ttls, es: seq<Event>): (rs: seq<Reply>)
    ensures |rs| == |es|
  {
    seq(|es|, i requires 0 <= i < |es| => ReplyAt(EMPTY, ttls, es, i))
  }

  // ---------- What the run shows ----------

  /** The same packet, but perhaps for its call type. */
  predicate SameFrame(p: Packet, q: Packet) {
    && p.seqNo == q.seqNo && p.slot == q.slot && p.src == q.src && p.dst == q.dst && p.streamId == q.streamId
    && p.frameType == q.frameType && p.dtypeOrVSeq == q.dtypeOrVSeq && p.dmrData == q.dmrData
  }

  /** A packet for a talkgroup. */
  predicate IsGroup(e: Event) {
    e.Ingress? && e.pkt.groupCall && e.pkt.dst != 0
  }

  /** Event i was accepted on the slot. */
  predicate TookSlot(es: seq<Event>, rs: seq<Reply>, i: nat, slot: bool)
    requires i < |es| == |rs|
  {
    es[i].Ingress? && es[i].pkt.slot == slot && rs[i] == Answered(Accepted)
  }

  /** Event i passed the talkgroup's check: it was accepted, or refused only for the slot. */
  predicate TookGroup(es: seq<Event>, rs: seq<Reply>, i: nat, group: Id)
    requires i < |es| == |rs|
  {
    IsGroup(es[i]) && es[i].pkt.dst == group && (rs[i] == Answered(Accepted) || rs[i] == Answered(SlotBusy))
  }

  /** Another source sent, at most ttl ago, the packet of event i, and it was not a terminator. */
  predicate Blocks(es: seq<Event>, i: nat, j: nat, ttl: nat)
    requires i < j < |es| && es[i].Ingress? && es[j].Ingress?
  {
    !IsTerminator(es[i].pkt) && es[i].source != es[j].source && es[j].now - es[i].now <= ttl
  }

  /** The last packet accepted on the slot of event j stands in its way. */
  ghost predicate SlotTaken(ttls: Ttls, es: seq<Event>, rs: seq<Reply>, j: nat)
    requires j < |es| == |rs| && es[j].Ingress?
  {
    exists i: nat :: i < j && TookSlot(es, rs, i, es[j].pkt.slot)
      && (forall k: nat :: i < k < j ==> !TookSlot(es, rs, k, es[j].pkt.slot)) && Blocks(es, i, j, ttls.call)
  }

  /** The last packet that passed the check of the talkgroup of event j stands in its way. */
  ghost predicate GroupTaken(ttls: Ttls, es: seq<Event>, rs: seq<Reply>, j: nat)
    requires j < |es| == |rs| && es[j].Ingress?
  {
    && IsGroup(es[j])
    && (exists i: nat :: i < j && TookGroup(es, rs, i, es[j].pkt.dst)
          && (forall k: nat :: i < k < j ==> !TookGroup(es, rs, k, es[j].pkt.dst)) && Blocks(es, i, j, ttls.group))
  }

  /** Event i sent the packet of event j out to where it now comes from. */
  predicate SentOut(es: seq<Event>, i: nat, source: string, p: Packet)
    requires i < |es|
  {
    es[i].Forward? && es[i].target == source && SameFrame(es[i].pkt, p)
  }

  /** Event i accepted the packet of event j from the same source. */
  predicate TakenIn(es: seq<Event>, rs: seq<Reply>, i: nat, source: string, p: Packet)
    requires i < |es| == |rs|
  {
    es[i].Ingress? && es[i].source == source && SameFrame(es[i].pkt, p) && rs[i] == Answered(Accepted)
  }

  ghost predicate IsEcho(ttls: Ttls, es: seq<Event>, j: nat)
    requires j < |es| && es[j].Ingress?
  {
    exists i: nat :: i < j && SentOut(es, i, es[j].source, es[j].pkt) && es[j].now - es[i].now <= ttls.echo
  }

  ghost predicate IsDuplicate(ttls: Ttls, es: seq<Event>, rs: seq<Reply>, j: nat)
    requires j < |es| == |rs| && es[j].Ingress?
  {
    exists i: nat :: i < j && TakenIn(es, rs, i, es[j].source, es[j].pkt) && es[j].now - es[i].now <= ttls.dedup
  }

  /** The entry of k is the same in both maps. */
  predicate Kept<K, V(==)>(m: map<K, V>, m': map<K, V>, k: K) {
    (k in m' <==> k in m) && (k in m ==> m'[k] == m[k])
  }

  // ---------- Owners ----------

  /** The last index at which something happened. */
  predicate Last(hits: seq<bool>, i: nat) {
    i < |hits| && hits[i] && forall k :: i < k < |hits| ==> !hits[k]
  }

  function SlotHits(es: seq<Event>, rs: seq<Reply>, n: nat, slot: bool): (h: seq<bool>)
    requires n <= |es| == |rs|
    ensures |h| == n
  {
    seq(n, i requires 0 <= i < n => TookSlot(es, rs, i, slot))
  }

  function GroupHits(es: seq<Event>, rs: seq<Reply>, n: nat, group: Id): (h: seq<bool>)
    requires n <= |es| == |rs|
    ensures |h| == n
  {
    seq(n, i requires 0 <= i < n => TookGroup(es, rs, i, group))
  }

  /** The owner of k is the sender of the last packet that took it, unless that was a terminator. */
  ghost predicate OwnerIsLast<K>(es: seq<Event>, hits: seq<bool>, m: map<K, Owner>, k: K)
    requires |hits| <= |es|
  {
    && (k in m ==> true in hits)
    && forall i: nat :: Last(hits, i) ==>
      && es[i].Ingress?
      && (if IsTerminator(es[i].pkt) then k !in m else k in m && m[k] == Owner(es[i].source, es[i].pkt.streamId, es[i].now))
  }

  lemma OwnerOn<K>(es: seq<Event>, hits: seq<bool>, hit: bool, m: map<K, Owner>, m': map<K, Owner>, k: K)
    requires |hits| < |es| && OwnerIsLast(es, hits, m, k)
    requires hit ==> es[|hits|].Ingress? && m' == Claimed(m, k, es[|hits|].source, es[|hits|].pkt, es[|hits|].now)
    requires !hit ==> Kept(m, m', k)
    ensures OwnerIsLast(es, hits + [hit], m', k)
  {
    var n, h := |hits|, hits + [hit];
    assert h[n] == hit;
    assert forall i: nat :: i < n ==> h[i] == hits[i];
    forall i: nat | Last(h, i)
      ensures es[i].Ingress?
      ensures if IsTerminator(es[i].pkt) then k !in m' else k in m' && m'[k] == Owner(es[i].source, es[i].pkt.streamId, es[i].now)
    {
      if hit {
        assert i == n;
      } else {
        assert Last(hits, i);
      }
    }
  }

  /** Within its time, the owner is another source if and only if the last packet stands in the way. */
  lemma HeldIff<K>(es: seq<Event>, hits: seq<bool>, m: map<K, Owner>, k: K, ttl: nat)
    requires |hits| < |es| && OwnerIsLast(es, hits, m, k) && es[|hits|].Ingress?
    ensures var j := |hits|;
      Held(m, k, ttl, es[j].now) && m[k].source != es[j].source
      <==> exists i: nat :: Last(hits, i) && es[i].Ingress? && Blocks(es, i, j, ttl)
  {
    if k in m {
      var i := LastHit(hits);
      assert Last(hits, i);
    }
  }

  lemma LastHit(hits: seq<bool>) returns (i: nat)
    requires true in hits
    ensures Last(hits, i)
  {
    i := |hits| - 1;
    while !hits[i]
      decreases i
      invariant 0 <= i < |hits| && forall k :: i < k < |hits| ==> !hits[k]
    {
      assert i > 0;
      i := i - 1;
    }
  }

  // ---------- Sightings ----------

  /** k was last seen at the time of the last of the marked events. */
  ghost predicate SeenAtLast<K>(es: seq<Event>, hits: seq<bool>, m: map<K, int>, k: K)
    requires |hits| <= |es|
  {
    && (k in m ==> exists i: nat :: i < |hits| && hits[i] && m[k] == es[i].now)
    && forall i: nat :: i < |hits| && hits[i] ==> k in m && es[i].now <= m[k]
  }

  lemma SeenOn<K>(es: seq<Event>, hits: seq<bool>, hit: bool, m: map<K, int>, m': map<K, int>, k: K)
    requires |hits| < |es| && Clocked(es) && SeenAtLast(es, hits, m, k)
    requires hit ==> m' == m[k := es[|hits|].now]
    requires !hit ==> Kept(m, m', k)
    ensures SeenAtLast(es, hits + [hit], m', k)
  {
    var n, h := |hits|, hits + [hit];
    assert h[n] == hit;
    assert forall i: nat :: i < n ==> h[i] == hits[i];
    if hit {
      assert h[n] && m'[k] == es[n].now;
    }
  }

  lemma SeenIff<K>(es: seq<Event>, hits: seq<bool>, m: map<K, int>, k: K, ttl: nat, now: int)
    requires |hits| <= |es| && SeenAtLast(es, hits, m, k)
    ensures Live(m, k, ttl, now) <==> exists i: nat :: i < |hits| && hits[i] && now - es[i].now <= ttl
  {
  }

  function EgressHits(es: seq<Event>, n: nat, source: string, p: Packet): (h: seq<bool>)
    requires n <= |es|
    ensures |h| == n
  {
    seq(n, i requires 0 <= i < n => SentOut(es, i, source, p))
  }

  function IngressHits(es: seq<Event>, rs: seq<Reply>, n: nat, source: string, p: Packet): (h: seq<bool>)
    requires n <= |es| == |rs|
    ensures |h| == n
  {
    seq(n, i requires 0 <= i < n => TakenIn(es, rs, i, source, p))
  }

  // ---------- The state is the history ----------

  /** What the guard knows of the slot, the group and the packet of a possible next event. */
  ghost predicate Knows(s: State, es: seq<Event>, rs: seq<Reply>, n: nat, source: string, p: Packet)
    requires n <= |es| == |rs|
  {
    && OwnerIsLast(es, SlotHits(es, rs, n, p.slot), s.owners, p.slot)
    && (p.dst != 0 ==> OwnerIsLast(es, GroupHits(es, rs, n, p.dst), s.groupOwners, p.dst))
    && SeenAtLast(es, IngressHits(es, rs, n, source, p), s.recentIngress, (source, FingerprintOf(p)))
    && SeenAtLast(es, EgressHits(es, n, source, p), s.recentEgress, (source, FingerprintOf(p)))
  }

  lemma FrameIff(p: Packet, q: Packet)
    ensures FingerprintOf(p) == FingerprintOf(q) <==> SameFrame(p, q)
  {
  }

  /** What one event does to the owner of a slot and of a group, and to the sightings of a packet. */
  lemma SlotEffect(s: State, ttls: Ttls, es: seq<Event>, rs: seq<Reply>, n: nat, slot: bool)
    requires n < |es| == |rs| && rs[n] == ReplyTo(s, ttls, es[n])
    ensures TookSlot(es, rs, n, slot) ==> Plain(s, ttls, es[n]).owners == Claimed(s.owners, slot, es[n].source, es[n].pkt, es[n].now)
    ensures !TookSlot(es, rs, n, slot) ==> Kept(s.owners, Plain(s, ttls, es[n]).owners, slot)
  {
    hide VerdictOf;
  }

  lemma GroupEffect(s: State, ttls: Ttls, es: seq<Event>, rs: seq<Reply>, n: nat, group: Id)
    requires n < |es| == |rs| && rs[n] == ReplyTo(s, ttls, es[n])
    ensures TookGroup(es, rs, n, group) ==>
      Plain(s, ttls, es[n]).groupOwners == Claimed(s.groupOwners, group, es[n].source, es[n].pkt, es[n].now)
    ensures !TookGroup(es, rs, n, group) ==> Kept(s.groupOwners, Plain(s, ttls, es[n]).groupOwners, group)
  {
    hide VerdictOf;
  }

  lemma SightingEffect(s: State, ttls: Ttls, es: seq<Event>, rs: seq<Reply>, n: nat, source: string, p: Packet)
    requires n < |es| == |rs| && rs[n] == ReplyTo(s, ttls, es[n])
    ensures var s', key := Plain(s, ttls, es[n]), (source, FingerprintOf(p));
      && (TakenIn(es, rs, n, source, p) ==> s'.recentIngress == s.recentIngress[key := es[n].now])
      && (!TakenIn(es, rs, n, source, p) ==> Kept(s.recentIngress, s'.recentIngress, key))
      && (SentOut(es, n, source, p) ==> s'.recentEgress == s.recentEgress[key := es[n].now])
      && (!SentOut(es, n, source, p) ==> Kept(s.recentEgress, s'.recentEgress, key))
  {
    hide VerdictOf, FingerprintOf, SameFrame;
    FrameIff(es[n].pkt, p);
  }

  lemma SlotKnown(s: State, ttls: Ttls, es: seq<Event>, rs: seq<Reply>, n: nat, slot: bool)
    requires n < |es| == |rs| && OwnerIsLast(es, SlotHits(es, rs, n, slot), s.owners, slot) && rs[n] == ReplyTo(s, ttls, es[n])
    ensures OwnerIsLast(es, SlotHits(es, rs, n + 1, slot), Plain(s, ttls, es[n]).owners, slot)
  {
    hide Plain, ReplyTo, OwnerIsLast, Claimed, Kept;
    SlotEffect(s, ttls, es, rs, n, slot);
    OwnerOn(es, SlotHits(es, rs, n, slot), TookSlot(es, rs, n, slot), s.owners, Plain(s, ttls, es[n]).owners, slot);
    assert SlotHits(es, rs, n + 1, slot) == SlotHits(es, rs, n, slot) + [TookSlot(es, rs, n, slot)];
  }

  lemma GroupKnown(s: State, ttls: Ttls, es: seq<Event>, rs: seq<Reply>, n: nat, group: Id)
    requires n < |es| == |rs| && OwnerIsLast(es, GroupHits(es, rs, n, group), s.groupOwners, group) && rs[n] == ReplyTo(s, ttls, es[n])
    ensures OwnerIsLast(es, GroupHits(es, rs, n + 1, group), Plain(s, ttls, es[n]).groupOwners, group)
  {
    hide Plain, ReplyTo, OwnerIsLast, Claimed, Kept;
    GroupEffect(s, ttls, es, rs, n, group);
    OwnerOn(es, GroupHits(es, rs, n, group), TookGroup(es, rs, n, group), s.groupOwners, Plain(s, ttls, es[n]).groupOwners, group);
    assert GroupHits(es, rs, n + 1, group) == GroupHits(es, rs, n, group) + [TookGroup(es, rs, n, group)];
  }

  lemma KnowsOn(s: State, ttls: Ttls, es: seq<Event>, rs: seq<Reply>, n: nat, source: string, p: Packet)
    requires n < |es| == |rs| && Clocked(es) && Knows(s, es, rs, n, source, p) && rs[n] == ReplyTo(s, ttls, es[n])
    ensures Knows(Plain(s, ttls, es[n]), es, rs, n + 1, source, p)
  {
    hide Plain, ReplyTo, FingerprintOf, SameFrame, OwnerIsLast, SeenAtLast, Kept, SlotHits, GroupHits, Clocked, SentOut, TakenIn;
    var s', key := Plain(s, ttls, es[n]), (source, FingerprintOf(p));
    SlotKnown(s, ttls, es, rs, n, p.slot);
    if p.dst != 0 {
      GroupKnown(s, ttls, es, rs, n, p.dst);
    }
    SightingEffect(s, ttls, es, rs, n, source, p);
    SeenOn(es, IngressHits(es, rs, n, source, p), TakenIn(es, rs, n, source, p), s.recentIngress, s'.recentIngress, key);
    assert IngressHits(es, rs, n + 1, source, p) == IngressHits(es, rs, n, source, p) + [TakenIn(es, rs, n, source, p)];
    SeenOn(es, EgressHits(es, n, source, p), SentOut(es, n, source, p), s.recentEgress, s'.recentEgress, key);
    assert EgressHits(es, n + 1, source, p) == EgressHits(es, n, source, p) + [SentOut(es, n, source, p)];
  }

  lemma {:induction false} KnowsAlways(ttls: Ttls, es: seq<Event>, n: nat, source: string, p: Packet)
    requires n <= |es| && Clocked(es)
    ensures Knows(PlainAfter(EMPTY, ttls, es[..n]), es, Replies(ttls, es), n, source, p)
  {
    hide Knows, Plain, ReplyTo;
    var rs := Replies(ttls, es);
    if n == 0 {
      assert Knows(EMPTY, es, rs, 0, source, p) by {
        NothingKnown(es, rs, source, p);
      }
    } else {
      KnowsAlways(ttls, es, n - 1, source, p);
      EvictionInvisible(ttls, es, n - 1);
      assert es[..n][..n - 1] == es[..n - 1];
      KnowsOn(PlainAfter(EMPTY, ttls, es[..n - 1]), ttls, es, rs, n - 1, source, p);
    }
  }

  lemma NothingKnown(es: seq<Event>, rs: seq<Reply>, source: string, p: Packet)
    requires |es| == |rs|
    ensures Knows(EMPTY, es, rs, 0, source, p)
  {
  }

  // ---------- Each reason for a refusal, in the state and in the history ----------

  lemma SlotReason(s: State, ttls: Ttls, es: seq<Event>, rs: seq<Reply>, j: nat)
    requires j < |es| == |rs| && es[j].Ingress? && Knows(s, es, rs, j, es[j].source, es[j].pkt)
    ensures Held(s.owners, es[j].pkt.slot, ttls.call, es[j].now) && s.owners[es[j].pkt.slot].source != es[j].source
       <==> SlotTaken(ttls, es, rs, j)
  {
    hide FingerprintOf, OwnerIsLast, SeenAtLast, Held, Blocks;
    var slot, hits := es[j].pkt.slot, SlotHits(es, rs, j, es[j].pkt.slot);
    HeldIff(es, hits, s.owners, slot, ttls.call);
    assert forall k: nat :: k < j ==> hits[k] == TookSlot(es, rs, k, slot);
  }

  lemma GroupReason(s: State, ttls: Ttls, es: seq<Event>, rs: seq<Reply>, j: nat)
    requires j < |es| == |rs| && es[j].Ingress? && Knows(s, es, rs, j, es[j].source, es[j].pkt)
    ensures var p := es[j].pkt;
      UsesGroup(p) && Held(s.groupOwners, p.dst, ttls.group, es[j].now) && s.groupOwners[p.dst].source != es[j].source
      <==> GroupTaken(ttls, es, rs, j)
  {
    hide FingerprintOf, OwnerIsLast, SeenAtLast, Held, Blocks;
    var group, hits := es[j].pkt.dst, GroupHits(es, rs, j, es[j].pkt.dst);
    if group != 0 {
      HeldIff(es, hits, s.groupOwners, group, ttls.group);
      assert forall k: nat :: k < j ==> hits[k] == TookGroup(es, rs, k, group);
    }
  }

  lemma SightingReasons(s: State, ttls: Ttls, es: seq<Event>, rs: seq<Reply>, j: nat)
    requires j < |es| == |rs| && es[j].Ingress? && Knows(s, es, rs, j, es[j].source, es[j].pkt)
    ensures var key := (es[j].source, FingerprintOf(es[j].pkt));
      && (Live(s.recentEgress, key, ttls.echo, es[j].now) <==> IsEcho(ttls, es, j))
      && (Live(s.recentIngress, key, ttls.dedup, es[j].now) <==> IsDuplicate(ttls, es, rs, j))
  {
    hide FingerprintOf, OwnerIsLast, SeenAtLast, Live, SentOut, TakenIn;
    var source, p, now, key := es[j].source, es[j].pkt, es[j].now, (es[j].source, FingerprintOf(es[j].pkt));
    var out, taken := EgressHits(es, j, source, p), IngressHits(es, rs, j, source, p);
    SeenIff(es, out, s.recentEgress, key, ttls.echo, now);
    SeenIff(es, taken, s.recentIngress, key, ttls.dedup, now);
    assert forall k: nat :: k < j ==> out[k] == SentOut(es, k, source, p) && taken[k] == TakenIn(es, rs, k, source, p);
  }

  /**
    Every answer, in every run of a new guard: a packet is refused as an echo or a duplicate exactly if it was sent out to,
    or accepted from, the same place within the time for that; because of its talkgroup or its slot exactly if the last
    packet that took it came from another source, was no terminator and is recent enough; and accepted otherwise.
   */
  lemma AnswerIff(ttls: Ttls, es: seq<Event>, j: nat)
    requires Clocked(es) && j < |es| && es[j].Ingress?
    ensures var rs := Replies(ttls, es);
      rs[j] == Answered(
        if IsEcho(ttls, es, j) then Echo
        else if IsDuplicate(ttls, es, rs, j) then Duplicate
        else if GroupTaken(ttls, es, rs, j) then GroupBusy
        else if SlotTaken(ttls, es, rs, j) then SlotBusy
        else Accepted)
  {
    hide IsEcho, IsDuplicate, GroupTaken, SlotTaken, Held, Live, Knows, PlainAfter, FingerprintOf, UsesGroup;
    var rs := Replies(ttls, es);
    var s := PlainAfter(EMPTY, ttls, es[..j]);
    KnowsAlways(ttls, es, j, es[j].source, es[j].pkt);
    SightingReasons(s, ttls, es, rs, j);
    GroupReason(s, ttls, es, rs, j);
    SlotReason(s, ttls, es, rs, j);
    EvictionInvisible(ttls, es, j);
  }
}
