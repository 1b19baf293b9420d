/** What the chains of a configuration make of every packet, read off the configuration's entries. */
module RewriteChains {
  import opened Dmrd
  import opened Rewrite

  // ---------- One entry ----------

  /** The entry's numbers are machine words. */
  predicate Words(e: RangeConfig) {
    e.from < WORD && e.to < WORD && Span(e) < WORD
  }

  ghost predicate AllWords(es: seq<RangeConfig>) {
    forall i :: 0 <= i < |es| ==> Words(es[i])
  }

  /** The id is number k of the entry's source range, and on its slot; a range that passes the top of the word holds nothing. */
  predicate Takes(e: RangeConfig, slot: nat, id: nat, k: nat) {
    slot == e.fromSlot && id == e.from + k && k < (if e.range == 0 then 1 else e.range) && e.from + Span(e) <= WORD
  }

  /** The entry read the other way. */
  function Turned(e: RangeConfig): RangeConfig {
    RangeConfig(e.toSlot, e.to, e.fromSlot, e.from, e.range)
  }

  function AllTurned(es: seq<RangeConfig>): (ts: seq<RangeConfig>)
    ensures |ts| == |es| && forall i :: 0 <= i < |es| ==> ts[i] == Turned(es[i])
  {
    seq(|es|, i requires 0 <= i < |es| => Turned(es[i]))
  }

  /** Entry i is the first that takes the id, and takes it as its number k. */
  ghost predicate FirstTakes(es: seq<RangeConfig>, slot: nat, id: nat, i: nat, k: nat) {
    i < |es| && Takes(es[i], slot, id, k) && forall j: nat, m: nat :: j < i ==> !Takes(es[j], slot, id, m)
  }

  ghost predicate NoneTakes(es: seq<RangeConfig>, slot: nat, id: nat) {
    forall j: nat, m: nat :: j < |es| ==> !Takes(es[j], slot, id, m)
  }

  /** One of the two holds, and the entry and the number are unique. */
  lemma Decided(es: seq<RangeConfig>, slot: nat, id: nat)
    ensures NoneTakes(es, slot, id) <==> !exists i: nat, k: nat :: FirstTakes(es, slot, id, i, k)
    ensures forall i: nat, k: nat, j: nat, m: nat ::
      FirstTakes(es, slot, id, i, k) && FirstTakes(es, slot, id, j, m) ==> i == j && k == m
  {
    hide Takes;
    if !NoneTakes(es, slot, id) {
      var i: nat := 0;
      while forall k: nat :: !Takes(es[i], slot, id, k)
        invariant i < |es| && forall j: nat, k: nat :: j < i ==> !Takes(es[j], slot, id, k)
        decreases |es| - i
      {
        i := i + 1;
      }
      var k: nat :| Takes(es[i], slot, id, k);
      assert FirstTakes(es, slot, id, i, k);
    }
    forall i: nat, k: nat, j: nat, m: nat | FirstTakes(es, slot, id, i, k) && FirstTakes(es, slot, id, j, m)
      ensures i == j && k == m
    {
      Counted(es[i], slot, id);
    }
  }

  /** Where number k of the entry's source range goes. */
  function Target(e: RangeConfig, k: nat): nat {
    (e.to + k) % WORD
  }

  lemma TakesIff(e: RangeConfig, slot: nat, id: nat)
    requires Words(e)
    ensures slot == e.fromSlot && InRange(id, e.from, Span(e)) <==> id >= e.from && Takes(e, slot, id, id - e.from)
  {
    if e.from + Span(e) <= WORD {
      EndIs(e.from, Span(e));
    } else {
      WrappedEnd(e.from, Span(e));
    }
  }

  lemma MovedTo(e: RangeConfig, id: nat, k: nat)
    requires Words(e) && id < WORD && id == e.from + k
    ensures Moved(id, e.from, e.to) == Target(e, k)
    ensures e.from == e.to ==> id == Target(e, k)
  {
    MovedBySame(id, e.from);
  }

  lemma SlotSet(p: Packet, fromSlot: nat, toSlot: nat)
    requires PktSlot(p) == fromSlot
    ensures WithSlot(p, fromSlot, toSlot) == p.(slot := toSlot == 2)
  {
  }

  // ---------- One rule ----------

  /** What the rule of a talkgroup entry does, and likewise of the other three kinds. */
  lemma TgRuleDoes(e: RangeConfig, p: Packet)
    requires Words(e) && p.dst < WORD
    ensures Matches(Forward(e), p) <==> p.groupCall && p.dst >= e.from && Takes(e, PktSlot(p), p.dst, p.dst - e.from)
    ensures Matches(Forward(e), p) ==> Rewritten(Forward(e), p) == p.(dst := Target(e, p.dst - e.from), slot := e.toSlot == 2)
  {
    hide Takes, InRange, Moved, Target;
    TakesIff(e, PktSlot(p), p.dst);
    if Matches(Forward(e), p) {
      SlotSet(p, e.fromSlot, e.toSlot);
      Counted(e, PktSlot(p), p.dst);
      MovedTo(e, p.dst, p.dst - e.from);
    }
  }

  lemma PcRuleDoes(e: RangeConfig, p: Packet)
    requires Words(e) && p.dst < WORD
    ensures Matches(PcRule(e), p) <==> !p.groupCall && p.dst >= e.from && Takes(e, PktSlot(p), p.dst, p.dst - e.from)
    ensures Matches(PcRule(e), p) ==> Rewritten(PcRule(e), p) == p.(dst := Target(e, p.dst - e.from), slot := e.toSlot == 2)
  {
    hide Takes, InRange, Moved, Target;
    TakesIff(e, PktSlot(p), p.dst);
    if Matches(PcRule(e), p) {
      SlotSet(p, e.fromSlot, e.toSlot);
      Counted(e, PktSlot(p), p.dst);
      MovedTo(e, p.dst, p.dst - e.from);
    }
  }

  lemma TypeRuleDoes(e: RangeConfig, p: Packet)
    requires Words(e) && p.dst < WORD
    ensures Matches(TypeRule(e), p) <==> p.groupCall && p.dst >= e.from && Takes(e, PktSlot(p), p.dst, p.dst - e.from)
    ensures Matches(TypeRule(e), p) ==>
      Rewritten(TypeRule(e), p) == p.(dst := Target(e, p.dst - e.from), slot := e.toSlot == 2, groupCall := false)
  {
    hide Takes, InRange, Moved, Target;
    TakesIff(e, PktSlot(p), p.dst);
    if Matches(TypeRule(e), p) {
      SlotSet(p, e.fromSlot, e.toSlot);
      Counted(e, PktSlot(p), p.dst);
      MovedTo(e, p.dst, p.dst - e.from);
    }
  }

  lemma SrcRuleDoes(e: RangeConfig, p: Packet)
    requires Words(e) && p.src < WORD
    ensures Matches(SrcRule(e), p) <==> p.src >= e.from && Takes(e, PktSlot(p), p.src, p.src - e.from)
    ensures Matches(SrcRule(e), p) ==> Rewritten(SrcRule(e), p) == p.(src := Target(e, p.src - e.from), slot := e.toSlot == 2)
  {
    hide Takes, InRange, Moved, Target;
    TakesIff(e, PktSlot(p), p.src);
    if Matches(SrcRule(e), p) {
      SlotSet(p, e.fromSlot, e.toSlot);
      Counted(e, PktSlot(p), p.src);
      MovedTo(e, p.src, p.src - e.from);
    }
  }

  lemma Counted(e: RangeConfig, slot: nat, id: nat)
    ensures forall k: nat :: Takes(e, slot, id, k) ==> id >= e.from && k == id - e.from
  {
  }

  // ---------- A chain of rules ----------

  /** The chain makes q of p by one of its rules. */
  predicate Makes(rules: seq<Rule>, p: Packet, q: Packet) {
    FirstMatch(rules, p) < |rules| && Applied(rules, p) == q
  }

  /** No rule of the chain is for p. */
  predicate Passes(rules: seq<Rule>, p: Packet) {
    FirstMatch(rules, p) == |rules| && Applied(rules, p) == p
  }

  lemma Joined(a: seq<Rule>, b: seq<Rule>, p: Packet)
    ensures FirstMatch(a, p) < |a| ==> Makes(a + b, p, Applied(a, p))
    ensures FirstMatch(a, p) == |a| && FirstMatch(b, p) < |b| ==> Makes(a + b, p, Applied(b, p))
    ensures Passes(a, p) && Passes(b, p) ==> Passes(a + b, p)
  {
    hide Matches, Rewritten;
    var i, j := FirstMatch(a, p), FirstMatch(b, p);
    var c := a + b;
    assert forall k :: 0 <= k < |a| ==> c[k] == a[k];
    assert forall k :: |a| <= k < |c| ==> c[k] == b[k - |a|];
    FirstMatchIs(c, p, if i < |a| then i else |a| + j);
  }

  /** Of rules made of entries that look at one id of a packet, the first that matches is that of the first entry to take the id. */
  lemma FirstRule(rules: seq<Rule>, es: seq<RangeConfig>, p: Packet, applies: bool, id: nat)
    requires |rules| == |es|
    requires forall i :: 0 <= i < |es| ==>
      (Matches(rules[i], p) <==> applies && id >= es[i].from && Takes(es[i], PktSlot(p), id, id - es[i].from))
    ensures !applies || NoneTakes(es, PktSlot(p), id) ==> Passes(rules, p)
    ensures forall i: nat, k: nat :: applies && FirstTakes(es, PktSlot(p), id, i, k) ==>
      id >= es[i].from && k == id - es[i].from && Makes(rules, p, Rewritten(rules[i], p))
  {
    hide Matches, Rewritten, Takes;
    var n := FirstMatch(rules, p);
    forall i: nat, k: nat | applies && FirstTakes(es, PktSlot(p), id, i, k)
      ensures id >= es[i].from && k == id - es[i].from && Makes(rules, p, Rewritten(rules[i], p))
    {
      Counted(es[i], PktSlot(p), id);
      FirstMatchIs(rules, p, i);
    }
  }

  /** The slot number and the four kinds of entries: what the first entry that takes the packet makes of it. */
  lemma TgPart(es: seq<RangeConfig>, p: Packet)
    requires AllWords(es) && p.dst < WORD
    ensures !p.groupCall || NoneTakes(es, PktSlot(p), p.dst) ==> Passes(MapRules(Forward, es), p)
    ensures forall i: nat, k: nat :: p.groupCall && FirstTakes(es, PktSlot(p), p.dst, i, k) ==>
      Makes(MapRules(Forward, es), p, p.(dst := Target(es[i], k), slot := es[i].toSlot == 2))
  {
    hide Matches, Rewritten, Takes, Words, Target, Makes, Passes;
    var rules := MapRules(Forward, es);
    forall i | 0 <= i < |es|
      ensures Matches(rules[i], p) <==> p.groupCall && p.dst >= es[i].from && Takes(es[i], PktSlot(p), p.dst, p.dst - es[i].from)
      ensures Matches(rules[i], p) ==> Rewritten(rules[i], p) == p.(dst := Target(es[i], p.dst - es[i].from), slot := es[i].toSlot == 2)
    {
      TgRuleDoes(es[i], p);
    }
    FirstRule(rules, es, p, p.groupCall, p.dst);
  }

  lemma PcPart(es: seq<RangeConfig>, p: Packet)
    requires AllWords(es) && p.dst < WORD
    ensures p.groupCall || NoneTakes(es, PktSlot(p), p.dst) ==> Passes(MapRules(PcRule, es), p)
    ensures forall i: nat, k: nat :: !p.groupCall && FirstTakes(es, PktSlot(p), p.dst, i, k) ==>
      Makes(MapRules(PcRule, es), p, p.(dst := Target(es[i], k), slot := es[i].toSlot == 2))
  {
    hide Matches, Rewritten, Takes, Words, Target, Makes, Passes;
    var rules := MapRules(PcRule, es);
    forall i | 0 <= i < |es|
      ensures Matches(rules[i], p) <==> !p.groupCall && p.dst >= es[i].from && Takes(es[i], PktSlot(p), p.dst, p.dst - es[i].from)
      ensures Matches(rules[i], p) ==> Rewritten(rules[i], p) == p.(dst := Target(es[i], p.dst - es[i].from), slot := es[i].toSlot == 2)
    {
      PcRuleDoes(es[i], p);
    }
    FirstRule(rules, es, p, !p.groupCall, p.dst);
  }

  lemma TypePart(es: seq<RangeConfig>, p: Packet)
    requires AllWords(es) && p.dst < WORD
    ensures !p.groupCall || NoneTakes(es, PktSlot(p), p.dst) ==> Passes(MapRules(TypeRule, es), p)
    ensures forall i: nat, k: nat :: p.groupCall && FirstTakes(es, PktSlot(p), p.dst, i, k) ==>
      Makes(MapRules(TypeRule, es), p, p.(dst := Target(es[i], k), slot := es[i].toSlot == 2, groupCall := false))
  {
    hide Matches, Rewritten, Takes, Words, Target, Makes, Passes;
    var rules := MapRules(TypeRule, es);
    forall i | 0 <= i < |es|
      ensures Matches(rules[i], p) <==> p.groupCall && p.dst >= es[i].from && Takes(es[i], PktSlot(p), p.dst, p.dst - es[i].from)
      ensures Matches(rules[i], p) ==>
        Rewritten(rules[i], p) == p.(dst := Target(es[i], p.dst - es[i].from), slot := es[i].toSlot == 2, groupCall := false)
    {
      TypeRuleDoes(es[i], p);
    }
    FirstRule(rules, es, p, p.groupCall, p.dst);
  }

  lemma SrcPart(es: seq<RangeConfig>, p: Packet)
    requires AllWords(es) && p.src < WORD
    ensures NoneTakes(es, PktSlot(p), p.src) ==> Passes(MapRules(SrcRule, es), p)
    ensures forall i: nat, k: nat :: FirstTakes(es, PktSlot(p), p.src, i, k) ==>
      Makes(MapRules(SrcRule, es), p, p.(src := Target(es[i], k), slot := es[i].toSlot == 2))
  {
    hide Matches, Rewritten, Takes, Words, Target, Makes, Passes;
    var rules := MapRules(SrcRule, es);
    forall i | 0 <= i < |es|
      ensures Matches(rules[i], p) <==> p.src >= es[i].from && Takes(es[i], PktSlot(p), p.src, p.src - es[i].from)
      ensures Matches(rules[i], p) ==> Rewritten(rules[i], p) == p.(src := Target(es[i], p.src - es[i].from), slot := es[i].toSlot == 2)
    {
      SrcRuleDoes(es[i], p);
    }
    FirstRule(rules, es, p, true, p.src);
  }

  lemma {:induction false} PassPart(group: bool, slots: seq<int>, p: Packet)
    ensures var rules := PassRules(group, slots);
      if p.groupCall == group && PktSlot(p) in slots then Makes(rules, p, p) else Passes(rules, p)
  {
    if slots != [] {
      PassPart(group, slots[1..], p);
      var first := if slots[0] < 0 then [] else [if group then PassAllTG(slots[0]) else PassAllPC(slots[0])];
      assert PassRules(group, slots) == first + PassRules(group, slots[1..]);
      Joined(first, PassRules(group, slots[1..]), p);
    }
  }

  // ---------- The chains ----------

  /** The slot a packet is on, counted from one. */
  function SlotNumber(p: Packet): nat {
    if p.slot then 2 else 1
  }

  ghost predicate ConfigWords(c: Config) {
    AllWords(c.tgRewrites) && AllWords(c.pcRewrites) && AllWords(c.typeRewrites) && AllWords(c.srcRewrites)
  }

  /**
    The outbound chain, for every configuration and packet. A group packet that is number k of a talkgroup entry's source
    range leaves as number k of its target range, by the first such entry; failing that, by the first such type entry, and
    as a private packet. A private packet does so by the first private entry. Slot and id are all that changes, and
    no other packet matches.
   */
  lemma Outbound(c: Config, p: Packet)
    requires ConfigWords(c) && p.dst < WORD
    ensures var rules, slot := RfRules(c), SlotNumber(p);
      && (forall i: nat, k: nat :: p.groupCall && FirstTakes(c.tgRewrites, slot, p.dst, i, k) ==>
          Makes(rules, p, p.(dst := Target(c.tgRewrites[i], k), slot := c.tgRewrites[i].toSlot == 2)))
      && (forall i: nat, k: nat ::
          p.groupCall && NoneTakes(c.tgRewrites, slot, p.dst) && FirstTakes(c.typeRewrites, slot, p.dst, i, k) ==>
          Makes(rules, p, p.(dst := Target(c.typeRewrites[i], k), slot := c.typeRewrites[i].toSlot == 2, groupCall := false)))
      && (forall i: nat, k: nat :: !p.groupCall && FirstTakes(c.pcRewrites, slot, p.dst, i, k) ==>
          Makes(rules, p, p.(dst := Target(c.pcRewrites[i], k), slot := c.pcRewrites[i].toSlot == 2)))
      && (p.groupCall && NoneTakes(c.tgRewrites, slot, p.dst) && NoneTakes(c.typeRewrites, slot, p.dst) ==> Passes(rules, p))
      && (!p.groupCall && NoneTakes(c.pcRewrites, slot, p.dst) ==> Passes(rules, p))
  {
    var tg, pc, ty := MapRules(Forward, c.tgRewrites), MapRules(PcRule, c.pcRewrites), MapRules(TypeRule, c.typeRewrites);
    assert RfRules(c) == tg + pc + ty;
    hide FirstTakes, NoneTakes, AllWords, Target, MapRules, RfRules, Applied, FirstMatch;
    TgPart(c.tgRewrites, p);
    PcPart(c.pcRewrites, p);
    TypePart(c.typeRewrites, p);
    Joined(tg, pc, p);
    Joined(tg + pc, ty, p);
  }

  /** A packet that the talkgroup entries, read backwards, leave alone. */
  ghost predicate NotBack(c: Config, p: Packet) {
    !p.groupCall || NoneTakes(AllTurned(c.tgRewrites), SlotNumber(p), p.dst)
  }

  lemma BackwardIsTurned(es: seq<RangeConfig>)
    ensures MapRules(Backward, es) == MapRules(Forward, AllTurned(es))
    ensures AllWords(es) ==> AllWords(AllTurned(es))
  {
    assert forall i :: 0 <= i < |es| ==> Backward(es[i]) == Forward(AllTurned(es)[i]);
  }

  predicate PassesAll(c: Config, p: Packet) {
    SlotNumber(p) in (if p.groupCall then c.passAllTG else c.passAllPC)
  }

  lemma Fallback(c: Config, p: Packet)
    ensures if PassesAll(c, p) then Makes(FallbackRules(c), p, p) else Passes(FallbackRules(c), p)
  {
    var tg, pc := PassRules(true, c.passAllTG), PassRules(false, c.passAllPC);
    hide PassRules, FirstMatch, Applied;
    PassPart(true, c.passAllTG, p);
    PassPart(false, c.passAllPC, p);
    Joined(tg, pc, p);
  }

  /**
    The inbound chain: the talkgroup entries read backwards, then the source entries, which move the source, then the slots
    that let everything pass as it is.
   */
  lemma Inbound(c: Config, p: Packet)
    requires ConfigWords(c) && p.dst < WORD && p.src < WORD
    ensures var rules, slot, back := NetRules(c), SlotNumber(p), AllTurned(c.tgRewrites);
      && (forall i: nat, k: nat :: p.groupCall && FirstTakes(back, slot, p.dst, i, k) ==>
          Makes(rules, p, p.(dst := (c.tgRewrites[i].from + k) % WORD, slot := c.tgRewrites[i].fromSlot == 2)))
      && (forall i: nat, k: nat :: NotBack(c, p) && FirstTakes(c.srcRewrites, slot, p.src, i, k) ==>
          Makes(rules, p, p.(src := Target(c.srcRewrites[i], k), slot := c.srcRewrites[i].toSlot == 2)))
      && (NotBack(c, p) && NoneTakes(c.srcRewrites, slot, p.src) ==>
          if PassesAll(c, p) then Makes(rules, p, p) else Passes(rules, p))
  {
    var back := AllTurned(c.tgRewrites);
    var tg, src, pass := MapRules(Forward, back), MapRules(SrcRule, c.srcRewrites), FallbackRules(c);
    BackwardIsTurned(c.tgRewrites);
    assert NetRules(c) == tg + src + pass;
    forall i: nat, k: nat | FirstTakes(back, SlotNumber(p), p.dst, i, k)
      ensures i < |back| && Target(back[i], k) == (c.tgRewrites[i].from + k) % WORD && back[i].toSlot == c.tgRewrites[i].fromSlot
    {
    }
    hide FirstTakes, NoneTakes, AllWords, Target, MapRules, NetRules, FallbackRules, PassesAll, Applied, FirstMatch;
    TgPart(back, p);
    SrcPart(c.srcRewrites, p);
    Fallback(c, p);
    Joined(tg, src, p);
    Joined(tg + src, pass, p);
  }
}
