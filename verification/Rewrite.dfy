/** Rewrite rules and the chains built from a configuration, from internal/mmdvm/rewrite and internal/mmdvm/client.go. */
module Rewrite {
  import opened Dmrd

  /** Go's `uint` arithmetic wraps at 2^64. */
  const WORD: nat := 0x1_0000_0000_0000_0000

  datatype Rule =
    | TGRewrite(fromSlot: nat, fromTG: nat, toSlot: nat, toTG: nat, range: nat)
    | PCRewrite(fromSlot: nat, fromId: nat, toSlot: nat, toId: nat, range: nat)
    | TypeRewrite(fromSlot: nat, fromTG: nat, toSlot: nat, toId: nat, range: nat)
    | SrcRewrite(fromSlot: nat, fromId: nat, toSlot: nat, toId: nat, range: nat)
    | PassAllTG(slot: nat)
    | PassAllPC(slot: nat)

  function PktSlot(p: Packet): nat {
    if p.slot then 2 else 1
  }

  function WithSlot(p: Packet, fromSlot: nat, toSlot: nat): Packet {
    if fromSlot != toSlot then p.(slot := toSlot == 2) else p
  }

  /** The last number of a range, wrapping like the machine word does. */
  function RangeEnd(start: nat, range: nat): nat {
    (start + range - 1) % WORD
  }

  predicate InRange(x: nat, start: nat, range: nat) {
    start <= x <= RangeEnd(start, range)
  }

  /** `x + to - from` in wrapping arithmetic. */
  function Moved(x: nat, from: nat, to: nat): nat {
    (x + to - from) % WORD
  }

  predicate Matches(r: Rule, p: Packet) {
    match r
    case TGRewrite(fromSlot, fromTG, _, _, range) => p.groupCall && PktSlot(p) == fromSlot && InRange(p.dst, fromTG, range)
    case PCRewrite(fromSlot, fromId, _, _, range) => !p.groupCall && PktSlot(p) == fromSlot && InRange(p.dst, fromId, range)
    case TypeRewrite(fromSlot, fromTG, _, _, range) => p.groupCall && PktSlot(p) == fromSlot && InRange(p.dst, fromTG, range)
    case SrcRewrite(fromSlot, fromId, _, _, range) => PktSlot(p) == fromSlot && InRange(p.src, fromId, range)
    case PassAllTG(slot) => p.groupCall && PktSlot(p) == slot
    case PassAllPC(slot) => !p.groupCall && PktSlot(p) == slot
  }

  /** What a matching rule makes of a packet. */
  function Rewritten(r: Rule, p: Packet): Packet {
    match r
    case TGRewrite(fromSlot, fromTG, toSlot, toTG, _) =>
      var q := WithSlot(p, fromSlot, toSlot);
      if fromTG != toTG then q.(dst := Moved(q.dst, fromTG, toTG)) else q
    case PCRewrite(fromSlot, fromId, toSlot, toId, _) =>
      var q := WithSlot(p, fromSlot, toSlot);
      if fromId != toId then q.(dst := Moved(q.dst, fromId, toId)) else q
    case TypeRewrite(fromSlot, fromTG, toSlot, toId, _) =>
      var q := WithSlot(p, fromSlot, toSlot);
      (if fromTG != toId then q.(dst := Moved(q.dst, fromTG, toId)) else q).(groupCall := false)
    case SrcRewrite(fromSlot, fromId, toSlot, toId, _) =>
      var q := WithSlot(p, fromSlot, toSlot);
      q.(src := Moved(q.src, fromId, toId))
    case PassAllTG(_) => p
    case PassAllPC(_) => p
  }

  /** The index of the first rule that matches, or the number of rules. */
  function FirstMatch(rules: seq<Rule>, p: Packet): (i: nat)
    ensures i <= |rules|
    ensures i < |rules| ==> Matches(rules[i], p)
    ensures forall k :: 0 <= k < i ==> !Matches(rules[k], p)
  {
    if rules == [] || Matches(rules[0], p) then 0 else 1 + FirstMatch(rules[1..], p)
  }

  /** The packet after a chain: rewritten by the first matching rule, or as it was. */
  function Applied(rules: seq<Rule>, p: Packet): Packet {
    var i := FirstMatch(rules, p);
    if i < |rules| then Rewritten(rules[i], p) else p
  }

  method Apply(rules: seq<Rule>, pkt: Packet) returns (out: Packet, matched: bool)
    ensures matched == (FirstMatch(rules, pkt) < |rules|)
    ensures out == Applied(rules, pkt)
  {
    hide Matches, Rewritten;
    for i := 0 to |rules|
      invariant forall k :: 0 <= k < i ==> !Matches(rules[k], pkt)
    {
      if Matches(rules[i], pkt) {
        FirstMatchIs(rules, pkt, i);
        return Rewritten(rules[i], pkt), true;
      }
    }
    FirstMatchIs(rules, pkt, |rules|);
    return pkt, false;
  }

  lemma FirstMatchIs(rules: seq<Rule>, p: Packet, i: nat)
    requires i <= |rules| && (i < |rules| ==> Matches(rules[i], p))
    requires forall k :: 0 <= k < i ==> !Matches(rules[k], p)
    ensures FirstMatch(rules, p) == i
  {
    hide Matches;
    var n := FirstMatch(rules, p);
  }

  // ---------- The chains of a network ----------

  datatype RangeConfig = RangeConfig(fromSlot: nat, from: nat, toSlot: nat, to: nat, range: nat)

  datatype Config = Config(
    tgRewrites: seq<RangeConfig>, pcRewrites: seq<RangeConfig>, typeRewrites: seq<RangeConfig>, srcRewrites: seq<RangeConfig>,
    passAllTG: seq<int>, passAllPC: seq<int>)

  /** A zero range counts as one number. */
  function Span(c: RangeConfig): nat {
    if c.range == 0 then 1 else c.range
  }

  function Forward(c: RangeConfig): Rule {
    TGRewrite(c.fromSlot, c.from, c.toSlot, c.to, Span(c))
  }

  function Backward(c: RangeConfig): Rule {
    TGRewrite(c.toSlot, c.to, c.fromSlot, c.from, Span(c))
  }

  function PcRule(c: RangeConfig): Rule {
    PCRewrite(c.fromSlot, c.from, c.toSlot, c.to, Span(c))
  }

  function TypeRule(c: RangeConfig): Rule {
    TypeRewrite(c.fromSlot, c.from, c.toSlot, c.to, Span(c))
  }

  function SrcRule(c: RangeConfig): Rule {
    SrcRewrite(c.fromSlot, c.from, c.toSlot, c.to, Span(c))
  }

  function MapRules(f: RangeConfig -> Rule, cs: seq<RangeConfig>): (rs: seq<Rule>)
    ensures |rs| == |cs|
  {
    seq(|cs|, i requires 0 <= i < |cs| => f(cs[i]))
  }

  /** Negative slot numbers are skipped. */
  function PassRules(group: bool, slots: seq<int>): seq<Rule> {
    if slots == [] then []
    else (if slots[0] < 0 then [] else [if group then PassAllTG(slots[0]) else PassAllPC(slots[0])]) + PassRules(group, slots[1..])
  }

  function RfRules(c: Config): seq<Rule> {
    MapRules(Forward, c.tgRewrites) + MapRules(PcRule, c.pcRewrites) + MapRules(TypeRule, c.typeRewrites)
  }

  function NetRules(c: Config): seq<Rule> {
    MapRules(Backward, c.tgRewrites) + MapRules(SrcRule, c.srcRewrites) + PassRules(true, c.passAllTG) + PassRules(false, c.passAllPC)
  }

  function FallbackRules(c: Config): seq<Rule> {
    PassRules(true, c.passAllTG) + PassRules(false, c.passAllPC)
  }

  /** Appends the forward and the reverse rule of every talkgroup entry. */
  method BuildRewriteRules(c: Config) returns (rf: seq<Rule>, net: seq<Rule>, fallback: seq<Rule>)
    ensures rf == RfRules(c) && net == NetRules(c) && fallback == FallbackRules(c)
  {
    rf, net, fallback := [], [], [];
    for i := 0 to |c.tgRewrites|
      invariant rf == MapRules(Forward, c.tgRewrites[..i]) && net == MapRules(Backward, c.tgRewrites[..i])
    {
      rf := rf + [Forward(c.tgRewrites[i])];
      net := net + [Backward(c.tgRewrites[i])];
    }
    assert c.tgRewrites[..|c.tgRewrites|] == c.tgRewrites;
    ghost var rf0, net0 := rf, net;
    for i := 0 to |c.pcRewrites|
      invariant rf == rf0 + MapRules(PcRule, c.pcRewrites[..i])
    {
      rf := rf + [PcRule(c.pcRewrites[i])];
    }
    assert c.pcRewrites[..|c.pcRewrites|] == c.pcRewrites;
    ghost var rf1 := rf;
    for i := 0 to |c.typeRewrites|
      invariant rf == rf1 + MapRules(TypeRule, c.typeRewrites[..i])
    {
      rf := rf + [TypeRule(c.typeRewrites[i])];
    }
    assert c.typeRewrites[..|c.typeRewrites|] == c.typeRewrites;
    for i := 0 to |c.srcRewrites|
      invariant net == net0 + MapRules(SrcRule, c.srcRewrites[..i])
    {
      net := net + [SrcRule(c.srcRewrites[i])];
    }
    assert c.srcRewrites[..|c.srcRewrites|] == c.srcRewrites;
    var passTG := BuildPassRules(true, c.passAllTG);
    var passPC := BuildPassRules(false, c.passAllPC);
    net, fallback := net + passTG + passPC, passTG + passPC;
  }

  method BuildPassRules(group: bool, slots: seq<int>) returns (rs: seq<Rule>)
    ensures rs == PassRules(group, slots)
  {
    rs := [];
    for i := 0 to |slots|
      invariant rs + PassRules(group, slots[i..]) == PassRules(group, slots)
    {
      assert slots[i..][1..] == slots[i + 1..];
      if slots[i] < 0 {
        continue;
      }
      rs := rs + [if group then PassAllTG(slots[i]) else PassAllPC(slots[i])];
    }
  }

  // ---------- The way back ----------

  /** A talkgroup entry that the configuration check admits, with numbers that are machine words. */
  predicate ValidEntry(c: RangeConfig) {
    c.fromSlot in {1, 2} && c.toSlot in {1, 2} && c.from < WORD && c.to < WORD && Span(c) < WORD
  }

  /** The target range does not run past the largest number. */
  predicate TargetFits(c: RangeConfig) {
    c.to + Span(c) <= WORD
  }

  /** Two entries translate by the same amount, from the same slot. */
  predicate SameMove(a: RangeConfig, b: RangeConfig) {
    a.fromSlot == b.fromSlot && (a.to + b.from) % WORD == (a.from + b.to) % WORD
  }

  lemma MovedBack(d: nat, from: nat, to: nat, from': nat, to': nat)
    requires d < WORD
    ensures Moved(Moved(d, from, to), to', from') == d <==> (to + from') % WORD == (from + to') % WORD
  {
    var k := (d + to - from) / WORD;
    var m := Moved(d, from, to);
    assert m == d + to - from - WORD * k;
    var t := to + from' - from - to';
    assert m + from' - to' == d + t - WORD * k;
    ModShift(d + t, k);
    if (d + t) % WORD == d {
      assert t == WORD * ((d + t) / WORD);
      ModShift(from + to', (d + t) / WORD);
    }
    if (to + from') % WORD == (from + to') % WORD {
      var a, b := (to + from') / WORD, (from + to') / WORD;
      assert t == WORD * (a - b);
      ModShift(d, a - b);
    }
  }

  lemma ModShift(x: int, k: int)
    ensures (x + WORD * k) % WORD == x % WORD && (x - WORD * k) % WORD == x % WORD
  {
    var q, r := x / WORD, x % WORD;
    assert x + WORD * k == WORD * (q + k) + r;
    assert x - WORD * k == WORD * (q - k) + r;
  }

  lemma MovedBySame(d: nat, from: nat)
    requires d < WORD
    ensures Moved(d, from, from) == d
  {
  }

  /** Sending a packet through one entry and back through another. */
  lemma ThereAndBack(a: RangeConfig, b: RangeConfig, p: Packet)
    requires ValidEntry(a) && ValidEntry(b) && p.dst < WORD && Matches(Forward(a), p) && a.toSlot == b.toSlot
    ensures Rewritten(Backward(b), Rewritten(Forward(a), p)) == p <==> SameMove(a, b)
  {
    MovedBySame(p.dst, a.from);
    MovedBySame(Moved(p.dst, a.from, a.to), b.from);
    hide Moved;
    MovedBack(p.dst, a.from, a.to, b.from, b.to);
  }

  /** A packet that an entry rewrote lies in the entry's target range. */
  lemma LandsInTarget(a: RangeConfig, p: Packet)
    requires ValidEntry(a) && TargetFits(a) && p.dst < WORD && Matches(Forward(a), p)
    ensures var q := Rewritten(Forward(a), p);
      && q.groupCall && PktSlot(q) == a.toSlot && a.to <= q.dst < a.to + Span(a) && Matches(Backward(a), q)
  {
    assert RangeEnd(a.to, Span(a)) == a.to + Span(a) - 1;
    assert p.dst - a.from < Span(a) by {
      SourceSpan(a, p.dst);
    }
    assert Moved(p.dst, a.from, a.to) == a.to + (p.dst - a.from);
  }

  lemma SourceSpan(a: RangeConfig, d: nat)
    requires InRange(d, a.from, Span(a))
    ensures d - a.from < Span(a)
  {
    var e := a.from + Span(a) - 1;
    assert e % WORD <= e;
  }

  ghost predicate ValidEntries(cs: seq<RangeConfig>) {
    forall i :: 0 <= i < |cs| ==> ValidEntry(cs[i])
  }

  lemma RfRuleAt(c: Config, i: nat)
    requires i < |c.tgRewrites|
    ensures |RfRules(c)| >= |c.tgRewrites| && RfRules(c)[i] == Forward(c.tgRewrites[i])
    ensures |NetRules(c)| >= |c.tgRewrites| && NetRules(c)[i] == Backward(c.tgRewrites[i])
  {
  }

  lemma {:induction false} PassRulesPass(group: bool, slots: seq<int>, k: nat)
    requires k < |PassRules(group, slots)|
    ensures var r := PassRules(group, slots)[k]; r.PassAllTG? || r.PassAllPC?
  {
    var first := if slots[0] < 0 then 0 else 1;
    if k >= first {
      PassRulesPass(group, slots[1..], k - first);
    }
  }

  /** Behind the talkgroup entries no rule of the inbound chain changes the destination. */
  lemma LaterRules(c: Config, k: nat, q: Packet)
    requires |c.tgRewrites| <= k < |NetRules(c)|
    ensures Rewritten(NetRules(c)[k], q).dst == q.dst
  {
    var n, m := |c.tgRewrites|, |c.srcRewrites|;
    var tg, pc := PassRules(true, c.passAllTG), PassRules(false, c.passAllPC);
    if k < n + m {
      assert NetRules(c)[k] == SrcRule(c.srcRewrites[k - n]);
    } else if k < n + m + |tg| {
      assert NetRules(c)[k] == tg[k - n - m];
      PassRulesPass(true, c.passAllTG, k - n - m);
    } else {
      assert NetRules(c)[k] == pc[k - n - m - |tg|];
      PassRulesPass(false, c.passAllPC, k - n - m - |tg|);
    }
  }

  /** An entry whose target range passes the top of the word lets no packet back, and moves every packet that it takes. */
  lemma Overflows(a: RangeConfig, p: Packet)
    requires ValidEntry(a) && !TargetFits(a) && p.dst < WORD && Matches(Forward(a), p)
    ensures forall q :: !Matches(Backward(a), q)
    ensures Rewritten(Forward(a), p).dst != p.dst
  {
    WrappedEnd(a.to, Span(a));
    if a.from == a.to {
      assert false;
    }
    MovedAway(p.dst, a.from, a.to);
  }

  lemma WrappedEnd(start: nat, range: nat)
    requires 0 < range < WORD && start < WORD < start + range
    ensures RangeEnd(start, range) < start
  {
    assert start + range - 1 == WORD + (start + range - 1 - WORD);
  }

  lemma MovedAway(d: nat, from: nat, to: nat)
    requires d < WORD && from < WORD && to < WORD && from != to
    ensures Moved(d, from, to) != d
  {
    if Moved(d, from, to) == d {
      EqualSums(d + to - from, d);
      assert false;
    }
  }

  lemma EqualSums(x: int, y: int)
    requires x % WORD == y % WORD && 0 - WORD < x - y < WORD
    ensures x == y
  {
    var k := x / WORD - y / WORD;
    assert x - y == WORD * k;
  }

  /**
    A group packet that a talkgroup entry of the outbound chain rewrote comes back through the inbound chain
    unchanged if and only if a talkgroup entry's target range holds the rewritten packet, and the first such entry
    moves packets by the same amount from the same slot. The entry that rewrote it is such an entry, unless its
    target range passes the top of the word.
   */
  lemma RestoredIff(c: Config, p: Packet)
    requires ValidEntries(c.tgRewrites) && p.dst < WORD
    requires FirstMatch(RfRules(c), p) < |c.tgRewrites|
    ensures var i := FirstMatch(RfRules(c), p);
      var j := FirstMatch(NetRules(c), Applied(RfRules(c), p));
      && (TargetFits(c.tgRewrites[i]) ==> j <= i)
      && (Applied(NetRules(c), Applied(RfRules(c), p)) == p
          <==> j < |c.tgRewrites| && SameMove(c.tgRewrites[i], c.tgRewrites[j]))
  {
    hide RfRules, NetRules, Rewritten, Matches, ValidEntry, SameMove, TargetFits;
    var i := FirstMatch(RfRules(c), p);
    var a := c.tgRewrites[i];
    RfRuleAt(c, i);
    var q := Applied(RfRules(c), p);
    var j := FirstMatch(NetRules(c), q);
    if TargetFits(a) {
      LandsInTarget(a, p);
    }
    if j < |c.tgRewrites| {
      RfRuleAt(c, j);
      BackwardMatch(c.tgRewrites[j], q);
      Lands(a, p);
      ThereAndBack(a, c.tgRewrites[j], p);
    } else {
      Overflows(a, p);
      if j < |NetRules(c)| {
        LaterRules(c, j, q);
      }
    }
  }

  lemma Lands(a: RangeConfig, p: Packet)
    requires ValidEntry(a) && Matches(Forward(a), p)
    ensures PktSlot(Rewritten(Forward(a), p)) == a.toSlot
  {
  }

  lemma BackwardMatch(c: RangeConfig, q: Packet)
    requires Matches(Backward(c), q)
    ensures PktSlot(q) == c.toSlot && InRange(q.dst, c.to, Span(c))
  {
  }

  /** Target ranges on the same slot do not overlap. */
  ghost predicate TargetsDisjoint(cs: seq<RangeConfig>) {
    forall i, j :: 0 <= i < j < |cs| && cs[i].toSlot == cs[j].toSlot ==>
      cs[i].to + Span(cs[i]) <= cs[j].to || cs[j].to + Span(cs[j]) <= cs[i].to
  }

  /** With disjoint target ranges, every group packet the talkgroup entries rewrite is restored exactly. */
  lemma DisjointTargetsRestore(c: Config, p: Packet)
    requires ValidEntries(c.tgRewrites) && TargetsDisjoint(c.tgRewrites) && p.dst < WORD
    requires forall i :: 0 <= i < |c.tgRewrites| ==> TargetFits(c.tgRewrites[i])
    requires FirstMatch(RfRules(c), p) < |c.tgRewrites|
    ensures Applied(NetRules(c), Applied(RfRules(c), p)) == p
  {
    hide RfRules, NetRules, Rewritten, Matches;
    var i := FirstMatch(RfRules(c), p);
    RestoredIff(c, p);
    var q := Applied(RfRules(c), p);
    var j := FirstMatch(NetRules(c), q);
    RfRuleAt(c, i);
    RfRuleAt(c, j);
    LandsInTarget(c.tgRewrites[i], p);
    BackwardMatch(c.tgRewrites[j], q);
    var b := c.tgRewrites[j];
    assert RangeEnd(b.to, Span(b)) == b.to + Span(b) - 1;
    assert i == j;
  }

  // ---------- What a configuration check can ask ----------

  /** The source id d reaches entry i: it is in its source range and in none before it on the same slot. */
  ghost predicate Reaches(cs: seq<RangeConfig>, i: nat, d: nat)
    requires i < |cs|
  {
    && InRange(d, cs[i].from, Span(cs[i]))
    && forall k :: 0 <= k < i && cs[k].fromSlot == cs[i].fromSlot ==> !InRange(d, cs[k].from, Span(cs[k]))
  }

  /** The id an entry gives to d. */
  function Image(e: RangeConfig, d: nat): nat {
    Moved(d, e.from, e.to)
  }

  predicate Holds(e: RangeConfig, slot: nat, y: nat) {
    e.toSlot == slot && InRange(y, e.to, Span(e))
  }

  /** Entry j is the first whose target holds the image of d under entry i. */
  ghost predicate FirstHolder(cs: seq<RangeConfig>, i: nat, d: nat, j: nat)
    requires i < |cs| && j < |cs|
  {
    Holds(cs[j], cs[i].toSlot, Image(cs[i], d)) && forall k :: 0 <= k < j ==> !Holds(cs[k], cs[i].toSlot, Image(cs[i], d))
  }

  /** Every id that reaches an entry comes back. */
  ghost predicate Reversible(cs: seq<RangeConfig>) {
    forall i: nat, d: nat :: i < |cs| && d < WORD && Reaches(cs, i, d) ==> ComesBack(cs, i, d)
  }

  /** The image of d is held, and the first entry that holds it has the same move. */
  ghost predicate ComesBack(cs: seq<RangeConfig>, i: nat, d: nat)
    requires i < |cs|
  {
    exists j: nat :: j < |cs| && FirstHolder(cs, i, d, j) && SameMove(cs[i], cs[j])
  }

  ghost predicate Restored(c: Config, p: Packet) {
    Applied(NetRules(c), Applied(RfRules(c), p)) == p
  }

  /** A group packet for id d on the slot of entry i. */
  function Probe(e: RangeConfig, d: nat): Packet {
    Packet(0, 0, d, 0, e.fromSlot == 2, true, 0, 0, 0, [])
  }

  lemma ForwardMatch(e: RangeConfig, p: Packet)
    ensures Matches(Forward(e), p) <==> p.groupCall && PktSlot(p) == e.fromSlot && InRange(p.dst, e.from, Span(e))
    ensures Matches(Backward(e), p) <==> p.groupCall && Holds(e, PktSlot(p), p.dst)
  {
  }

  lemma ImageOf(e: RangeConfig, p: Packet)
    requires ValidEntry(e) && p.dst < WORD && PktSlot(p) == e.fromSlot
    ensures var q := Rewritten(Forward(e), p); q.dst == Image(e, p.dst) && PktSlot(q) == e.toSlot && q.groupCall == p.groupCall
  {
    MovedBySame(p.dst, e.from);
  }

  /** The entry a group packet meets first is the one its id reaches. */
  lemma MeetsReached(c: Config, p: Packet, i: nat)
    requires i < |c.tgRewrites| && p.groupCall && PktSlot(p) == c.tgRewrites[i].fromSlot
    ensures FirstMatch(RfRules(c), p) == i <==> Reaches(c.tgRewrites, i, p.dst)
  {
    hide Matches, RfRules, NetRules;
    var cs := c.tgRewrites;
    forall k | 0 <= k <= i
      ensures |RfRules(c)| > k
      ensures Matches(RfRules(c)[k], p) <==> cs[k].fromSlot == cs[i].fromSlot && InRange(p.dst, cs[k].from, Span(cs[k]))
    {
      RfRuleAt(c, k);
      ForwardMatch(cs[k], p);
    }
    if Reaches(cs, i, p.dst) {
      FirstMatchIs(RfRules(c), p, i);
    }
  }

  /** The entry the rewritten packet meets first on the way back is the first that holds its id. */
  lemma MeetsHolder(c: Config, p: Packet, i: nat, j: nat)
    requires ValidEntries(c.tgRewrites) && p.dst < WORD && p.groupCall
    requires i < |c.tgRewrites| && j < |c.tgRewrites| && PktSlot(p) == c.tgRewrites[i].fromSlot
    ensures FirstMatch(NetRules(c), Rewritten(Forward(c.tgRewrites[i]), p)) == j <==> FirstHolder(c.tgRewrites, i, p.dst, j)
  {
    hide Matches, Rewritten, RfRules, NetRules, Image;
    var cs := c.tgRewrites;
    var q := Rewritten(Forward(cs[i]), p);
    ImageOf(cs[i], p);
    forall k | 0 <= k <= j
      ensures |NetRules(c)| > k && (Matches(NetRules(c)[k], q) <==> Holds(cs[k], cs[i].toSlot, Image(cs[i], p.dst)))
    {
      RfRuleAt(c, k);
      ForwardMatch(cs[k], q);
    }
    if FirstHolder(cs, i, p.dst, j) {
      FirstMatchIs(NetRules(c), q, j);
    }
  }

  /** A packet that entry i rewrites is restored if and only if its id comes back. */
  lemma RestoredByHolder(c: Config, p: Packet, i: nat)
    requires ValidEntries(c.tgRewrites) && p.dst < WORD && i < |c.tgRewrites| && FirstMatch(RfRules(c), p) == i
    ensures p.groupCall && PktSlot(p) == c.tgRewrites[i].fromSlot && Reaches(c.tgRewrites, i, p.dst)
    ensures Restored(c, p) <==> ComesBack(c.tgRewrites, i, p.dst)
  {
    var cs := c.tgRewrites;
    RfRuleAt(c, i);
    ForwardMatch(cs[i], p);
    hide Matches, Rewritten, RfRules, NetRules, Reaches, FirstHolder, SameMove;
    MeetsReached(c, p, i);
    RestoredIff(c, p);
    var j0 := FirstMatch(NetRules(c), Applied(RfRules(c), p));
    if j0 < |cs| {
      MeetsHolder(c, p, i, j0);
    }
    forall j: nat | j < |cs| && FirstHolder(cs, i, p.dst, j)
      ensures j == j0
    {
      MeetsHolder(c, p, i, j);
    }
  }

  /**
    What a configuration check would ask: all group packets that talkgroup entries rewrite come back unchanged
    if and only if, for every id that reaches an entry, some entry's target holds its image and the first such has the
    same move.
   */
  lemma AllRestoredIff(c: Config)
    requires ValidEntries(c.tgRewrites)
    ensures (forall p: Packet :: p.dst < WORD && FirstMatch(RfRules(c), p) < |c.tgRewrites| ==> Restored(c, p))
       <==> Reversible(c.tgRewrites)
  {
    hide Matches, Rewritten, RfRules, NetRules, Reaches, ComesBack, Restored, ValidEntry;
    var cs := c.tgRewrites;
    if Reversible(cs) {
      forall p: Packet | p.dst < WORD && FirstMatch(RfRules(c), p) < |cs|
        ensures Restored(c, p)
      {
        RestoredByHolder(c, p, FirstMatch(RfRules(c), p));
      }
    }
    if forall p: Packet :: p.dst < WORD && FirstMatch(RfRules(c), p) < |cs| ==> Restored(c, p) {
      forall i: nat, d: nat | i < |cs| && d < WORD && Reaches(cs, i, d)
        ensures ComesBack(cs, i, d)
      {
        var p := Probe(cs[i], d);
        ProbeSlot(cs[i], d);
        MeetsReached(c, p, i);
        RestoredByHolder(c, p, i);
      }
    }
  }

  lemma ProbeSlot(e: RangeConfig, d: nat)
    requires ValidEntry(e)
    ensures PktSlot(Probe(e, d)) == e.fromSlot
  {
  }

  /** The source range does not run past the largest number either. */
  predicate SourceFits(c: RangeConfig) {
    c.from + Span(c) <= WORD
  }

  /** Of no id that reaches an entry does an earlier entry, on the same target slot, hold the image. */
  ghost predicate Unshadowed(cs: seq<RangeConfig>) {
    forall i: nat, d: nat, j: nat :: j < i < |cs| && d < WORD && Reaches(cs, i, d) ==> !Holds(cs[j], cs[i].toSlot, Image(cs[i], d))
  }

  /** Without overflow an image is at the same distance from the target's start as the id from the source's. */
  lemma ImageIs(e: RangeConfig, d: nat)
    requires ValidEntry(e) && TargetFits(e) && InRange(d, e.from, Span(e))
    ensures Image(e, d) == e.to + (d - e.from) && Holds(e, e.toSlot, Image(e, d))
  {
    SourceSpan(e, d);
    EndIs(e.to, Span(e));
  }

  lemma EndIs(start: nat, range: nat)
    requires 0 < range && start + range <= WORD
    ensures RangeEnd(start, range) == start + range - 1
  {
  }

  /** An entry with the same move holds the image of d only if d is in its own source range. */
  lemma SameMoveSource(a: RangeConfig, b: RangeConfig, d: nat)
    requires ValidEntry(a) && ValidEntry(b) && TargetFits(a) && TargetFits(b) && SourceFits(b) && SameMove(a, b)
    requires d < WORD && InRange(d, a.from, Span(a)) && Holds(b, a.toSlot, Image(a, d))
    ensures InRange(d, b.from, Span(b))
  {
    ImageIs(a, d);
    EndIs(b.to, Span(b));
    EndIs(b.from, Span(b));
    hide RangeEnd, Image, Moved;
    EqualSums(a.to + b.from, a.from + b.to);
  }

  /** Where no range overflows, the configuration is reversible if and only if no entry's images fall to an earlier one. */
  lemma ReversibleIff(cs: seq<RangeConfig>)
    requires ValidEntries(cs) && forall i :: 0 <= i < |cs| ==> TargetFits(cs[i]) && SourceFits(cs[i])
    ensures Reversible(cs) <==> Unshadowed(cs)
  {
    hide Holds, Image, InRange, SameMove, ValidEntry, TargetFits, SourceFits;
    if Reversible(cs) {
      forall i: nat, d: nat, j: nat | j < i < |cs| && d < WORD && Reaches(cs, i, d)
        ensures !Holds(cs[j], cs[i].toSlot, Image(cs[i], d))
      {
        if Holds(cs[j], cs[i].toSlot, Image(cs[i], d)) {
          assert ComesBack(cs, i, d);
          var first: nat :| first < |cs| && FirstHolder(cs, i, d, first) && SameMove(cs[i], cs[first]);
          SameMoveSource(cs[i], cs[first], d);
          MoveKeepsSlot(cs[i], cs[first]);
          assert false;
        }
      }
    }
    if Unshadowed(cs) {
      forall i: nat, d: nat | i < |cs| && d < WORD && Reaches(cs, i, d)
        ensures ComesBack(cs, i, d)
      {
        ImageIs(cs[i], d);
        SameMoveSelf(cs[i]);
        assert FirstHolder(cs, i, d, i);
      }
    }
  }

  lemma MoveKeepsSlot(a: RangeConfig, b: RangeConfig)
    requires SameMove(a, b)
    ensures a.fromSlot == b.fromSlot
  {
  }

  lemma SameMoveSelf(a: RangeConfig)
    ensures SameMove(a, a)
  {
  }

  /** Overlapping target ranges lose packets: talkgroup 2 goes out as 9 and comes back as 1. */
  lemma OverlapLoses(p: Packet)
    requires p.groupCall && !p.slot && p.dst == 2
    ensures var c := Config([RangeConfig(1, 1, 1, 9, 1), RangeConfig(1, 2, 1, 9, 1)], [], [], [], [], []);
      && ValidEntries(c.tgRewrites) && Applied(RfRules(c), p).dst == 9
      && Applied(NetRules(c), Applied(RfRules(c), p)) == p.(dst := 1)
  {
    var c := Config([RangeConfig(1, 1, 1, 9, 1), RangeConfig(1, 2, 1, 9, 1)], [], [], [], [], []);
    RfRuleAt(c, 0);
    RfRuleAt(c, 1);
    assert Forward(c.tgRewrites[0]) == TGRewrite(1, 1, 1, 9, 1) && Forward(c.tgRewrites[1]) == TGRewrite(1, 2, 1, 9, 1);
    assert Backward(c.tgRewrites[0]) == TGRewrite(1, 9, 1, 1, 1);
    FirstMatchIs(RfRules(c), p, 1);
    FirstMatchIs(NetRules(c), p.(dst := 9), 0);
  }
}
