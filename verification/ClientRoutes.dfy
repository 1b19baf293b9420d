/** What a client makes of a packet for its master, read off the configuration's entries. */
module ClientRoutes {
  import opened Dmrd
  import opened Rewrite
  import opened RewriteChains
  import opened MmdvmClient

  /** The packet goes out as q. */
  predicate GoesOutAs(c: Config, p: Packet, q: Packet) {
    Routable(RfRules(c), FallbackRules(c), p) && Routed(RfRules(c), FallbackRules(c), p) == q
  }

  /**
    For every configuration and packet: a group packet in a talkgroup entry's source range goes out with that entry's target,
    or else in a type entry's with its target and as a private packet; a private packet in a private entry's with its target;
    any other packet goes out as it is if its slot lets all of its kind pass, and not at all otherwise.
   */
  lemma RoutedIff(c: Config, p: Packet)
    requires ConfigWords(c) && p.dst < WORD
    ensures var slot := SlotNumber(p);
      && (forall i: nat, k: nat :: p.groupCall && FirstTakes(c.tgRewrites, slot, p.dst, i, k) ==>
          GoesOutAs(c, p, p.(dst := Target(c.tgRewrites[i], k), slot := c.tgRewrites[i].toSlot == 2)))
      && (forall i: nat, k: nat ::
          p.groupCall && NoneTakes(c.tgRewrites, slot, p.dst) && FirstTakes(c.typeRewrites, slot, p.dst, i, k) ==>
          GoesOutAs(c, p, p.(dst := Target(c.typeRewrites[i], k), slot := c.typeRewrites[i].toSlot == 2, groupCall := false)))
      && (forall i: nat, k: nat :: !p.groupCall && FirstTakes(c.pcRewrites, slot, p.dst, i, k) ==>
          GoesOutAs(c, p, p.(dst := Target(c.pcRewrites[i], k), slot := c.pcRewrites[i].toSlot == 2)))
      && ((if p.groupCall then NoneTakes(c.tgRewrites, slot, p.dst) && NoneTakes(c.typeRewrites, slot, p.dst)
           else NoneTakes(c.pcRewrites, slot, p.dst)) ==>
          if SlotNumber(p) in (if p.groupCall then c.passAllTG else c.passAllPC) then GoesOutAs(c, p, p)
          else !Routable(RfRules(c), FallbackRules(c), p))
  {
    hide FirstTakes, NoneTakes, ConfigWords, Target, RfRules, FallbackRules, Applied;
    Outbound(c, p);
    Fallback(c, p);
  }
}
