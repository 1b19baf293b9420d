/**
  The ingress guard of internal/repeater/guard.go: one talker per slot, one per
  talkgroup, no duplicates and no echoes. Times are integers read from a clock
  that does not run backwards.
 */
module Guard {
  import opened LinkControl
  import opened Dmrd

  datatype Ttls = Ttls(call: nat, dedup: nat, echo: nat, group: nat)

  const DEFAULT_TTLS := Ttls(1200, 400, 250, 6000)

  datatype Owner = Owner(source: string, streamId: nat, lastSeen: int)

  /** The packet fields that make up a fingerprint; the call type is not one of them. */
  datatype Fingerprint = Fingerprint(
    seqNo: nat, slot: bool, src: Id, dst: Id, streamId: nat, frameType: nat, dtypeOrVSeq: nat, dmrData: seq<bv8>)

  function FingerprintOf(p: Packet): Fingerprint {
    Fingerprint(p.seqNo, p.slot, p.src, p.dst, p.streamId, p.frameType, p.dtypeOrVSeq, p.dmrData)
  }

  type Key = (string, Fingerprint)

  datatype State = State(
    owners: map<bool, Owner>, groupOwners: map<Id, Owner>, recentIngress: map<Key, int>, recentEgress: map<Key, int>)

  const EMPTY := State(map[], map[], map[], map[])

  // ---------- One packet ----------

  predicate Live<K>(m: map<K, int>, k: K, ttl: nat, now: int) {
    k in m && now - m[k] <= ttl
  }

  /** Some source holds k. */
  predicate Held<K>(m: map<K, Owner>, k: K, ttl: nat, now: int) {
    k in m && now - m[k].lastSeen <= ttl
  }

  /** Claims k for a source that may have it; a terminator gives it up. */
  function Claimed<K>(m: map<K, Owner>, k: K, source: string, p: Packet, now: int): map<K, Owner> {
    if IsTerminator(p) then m - {k} else m[k := Owner(source, p.streamId, now)]
  }

  datatype Verdict = Echo | Duplicate | GroupBusy | SlotBusy | Accepted

  predicate UsesGroup(p: Packet) {
    p.groupCall && p.dst != 0
  }

  function VerdictOf(s: State, ttls: Ttls, source: string, p: Packet, now: int): Verdict {
    var key := (source, FingerprintOf(p));
    if Live(s.recentEgress, key, ttls.echo, now) then Echo
    else if Live(s.recentIngress, key, ttls.dedup, now) then Duplicate
    else if UsesGroup(p) && Held(s.groupOwners, p.dst, ttls.group, now) && s.groupOwners[p.dst].source != source then GroupBusy
    else if Held(s.owners, p.slot, ttls.call, now) && s.owners[p.slot].source != source then SlotBusy
    else Accepted
  }

  /** The packet got past the talkgroup check, which changes state before the slot check is made. */
  predicate PassedGroup(v: Verdict) {
    v.SlotBusy? || v.Accepted?
  }

  /** The state after a packet, on the state without its expired entries or on the full one. */
  function Admit(s: State, ttls: Ttls, source: string, p: Packet, now: int): State {
    var v := VerdictOf(s, ttls, source, p, now);
    State(
      if v.Accepted? then Claimed(s.owners, p.slot, source, p, now) else s.owners,
      if UsesGroup(p) && PassedGroup(v) then Claimed(s.groupOwners, p.dst, source, p, now) else s.groupOwners,
      if v.Accepted? then s.recentIngress[(source, FingerprintOf(p)) := now] else s.recentIngress,
      s.recentEgress)
  }

  /** The entries no older than ttl, and the owners heard from within ttl. */
  function Recent<K>(m: map<K, int>, ttl: nat, now: int): map<K, int> {
    map k | k in m && now - m[k] <= ttl :: m[k]
  }

  function Active<K>(m: map<K, Owner>, ttl: nat, now: int): map<K, Owner> {
    map k | k in m && now - m[k].lastSeen <= ttl :: m[k]
  }

  function Evicted(s: State, ttls: Ttls, now: int): State {
    State(
      Active(s.owners, ttls.call, now), Active(s.groupOwners, ttls.group, now),
      Recent(s.recentIngress, ttls.dedup, now), Recent(s.recentEgress, ttls.echo, now))
  }

  function Marked(s: State, target: string, p: Packet, now: int): State {
    s.(recentEgress := s.recentEgress[(target, FingerprintOf(p)) := now])
  }

  // ---------- The guard ----------

  class Guard {
    const ttls: Ttls
    var owners: map<bool, Owner>
    var groupOwners: map<Id, Owner>
    var recentIngress: map<Key, int>
    var recentEgress: map<Key, int>

    function Contents(): State
      reads this
    {
      State(owners, groupOwners, recentIngress, recentEgress)
    }

    constructor ()
      ensures Contents() == EMPTY && ttls == DEFAULT_TTLS
    {
      ttls := DEFAULT_TTLS;
      owners, groupOwners, recentIngress, recentEgress := map[], map[], map[], map[];
    }

    method AllowIngress(source: string, pkt: Packet, now: int) returns (allowed: bool)
      modifies this
      ensures var s := Evicted(old(Contents()), ttls, now);
        && Contents() == Admit(s, ttls, source, pkt, now)
        && allowed == VerdictOf(s, ttls, source, pkt, now).Accepted?
    {
      hide Evicted, Claimed;
      EvictExpired(now);
      var key := (source, FingerprintOf(pkt));
      if key in recentEgress && now - recentEgress[key] <= ttls.echo {
        return false;
      }
      if key in recentIngress && now - recentIngress[key] <= ttls.dedup {
        return false;
      }
      if pkt.groupCall && pkt.dst != 0 {
        var ok := AllowGroup(source, pkt, now);
        if !ok {
          return false;
        }
      }
      allowed := AllowSlot(source, pkt, now);
      if allowed {
        recentIngress := recentIngress[key := now];
      }
    }

    /** The slot check: a free or timed-out slot is claimed, a held one only serves its owner. */
    method AllowSlot(source: string, pkt: Packet, now: int) returns (ok: bool)
      modifies this`owners
      ensures ok == !(Held(old(owners), pkt.slot, ttls.call, now) && old(owners)[pkt.slot].source != source)
      ensures owners == if ok then Claimed(old(owners), pkt.slot, source, pkt, now) else old(owners)
    {
      var isTerm := IsTerminator(pkt);
      if pkt.slot !in owners {
        if !isTerm {
          owners := owners[pkt.slot := Owner(source, pkt.streamId, now)];
        }
        return true;
      }
      var owner := owners[pkt.slot];
      if now - owner.lastSeen > ttls.call {
        owners := owners - {pkt.slot};
        if !isTerm {
          owners := owners[pkt.slot := Owner(source, pkt.streamId, now)];
        }
        return true;
      }
      if owner.source != source {
        return false;
      }
      owners := owners[pkt.slot := owner.(lastSeen := now, streamId := pkt.streamId)];
      if isTerm {
        owners := owners - {pkt.slot};
      }
      return true;
    }

    /** The talkgroup check. */
    method AllowGroup(source: string, pkt: Packet, now: int) returns (ok: bool)
      modifies this`groupOwners
      ensures ok == !(Held(old(groupOwners), pkt.dst, ttls.group, now) && old(groupOwners)[pkt.dst].source != source)
      ensures groupOwners == if ok then Claimed(old(groupOwners), pkt.dst, source, pkt, now) else old(groupOwners)
    {
      var isTerm := IsTerminator(pkt);
      if !Held(groupOwners, pkt.dst, ttls.group, now) {
        if isTerm {
          groupOwners := groupOwners - {pkt.dst};
          return true;
        }
        groupOwners := groupOwners[pkt.dst := Owner(source, pkt.streamId, now)];
        return true;
      }
      var owner := groupOwners[pkt.dst];
      if owner.source != source {
        return false;
      }
      groupOwners := groupOwners[pkt.dst := owner.(lastSeen := now, streamId := pkt.streamId)];
      if isTerm {
        groupOwners := groupOwners - {pkt.dst};
      }
      return true;
    }

    method MarkForwarded(target: string, pkt: Packet, now: int)
      modifies this
      ensures Contents() == Marked(Evicted(old(Contents()), ttls, now), target, pkt, now)
    {
      EvictExpired(now);
      recentEgress := recentEgress[(target, FingerprintOf(pkt)) := now];
    }

    method EvictExpired(now: int)
      modifies this
      ensures Contents() == Evicted(old(Contents()), ttls, now)
    {
      recentIngress := DropOld(recentIngress, ttls.dedup, now);
      recentEgress := DropOld(recentEgress, ttls.echo, now);
      owners := DropIdle(owners, ttls.call, now);
      groupOwners := DropIdle(groupOwners, ttls.group, now);
    }
  }

  /** Deletes entries older than ttl, visiting the keys in any order. */
  method DropOld<K(==)>(m: map<K, int>, ttl: nat, now: int) returns (r: map<K, int>)
    ensures r == Recent(m, ttl, now)
  {
    r := m;
    var todo := m.Keys;
    while todo != {}
      invariant todo <= m.Keys
      invariant r == map k | k in m && (k in todo || now - m[k] <= ttl) :: m[k]
      decreases |todo|
    {
      var k :| k in todo;
      if now - m[k] > ttl {
        r := r - {k};
      }
      todo := todo - {k};
    }
  }

  /** Deletes owners not heard from for longer than ttl. */
  method DropIdle<K(==)>(m: map<K, Owner>, ttl: nat, now: int) returns (r: map<K, Owner>)
    ensures r == Active(m, ttl, now)
  {
    r := m;
    var todo := m.Keys;
    while todo != {}
      invariant todo <= m.Keys
      invariant r == map k | k in m && (k in todo || now - m[k].lastSeen <= ttl) :: m[k]
      decreases |todo|
    {
      var k :| k in todo;
      if now - m[k].lastSeen > ttl {
        r := r - {k};
      }
      todo := todo - {k};
    }
  }
}
