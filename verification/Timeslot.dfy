/**
  Timeslot arbitration, from internal/timeslot/manager.go: the first call on a slot
  goes through, later ones are buffered and delivered first come, first served.
 */
module Timeslot {
  import opened Options

  datatype ActiveCall = ActiveCall(streamId: nat, network: string, lastSeen: int)

  datatype Pending<+T> = Pending(streamId: nat, network: string, packets: seq<T>)

  datatype Slot<+T> = Slot(active: Option<ActiveCall>, pending: seq<Pending<T>>)

  const DEFAULT_TIMEOUT: nat := 3000

  // ---------- What the operations do to a slot ----------

  /** The queue after one more packet of a stream that has to wait. */
  function Buffered<T>(q: seq<Pending<T>>, id: nat, network: string, packet: T): seq<Pending<T>> {
    if q == [] then [Pending(id, network, [packet])]
    else if q[0].streamId == id then [q[0].(packets := q[0].packets + [packet])] + q[1..]
    else [q[0]] + Buffered(q[1..], id, network, packet)
  }

  /** The active call is another stream that has not been heard for longer than the timeout. */
  predicate TimedOut<T>(s: Slot<T>, timeout: nat, id: nat, now: int) {
    s.active.Some? && s.active.value.streamId != id && now - s.active.value.lastSeen > timeout
  }

  /** The packet may pass at once. */
  predicate Passes<T>(s: Slot<T>, timeout: nat, id: nat, now: int) {
    s.active.None? || s.active.value.streamId == id || TimedOut(s, timeout, id, now)
  }

  function Submitted<T>(s: Slot<T>, timeout: nat, id: nat, network: string, packet: T, now: int): Slot<T> {
    if s.active.None? then s.(active := Some(ActiveCall(id, network, now)))
    else if s.active.value.streamId == id then s.(active := Some(s.active.value.(lastSeen := now)))
    else if TimedOut(s, timeout, id, now) then Slot(Some(ActiveCall(id, network, now)), [])
    else s.(pending := Buffered(s.pending, id, network, packet))
  }

  /** A release by the active stream of a slot on which others wait. */
  predicate HandsOver<T>(s: Slot<T>, id: nat) {
    s.active.Some? && s.active.value.streamId == id && s.pending != []
  }

  function Released<T>(s: Slot<T>, id: nat, now: int): Slot<T> {
    if s.active.None? || s.active.value.streamId != id then s
    else if s.pending == [] then Slot(None, [])
    else Slot(Some(ActiveCall(s.pending[0].streamId, s.pending[0].network, now)), s.pending[1..])
  }

  /** The packets a release returns. */
  function Returned<T>(s: Slot<T>, id: nat): seq<T> {
    if HandsOver(s, id) then s.pending[0].packets else []
  }

  // ---------- The manager ----------

  function SlotIndex(slot: bool): (i: nat)
    ensures i < 2 && (i == 1 <==> slot)
  {
    if slot then 1 else 0
  }

  class Manager<T> {
    var slots: seq<Slot<T>>
    var timeout: nat

    ghost predicate Valid()
      reads this
    {
      |slots| == 2
    }

    constructor ()
      ensures Valid() && slots == [Slot(None, []), Slot(None, [])] && timeout == DEFAULT_TIMEOUT
    {
      slots := [Slot(None, []), Slot(None, [])];
      timeout := DEFAULT_TIMEOUT;
    }

    method SetTimeout(t: int)
      modifies this`timeout
      ensures timeout == if t <= 0 then old(timeout) else t
    {
      if t <= 0 {
        return;
      }
      timeout := t;
    }

    /** The place of a stream in the queue of a slot, or -1. */
    method FindPending(q: seq<Pending<T>>, id: nat) returns (i: int)
      ensures -1 <= i < |q|
      ensures i >= 0 ==> q[i].streamId == id
      ensures forall k :: 0 <= k < (if i < 0 then |q| else i) ==> q[k].streamId != id
    {
      i := 0;
      while i < |q|
        invariant 0 <= i <= |q| && forall k :: 0 <= k < i ==> q[k].streamId != id
      {
        if q[i].streamId == id {
          return;
        }
        i := i + 1;
      }
      i := -1;
    }

    method Submit(slot: bool, id: nat, network: string, packet: T, now: int) returns (deliver: bool)
      requires Valid()
      modifies this`slots
      ensures Valid()
      ensures var i := SlotIndex(slot);
        && slots == old(slots)[i := Submitted(old(slots)[i], timeout, id, network, packet, now)]
        && deliver == Passes(old(slots)[i], timeout, id, now)
    {
      var idx := SlotIndex(slot);
      var ss := slots[idx];
      if ss.active.None? {
        slots := slots[idx := ss.(active := Some(ActiveCall(id, network, now)))];
        return true;
      }
      if ss.active.value.streamId == id {
        slots := slots[idx := ss.(active := Some(ss.active.value.(lastSeen := now)))];
        return true;
      }
      if now - ss.active.value.lastSeen > timeout {
        slots := slots[idx := Slot(Some(ActiveCall(id, network, now)), [])];
        return true;
      }
      var i := FindPending(ss.pending, id);
      BufferedAt(ss.pending, i, id, network, packet);
      if i < 0 {
        slots := slots[idx := ss.(pending := ss.pending + [Pending(id, network, [packet])])];
      } else {
        var ps := ss.pending[i];
        slots := slots[idx := ss.(pending := ss.pending[i := ps.(packets := ps.packets + [packet])])];
      }
      return false;
    }

    method Release(slot: bool, id: nat, now: int) returns (packets: seq<T>)
      requires Valid()
      modifies this`slots
      ensures Valid()
      ensures var i := SlotIndex(slot);
        && slots == old(slots)[i := Released(old(slots)[i], id, now)]
        && packets == Returned(old(slots)[i], id)
    {
      var idx := SlotIndex(slot);
      var ss := slots[idx];
      if ss.active.None? || ss.active.value.streamId != id {
        return [];
      }
      if |ss.pending| == 0 {
        slots := slots[idx := ss.(active := None)];
        return [];
      }
      var next := ss.pending[0];
      slots := slots[idx := Slot(Some(ActiveCall(next.streamId, next.network, now)), ss.pending[1..])];
      packets := next.packets;
    }
  }

  /** Buffering appends to the first queue entry of the stream, or makes a new last entry. */
  lemma {:induction false} BufferedAt<T>(q: seq<Pending<T>>, i: int, id: nat, network: string, packet: T)
    requires -1 <= i < |q| && (i >= 0 ==> q[i].streamId == id)
    requires forall k :: 0 <= k < (if i < 0 then |q| else i) ==> q[k].streamId != id
    ensures Buffered(q, id, network, packet)
         == if i < 0 then q + [Pending(id, network, [packet])] else q[i := q[i].(packets := q[i].packets + [packet])]
    decreases |q|
  {
    if q != [] && i != 0 {
      BufferedAt(q[1..], if i < 0 then -1 else i - 1, id, network, packet);
    }
  }
}
