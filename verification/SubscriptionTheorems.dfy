/**
  Whole runs of the subscription manager. Expired dynamic subscriptions are forgotten lazily,
  by whichever call meets them; the theorem is that no caller can tell when.
 */
module SubscriptionTheorems {
  import opened RouteOrder
  import opened SnapshotOrder
  import opened Subscriptions

  /** The manager's calls, each with the time it means. */
  datatype Event =
    | ReplaceStatic(device: string, slot: nat, groups: set<nat>)
    | Activate(sub: Sub, now: nat)
    | RemoveDynamic(sub: Sub)
    | RemoveDevice(device: string)
    | Resolve(source: string, group: nat, now: nat)
    | Expire(now: nat)
    | Snapshot(device: string, now: nat)

  predicate Timed(e: Event) {
    e.Activate? || e.Resolve? || e.Expire? || e.Snapshot?
  }

  /** The calls that ask to change the subscriptions. */
  function Changed(v: View, ttl: nat, e: Event): View {
    match e
    case ReplaceStatic(device, slot, groups) => ReplacedStatic(v, device, slot, groups)
    case Activate(x, now) => ActivatedDynamic(v, ttl, x, now)
    case RemoveDynamic(x) => RemovedDynamic(v, x)
    case RemoveDevice(device) => RemovedDevice(v, device)
    case _ => v
  }

  /** What each call does to the manager. */
  function Step(v: View, ttl: nat, e: Event): View {
    match e
    case Resolve(_, group, now) => if group == 0 then v else PrunedGroup(v, group, now)
    case Expire(now) => PrunedAll(v, now)
    case Snapshot(device, now) => PrunedDevice(v, device, now)
    case _ => Changed(v, ttl, e)
  }

  function Run(ttl: nat, events: seq<Event>): View {
    if events == [] then NO_SUBSCRIPTIONS
    else Step(Run(ttl, events[..|events| - 1]), ttl, events[|events| - 1])
  }

  /** The same run in which nothing is ever forgotten for being expired. */
  function Unpruned(ttl: nat, events: seq<Event>): View {
    if events == [] then NO_SUBSCRIPTIONS
    else Changed(Unpruned(ttl, events[..|events| - 1]), ttl, events[|events| - 1])
  }

  ghost predicate ClockForward(events: seq<Event>) {
    forall i, j :: 0 <= i < j < |events| && Timed(events[i]) && Timed(events[j]) ==> events[i].now <= events[j].now
  }

  /** Two views that no question asked at this time or later can tell apart. */
  ghost predicate Alike(v: View, w: View, now: nat) {
    && v.statics == w.statics
    && (forall x :: x in v.dynamics ==> x in w.dynamics && v.dynamics[x] == w.dynamics[x])
    && (forall x :: x in w.dynamics && w.dynamics[x] > now ==> x in v.dynamics)
  }

  lemma StepAlike(v: View, w: View, ttl: nat, e: Event, now: nat)
    requires Alike(v, w, now) && (Timed(e) ==> e.now <= now)
    ensures Alike(Step(v, ttl, e), Changed(w, ttl, e), now)
  {
  }

  lemma {:induction false} RunAlike(ttl: nat, events: seq<Event>, now: nat)
    requires forall e :: e in events && Timed(e) ==> e.now <= now
    ensures Alike(Run(ttl, events), Unpruned(ttl, events), now)
  {
    if events != [] {
      var n := |events| - 1;
      assert events[n] in events && forall e :: e in events[..n] ==> e in events;
      RunAlike(ttl, events[..n], now);
      StepAlike(Run(ttl, events[..n]), Unpruned(ttl, events[..n]), ttl, events[n], now);
    }
  }

  /**
    Wherever calls that forget expired subscriptions stand in a run, every resolution in it gives
    the routes of the run without forgetting: the two lists are equal.
   */
  lemma LazyExpiryInvisible(ttl: nat, events: seq<Event>, i: nat, out: seq<Route>, reference: seq<Route>)
    requires ClockForward(events) && i < |events| && events[i].Resolve? && events[i].group != 0
    requires StrictlySorted(out) && StrictlySorted(reference)
    requires forall r :: r in out <==> Target(Run(ttl, events[..i]), events[i].source, events[i].group, events[i].now, r)
    requires forall r :: r in reference <==> Target(Unpruned(ttl, events[..i]), events[i].source, events[i].group, events[i].now, r)
    ensures out == reference
  {
    forall e | e in events[..i] && Timed(e)
      ensures e.now <= events[i].now
    {
      var k :| 0 <= k < i && events[k] == e;
    }
    RunAlike(ttl, events[..i], events[i].now);
    SortedUnique(out, reference);
  }

  // ---------- When a static subscription holds ----------

  /** Call i declares the group static on its device and slot. */
  predicate Declares(events: seq<Event>, i: nat, x: Sub) {
    && i < |events| && events[i].ReplaceStatic? && events[i].device == x.device && events[i].slot == x.slot
    && x.device != "" && (x.slot == 1 || x.slot == 2) && x.group in events[i].groups && x.group != 0
  }

  /** The call declares the device and slot anew, or takes the device out. */
  predicate Redeclares(e: Event, x: Sub) {
    match e
    case ReplaceStatic(device, slot, _) => device == x.device && slot == x.slot && device != "" && (slot == 1 || slot == 2)
    case RemoveDevice(device) => device == x.device
    case _ => false
  }

  ghost predicate StaticSince(events: seq<Event>, i: nat, x: Sub) {
    Declares(events, i, x) && forall j :: i < j < |events| ==> !Redeclares(events[j], x)
  }

  ghost predicate IsStatic(events: seq<Event>, x: Sub) {
    exists i: nat :: StaticSince(events, i, x)
  }

  lemma StaticNext(events: seq<Event>, i: nat, x: Sub)
    requires events != []
    ensures var n := |events| - 1;
      StaticSince(events, i, x) <==>
      if i == n then Declares(events, n, x) else StaticSince(events[..n], i, x) && !Redeclares(events[n], x)
  {
    var n := |events| - 1;
    var before := events[..n];
    if i < n {
      assert before[i] == events[i];
      assert forall j :: 0 <= j < n ==> before[j] == events[j];
    }
  }

  /** A static subscription is exactly what the last declaration of its device and slot says, the device not removed since. */
  lemma {:induction false} StaticIff(ttl: nat, events: seq<Event>, x: Sub)
    ensures x in Unpruned(ttl, events).statics <==> IsStatic(events, x)
  {
    if events != [] {
      var n := |events| - 1;
      StaticIff(ttl, events[..n], x);
      StaticStep(ttl, events, x);
      hide StaticSince, Declares, Redeclares, Unpruned;
      forall i: nat
        ensures StaticSince(events, i, x) <==>
          if i == n then Declares(events, n, x) else StaticSince(events[..n], i, x) && !Redeclares(events[n], x)
      {
        StaticNext(events, i, x);
      }
      if x in Unpruned(ttl, events).statics {
        if Declares(events, n, x) {
          assert StaticSince(events, n, x);
        } else {
          var i: nat :| StaticSince(events[..n], i, x);
          StaticInRange(events[..n], i, x);
          assert StaticSince(events, i, x);
        }
      }
    }
  }

  lemma StaticInRange(events: seq<Event>, i: nat, x: Sub)
    requires StaticSince(events, i, x)
    ensures i < |events|
  {
  }

  lemma StaticStep(ttl: nat, events: seq<Event>, x: Sub)
    requires events != []
    ensures var n := |events| - 1;
      x in Unpruned(ttl, events).statics <==>
      Declares(events, n, x) || (x in Unpruned(ttl, events[..n]).statics && !Redeclares(events[n], x))
    ensures Declares(events, |events| - 1, x) ==> Redeclares(events[|events| - 1], x)
  {
    assert x == Sub(x.device, x.slot, x.group);
  }

  // ---------- When a dynamic subscription is live ----------

  /** The activation took effect: well formed, and the group was not static on that device and slot. */
  ghost predicate Activates(events: seq<Event>, i: nat, x: Sub) {
    && i < |events| && events[i].Activate? && events[i].sub == x
    && x.device != "" && (x.slot == 1 || x.slot == 2) && x.group != 0 && !IsStatic(events[..i], x)
  }

  /** The call ends or restarts the dynamic subscription. */
  predicate Touches(e: Event, x: Sub) {
    match e
    case Activate(y, _) => y == x && x.device != "" && (x.slot == 1 || x.slot == 2) && x.group != 0
    case RemoveDynamic(y) => y == x && x.device != "" && (x.slot == 1 || x.slot == 2) && x.group != 0
    case RemoveDevice(device) => device == x.device
    case _ => false
  }

  /** The activation that stands at the end of the run: effective, and untouched since. */
  ghost predicate Stands(events: seq<Event>, i: nat, x: Sub) {
    Activates(events, i, x) && forall j :: i < j < |events| ==> !Touches(events[j], x)
  }

  /** How standing passes from a run to the run with one more call. */
  lemma StandsNext(events: seq<Event>, i: nat, x: Sub)
    requires events != []
    ensures var n := |events| - 1;
      Stands(events, i, x) <==>
      if i == n then Activates(events, n, x) else Stands(events[..n], i, x) && !Touches(events[n], x)
  {
    var n := |events| - 1;
    var before := events[..n];
    if i < n {
      assert before[..i] == events[..i] && before[i] == events[i];
      assert forall j :: 0 <= j < n ==> before[j] == events[j];
    }
  }

  /** A dynamic subscription with its expiry is exactly the standing activation. */
  lemma {:induction false} LastActivation(ttl: nat, events: seq<Event>, x: Sub)
    ensures x in Unpruned(ttl, events).dynamics <==> exists i: nat :: Stands(events, i, x)
    ensures forall i: nat :: Stands(events, i, x) ==>
      x in Unpruned(ttl, events).dynamics && Unpruned(ttl, events).dynamics[x] == events[i].now + ttl
  {
    if events == [] {
      return;
    }
    hide Stands, Activates, Unpruned, Touches, Changed;
    var n := |events| - 1;
    var before := events[..n];
    LastActivation(ttl, before, x);
    ActivationStep(ttl, events, x);
    forall i: nat
      ensures Stands(events, i, x) <==>
        if i == n then Activates(events, n, x) else Stands(before, i, x) && !Touches(events[n], x)
    {
      StandsNext(events, i, x);
    }
    if x in Unpruned(ttl, events).dynamics {
      if Touches(events[n], x) {
        assert Stands(events, n, x);
      } else {
        var i: nat :| Stands(before, i, x);
        assert Stands(events, i, x);
      }
    }
    forall i: nat | Stands(events, i, x)
      ensures x in Unpruned(ttl, events).dynamics && Unpruned(ttl, events).dynamics[x] == events[i].now + ttl
    {
      if i != n {
        StandsInRange(before, i, x);
        assert before[i] == events[i];
      }
    }
  }

  lemma StandsInRange(events: seq<Event>, i: nat, x: Sub)
    requires Stands(events, i, x)
    ensures i < |events| && events[i].Activate?
  {
  }

  /** What the last call of a run does to one dynamic subscription. */
  lemma ActivationStep(ttl: nat, events: seq<Event>, x: Sub)
    requires events != []
    ensures var n := |events| - 1;
      var d, d' := Unpruned(ttl, events[..n]).dynamics, Unpruned(ttl, events).dynamics;
      && (Activates(events, n, x) ==>
            Touches(events[n], x) && events[n].Activate? && x in d' && d'[x] == events[n].now + ttl)
      && (Touches(events[n], x) && x in d' ==> Activates(events, n, x))
      && (!Touches(events[n], x) ==> (x in d' <==> x in d) && (x in d ==> d'[x] == d[x]))
  {
    hide IsStatic;
    StaticIff(ttl, events[..|events| - 1], x);
  }

  /** The dynamic subscription was activated, has not been touched since, and has not expired. */
  ghost predicate LiveSince(ttl: nat, events: seq<Event>, now: nat, i: nat, x: Sub) {
    Stands(events, i, x) && now < events[i].now + ttl
  }

  /**
    The whole meaning of a run, on its calls alone: a packet for a group goes to a device and slot just when it does not come
    from there and the group was declared static there by the last declaration, or was activated there, untouched since, less
    than the time to live ago.
   */
  lemma RoutedIff(ttl: nat, events: seq<Event>, source: string, group: nat, now: nat, r: Route)
    requires forall e :: e in events && Timed(e) ==> e.now <= now
    ensures Target(Run(ttl, events), source, group, now, r) <==>
      var x := Sub(r.device, r.slot, group);
      && r.device != source && (r.slot == 1 || r.slot == 2)
      && (IsStatic(events, x) || exists i: nat :: LiveSince(ttl, events, now, i, x))
  {
    var x := Sub(r.device, r.slot, group);
    RunAlike(ttl, events, now);
    LastActivation(ttl, events, x);
    StaticIff(ttl, events, x);
    assert Wants(Run(ttl, events), x, now) == Wants(Unpruned(ttl, events), x, now);
    hide IsStatic, Stands, Run, Unpruned;
    if x in Unpruned(ttl, events).dynamics && Unpruned(ttl, events).dynamics[x] > now {
      var i: nat :| Stands(events, i, x);
      StandsInRange(events, i, x);
      assert LiveSince(ttl, events, now, i, x);
    }
  }

  /** A snapshot lists a group as static, or as dynamic with the time at which it expires, just when a run says so. */
  lemma SnapshotIff(ttl: nat, events: seq<Event>, device: string, slot: nat, now: nat, e: GroupSubscription)
    requires (forall e :: e in events && Timed(e) ==> e.now <= now) && (slot == 1 || slot == 2)
    ensures Listed(Step(Run(ttl, events), ttl, Snapshot(device, now)), device, slot, e) <==>
      var x := Sub(device, slot, e.group);
      if e.kind.Static? then IsStatic(events, x) && e.expiresAt == 0
      else exists i: nat :: LiveSince(ttl, events, now, i, x) && e.expiresAt == events[i].now + ttl
  {
    var x := Sub(device, slot, e.group);
    RunAlike(ttl, events, now);
    LastActivation(ttl, events, x);
    StaticIff(ttl, events, x);
    hide IsStatic, Stands, Run, Unpruned;
    if x in Unpruned(ttl, events).dynamics && Unpruned(ttl, events).dynamics[x] > now {
      var i: nat :| Stands(events, i, x);
      StandsInRange(events, i, x);
      assert LiveSince(ttl, events, now, i, x);
    }
  }
}
