/**
  Talkgroup subscriptions, from internal/routing/subscriptions.go: per-device state, two
  inverted indexes, and dynamic subscriptions that expire lazily. A time is a natural
  number and 0 is Go's zero time.
 */
module Subscriptions {
  import opened RouteOrder
  import opened SnapshotOrder

  /** One subscription of a device on a slot to a talkgroup. */
  datatype Sub = Sub(device: string, slot: nat, group: nat)

  type RouteKey = (nat, nat)

  datatype DeviceState = DeviceState(statics: map<nat, set<nat>>, dynamics: map<nat, map<nat, nat>>)

  predicate ValidSlot(slot: nat) {
    slot == 1 || slot == 2
  }

  function KeyOf(x: Sub): RouteKey {
    (x.slot, x.group)
  }

  // ---------- What the subscriptions are ----------

  /** The subscriptions themselves, without any index: static ones, and dynamic ones with their expiry. */
  datatype View = View(statics: set<Sub>, dynamics: map<Sub, nat>)

  const NO_SUBSCRIPTIONS := View({}, map[])

  function ReplacedStatic(v: View, device: string, slot: nat, groups: set<nat>): View {
    if device == "" || !ValidSlot(slot) then v
    else
      var others := set x | x in v.statics && !(x.device == device && x.slot == slot);
      v.(statics := others + set g | g in groups && g != 0 :: Sub(device, slot, g))
  }

  function ActivatedDynamic(v: View, ttl: nat, x: Sub, now: nat): View {
    if x.device == "" || !ValidSlot(x.slot) || x.group == 0 then v
    else if x in v.statics then Without(v, {x})
    else v.(dynamics := v.dynamics[x := now + ttl])
  }

  /** The view without some dynamic subscriptions. */
  function Without(v: View, gone: set<Sub>): View {
    v.(dynamics := v.dynamics - gone)
  }

  function RemovedDynamic(v: View, x: Sub): View {
    if x.device == "" || !ValidSlot(x.slot) || x.group == 0 then v else Without(v, {x})
  }

  function RemovedDevice(v: View, device: string): View {
    View(set x | x in v.statics && x.device != device, map x | x in v.dynamics && x.device != device :: v.dynamics[x])
  }

  /** Forgets the expired dynamic subscriptions of one group, of one device, or all of them. */
  function PrunedGroup(v: View, group: nat, now: nat): View {
    v.(dynamics := map x | x in v.dynamics && !(x.group == group && ValidSlot(x.slot) && v.dynamics[x] <= now) :: v.dynamics[x])
  }

  function PrunedDevice(v: View, device: string, now: nat): View {
    v.(dynamics := map x | x in v.dynamics && !(x.device == device && ValidSlot(x.slot) && v.dynamics[x] <= now) :: v.dynamics[x])
  }

  function PrunedAll(v: View, now: nat): View {
    v.(dynamics := map x | x in v.dynamics && v.dynamics[x] > now :: v.dynamics[x])
  }

  /** A subscription that a packet sent now is routed to. */
  predicate Wants(v: View, x: Sub, now: nat) {
    x in v.statics || (x in v.dynamics && v.dynamics[x] > now)
  }

  /** Where a packet for a group goes: every subscribed device and slot, the source device excluded. */
  ghost predicate Target(v: View, source: string, group: nat, now: nat, r: Route) {
    r.device != source && ValidSlot(r.slot) && Wants(v, Sub(r.device, r.slot, group), now)
  }

  /** The time a call means: the one it is given, or the current one in place of the zero time. */
  function TimeOf(now: nat, clock: nat): (t: nat)
    ensures now == 0 ==> t == clock
    ensures now > 0 ==> t == now
  {
    if now == 0 then clock else now
  }

  // ---------- Membership in the concrete maps ----------

  predicate InStatic(devices: map<string, DeviceState>, x: Sub) {
    x.device in devices && x.slot in devices[x.device].statics && x.group in devices[x.device].statics[x.slot]
  }

  predicate InDynamic(devices: map<string, DeviceState>, x: Sub) {
    x.device in devices && x.slot in devices[x.device].dynamics && x.group in devices[x.device].dynamics[x.slot]
  }

  function ExpiryIn(devices: map<string, DeviceState>, x: Sub): nat
    requires InDynamic(devices, x)
  {
    devices[x.device].dynamics[x.slot][x.group]
  }

  predicate InStaticIndex(idx: map<RouteKey, set<string>>, x: Sub) {
    KeyOf(x) in idx && x.device in idx[KeyOf(x)]
  }

  predicate InDynamicIndex(idx: map<RouteKey, map<string, nat>>, x: Sub) {
    KeyOf(x) in idx && x.device in idx[KeyOf(x)]
  }

  /** The per-device maps hold exactly the given subscriptions. */
  ghost predicate DevicesShowStatic(devices: map<string, DeviceState>, s: set<Sub>) {
    forall x: Sub :: x in s <==> InStatic(devices, x)
  }

  ghost predicate DevicesShowDynamic(devices: map<string, DeviceState>, d: map<Sub, nat>) {
    && (forall x: Sub :: x in d <==> InDynamic(devices, x))
    && (forall x: Sub :: x in d ==> d[x] == ExpiryIn(devices, x))
  }

  /** The static index holds exactly the static subscriptions, without empty buckets. */
  ghost predicate StaticIndexShows(idx: map<RouteKey, set<string>>, s: set<Sub>) {
    && (forall x: Sub :: x in s <==> InStaticIndex(idx, x))
    && (forall k :: k in idx ==> idx[k] != {})
  }

  /** The dynamic index holds exactly the dynamic subscriptions, with the same expiries, without empty buckets. */
  ghost predicate DynamicIndexShows(idx: map<RouteKey, map<string, nat>>, d: map<Sub, nat>) {
    && (forall x: Sub :: x in d <==> InDynamicIndex(idx, x))
    && (forall x: Sub :: x in d ==> d[x] == idx[KeyOf(x)][x.device])
    && (forall k :: k in idx ==> idx[k] != map[])
  }

  /** Every device is named and has both slots. */
  predicate HasSlots(st: DeviceState) {
    1 in st.statics && 2 in st.statics && 1 in st.dynamics && 2 in st.dynamics
  }

  ghost predicate TwoSlots(devices: map<string, DeviceState>) {
    forall d :: d in devices ==> d != "" && HasSlots(devices[d])
  }

  /** Expiries are real times. */
  ghost predicate RealTimes(d: map<Sub, nat>) {
    forall x :: x in d ==> d[x] > 0
  }

  /** The devices and the dynamic index stand for a view; the static index is kept apart. */
  ghost predicate Shown(devices: map<string, DeviceState>, dynamicIndex: map<RouteKey, map<string, nat>>, v: View) {
    && TwoSlots(devices) && RealTimes(v.dynamics)
    && DevicesShowStatic(devices, v.statics) && DevicesShowDynamic(devices, v.dynamics)
    && DynamicIndexShows(dynamicIndex, v.dynamics)
  }

  // ---------- Index updates ----------

  function AddedStatic(idx: map<RouteKey, set<string>>, x: Sub): map<RouteKey, set<string>> {
    idx[KeyOf(x) := (if KeyOf(x) in idx then idx[KeyOf(x)] else {}) + {x.device}]
  }

  function DroppedStatic(idx: map<RouteKey, set<string>>, x: Sub): map<RouteKey, set<string>> {
    if KeyOf(x) !in idx then idx
    else
      var devices := idx[KeyOf(x)] - {x.device};
      if devices == {} then idx - {KeyOf(x)} else idx[KeyOf(x) := devices]
  }

  function AddedDynamic(idx: map<RouteKey, map<string, nat>>, x: Sub, expiry: nat): map<RouteKey, map<string, nat>> {
    idx[KeyOf(x) := (if KeyOf(x) in idx then idx[KeyOf(x)] else map[])[x.device := expiry]]
  }

  function DroppedDynamic(idx: map<RouteKey, map<string, nat>>, x: Sub): map<RouteKey, map<string, nat>> {
    if KeyOf(x) !in idx then idx
    else
      var devices := idx[KeyOf(x)] - {x.device};
      if devices == map[] then idx - {KeyOf(x)} else idx[KeyOf(x) := devices]
  }

  lemma AddStatic(idx: map<RouteKey, set<string>>, s: set<Sub>, x: Sub)
    requires StaticIndexShows(idx, s)
    ensures StaticIndexShows(AddedStatic(idx, x), s + {x})
  {
  }

  lemma DropStatic(idx: map<RouteKey, set<string>>, s: set<Sub>, x: Sub)
    requires StaticIndexShows(idx, s)
    ensures StaticIndexShows(DroppedStatic(idx, x), s - {x})
  {
    forall y: Sub
      ensures y in s - {x} <==> InStaticIndex(DroppedStatic(idx, x), y)
    {
      assert y in s <==> InStaticIndex(idx, y);
      if KeyOf(y) == KeyOf(x) && KeyOf(x) in idx {
        var rest := idx[KeyOf(x)] - {x.device};
        assert y == x <==> y.device == x.device;
        assert y.device in rest <==> y.device in idx[KeyOf(x)] && y != x;
      }
    }
  }

  lemma AddDynamic(idx: map<RouteKey, map<string, nat>>, d: map<Sub, nat>, x: Sub, expiry: nat)
    requires DynamicIndexShows(idx, d)
    ensures DynamicIndexShows(AddedDynamic(idx, x, expiry), d[x := expiry])
  {
    var idx' := AddedDynamic(idx, x, expiry);
    forall k | k in idx'
      ensures idx'[k] != map[]
    {
      assert k == KeyOf(x) ==> x.device in idx'[k];
    }
  }

  lemma DropDynamic(idx: map<RouteKey, map<string, nat>>, d: map<Sub, nat>, x: Sub)
    requires DynamicIndexShows(idx, d)
    ensures DynamicIndexShows(DroppedDynamic(idx, x), d - {x})
  {
    forall y: Sub
      ensures y in d - {x} <==> InDynamicIndex(DroppedDynamic(idx, x), y)
    {
      assert y in d <==> InDynamicIndex(idx, y);
      if KeyOf(y) == KeyOf(x) && KeyOf(x) in idx {
        var rest := idx[KeyOf(x)] - {x.device};
        assert y == x <==> y.device == x.device;
        assert y.device in rest <==> y.device in idx[KeyOf(x)] && y != x;
      }
    }
  }

  // ---------- Device updates ----------

  const NEW_DEVICE := DeviceState(map[1 := {}, 2 := {}], map[1 := map[], 2 := map[]])

  function WithDevice(devices: map<string, DeviceState>, device: string): map<string, DeviceState> {
    if device in devices then devices else devices[device := NEW_DEVICE]
  }

  function WithStatics(devices: map<string, DeviceState>, device: string, slot: nat, groups: set<nat>): map<string, DeviceState>
    requires device in devices
  {
    devices[device := devices[device].(statics := devices[device].statics[slot := groups])]
  }

  function WithDynamic(devices: map<string, DeviceState>, x: Sub, expiry: nat): map<string, DeviceState>
    requires x.device in devices && x.slot in devices[x.device].dynamics
  {
    var st := devices[x.device];
    var groups: map<nat, nat> := st.dynamics[x.slot][x.group := expiry];
    devices[x.device := st.(dynamics := st.dynamics[x.slot := groups])]
  }

  function WithoutDynamic(devices: map<string, DeviceState>, x: Sub): map<string, DeviceState> {
    if x.device !in devices || x.slot !in devices[x.device].dynamics then devices
    else
      var st := devices[x.device];
      devices[x.device := st.(dynamics := st.dynamics[x.slot := st.dynamics[x.slot] - {x.group}])]
  }

  lemma CreateDeviceAt(devices: map<string, DeviceState>, device: string, y: Sub)
    ensures var devices' := WithDevice(devices, device);
      && InStatic(devices', y) == InStatic(devices, y) && InDynamic(devices', y) == InDynamic(devices, y)
      && (InDynamic(devices, y) ==> ExpiryIn(devices', y) == ExpiryIn(devices, y))
  {
  }

  lemma CreateDevice(devices: map<string, DeviceState>, v: View, device: string)
    requires device != "" && TwoSlots(devices) && DevicesShowStatic(devices, v.statics) && DevicesShowDynamic(devices, v.dynamics)
    ensures var devices' := WithDevice(devices, device);
      device in devices' && TwoSlots(devices') && DevicesShowStatic(devices', v.statics) && DevicesShowDynamic(devices', v.dynamics)
  {
    hide InStatic, InDynamic, ExpiryIn;
    forall y: Sub
      ensures var devices' := WithDevice(devices, device);
        && InStatic(devices', y) == InStatic(devices, y) && InDynamic(devices', y) == InDynamic(devices, y)
        && (InDynamic(devices, y) ==> ExpiryIn(devices', y) == ExpiryIn(devices, y))
    {
      CreateDeviceAt(devices, device, y);
    }
  }

  lemma PutDynamicAt(devices: map<string, DeviceState>, x: Sub, expiry: nat, y: Sub)
    requires x.device in devices && x.slot in devices[x.device].dynamics
    ensures var devices' := WithDynamic(devices, x, expiry);
      && InStatic(devices', y) == InStatic(devices, y)
      && InDynamic(devices', y) == (InDynamic(devices, y) || y == x)
      && (InDynamic(devices', y) ==> ExpiryIn(devices', y) == if y == x then expiry else ExpiryIn(devices, y))
  {
  }

  lemma PutDynamic(devices: map<string, DeviceState>, s: set<Sub>, d: map<Sub, nat>, x: Sub, expiry: nat)
    requires DevicesShowStatic(devices, s) && DevicesShowDynamic(devices, d)
    requires x.device in devices && x.slot in devices[x.device].dynamics
    ensures var devices' := WithDynamic(devices, x, expiry); DevicesShowStatic(devices', s) && DevicesShowDynamic(devices', d[x := expiry])
  {
    hide InStatic, InDynamic, ExpiryIn, WithDynamic;
    forall y: Sub
      ensures var devices' := WithDynamic(devices, x, expiry);
        && InStatic(devices', y) == InStatic(devices, y)
        && InDynamic(devices', y) == (InDynamic(devices, y) || y == x)
        && (InDynamic(devices', y) ==> ExpiryIn(devices', y) == if y == x then expiry else ExpiryIn(devices, y))
    {
      PutDynamicAt(devices, x, expiry, y);
    }
  }

  lemma DropFromDeviceAt(devices: map<string, DeviceState>, x: Sub, y: Sub)
    ensures var devices' := WithoutDynamic(devices, x);
      && InStatic(devices', y) == InStatic(devices, y)
      && InDynamic(devices', y) == (InDynamic(devices, y) && y != x)
      && (InDynamic(devices', y) ==> ExpiryIn(devices', y) == ExpiryIn(devices, y))
  {
  }

  lemma DropFromDevice(devices: map<string, DeviceState>, s: set<Sub>, d: map<Sub, nat>, x: Sub)
    requires DevicesShowStatic(devices, s) && DevicesShowDynamic(devices, d)
    ensures var devices' := WithoutDynamic(devices, x); DevicesShowStatic(devices', s) && DevicesShowDynamic(devices', d - {x})
  {
    hide InStatic, InDynamic, ExpiryIn, WithoutDynamic;
    forall y: Sub
      ensures var devices' := WithoutDynamic(devices, x);
        && InStatic(devices', y) == InStatic(devices, y)
        && InDynamic(devices', y) == (InDynamic(devices, y) && y != x)
        && (InDynamic(devices', y) ==> ExpiryIn(devices', y) == ExpiryIn(devices, y))
    {
      DropFromDeviceAt(devices, x, y);
    }
  }

  lemma PutStaticsAt(devices: map<string, DeviceState>, device: string, slot: nat, groups: set<nat>, y: Sub)
    requires device in devices && slot in devices[device].statics
    ensures var devices' := WithStatics(devices, device, slot, groups);
      && InStatic(devices', y) == (if y.device == device && y.slot == slot then y.group in groups else InStatic(devices, y))
      && InDynamic(devices', y) == InDynamic(devices, y)
      && (InDynamic(devices, y) ==> ExpiryIn(devices', y) == ExpiryIn(devices, y))
  {
  }

  lemma PutStatics(devices: map<string, DeviceState>, v: View, device: string, slot: nat, groups: set<nat>)
    requires DevicesShowStatic(devices, v.statics) && DevicesShowDynamic(devices, v.dynamics)
    requires device in devices && slot in devices[device].statics && device != "" && ValidSlot(slot) && 0 !in groups
    ensures var devices', v' := WithStatics(devices, device, slot, groups), ReplacedStatic(v, device, slot, groups);
      DevicesShowStatic(devices', v'.statics) && DevicesShowDynamic(devices', v'.dynamics)
  {
    hide InStatic, InDynamic, ExpiryIn, WithStatics;
    var v' := ReplacedStatic(v, device, slot, groups);
    forall y: Sub
      ensures var devices' := WithStatics(devices, device, slot, groups);
        && (y in v'.statics <==> InStatic(devices', y))
        && InDynamic(devices', y) == InDynamic(devices, y)
        && (InDynamic(devices, y) ==> ExpiryIn(devices', y) == ExpiryIn(devices, y))
    {
      PutStaticsAt(devices, device, slot, groups, y);
      if y.device == device && y.slot == slot {
        assert y == Sub(device, slot, y.group);
      }
    }
  }

  lemma SlotsKept(devices: map<string, DeviceState>, x: Sub, expiry: nat, groups: set<nat>)
    requires TwoSlots(devices) && x.device in devices && ValidSlot(x.slot)
    ensures TwoSlots(WithDynamic(devices, x, expiry)) && TwoSlots(WithStatics(devices, x.device, x.slot, groups))
  {
  }

  lemma SlotsKeptByDrop(devices: map<string, DeviceState>, x: Sub)
    requires TwoSlots(devices)
    ensures TwoSlots(WithoutDynamic(devices, x))
  {
  }

  lemma DropDevice(devices: map<string, DeviceState>, s: set<Sub>, d: map<Sub, nat>, device: string)
    requires TwoSlots(devices) && DevicesShowStatic(devices, s) && DevicesShowDynamic(devices, d)
    ensures TwoSlots(devices - {device})
    ensures DevicesShowStatic(devices - {device}, set x | x in s && x.device != device)
    ensures DevicesShowDynamic(devices - {device}, map x | x in d && x.device != device :: d[x])
  {
  }

  lemma DeviceSlots(devices: map<string, DeviceState>, x: Sub)
    requires TwoSlots(devices) && x.device in devices && ValidSlot(x.slot)
    ensures x.device != "" && x.slot in devices[x.device].statics && x.slot in devices[x.device].dynamics
  {
    assert HasSlots(devices[x.device]);
  }

  lemma StaticIn(devices: map<string, DeviceState>, s: set<Sub>, x: Sub)
    requires DevicesShowStatic(devices, s) && x.device in devices && x.slot in devices[x.device].statics
    ensures x in s <==> x.group in devices[x.device].statics[x.slot]
  {
  }

  lemma WithoutOneMore(v: View, gone: set<Sub>, x: Sub)
    ensures Without(Without(v, gone), {x}) == Without(v, gone + {x})
  {
    assert v.dynamics - gone - {x} == v.dynamics - (gone + {x});
  }

  lemma StillReal(d: map<Sub, nat>, d': map<Sub, nat>)
    requires RealTimes(d) && forall x :: x in d' ==> x in d && d'[x] == d[x]
    ensures RealTimes(d')
  {
  }

  /** Dropping the old entries and adding the new ones gives the replaced set. */
  lemma Replacement(devices: map<string, DeviceState>, v: View, device: string, slot: nat, groups: seq<nat>, unique: set<nat>)
    requires DevicesShowStatic(devices, v.statics) && device in devices && slot in devices[device].statics
    requires device != "" && ValidSlot(slot) && unique == set g | g in groups && g != 0
    ensures var previous := set g | g in devices[device].statics[slot] :: Sub(device, slot, g);
      var next := set g | g in unique :: Sub(device, slot, g);
      v.statics - previous + next == ReplacedStatic(v, device, slot, unique).statics
    ensures ReplacedStatic(v, device, slot, unique) == ReplacedStatic(v, device, slot, set g | g in groups)
  {
    var previous := set g | g in devices[device].statics[slot] :: Sub(device, slot, g);
    forall x | x in v.statics
      ensures x in previous <==> x.device == device && x.slot == slot
    {
      if x.device == device && x.slot == slot {
        StaticIn(devices, v.statics, x);
        assert x == Sub(device, slot, x.group);
      }
    }
    var a, b := ReplacedStatic(v, device, slot, unique), ReplacedStatic(v, device, slot, set g | g in groups);
    assert a.statics == b.statics;
    assert v.statics - previous + (set g | g in unique :: Sub(device, slot, g)) == a.statics;
  }

  lemma AbsentDevice(devices: map<string, DeviceState>, v: View, device: string)
    requires TwoSlots(devices) && DevicesShowStatic(devices, v.statics) && DevicesShowDynamic(devices, v.dynamics)
    requires device == "" || device !in devices
    ensures RemovedDevice(v, device) == v
  {
    var w := RemovedDevice(v, device);
    assert w.statics == v.statics && w.dynamics == v.dynamics;
  }

  lemma NothingHeld(devices: map<string, DeviceState>, v: View, device: string, now: nat)
    requires DevicesShowStatic(devices, v.statics) && DevicesShowDynamic(devices, v.dynamics) && device !in devices
    ensures PrunedDevice(v, device, now) == v
    ensures (forall x :: x in v.statics ==> x.device != device) && (forall x :: x in v.dynamics ==> x.device != device)
  {
    assert PrunedDevice(v, device, now).dynamics == v.dynamics;
  }

  /** What a device holds is what the view says of it. */
  lemma OfDevice(devices: map<string, DeviceState>, v: View, device: string, statics: set<Sub>, dynamics: set<Sub>)
    requires DevicesShowStatic(devices, v.statics) && DevicesShowDynamic(devices, v.dynamics) && device in devices
    requires var st := devices[device]; statics == set slot, g | slot in st.statics && g in st.statics[slot] :: Sub(device, slot, g)
    requires var st := devices[device]; dynamics == set slot, g | slot in st.dynamics && g in st.dynamics[slot] :: Sub(device, slot, g)
    ensures RemovedDevice(v, device) == View(v.statics - statics, v.dynamics - dynamics)
    ensures RemovedDevice(Without(v, dynamics), device) == RemovedDevice(v, device)
  {
    forall x: Sub
      ensures x in statics <==> x in v.statics && x.device == device
      ensures x in dynamics <==> x in v.dynamics && x.device == device
    {
      assert x == Sub(x.device, x.slot, x.group);
    }
    var w := RemovedDevice(v, device);
    assert w.statics == v.statics - statics;
    assert w.dynamics == v.dynamics - dynamics;
  }

  lemma HeldBy(devices: map<string, DeviceState>, v: View, device: string, statics: set<Sub>, dynamics: set<Sub>)
    requires DevicesShowStatic(devices, v.statics) && DevicesShowDynamic(devices, v.dynamics) && device in devices
    requires var st := devices[device];
      statics == set slot, g | slot in st.statics && g in st.statics[slot] && ValidSlot(slot) :: Sub(device, slot, g)
    requires var st := devices[device];
      dynamics == set slot, g | slot in st.dynamics && g in st.dynamics[slot] && ValidSlot(slot) :: Sub(device, slot, g)
    ensures forall x :: x in statics <==> x in v.statics && x.device == device && ValidSlot(x.slot)
    ensures forall x :: x in dynamics <==> x in v.dynamics && x.device == device && ValidSlot(x.slot)
    ensures forall x :: x in dynamics ==> v.dynamics[x] == devices[device].dynamics[x.slot][x.group]
  {
    forall x: Sub
      ensures x in statics <==> x in v.statics && x.device == device && ValidSlot(x.slot)
      ensures x in dynamics <==> x in v.dynamics && x.device == device && ValidSlot(x.slot)
    {
      assert x == Sub(x.device, x.slot, x.group);
    }
  }

  /** Removing what a device holds beyond the live subscriptions is pruning it. */
  lemma StillHeld(v: View, device: string, now: nat, all: set<Sub>, live: map<Sub, nat>)
    requires forall x :: x in all <==> x in v.dynamics && x.device == device && ValidSlot(x.slot)
    requires live == map x | x in all && v.dynamics[x] > now :: v.dynamics[x]
    ensures Without(v, all - live.Keys) == PrunedDevice(v, device, now)
    ensures var d := PrunedDevice(v, device, now).dynamics;
      live == map x | x in d && x.device == device && ValidSlot(x.slot) :: d[x]
  {
    assert v.dynamics - (all - live.Keys) == PrunedDevice(v, device, now).dynamics;
  }

  lemma ExpiredEverywhere(
    devices: map<string, DeviceState>, dynamicIndex: map<RouteKey, map<string, nat>>, v: View, now: nat, gone: set<Sub>)
    requires Shown(devices, dynamicIndex, v)
    requires gone == set device, slot, g | device in devices && slot in devices[device].dynamics &&
      g in devices[device].dynamics[slot] && devices[device].dynamics[slot][g] <= now :: Sub(device, slot, g)
    ensures Without(v, gone) == PrunedAll(v, now)
  {
    forall x: Sub
      ensures x in gone <==> x in v.dynamics && v.dynamics[x] <= now
    {
      assert x == Sub(x.device, x.slot, x.group);
    }
    assert v.dynamics - gone == PrunedAll(v, now).dynamics;
  }

  /** The expired dynamic subscriptions of a route key. */
  function ExpiredAt(v: View, key: RouteKey, now: nat): set<Sub> {
    set x | x in v.dynamics && KeyOf(x) == key && v.dynamics[x] <= now
  }

  /** The devices of one key of the two indexes: who is routed to, and who has expired. */
  lemma Bucket(
    staticIndex: map<RouteKey, set<string>>, dynamicIndex: map<RouteKey, map<string, nat>>, v: View, key: RouteKey, x: Sub)
    requires StaticIndexShows(staticIndex, v.statics) && DynamicIndexShows(dynamicIndex, v.dynamics) && KeyOf(x) == key
    ensures x in v.statics <==> x.device in DevicesAt(staticIndex, key)
    ensures x in v.dynamics <==> x.device in ExpiriesAt(dynamicIndex, key)
    ensures x in v.dynamics ==> v.dynamics[x] == ExpiriesAt(dynamicIndex, key)[x.device]
  {
  }

  function DevicesAt(idx: map<RouteKey, set<string>>, key: RouteKey): set<string> {
    if key in idx then idx[key] else {}
  }

  function ExpiriesAt(idx: map<RouteKey, map<string, nat>>, key: RouteKey): map<string, nat> {
    if key in idx then idx[key] else map[]
  }

  /** Both slots' expired subscriptions are what pruning the group forgets, and the first slot's do not touch the second. */
  lemma BothSlots(v: View, group: nat, now: nat)
    ensures var w := Without(v, ExpiredAt(v, (1, group), now));
      Without(w, ExpiredAt(w, (2, group), now)) == PrunedGroup(v, group, now)
    ensures var w := Without(v, ExpiredAt(v, (1, group), now));
      forall device :: Wants(w, Sub(device, 2, group), now) == Wants(v, Sub(device, 2, group), now)
  {
    var w := Without(v, ExpiredAt(v, (1, group), now));
    assert Without(w, ExpiredAt(w, (2, group), now)).dynamics == PrunedGroup(v, group, now).dynamics;
  }

  // ---------- The manager ----------

  class SubscriptionManager {
    const dynamicTTL: nat
    var devices: map<string, DeviceState>
    var staticIndex: map<RouteKey, set<string>>
    var dynamicIndex: map<RouteKey, map<string, nat>>
    /** The subscriptions the three maps stand for. */
    ghost var view: View

    ghost predicate Valid()
      reads this
    {
      dynamicTTL > 0 && Shown(devices, dynamicIndex, view) && StaticIndexShows(staticIndex, view.statics)
    }

    constructor (ttl: int)
      ensures Valid() && view == NO_SUBSCRIPTIONS && dynamicTTL == if ttl <= 0 then 300 else ttl
    {
      dynamicTTL := if ttl <= 0 then 300 else ttl;
      devices, staticIndex, dynamicIndex := map[], map[], map[];
      view := NO_SUBSCRIPTIONS;
    }

    /** Removes one dynamic subscription from its device and from the index. */
    method RemoveDynamicLocked(x: Sub)
      requires Shown(devices, dynamicIndex, view)
      modifies this`devices, this`dynamicIndex, this`view
      ensures Shown(devices, dynamicIndex, view)
      ensures view == Without(old(view), {x}) && devices.Keys == old(devices.Keys)
    {
      hide TwoSlots, DevicesShowStatic, DevicesShowDynamic, DynamicIndexShows;
      SlotsKeptByDrop(devices, x);
      DropFromDevice(devices, view.statics, view.dynamics, x);
      DropDynamic(dynamicIndex, view.dynamics, x);
      if x.device in devices && x.slot in devices[x.device].dynamics {
        var st := devices[x.device];
        devices := devices[x.device := st.(dynamics := st.dynamics[x.slot := st.dynamics[x.slot] - {x.group}])];
      }
      view := Without(view, {x});
      var key := KeyOf(x);
      if key !in dynamicIndex {
        return;
      }
      var rest := dynamicIndex[key] - {x.device};
      if rest == map[] {
        dynamicIndex := dynamicIndex - {key};
      } else {
        dynamicIndex := dynamicIndex[key := rest];
      }
    }

    /** Removes dynamic subscriptions one by one, in any order. */
    method RemoveAll(gone: set<Sub>)
      requires Shown(devices, dynamicIndex, view)
      modifies this`devices, this`dynamicIndex, this`view
      ensures Shown(devices, dynamicIndex, view)
      ensures view == Without(old(view), gone) && devices.Keys == old(devices.Keys)
    {
      hide Shown;
      var todo := gone;
      assert view == Without(view, gone - todo) by {
        assert view.dynamics == view.dynamics - (gone - todo);
      }
      while todo != {}
        invariant todo <= gone && devices.Keys == old(devices.Keys)
        invariant Shown(devices, dynamicIndex, view)
        invariant view == Without(old(view), gone - todo)
        decreases |todo|
      {
        var x :| x in todo;
        WithoutOneMore(old(view), gone - todo, x);
        RemoveDynamicLocked(x);
        assert gone - (todo - {x}) == (gone - todo) + {x};
        todo := todo - {x};
      }
      assert gone - todo == gone;
    }

    method ActivateDynamic(x: Sub, now: nat, clock: nat) returns (expiresAt: nat)
      requires Valid() && clock > 0
      modifies this`devices, this`dynamicIndex, this`view
      ensures Valid() && view == ActivatedDynamic(old(view), dynamicTTL, x, TimeOf(now, clock))
      ensures expiresAt ==
        if x.device == "" || !ValidSlot(x.slot) || x.group == 0 || x in old(view).statics then 0 else TimeOf(now, clock) + dynamicTTL
    {
      hide TwoSlots, DevicesShowStatic, DevicesShowDynamic, DynamicIndexShows, StaticIndexShows;
      if x.device == "" || !ValidSlot(x.slot) || x.group == 0 {
        return 0;
      }
      expiresAt := TimeOf(now, clock) + dynamicTTL;
      CreateDevice(devices, view, x.device);
      devices := WithDevice(devices, x.device);
      SlotsKept(devices, x, expiresAt, {});
      DeviceSlots(devices, x);
      StaticIn(devices, view.statics, x);
      if x.group in devices[x.device].statics[x.slot] {
        RemoveDynamicLocked(x);
        return 0;
      }
      PutDynamic(devices, view.statics, view.dynamics, x, expiresAt);
      AddDynamic(dynamicIndex, view.dynamics, x, expiresAt);
      devices := WithDynamic(devices, x, expiresAt);
      dynamicIndex := AddedDynamic(dynamicIndex, x, expiresAt);
      view := ActivatedDynamic(view, dynamicTTL, x, TimeOf(now, clock));
    }

    method RemoveDynamic(x: Sub)
      requires Valid()
      modifies this`devices, this`dynamicIndex, this`view
      ensures Valid() && view == RemovedDynamic(old(view), x)
    {
      if x.device == "" || !ValidSlot(x.slot) || x.group == 0 {
        return;
      }
      RemoveDynamicLocked(x);
    }

    /** Removes static subscriptions from the index one by one, in any order. */
    method DropStaticGroups(gone: set<Sub>, ghost s: set<Sub>)
      requires StaticIndexShows(staticIndex, s)
      modifies this`staticIndex
      ensures StaticIndexShows(staticIndex, s - gone)
    {
      hide StaticIndexShows;
      var todo := gone;
      assert s - (gone - todo) == s;
      while todo != {}
        invariant todo <= gone
        invariant StaticIndexShows(staticIndex, s - (gone - todo))
        decreases |todo|
      {
        var x :| x in todo;
        DropStatic(staticIndex, s - (gone - todo), x);
        staticIndex := DroppedStatic(staticIndex, x);
        assert s - (gone - todo) - {x} == s - (gone - (todo - {x}));
        todo := todo - {x};
      }
      assert gone - todo == gone;
    }

    /** Adds static subscriptions to the index one by one, in any order. */
    method AddStaticGroups(more: set<Sub>, ghost s: set<Sub>)
      requires StaticIndexShows(staticIndex, s)
      modifies this`staticIndex
      ensures StaticIndexShows(staticIndex, s + more)
    {
      hide StaticIndexShows;
      var todo := more;
      assert s + (more - todo) == s;
      while todo != {}
        invariant todo <= more
        invariant StaticIndexShows(staticIndex, s + (more - todo))
        decreases |todo|
      {
        var x :| x in todo;
        AddStatic(staticIndex, s + (more - todo), x);
        staticIndex := AddedStatic(staticIndex, x);
        assert s + (more - todo) + {x} == s + (more - (todo - {x}));
        todo := todo - {x};
      }
      assert more - todo == more;
    }

    method ReplaceStatic(device: string, slot: nat, groups: seq<nat>)
      requires Valid()
      modifies this`devices, this`staticIndex, this`view
      ensures Valid() && view == ReplacedStatic(old(view), device, slot, set g | g in groups)
    {
      hide TwoSlots, DevicesShowStatic, DevicesShowDynamic, DynamicIndexShows, StaticIndexShows;
      if device == "" || !ValidSlot(slot) {
        return;
      }
      var unique := set g | g in groups && g != 0;
      CreateDevice(devices, view, device);
      devices := WithDevice(devices, device);
      SlotsKept(devices, Sub(device, slot, 0), 0, unique);
      DeviceSlots(devices, Sub(device, slot, 0));
      PutStatics(devices, view, device, slot, unique);
      ghost var s := view.statics;
      var previous := set g | g in devices[device].statics[slot] :: Sub(device, slot, g);
      var next := set g | g in unique :: Sub(device, slot, g);
      Replacement(devices, view, device, slot, groups, unique);
      DropStaticGroups(previous, s);
      AddStaticGroups(next, s - previous);
      devices := WithStatics(devices, device, slot, unique);
      view := ReplacedStatic(view, device, slot, unique);
    }

    method RemoveDevice(device: string)
      requires Valid()
      modifies this
      ensures Valid() && view == RemovedDevice(old(view), device)
    {
      hide TwoSlots, DevicesShowStatic, DevicesShowDynamic, DynamicIndexShows, StaticIndexShows;
      if device == "" || device !in devices {
        AbsentDevice(devices, view, device);
        return;
      }
      var st := devices[device];
      var statics := set slot, g | slot in st.statics && g in st.statics[slot] :: Sub(device, slot, g);
      var dynamics := set slot, g | slot in st.dynamics && g in st.dynamics[slot] :: Sub(device, slot, g);
      OfDevice(devices, view, device, statics, dynamics);
      DropStaticGroups(statics, view.statics);
      RemoveAll(dynamics);
      DropDevice(devices, view.statics, view.dynamics, device);
      devices := devices - {device};
      view := RemovedDevice(old(view), device);
      StillReal(old(view).dynamics, view.dynamics);
    }

    method Expire(now: nat, clock: nat)
      requires Valid() && clock > 0
      modifies this`devices, this`dynamicIndex, this`view
      ensures Valid() && view == PrunedAll(old(view), TimeOf(now, clock))
    {
      hide Shown, StaticIndexShows;
      var time := TimeOf(now, clock);
      var gone := set device, slot, g | device in devices && slot in devices[device].dynamics &&
        g in devices[device].dynamics[slot] && devices[device].dynamics[slot][g] <= time :: Sub(device, slot, g);
      ExpiredEverywhere(devices, dynamicIndex, view, time, gone);
      RemoveAll(gone);
    }

    /** The routes of one slot; its expired subscriptions are removed on the way. */
    method ResolveSlot(source: string, group: nat, slot: nat, now: nat) returns (targets: set<Route>)
      requires Valid()
      modifies this`devices, this`dynamicIndex, this`view
      ensures Valid() && view == Without(old(view), ExpiredAt(old(view), (slot, group), now))
      ensures forall r: Route ::
        r in targets <==> r.slot == slot && r.device != source && Wants(old(view), Sub(r.device, slot, group), now)
    {
      hide StaticIndexShows, DynamicIndexShows, DevicesShowStatic, DevicesShowDynamic, TwoSlots, DevicesAt, ExpiriesAt;
      var key := (slot, group);
      forall x: Sub | KeyOf(x) == key
        ensures x in view.statics <==> x.device in DevicesAt(staticIndex, key)
        ensures x in view.dynamics <==> x.device in ExpiriesAt(dynamicIndex, key)
        ensures x in view.dynamics ==> view.dynamics[x] == ExpiriesAt(dynamicIndex, key)[x.device]
      {
        Bucket(staticIndex, dynamicIndex, view, key, x);
      }
      var statics, expiries := DevicesAt(staticIndex, key), ExpiriesAt(dynamicIndex, key);
      targets :=
        (set d | d in statics && d != source :: Route(d, slot)) +
        (set d | d in expiries && expiries[d] > now && d != source :: Route(d, slot));
      forall r: Route
        ensures r in targets <==> r.slot == slot && r.device != source && Wants(view, Sub(r.device, slot, group), now)
      {
        assert r == Route(r.device, r.slot);
        assert KeyOf(Sub(r.device, slot, group)) == key;
      }
      var gone := set d | d in expiries && expiries[d] <= now :: Sub(d, slot, group);
      assert gone == ExpiredAt(view, key, now) by {
        forall x: Sub
          ensures x in gone <==> x in ExpiredAt(view, key, now)
        {
          assert x == Sub(x.device, x.slot, x.group);
        }
      }
      RemoveAll(gone);
    }

    method ResolveRoutes(source: string, group: nat, now: nat, clock: nat) returns (out: seq<Route>)
      requires Valid() && clock > 0
      modifies this`devices, this`dynamicIndex, this`view
      ensures Valid() && view == if group == 0 then old(view) else PrunedGroup(old(view), group, TimeOf(now, clock))
      ensures StrictlySorted(out)
      ensures forall r :: r in out <==> group != 0 && Target(old(view), source, group, TimeOf(now, clock), r)
    {
      hide Shown, StaticIndexShows, StrictlySorted;
      if group == 0 {
        out := RouteOrder.Sort({});
        return;
      }
      var time := TimeOf(now, clock);
      BothSlots(view, group, time);
      var first := ResolveSlot(source, group, 1, time);
      var second := ResolveSlot(source, group, 2, time);
      out := RouteOrder.Sort(first + second);
    }

    /** What one device is subscribed to, once its expired subscriptions are removed. */
    method PruneDevice(device: string, time: nat) returns (statics: set<Sub>, dynamics: map<Sub, nat>)
      requires Valid()
      modifies this`devices, this`dynamicIndex, this`view
      ensures Valid() && view == PrunedDevice(old(view), device, time)
      ensures statics == set x | x in view.statics && x.device == device && ValidSlot(x.slot)
      ensures dynamics == map x | x in view.dynamics && x.device == device && ValidSlot(x.slot) :: view.dynamics[x]
    {
      hide TwoSlots, DevicesShowStatic, DevicesShowDynamic, DynamicIndexShows, StaticIndexShows;
      if device !in devices {
        statics, dynamics := {}, map[];
        NothingHeld(devices, view, device, time);
        return;
      }
      var st := devices[device];
      statics := set slot, g | slot in st.statics && g in st.statics[slot] && ValidSlot(slot) :: Sub(device, slot, g);
      var all := set slot, g | slot in st.dynamics && g in st.dynamics[slot] && ValidSlot(slot) :: Sub(device, slot, g);
      dynamics := map x | x in all && st.dynamics[x.slot][x.group] > time :: st.dynamics[x.slot][x.group];
      HeldBy(devices, view, device, statics, all);
      StillHeld(view, device, time, all, dynamics);
      RemoveAll(all - dynamics.Keys);
    }

    /** The live subscriptions of a device, slot by slot, each list by group and then by kind. */
    method SnapshotDevice(device: string, now: nat, clock: nat)
      returns (slot1: seq<GroupSubscription>, slot2: seq<GroupSubscription>)
      requires Valid() && clock > 0
      modifies this`devices, this`dynamicIndex, this`view
      ensures Valid() && view == PrunedDevice(old(view), device, TimeOf(now, clock))
      ensures InOrder(slot1) && forall e :: e in slot1 <==> Listed(view, device, 1, e)
      ensures InOrder(slot2) && forall e :: e in slot2 <==> Listed(view, device, 2, e)
    {
      hide Shown, StaticIndexShows, PrunedDevice, InOrder;
      var statics, dynamics := PruneDevice(device, TimeOf(now, clock));
      slot1 := ListSlot(device, 1, statics, dynamics, view);
      slot2 := ListSlot(device, 2, statics, dynamics, view);
    }
  }

  /** An entry of a snapshot: a static subscription, or a dynamic one with its expiry. */
  ghost predicate Listed(v: View, device: string, slot: nat, e: GroupSubscription) {
    var x := Sub(device, slot, e.group);
    match e.kind
    case Static => x in v.statics && e.expiresAt == 0
    case Dynamic => x in v.dynamics && e.expiresAt == v.dynamics[x]
  }

  method ListSlot(device: string, slot: nat, statics: set<Sub>, dynamics: map<Sub, nat>, ghost v: View)
    returns (out: seq<GroupSubscription>)
    requires ValidSlot(slot) && statics == set x | x in v.statics && x.device == device && ValidSlot(x.slot)
    requires dynamics == map x | x in v.dynamics && x.device == device && ValidSlot(x.slot) :: v.dynamics[x]
    ensures InOrder(out) && forall e :: e in out <==> Listed(v, device, slot, e)
  {
    var entries :=
      (set x | x in statics && x.slot == slot :: GroupSubscription(x.group, Static, 0)) +
      (set x | x in dynamics && x.slot == slot :: GroupSubscription(x.group, Dynamic, dynamics[x]));
    forall e
      ensures e in entries <==> Listed(v, device, slot, e)
    {
      var x := Sub(device, slot, e.group);
      assert e.kind.Static? && x in statics && e.expiresAt == 0 ==> e == GroupSubscription(x.group, Static, 0);
      assert e.kind.Dynamic? && x in dynamics && e.expiresAt == dynamics[x] ==> e == GroupSubscription(x.group, Dynamic, dynamics[x]);
    }
    out := SnapshotOrder.Sort(entries);
  }
}
