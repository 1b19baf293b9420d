/** The order of a device's subscriptions in a snapshot, from the sort in internal/routing/subscriptions.go. */
module SnapshotOrder {
  import RouteOrder

  /** The kinds in the order of their names. */
  datatype Kind = Dynamic | Static

  datatype GroupSubscription = GroupSubscription(group: nat, kind: Kind, expiresAt: nat)

  predicate Before(a: GroupSubscription, b: GroupSubscription) {
    if a.group == b.group then a.kind.Dynamic? && b.kind.Static? else a.group < b.group
  }

  ghost predicate InOrder(s: seq<GroupSubscription>) {
    forall i, j :: 0 <= i < j < |s| ==> Before(s[i], s[j])
  }

  function NameOf(kind: Kind): string {
    match kind
    case Dynamic => "dynamic"
    case Static => "static"
  }

  /** Entries are by group and, within one group, in the dictionary order of their kinds. */
  lemma InOrderIff(s: seq<GroupSubscription>)
    ensures InOrder(s) <==>
      forall i, j :: 0 <= i < j < |s| ==>
        if s[i].group == s[j].group then RouteOrder.Dictionary(NameOf(s[i].kind), NameOf(s[j].kind)) else s[i].group < s[j].group
  {
    KindsInOrder();
    hide RouteOrder.Dictionary, NameOf;
  }

  lemma KindsInOrder()
    ensures forall a, b :: RouteOrder.Dictionary(NameOf(a), NameOf(b)) <==> a.Dynamic? && b.Static?
  {
    forall a, b
      ensures RouteOrder.Dictionary(NameOf(a), NameOf(b)) <==> a.Dynamic? && b.Static?
    {
      RouteOrder.StringLessIff(NameOf(a), NameOf(b));
      RouteOrder.StringOrder(NameOf(a), NameOf(b));
    }
  }

  predicate SameEntry(a: GroupSubscription, b: GroupSubscription) {
    a.group == b.group && a.kind == b.kind
  }

  /** Puts an entry whose group and kind are not there yet into its place. */
  method Insert(s: seq<GroupSubscription>, x: GroupSubscription) returns (out: seq<GroupSubscription>)
    requires InOrder(s) && forall y :: y in s ==> !SameEntry(x, y)
    ensures InOrder(out)
    ensures forall y :: y in out <==> y in s || y == x
  {
    var i := |s|;
    while i > 0 && Before(x, s[i - 1])
      invariant 0 <= i <= |s|
      invariant forall k :: i <= k < |s| ==> Before(x, s[k])
    {
      i := i - 1;
    }
    assert i > 0 ==> s[i - 1] in s;
    out := s[..i] + [x] + s[i..];
  }

  /** Lists entries, of which no two have the same group and kind, in order. */
  method Sort(entries: set<GroupSubscription>) returns (out: seq<GroupSubscription>)
    requires forall x, y :: x in entries && y in entries && SameEntry(x, y) ==> x == y
    ensures InOrder(out)
    ensures forall x :: x in out <==> x in entries
  {
    out := [];
    var todo := entries;
    while todo != {}
      invariant todo <= entries && InOrder(out)
      invariant forall x :: x in out <==> x in entries - todo
      decreases |todo|
    {
      var x :| x in todo;
      out := Insert(out, x);
      todo := todo - {x};
    }
  }
}
