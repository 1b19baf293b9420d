/** The order of resolved routes, from the sort in internal/routing/subscriptions.go: by device, then by slot. */
module RouteOrder {

  datatype Route = Route(device: string, slot: nat)

  predicate StringLess(a: string, b: string) {
    if b == "" then false
    else if a == "" then true
    else if a[0] != b[0] then a[0] < b[0]
    else StringLess(a[1..], b[1..])
  }

  predicate RouteLess(a: Route, b: Route) {
    if a.device == b.device then a.slot < b.slot else StringLess(a.device, b.device)
  }

  ghost predicate StrictlySorted(s: seq<Route>) {
    forall i, j :: 0 <= i < j < |s| ==> RouteLess(s[i], s[j])
  }

  lemma {:induction false} StringOrder(a: string, b: string)
    ensures a == b ==> !StringLess(a, b)
    ensures a != b ==> StringLess(a, b) != StringLess(b, a)
    decreases |a|
  {
    if a != "" && b != "" && a[0] == b[0] {
      StringOrder(a[1..], b[1..]);
      assert a == [a[0]] + a[1..] && b == [b[0]] + b[1..];
    }
  }

  /** The strings agree before place i, where the first ends or has the smaller character. */
  predicate LessAt(a: string, b: string, i: nat) {
    i <= |a| && i < |b| && a[..i] == b[..i] && (i == |a| || a[i] < b[i])
  }

  /** The dictionary order. */
  ghost predicate Dictionary(a: string, b: string) {
    exists i: nat :: LessAt(a, b, i)
  }

  lemma LessAtNext(a: string, b: string, i: nat)
    requires a != "" && b != ""
    ensures LessAt(a, b, i + 1) <==> a[0] == b[0] && LessAt(a[1..], b[1..], i)
  {
    if i + 1 <= |a| && i + 1 <= |b| {
      assert a[..i + 1] == [a[0]] + a[1..][..i] && b[..i + 1] == [b[0]] + b[1..][..i];
      assert a[..i + 1][1..] == a[1..][..i] && b[..i + 1][1..] == b[1..][..i];
      assert a[..i + 1][0] == a[0] && b[..i + 1][0] == b[0];
    }
  }

  lemma {:induction false} StringLessIff(a: string, b: string)
    ensures StringLess(a, b) <==> Dictionary(a, b)
    decreases |a|
  {
    if a == "" || b == "" {
      assert b != "" ==> LessAt(a, b, 0);
    } else {
      StringLessIff(a[1..], b[1..]);
      assert LessAt(a, b, 0) <==> a[0] < b[0];
      hide LessAt;
      if i: nat :| LessAt(a, b, i) {
        if i > 0 {
          LessAtNext(a, b, i - 1);
        }
      }
      if i: nat :| LessAt(a[1..], b[1..], i) {
        LessAtNext(a, b, i);
      }
    }
  }

  /** Routes are in the dictionary order of their devices, and by slot on one device. */
  lemma SortedIff(s: seq<Route>)
    ensures StrictlySorted(s) <==>
      forall i, j :: 0 <= i < j < |s| ==>
        if s[i].device == s[j].device then s[i].slot < s[j].slot else Dictionary(s[i].device, s[j].device)
  {
    hide StringLess, Dictionary;
    forall i, j | 0 <= i < j < |s|
      ensures StringLess(s[i].device, s[j].device) <==> Dictionary(s[i].device, s[j].device)
    {
      StringLessIff(s[i].device, s[j].device);
    }
  }

  lemma {:induction false} StringTransitive(a: string, b: string, c: string)
    requires StringLess(a, b) && StringLess(b, c)
    ensures StringLess(a, c)
    decreases |a|
  {
    if a != "" && a[0] == b[0] && b[0] == c[0] {
      StringTransitive(a[1..], b[1..], c[1..]);
    }
  }

  lemma RouteTotal(a: Route, b: Route)
    ensures if a == b then !RouteLess(a, b) else RouteLess(a, b) != RouteLess(b, a)
  {
    StringOrder(a.device, b.device);
  }

  lemma RouteTransitive(a: Route, b: Route, c: Route)
    requires RouteLess(a, b) && RouteLess(b, c)
    ensures RouteLess(a, c)
  {
    if a.device != b.device && b.device != c.device {
      StringTransitive(a.device, b.device, c.device);
      StringOrder(a.device, c.device);
      StringOrder(a.device, b.device);
      StringOrder(b.device, c.device);
    }
  }

  /** Puts a route that is not there yet into its place. */
  method Insert(s: seq<Route>, r: Route) returns (out: seq<Route>)
    requires StrictlySorted(s) && r !in s
    ensures StrictlySorted(out)
    ensures forall x :: x in out <==> x in s || x == r
  {
    hide RouteLess;
    var i := |s|;
    while i > 0 && RouteLess(r, s[i - 1])
      invariant 0 <= i <= |s|
      invariant forall k :: i <= k < |s| ==> RouteLess(r, s[k])
    {
      i := i - 1;
    }
    if i > 0 {
      RouteTotal(r, s[i - 1]);
    }
    forall k | 0 <= k < i
      ensures RouteLess(s[k], r)
    {
      if k < i - 1 {
        RouteTransitive(s[k], s[i - 1], r);
      }
    }
    out := s[..i] + [r] + s[i..];
  }

  /** Lists a set of routes in order: no two lists would do. */
  method Sort(routes: set<Route>) returns (out: seq<Route>)
    ensures StrictlySorted(out)
    ensures forall r :: r in out <==> r in routes
  {
    out := [];
    var todo := routes;
    while todo != {}
      invariant todo <= routes && StrictlySorted(out)
      invariant forall r :: r in out <==> r in routes - todo
      decreases |todo|
    {
      var r :| r in todo;
      out := Insert(out, r);
      todo := todo - {r};
    }
  }

  /** A strictly sorted list is fixed by its elements. */
  lemma {:induction false} SortedUnique(a: seq<Route>, b: seq<Route>)
    requires StrictlySorted(a) && StrictlySorted(b)
    requires forall r :: r in a <==> r in b
    ensures a == b
    decreases |a|
  {
    hide RouteLess;
    assert a != [] ==> a[0] in a;
    assert b != [] ==> b[0] in b;
    if a == [] || b == [] {
      return;
    }
    assert a[0] in b && b[0] in a;
    RouteTotal(a[0], b[0]);
    assert a[0] == b[0];
    forall r
      ensures r in a[1..] <==> r in b[1..]
    {
      RouteTotal(r, r);
      assert r in a <==> r == a[0] || r in a[1..];
      assert r in b <==> r == b[0] || r in b[1..];
      assert a[0] !in a[1..] && b[0] !in b[1..] by {
        RouteTotal(a[0], a[0]);
      }
    }
    SortedUnique(a[1..], b[1..]);
  }
}
