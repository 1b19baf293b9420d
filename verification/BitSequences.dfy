/**
  Bit sequences under exclusive-or, their parity, and the Hamming distance: the
  notions in which every coding result is stated.
 */
module BitSequences {

  /** The exclusive-or of two equally long bit sequences. */
  function Xor(a: seq<bool>, b: seq<bool>): (x: seq<bool>)
    requires |a| == |b|
    ensures |x| == |a|
  {
    seq(|a|, i requires 0 <= i < |a| => a[i] != b[i])
  }

  function Zeros(n: nat): (z: seq<bool>)
    ensures |z| == n
  {
    seq(n, i => false)
  }

  /** Adding e changes nothing exactly when e is zero. */
  lemma XorNeutral(a: seq<bool>, e: seq<bool>)
    requires |a| == |e|
    ensures Xor(a, e) == a <==> e == Zeros(|a|)
  {
    if Xor(a, e) == a {
      forall i | 0 <= i < |a|
        ensures e[i] == Zeros(|a|)[i]
      {
        assert Xor(a, e)[i] == a[i];
      }
    }
  }

  /** The exclusive-or of all bits of a sequence. */
  function Parity(s: seq<bool>): bool {
    if s == [] then false else s[0] != Parity(s[1..])
  }

  /** The bits of d at the given places, in order. */
  function Pick(d: seq<bool>, places: seq<nat>): (p: seq<bool>)
    requires forall i :: 0 <= i < |places| ==> places[i] < |d|
    ensures |p| == |places|
  {
    seq(|places|, i requires 0 <= i < |places| => d[places[i]])
  }

  lemma {:induction false} ParityLinear(a: seq<bool>, b: seq<bool>)
    requires |a| == |b|
    ensures Parity(Xor(a, b)) == (Parity(a) != Parity(b))
  {
    if a != [] {
      ParityLinear(a[1..], b[1..]);
      assert Xor(a, b)[1..] == Xor(a[1..], b[1..]);
    }
  }

  lemma PickLinear(a: seq<bool>, b: seq<bool>, places: seq<nat>)
    requires |a| == |b| && forall i :: 0 <= i < |places| ==> places[i] < |a|
    ensures Parity(Pick(Xor(a, b), places)) == (Parity(Pick(a, places)) != Parity(Pick(b, places)))
  {
    assert Pick(Xor(a, b), places) == Xor(Pick(a, places), Pick(b, places));
    ParityLinear(Pick(a, places), Pick(b, places));
  }

  lemma {:induction false} ParityZeros(n: nat)
    ensures !Parity(Zeros(n))
  {
    if n > 0 {
      ParityZeros(n - 1);
      assert Zeros(n)[1..] == Zeros(n - 1);
    }
  }

  /** The sequence whose only true bit is at p. */
  function Unit(n: nat, p: nat): (u: seq<bool>)
    requires p < n
    ensures |u| == n
  {
    seq(n, i => i == p)
  }

  lemma {:induction false} UnitIsOdd(n: nat, p: nat)
    requires p < n
    ensures Parity(Unit(n, p))
  {
    if p == 0 {
      assert Unit(n, p)[1..] == Zeros(n - 1);
      ParityZeros(n - 1);
    } else {
      assert Unit(n, p)[1..] == Unit(n - 1, p - 1);
      UnitIsOdd(n - 1, p - 1);
    }
  }

  /** The parity of picked bits of a unit: whether its bit is picked, for places without repetition. */
  lemma {:induction false} ParityUnit(n: nat, p: nat, places: seq<nat>)
    requires p < n && forall i :: 0 <= i < |places| ==> places[i] < n
    requires forall i, j :: 0 <= i < j < |places| ==> places[i] != places[j]
    ensures Parity(Pick(Unit(n, p), places)) <==> exists i :: 0 <= i < |places| && places[i] == p
  {
    if places != [] {
      ParityUnit(n, p, places[1..]);
      assert Pick(Unit(n, p), places)[1..] == Pick(Unit(n, p), places[1..]);
      if exists i :: 0 <= i < |places| && places[i] == p {
        var i :| 0 <= i < |places| && places[i] == p;
        assert i > 0 ==> places[1..][i - 1] == p;
      }
    }
  }

  /** The positions at which two equally long sequences differ. */
  ghost function Differences<T>(a: seq<T>, b: seq<T>): set<int>
    requires |a| == |b|
  {
    set i | 0 <= i < |a| && a[i] != b[i]
  }

  /** The Hamming distance of two equally long sequences. */
  ghost function Distance<T>(a: seq<T>, b: seq<T>): nat
    requires |a| == |b|
  {
    |Differences(a, b)|
  }

  lemma Member<T>(s: set<T>) returns (x: T)
    requires s != {}
    ensures x in s
  {
    x :| x in s;
  }

  /** An injective image has as many elements as the set it is the image of. */
  lemma {:induction false} ImageCardinality(s: set<int>, t: set<int>, f: int -> int)
    requires t == set x | x in s :: f(x)
    requires forall x, y :: x in s && y in s && f(x) == f(y) ==> x == y
    ensures |t| == |s|
    decreases |s|
  {
    if s != {} {
      var x := Member(s);
      var s', t' := s - {x}, t - {f(x)};
      assert t' == set y | y in s' :: f(y);
      ImageCardinality(s', t', f);
    }
  }

  /** Pairwise different elements of a set bound its size from below. */
  lemma {:induction false} DistinctElements(xs: seq<int>, s: set<int>)
    requires forall i :: 0 <= i < |xs| ==> xs[i] in s
    requires forall i, j :: 0 <= i < j < |xs| ==> xs[i] != xs[j]
    ensures |xs| <= |s|
    decreases |xs|
  {
    if xs != [] {
      var last := xs[|xs| - 1];
      DistinctElements(xs[..|xs| - 1], s - {last});
    }
  }
}
