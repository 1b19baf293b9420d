/** The Reed-Solomon(12,9) parity of a full link control, from internal/dmr/link_control.go. */
module ReedSolomon {
  import opened BitSequences
  import opened Gf256

  // ---------- Polynomials ----------

  function Pow(x: bv8, n: nat): bv8
    decreases n
  {
    if n == 0 then 1 else Mul(Pow(x, n - 1), x)
  }

  /** The word as a polynomial, its first byte the leading coefficient, evaluated at x. */
  function Eval(w: seq<bv8>, x: bv8): bv8
    decreases |w|
  {
    if w == [] then 0 else Add(Mul(w[0], Pow(x, |w| - 1)), Eval(w[1..], x))
  }

  lemma {:induction false} EvalAppend(w: seq<bv8>, d: bv8, x: bv8)
    ensures Eval(w + [d], x) == Add(Mul(Eval(w, x), x), d)
    decreases |w|
  {
    if w == [] {
      hide Add, Mul;
      assert w + [d] == [d];
      assert Pow(x, 0) == 1;
      MulComm(d, 1);
      MulOne(d);
      ZeroMul(x);
      AddZero(d);
      assert Eval([d], x) == Add(Mul(d, Pow(x, 0)), Eval([], x));
    } else {
      hide Add, Mul;
      var head, rest := w[0], w[1..];
      EvalAppend(rest, d, x);
      assert (w + [d])[1..] == rest + [d];
      MulAssoc(head, Pow(x, |rest|), x);
      LeftDistributes(Mul(head, Pow(x, |rest|)), Eval(rest, x), x);
      AddAssoc(Mul(Mul(head, Pow(x, |rest|)), x), Mul(Eval(rest, x), x), d);
    }
  }

  // ---------- The encoder ----------

  datatype Register = Register(p0: bv8, p1: bv8, p2: bv8)

  /** One step of the shift register, whose taps are the generator x^3 + 14 x^2 + 56 x + 64. */
  function Step(r: Register, d: bv8): Register {
    var feedback := Add(d, r.p0);
    Register(Add(r.p1, Mul(feedback, 0x0E)), Add(r.p2, Mul(feedback, 0x38)), Mul(feedback, 0x40))
  }

  function Run(data: seq<bv8>): Register
    decreases |data|
  {
    if data == [] then Register(0, 0, 0) else Step(Run(data[..|data| - 1]), data[|data| - 1])
  }

  function Parity3(data: seq<bv8>): (p: seq<bv8>)
    ensures |p| == 3
  {
    var r := if |data| == 9 then Run(data) else Register(0, 0, 0);
    [r.p0, r.p1, r.p2]
  }

  method ReedSolomon129Parity(data: seq<bv8>) returns (parity: seq<bv8>)
    ensures parity == Parity3(data)
  {
    hide Step;
    var r := Register(0, 0, 0);
    if |data| != 9 {
      return [r.p0, r.p1, r.p2];
    }
    for i := 0 to 9
      invariant r == Run(data[..i])
    {
      assert data[..i + 1][..i] == data[..i];
      r := Shift(r, data[i]);
    }
    assert data[..9] == data;
    parity := [r.p0, r.p1, r.p2];
  }

  method Shift(r: Register, d: bv8) returns (r': Register)
    ensures r' == Step(r, d)
  {
    hide Mul, Add;
    var feedback := Add(d, r.p0);
    var m0 := GF256Mul(feedback, 0x0E);
    var m1 := GF256Mul(feedback, 0x38);
    var m2 := GF256Mul(feedback, 0x40);
    r' := Register(Add(r.p1, m0), Add(r.p2, m1), m2);
  }

  // ---------- Every encoded word vanishes at 2, 4 and 8 ----------

  /** The roots of the generator polynomial. */
  predicate Root(x: bv8) {
    x == 2 || x == 4 || x == 8
  }

  function Square(x: bv8): bv8 {
    Mul(x, x)
  }

  function Cube(x: bv8): bv8 {
    Mul(Square(x), x)
  }

  lemma GeneratorVanishesAt2()
    ensures Cube(2) == Add(Mul(0x0E, Square(2)), Add(Mul(0x38, 2), 0x40))
  {
    hide Mul;
    MulUnrolled(2, 2);
    MulUnrolled(Square(2), 2);
    MulUnrolled(0x0E, Square(2));
    MulUnrolled(0x38, 2);
  }

  lemma GeneratorVanishesAt4()
    ensures Cube(4) == Add(Mul(0x0E, Square(4)), Add(Mul(0x38, 4), 0x40))
  {
    hide Mul;
    MulUnrolled(4, 4);
    MulUnrolled(Square(4), 4);
    MulUnrolled(0x0E, Square(4));
    MulUnrolled(0x38, 4);
  }

  lemma GeneratorVanishesAt8()
    ensures Cube(8) == Add(Mul(0x0E, Square(8)), Add(Mul(0x38, 8), 0x40))
  {
    hide Mul;
    MulUnrolled(8, 8);
    MulUnrolled(Square(8), 8);
    MulUnrolled(0x0E, Square(8));
    MulUnrolled(0x38, 8);
  }

  lemma GeneratorVanishes(x: bv8)
    requires Root(x)
    ensures Cube(x) == Add(Mul(0x0E, Square(x)), Add(Mul(0x38, x), 0x40))
  {
    hide Mul, Add, Cube, Square;
    GeneratorVanishesAt2();
    GeneratorVanishesAt4();
    GeneratorVanishesAt8();
  }

  /** The register as a polynomial, evaluated at x. */
  function RegisterAt(r: Register, x: bv8): bv8 {
    Add(Mul(r.p0, Square(x)), Add(Mul(r.p1, x), r.p2))
  }

  lemma TimesGenerator(f: bv8, x: bv8)
    requires Root(x)
    ensures Mul(f, Cube(x)) == Add(Mul(Mul(f, 0x0E), Square(x)), Add(Mul(Mul(f, 0x38), x), Mul(f, 0x40)))
  {
    hide Mul, Add, Cube, Square;
    GeneratorVanishes(x);
    RightDistributes(f, Mul(0x0E, Square(x)), Add(Mul(0x38, x), 0x40));
    RightDistributes(f, Mul(0x38, x), 0x40);
    MulAssoc(f, 0x0E, Square(x));
    MulAssoc(f, 0x38, x);
  }

  lemma ShiftedRegister(r: Register, x: bv8)
    ensures Mul(RegisterAt(r, x), x) == Add(Mul(r.p0, Cube(x)), Add(Mul(r.p1, Square(x)), Mul(r.p2, x)))
  {
    hide Mul, Add;
    LeftDistributes(Mul(r.p0, Square(x)), Add(Mul(r.p1, x), r.p2), x);
    LeftDistributes(Mul(r.p1, x), r.p2, x);
    MulAssoc(r.p0, Square(x), x);
    MulAssoc(r.p1, x, x);
  }

  lemma SteppedRegister(r: Register, d: bv8, x: bv8)
    requires Root(x)
    ensures RegisterAt(Step(r, d), x) == Add(Mul(RegisterAt(r, x), x), Mul(d, Cube(x)))
  {
    hide Mul, Add, Square, Cube;
    var f := Add(d, r.p0);
    var a, b, c, e := Mul(r.p0, Cube(x)), Mul(r.p1, Square(x)), Mul(r.p2, x), Mul(d, Cube(x));
    var u, v, w := Mul(Mul(f, 0x0E), Square(x)), Mul(Mul(f, 0x38), x), Mul(f, 0x40);
    LeftDistributes(r.p1, Mul(f, 0x0E), Square(x));
    LeftDistributes(r.p2, Mul(f, 0x38), x);
    assert RegisterAt(Step(r, d), x) == Add(Add(b, u), Add(Add(c, v), w));
    AddAssoc(c, v, w);
    AddShuffle(b, u, c, Add(v, w));
    TimesGenerator(f, x);
    LeftDistributes(d, r.p0, Cube(x));
    assert RegisterAt(Step(r, d), x) == Add(Add(b, c), Add(e, a));
    ShiftedRegister(r, x);
    AddComm(a, Add(b, c));
    AddAssoc(Add(b, c), a, e);
    AddComm(e, a);
  }

  /** The shift register holds the remainder: data times x^3 and the register agree at every root. */
  lemma {:induction false} RunVanishes(data: seq<bv8>, x: bv8)
    requires Root(x)
    ensures Mul(Eval(data, x), Cube(x)) == RegisterAt(Run(data), x)
    decreases |data|
  {
    if data == [] {
      hide Mul, Add, Square, Cube;
      ZeroMul(Cube(x));
      ZeroMul(Square(x));
      ZeroMul(x);
      AddZero(0);
    } else {
      var init, d := data[..|data| - 1], data[|data| - 1];
      assert data == init + [d];
      hide Mul, Add, Square, Cube, Step, RegisterAt;
      RunVanishes(init, x);
      EvalAppend(init, d, x);
      LeftDistributes(Mul(Eval(init, x), x), d, Cube(x));
      MulAssoc(Eval(init, x), x, Cube(x));
      MulComm(x, Cube(x));
      MulAssoc(Eval(init, x), Cube(x), x);
      SteppedRegister(Run(init), d, x);
    }
  }

  lemma EvalTail(data: seq<bv8>, r: Register, x: bv8)
    ensures Eval(data + [r.p0, r.p1, r.p2], x) == Add(Mul(Eval(data, x), Cube(x)), RegisterAt(r, x))
  {
    hide Mul, Add, Eval;
    var e := Eval(data, x);
    assert data + [r.p0, r.p1, r.p2] == data + [r.p0] + [r.p1] + [r.p2];
    EvalAppend(data, r.p0, x);
    EvalAppend(data + [r.p0], r.p1, x);
    EvalAppend(data + [r.p0] + [r.p1], r.p2, x);
    LeftDistributes(Mul(e, x), r.p0, x);
    LeftDistributes(Add(Mul(Mul(e, x), x), Mul(r.p0, x)), r.p1, x);
    LeftDistributes(Mul(Mul(e, x), x), Mul(r.p0, x), x);
    MulAssoc(e, x, x);
    MulAssoc(r.p0, x, x);
    MulAssoc(e, Square(x), x);
    var a, b, c := Mul(e, Cube(x)), Mul(r.p0, Square(x)), Mul(r.p1, x);
    AddAssoc(a, b, c);
    AddAssoc(a, Add(b, c), r.p2);
    AddAssoc(b, c, r.p2);
  }

  /** The transmitted word: nine data bytes followed by their parity. */
  function Word(data: seq<bv8>): (w: seq<bv8>)
    requires |data| == 9
    ensures |w| == 12
  {
    data + Parity3(data)
  }

  /** Every word is a multiple of the generator: it vanishes at 2, 4 and 8. */
  lemma WordVanishes(data: seq<bv8>, x: bv8)
    requires |data| == 9 && Root(x)
    ensures Eval(Word(data), x) == 0
  {
    hide Mul, Add, Eval, RegisterAt, Run, Cube;
    RunVanishes(data, x);
    EvalTail(data, Run(data), x);
    AddSelf(Mul(Eval(data, x), Cube(x)), RegisterAt(Run(data), x));
  }

  // ---------- Distance ----------

  /** Byte-wise addition of words. */
  function Sum(a: seq<bv8>, b: seq<bv8>): (s: seq<bv8>)
    requires |a| == |b|
    ensures |s| == |a|
  {
    seq(|a|, i requires 0 <= i < |a| => Add(a[i], b[i]))
  }

  lemma {:induction false} EvalLinear(a: seq<bv8>, b: seq<bv8>, x: bv8)
    requires |a| == |b|
    ensures Eval(Sum(a, b), x) == Add(Eval(a, x), Eval(b, x))
    decreases |a|
  {
    hide Mul, Add, Pow;
    if a == [] {
      AddZero(0);
    } else {
      EvalLinear(a[1..], b[1..], x);
      assert Sum(a, b)[1..] == Sum(a[1..], b[1..]);
      var p := Pow(x, |a| - 1);
      LeftDistributes(a[0], b[0], p);
      AddShuffle(Mul(a[0], p), Mul(b[0], p), Eval(a[1..], x), Eval(b[1..], x));
    }
  }

  /** The word with a single byte kept. */
  function Only(n: nat, i: nat, e: bv8): (w: seq<bv8>)
    requires i < n
    ensures |w| == n
  {
    seq(n, j => if j == i then e else 0)
  }

  lemma {:induction false} EvalZero(n: nat, x: bv8)
    ensures Eval(seq(n, j => 0), x) == 0
  {
    hide Mul, Add, Pow;
    if n > 0 {
      EvalZero(n - 1, x);
      assert seq(n, j => 0 as bv8)[1..] == seq(n - 1, j => 0 as bv8);
      ZeroMul(Pow(x, n - 1));
      AddZero(0);
    }
  }

  lemma {:induction false} EvalOnly(n: nat, i: nat, e: bv8, x: bv8)
    requires i < n
    ensures Eval(Only(n, i, e), x) == Mul(e, Pow(x, n - 1 - i))
    decreases n
  {
    hide Mul, Add, Pow;
    var w := Only(n, i, e);
    if i == 0 {
      assert w[1..] == seq(n - 1, j => 0 as bv8);
      EvalZero(n - 1, x);
      AddZero(Mul(e, Pow(x, n - 1)));
    } else {
      assert w[1..] == Only(n - 1, i - 1, e);
      EvalOnly(n - 1, i - 1, e, x);
      ZeroMul(Pow(x, n - 1));
      AddZero(Mul(e, Pow(x, n - 1 - i)));
    }
  }

  lemma MulSwap(a: bv8, b: bv8, c: bv8, d: bv8)
    ensures Mul(Mul(a, b), Mul(c, d)) == Mul(Mul(a, c), Mul(b, d))
  {
    hide *;
    MulAssoc(a, b, Mul(c, d));
    MulAssoc(b, c, d);
    MulComm(b, c);
    MulAssoc(c, b, d);
    MulAssoc(a, c, Mul(b, d));
  }

  lemma PowersOfTwo()
    ensures Square(2) == 4 && Cube(2) == 8
  {
    hide Mul;
    MulUnrolled(2, 2);
    MulUnrolled(4, 2);
  }

  /** The powers of 4 and 8 are the squares and cubes of the powers of 2. */
  lemma {:induction false} PowersAgree(n: nat)
    ensures Pow(4, n) == Square(Pow(2, n)) && Pow(8, n) == Cube(Pow(2, n))
  {
    hide Mul;
    PowersOfTwo();
    if n == 0 {
      MulOne(1);
    } else {
      PowersAgree(n - 1);
      var p := Pow(2, n - 1);
      MulSwap(p, 2, p, 2);
      MulSwap(Square(p), Square(2), p, 2);
    }
  }

  const LOCATORS: seq<bv8> := [1, 2, 4, 8, 16, 32, 64, 128, 29, 58, 116, 232]

  lemma PowStep(x: bv8, n: nat)
    ensures Pow(x, 0) == 1 && Pow(x, n + 1) == Mul(Pow(x, n), x)
  {
    hide Mul;
  }

  lemma {:induction false} PowLocator(n: nat)
    requires n < 12
    ensures Pow(2, n) == LOCATORS[n]
  {
    hide Pow, Mul;
    PowStep(2, if n == 0 then 0 else n - 1);
    if n > 0 {
      PowLocator(n - 1);
      Doubling(n);
    }
  }

  lemma Doubling(n: nat)
    requires 0 < n < 12
    ensures Mul(LOCATORS[n - 1], 2) == LOCATORS[n]
  {
    hide Mul;
    MulUnrolled(LOCATORS[n - 1], 2);
    if n <= 6 {
      assert n == 1 || n == 2 || n == 3 || n == 4 || n == 5 || n == 6;
    } else {
      assert n == 7 || n == 8 || n == 9 || n == 10 || n == 11;
    }
  }

  lemma LocatorsDiffer(m: nat, n: nat)
    requires m < 12 && n < 12 && Pow(2, m) == Pow(2, n)
    ensures m == n
  {
    hide Pow;
    PowLocator(m);
    PowLocator(n);
  }

  /** The elimination step: of three errors at different locators, the first is zero. */
  lemma FirstIsZero(u1: bv8, u2: bv8, u3: bv8, y1: bv8, y2: bv8, y3: bv8)
    requires y1 != y2 && y1 != y3
    requires Add(u1, Add(u2, u3)) == 0
    requires Add(Mul(u1, y1), Add(Mul(u2, y2), Mul(u3, y3))) == 0
    requires Add(Mul(u1, Square(y1)), Add(Mul(u2, Square(y2)), Mul(u3, Square(y3)))) == 0
    ensures u1 == 0
  {
    hide Mul, Add, Square;
    var a, b := Mul(u1, Add(y1, y3)), Mul(u2, Add(y2, y3));
    Eliminated(u1, u2, u3, y1, y2, y3);
    assert Add(a, b) == 0;
    MulsBy(u1, y1, y3);
    MulsBy(u2, y2, y3);
    MulsBy(u3, y3, y3);
    Eliminated(Mul(u1, y1), Mul(u2, y2), Mul(u3, y3), y1, y2, y3);
    assert Add(Mul(a, y1), Mul(b, y2)) == 0;
    AddSelf(a, b);
    RightDistributes(a, y1, y2);
    NoZeroDivisors(a, Add(y1, y2));
    AddSelf(y1, y2);
    NoZeroDivisors(u1, Add(y1, y3));
    AddSelf(y1, y3);
  }

  lemma MulsBy(u: bv8, y: bv8, z: bv8)
    ensures Mul(Mul(u, y), y) == Mul(u, Square(y))
    ensures Mul(Mul(u, y), Add(y, z)) == Mul(Mul(u, Add(y, z)), y)
  {
    hide Mul, Add;
    MulAssoc(u, y, y);
    MulAssoc(u, y, Add(y, z));
    MulComm(y, Add(y, z));
    MulAssoc(u, Add(y, z), y);
  }

  /** Subtracting y3 times the first equation from the second removes the third unknown. */
  lemma Eliminated(u1: bv8, u2: bv8, u3: bv8, y1: bv8, y2: bv8, y3: bv8)
    requires Add(u1, Add(u2, u3)) == 0
    requires Add(Mul(u1, y1), Add(Mul(u2, y2), Mul(u3, y3))) == 0
    ensures Add(Mul(u1, Add(y1, y3)), Mul(u2, Add(y2, y3))) == 0
  {
    hide Mul, Add;
    RightDistributes(u1, y1, y3);
    RightDistributes(u2, y2, y3);
    AddShuffle(Mul(u1, y1), Mul(u1, y3), Mul(u2, y2), Mul(u2, y3));
    AddAssoc(u1, u2, u3);
    AddSelf(Add(u1, u2), u3);
    LeftDistributes(u1, u2, y3);
    AddAssoc(Mul(u1, y1), Mul(u2, y2), Mul(u3, y3));
  }

  /** Three byte errors in a word of length 12 always show at a root. */
  lemma ThreeErrorsShow(w: seq<bv8>, i: nat, j: nat, k: nat)
    requires |w| == 12 && i < 12 && j < 12 && k < 12 && i != j && i != k && j != k
    requires forall a :: 0 <= a < 12 && a != i && a != j && a != k ==> w[a] == 0
    requires Eval(w, 2) == 0 && Eval(w, 4) == 0 && Eval(w, 8) == 0
    ensures w[i] == 0
  {
    hide Mul, Add, Eval, Pow;
    var x, y, z := Pow(2, 11 - i), Pow(2, 11 - j), Pow(2, 11 - k);
    SparseEval(w, i, j, k, 2);
    SparseEval(w, i, j, k, 4);
    SparseEval(w, i, j, k, 8);
    PowersAgree(11 - i);
    PowersAgree(11 - j);
    PowersAgree(11 - k);
    if x == y { LocatorsDiffer(11 - i, 11 - j); }
    if x == z { LocatorsDiffer(11 - i, 11 - k); }
    Locates(w[i], x);
    Locates(w[j], y);
    Locates(w[k], z);
    FirstIsZero(Mul(w[i], x), Mul(w[j], y), Mul(w[k], z), x, y, z);
    NoZeroDivisors(w[i], x);
    LocatorNonzero(11 - i);
  }

  lemma Locates(e: bv8, x: bv8)
    ensures Mul(e, Square(x)) == Mul(Mul(e, x), x)
    ensures Mul(e, Cube(x)) == Mul(Mul(e, x), Square(x))
  {
    hide Mul;
    MulAssoc(e, x, x);
    MulAssoc(e, x, Square(x));
    MulComm(x, Square(x));
  }

  lemma LocatorNonzero(n: nat)
    requires n < 12
    ensures Pow(2, n) != 0
  {
    hide Pow;
    PowLocator(n);
  }

  lemma SparseEval(w: seq<bv8>, i: nat, j: nat, k: nat, x: bv8)
    requires |w| == 12 && i < 12 && j < 12 && k < 12 && i != j && i != k && j != k
    requires forall a :: 0 <= a < 12 && a != i && a != j && a != k ==> w[a] == 0
    ensures Eval(w, x) == Add(Mul(w[i], Pow(x, 11 - i)), Add(Mul(w[j], Pow(x, 11 - j)), Mul(w[k], Pow(x, 11 - k))))
  {
    hide Mul, Add, Eval, Pow, Only, Sum;
    SparseSum(w, i, j, k);
    ThreeTerms(i, w[i], j, w[j], k, w[k], x);
  }

  lemma ThreeTerms(i: nat, a: bv8, j: nat, b: bv8, k: nat, c: bv8, x: bv8)
    requires i < 12 && j < 12 && k < 12
    ensures Eval(Sum(Only(12, i, a), Sum(Only(12, j, b), Only(12, k, c))), x)
         == Add(Mul(a, Pow(x, 11 - i)), Add(Mul(b, Pow(x, 11 - j)), Mul(c, Pow(x, 11 - k))))
  {
    hide Mul, Add, Eval, Pow, Only, Sum;
    var u, v, t := Only(12, i, a), Only(12, j, b), Only(12, k, c);
    EvalLinear(u, Sum(v, t), x);
    EvalLinear(v, t, x);
    EvalOnly(12, i, a, x);
    EvalOnly(12, j, b, x);
    EvalOnly(12, k, c, x);
  }

  lemma SparseSum(w: seq<bv8>, i: nat, j: nat, k: nat)
    requires |w| == 12 && i < 12 && j < 12 && k < 12 && i != j && i != k && j != k
    requires forall a :: 0 <= a < 12 && a != i && a != j && a != k ==> w[a] == 0
    ensures w == Sum(Only(12, i, w[i]), Sum(Only(12, j, w[j]), Only(12, k, w[k])))
  {
    hide Add;
    var s := Sum(Only(12, i, w[i]), Sum(Only(12, j, w[j]), Only(12, k, w[k])));
    forall a | 0 <= a < 12
      ensures w[a] == s[a]
    {
      AddZero(w[a]);
      AddZero(0);
    }
  }

  /** Any set of at most three positions fits into three different positions. */
  lemma ThreeCover(s: set<int>) returns (i: nat, j: nat, k: nat)
    requires |s| <= 3 && forall a :: a in s ==> 0 <= a < 12
    ensures i < 12 && j < 12 && k < 12 && i != j && i != k && j != k
    ensures forall a :: a in s ==> a == i || a == j || a == k
  {
    i := PickOr(s, {});
    j := PickOr(s - {i}, {i});
    k := PickOr(s - {i} - {j}, {i, j});
    assert |s - {i} - {j} - {k}| == 0;
  }

  /** An element of s, or failing that a position outside the used ones. */
  lemma PickOr(s: set<int>, used: set<int>) returns (p: nat)
    requires forall a :: a in s ==> 0 <= a < 12 && a !in used
    requires |used| <= 2
    ensures p < 12 && p !in used && (s != {} ==> p in s)
  {
    if s != {} {
      p := Member(s);
    } else {
      p := if 0 !in used then 0 else if 1 !in used then 1 else 2;
      if 0 in used && 1 in used && 2 in used {
        DistinctElements([0, 1, 2], used);
      }
    }
  }

  /** Two different messages have words that differ in at least four bytes. */
  lemma WordDistance(a: seq<bv8>, b: seq<bv8>)
    requires |a| == |b| == 9 && a != b
    ensures Distance(Word(a), Word(b)) >= 4
  {
    hide Mul, Add, Eval, Word;
    var w := Sum(Word(a), Word(b));
    SumVanishes(a, b, 2);
    SumVanishes(a, b, 4);
    SumVanishes(a, b, 8);
    var n :| 0 <= n < 9 && a[n] != b[n];
    WordPrefix(a, n);
    WordPrefix(b, n);
    AddSelf(a[n], b[n]);
    assert w[n] != 0;
    if Distance(Word(a), Word(b)) <= 3 {
      var i, j, k := ThreeCover(Differences(Word(a), Word(b)));
      forall p | 0 <= p < 12 && p != i && p != j && p != k
        ensures w[p] == 0
      {
        assert p !in Differences(Word(a), Word(b));
        AddSelf(Word(a)[p], Word(b)[p]);
      }
      ThreeErrorsShow(w, i, j, k);
      ThreeErrorsShow(w, j, i, k);
      ThreeErrorsShow(w, k, i, j);
    }
  }

  lemma WordPrefix(a: seq<bv8>, n: nat)
    requires |a| == 9 && n < 9
    ensures Word(a)[n] == a[n]
  {
  }

  lemma SumVanishes(a: seq<bv8>, b: seq<bv8>, x: bv8)
    requires |a| == |b| == 9 && Root(x)
    ensures Eval(Sum(Word(a), Word(b)), x) == 0
  {
    hide Mul, Add, Eval, Word;
    EvalLinear(Word(a), Word(b), x);
    WordVanishes(a, x);
    WordVanishes(b, x);
    AddZero(0);
  }
}
