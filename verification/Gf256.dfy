/**
  The field GF(256) of the Reed-Solomon code: polynomials over GF(2) modulo
  x^8 + x^4 + x^3 + x^2 + 1, with exclusive-or as addition.
 */
module Gf256 {

  /** Addition. */
  function Add(a: bv8, b: bv8): bv8 {
    a ^ b
  }

  /** a when the lowest bit of b is set, else zero. */
  function Gate(b: bv8, a: bv8): bv8 {
    (0 - (b & 1)) & a
  }

  function Half(b: bv8): bv8 {
    b >> 1
  }

  /** Multiplication by x. */
  function Xtime(a: bv8): bv8 {
    (a << 1) ^ Gate(a >> 7, 0x1D)
  }

  /** The sum of x^i * a over the bits i < n that b has set. */
  function MulFrom(a: bv8, b: bv8, n: nat): bv8
    decreases n
  {
    if n == 0 then 0 else Add(Gate(b, a), MulFrom(Xtime(a), Half(b), n - 1))
  }

  function Mul(a: bv8, b: bv8): bv8 {
    MulFrom(a, b, 8)
  }

  /** The shift-and-add loop. */
  method GF256Mul(a: bv8, b: bv8) returns (p: bv8)
    ensures p == Mul(a, b)
  {
    hide *;
    p := 0;
    var aa, bb := a, b;
    MulDef(a, b);
    AddZero(Mul(a, b));
    for i := 0 to 8
      invariant Add(p, MulFrom(aa, bb, 8 - i)) == Mul(a, b)
    {
      ghost var p0, aa0 := p, aa;
      p, aa := ShiftAndAdd(p, aa, bb);
      MulStep(aa0, bb, 8 - i);
      AddAssoc(p0, Gate(bb, aa0), MulFrom(aa, Half(bb), 7 - i));
      bb := Halve(bb);
    }
    MulStop(aa, bb);
    AddZero(p);
  }

  /** One round of the loop. */
  method ShiftAndAdd(p: bv8, aa: bv8, bb: bv8) returns (p': bv8, aa': bv8)
    ensures p' == Add(p, Gate(bb, aa)) && aa' == Xtime(aa)
  {
    p' := p;
    if bb & 1 != 0 {
      p' := p' ^ aa;
    }
    var hi := aa & 0x80 != 0;
    aa' := aa << 1;
    if hi {
      aa' := aa' ^ 0x1D;
    }
  }

  method Halve(bb: bv8) returns (bb': bv8)
    ensures bb' == Half(bb)
  {
    bb' := bb >> 1;
  }

  lemma MulDef(a: bv8, b: bv8)
    ensures Mul(a, b) == MulFrom(a, b, 8)
  {
  }

  lemma MulStop(a: bv8, b: bv8)
    ensures MulFrom(a, b, 0) == 0
  {
  }

  lemma MulStep(a: bv8, b: bv8, n: nat)
    requires n > 0
    ensures MulFrom(a, b, n) == Add(Gate(b, a), MulFrom(Xtime(a), Half(b), n - 1))
  {
  }

  // ---------- Addition ----------

  lemma AddZero(a: bv8)
    ensures Add(a, 0) == a == Add(0, a)
  {
  }

  lemma AddAssoc(a: bv8, b: bv8, c: bv8)
    ensures Add(Add(a, b), c) == Add(a, Add(b, c))
  {
  }

  lemma AddComm(a: bv8, b: bv8)
    ensures Add(a, b) == Add(b, a)
  {
  }

  /** Every element is its own negative. */
  lemma AddSelf(a: bv8, b: bv8)
    ensures Add(a, b) == 0 <==> a == b
  {
  }

  lemma AddShuffle(a: bv8, b: bv8, c: bv8, d: bv8)
    ensures Add(Add(a, b), Add(c, d)) == Add(Add(a, c), Add(b, d))
  {
    hide *;
    AddAssoc(a, b, Add(c, d));
    AddAssoc(b, c, d);
    AddComm(b, c);
    AddAssoc(c, b, d);
    AddAssoc(a, c, Add(b, d));
  }

  // ---------- Linearity ----------

  lemma XtimeLinear(a: bv8, b: bv8)
    ensures Xtime(Add(a, b)) == Add(Xtime(a), Xtime(b))
  {
  }

  lemma GateCase(k: bv8, b: bv8)
    ensures Gate(k, b) == if k & 1 != 0 then b else 0
  {
  }

  lemma LowBitOfSum(b: bv8, c: bv8)
    ensures Add(b, c) & 1 != 0 <==> (b & 1 != 0) != (c & 1 != 0)
  {
  }

  lemma HalfOfSum(b: bv8, c: bv8)
    ensures Half(Add(b, c)) == Add(Half(b), Half(c))
  {
  }

  lemma GateLinear(b: bv8, c: bv8, a: bv8)
    ensures Gate(Add(b, c), a) == Add(Gate(b, a), Gate(c, a))
    ensures Gate(a, Add(b, c)) == Add(Gate(a, b), Gate(a, c))
    ensures Half(Add(b, c)) == Add(Half(b), Half(c))
  {
    hide *;
    GateCase(Add(b, c), a);
    GateCase(b, a);
    GateCase(c, a);
    GateCase(a, Add(b, c));
    GateCase(a, b);
    GateCase(a, c);
    LowBitOfSum(b, c);
    HalfOfSum(b, c);
    AddSelf(a, a);
    AddZero(a);
    AddZero(0);
  }

  lemma {:induction false} RightDistributesFrom(a: bv8, b: bv8, c: bv8, n: nat)
    ensures MulFrom(a, Add(b, c), n) == Add(MulFrom(a, b, n), MulFrom(a, c, n))
    decreases n
  {
    hide *;
    if n == 0 {
      MulStop(a, Add(b, c));
      MulStop(a, b);
      MulStop(a, c);
      AddZero(0);
    } else {
      MulStep(a, Add(b, c), n);
      MulStep(a, b, n);
      MulStep(a, c, n);
      RightDistributesFrom(Xtime(a), Half(b), Half(c), n - 1);
      GateLinear(b, c, a);
      AddShuffle(Gate(b, a), Gate(c, a), MulFrom(Xtime(a), Half(b), n - 1), MulFrom(Xtime(a), Half(c), n - 1));
    }
  }

  lemma {:induction false} LeftDistributesFrom(a: bv8, b: bv8, c: bv8, n: nat)
    ensures MulFrom(Add(a, b), c, n) == Add(MulFrom(a, c, n), MulFrom(b, c, n))
    decreases n
  {
    hide *;
    if n == 0 {
      MulStop(Add(a, b), c);
      MulStop(a, c);
      MulStop(b, c);
      AddZero(0);
    } else {
      MulStep(Add(a, b), c, n);
      MulStep(a, c, n);
      MulStep(b, c, n);
      XtimeLinear(a, b);
      LeftDistributesFrom(Xtime(a), Xtime(b), Half(c), n - 1);
      GateLinear(a, b, c);
      AddShuffle(Gate(c, a), Gate(c, b), MulFrom(Xtime(a), Half(c), n - 1), MulFrom(Xtime(b), Half(c), n - 1));
    }
  }

  lemma XtimeGate(b: bv8, a: bv8)
    ensures Gate(b, Xtime(a)) == Xtime(Gate(b, a))
  {
  }

  lemma XtimeZero(a: bv8)
    ensures Xtime(a) == 0 <==> a == 0
  {
  }

  lemma {:induction false} XtimeThroughFrom(a: bv8, b: bv8, n: nat)
    ensures MulFrom(Xtime(a), b, n) == Xtime(MulFrom(a, b, n))
    decreases n
  {
    hide *;
    if n == 0 {
      MulStop(Xtime(a), b);
      MulStop(a, b);
      XtimeZero(0);
    } else {
      MulStep(Xtime(a), b, n);
      MulStep(a, b, n);
      XtimeThroughFrom(Xtime(a), Half(b), n - 1);
      XtimeGate(b, a);
      XtimeLinear(Gate(b, a), MulFrom(Xtime(a), Half(b), n - 1));
    }
  }

  lemma {:induction false} ZeroTimes(b: bv8, n: nat)
    ensures MulFrom(0, b, n) == 0
    decreases n
  {
    if n > 0 {
      ZeroTimes(b >> 1, n - 1);
    }
  }

  // ---------- The field laws ----------

  lemma RightDistributes(a: bv8, b: bv8, c: bv8)
    ensures Mul(a, Add(b, c)) == Add(Mul(a, b), Mul(a, c))
  {
    hide *;
    MulDef(a, Add(b, c));
    MulDef(a, b);
    MulDef(a, c);
    RightDistributesFrom(a, b, c, 8);
  }

  lemma LeftDistributes(a: bv8, b: bv8, c: bv8)
    ensures Mul(Add(a, b), c) == Add(Mul(a, c), Mul(b, c))
  {
    hide *;
    MulDef(Add(a, b), c);
    MulDef(a, c);
    MulDef(b, c);
    LeftDistributesFrom(a, b, c, 8);
  }

  lemma XtimeThrough(a: bv8, b: bv8)
    ensures Mul(Xtime(a), b) == Xtime(Mul(a, b))
  {
    hide *;
    MulDef(Xtime(a), b);
    MulDef(a, b);
    XtimeThroughFrom(a, b, 8);
  }

  lemma ZeroMul(b: bv8)
    ensures Mul(0, b) == 0
  {
    ZeroTimes(b, 8);
  }

  /** b has no bit at or above n. */
  predicate Below(b: bv8, n: nat)
    decreases n
  {
    if n == 0 then b == 0 else Below(Half(b), n - 1)
  }

  lemma BelowEight(b: bv8)
    ensures Below(b, 8)
  {
    var b2 := Half(Half(b));
    var b4 := Half(Half(b2));
    var b6 := Half(Half(b4));
    assert Half(Half(b6)) == 0;
    assert Below(b6, 2);
    assert Below(b4, 4);
    assert Below(b2, 6);
  }

  lemma LowBit(a: bv8)
    ensures a == Add(Gate(a, 1), Xtime(Half(a)))
  {
  }

  lemma MulOne(b: bv8)
    ensures Mul(1, b) == b
  {
    MulUnrolled(1, b);
  }

  lemma MulGate(k: bv8, b: bv8, c: bv8)
    ensures Mul(Gate(k, b), c) == Gate(k, Mul(b, c))
  {
    GateCase(k, b);
    GateCase(k, Mul(b, c));
    ZeroMul(c);
  }

  /** Multiplication by the low bit of a and by the rest of a. */
  lemma MulByParts(a: bv8, b: bv8)
    ensures Mul(a, b) == Add(Gate(a, b), Xtime(Mul(Half(a), b)))
  {
    hide *;
    LowBit(a);
    LeftDistributes(Gate(a, 1), Xtime(Half(a)), b);
    MulGate(a, 1, b);
    MulOne(b);
    XtimeThrough(Half(a), b);
  }

  lemma {:induction false} MulCommFrom(a: bv8, b: bv8, n: nat)
    requires Below(a, n)
    ensures Mul(a, b) == MulFrom(b, a, n)
    decreases n
  {
    if n == 0 {
      ZeroMul(b);
    } else {
      assert Below(Half(a), n - 1);
      hide *;
      MulCommFrom(Half(a), b, n - 1);
      MulByParts(a, b);
      MulStep(b, a, n);
      XtimeThroughFrom(b, Half(a), n - 1);
    }
  }

  lemma MulComm(a: bv8, b: bv8)
    ensures Mul(a, b) == Mul(b, a)
  {
    hide *;
    BelowEight(a);
    MulCommFrom(a, b, 8);
    MulDef(b, a);
  }

  lemma {:induction false} MulAssocFrom(a: bv8, b: bv8, c: bv8, n: nat)
    requires Below(a, n)
    ensures Mul(Mul(a, b), c) == Mul(a, Mul(b, c))
    decreases n
  {
    if n == 0 {
      ZeroMul(b);
      ZeroMul(c);
      ZeroMul(Mul(b, c));
    } else {
      assert Below(Half(a), n - 1);
      hide *;
      MulAssocFrom(Half(a), b, c, n - 1);
      MulByParts(a, b);
      LeftDistributes(Gate(a, b), Xtime(Mul(Half(a), b)), c);
      MulGate(a, b, c);
      XtimeThrough(Mul(Half(a), b), c);
      MulByParts(a, Mul(b, c));
    }
  }

  lemma MulAssoc(a: bv8, b: bv8, c: bv8)
    ensures Mul(Mul(a, b), c) == Mul(a, Mul(b, c))
  {
    BelowEight(a);
    MulAssocFrom(a, b, c, 8);
  }

  /** All eight terms of a product. */
  lemma MulUnrolled(a: bv8, b: bv8)
    ensures Mul(a, b) == Unrolled(a, b)
  {
    hide *;
    UnrolledByHalves(a, b);
    MulDef(a, b);
    MulFourTerms(a, b, 4);
    var a4, b4 := Xtime(Xtime(Xtime(Xtime(a)))), Half(Half(Half(Half(b))));
    MulFourTerms(a4, b4, 0);
    MulStop(Xtime(Xtime(Xtime(Xtime(a4)))), Half(Half(Half(Half(b4)))));
    AddZero(FourTerms(a4, b4));
  }

  function FourTerms(a: bv8, b: bv8): bv8 {
    Add(Gate(b, a), Add(Gate(Half(b), Xtime(a)), Add(Gate(Half(Half(b)), Xtime(Xtime(a))), Gate(Half(Half(Half(b))), Xtime(Xtime(Xtime(a)))))))
  }

  lemma MulFourTerms(a: bv8, b: bv8, n: nat)
    ensures MulFrom(a, b, 4 + n) == Add(FourTerms(a, b), MulFrom(Xtime(Xtime(Xtime(Xtime(a)))), Half(Half(Half(Half(b)))), n))
  {
    hide Add, Gate, Half, Xtime, MulFrom;
    var a1, b1 := Xtime(a), Half(b);
    var a2, b2 := Xtime(a1), Half(b1);
    var a3, b3 := Xtime(a2), Half(b2);
    var rest := MulFrom(Xtime(a3), Half(b3), n);
    MulStep(a, b, 4 + n);
    MulStep(a1, b1, 3 + n);
    MulStep(a2, b2, 2 + n);
    MulStep(a3, b3, 1 + n);
    AddAssoc(Gate(b2, a2), Gate(b3, a3), rest);
    AddAssoc(Gate(b1, a1), Add(Gate(b2, a2), Gate(b3, a3)), rest);
    AddAssoc(Gate(b, a), Add(Gate(b1, a1), Add(Gate(b2, a2), Gate(b3, a3))), rest);
  }

  function Unrolled(a: bv8, b: bv8): bv8 {
    Add(FourTerms(a, b), FourTerms(Xtime(Xtime(Xtime(Xtime(a)))), b >> 4))
  }

  lemma UnrolledByHalves(a: bv8, b: bv8)
    ensures Unrolled(a, b) == Add(FourTerms(a, b), FourTerms(Xtime(Xtime(Xtime(Xtime(a)))), Half(Half(Half(Half(b))))))
  {
    assert b >> 4 == Half(Half(Half(Half(b))));
  }

  lemma OddProduct00(a: bv8, b: bv8)
    requires a & 0xC1 == 0x01 && b & 1 == 1
    ensures Mul(a, b) != 0
  {
    hide Mul;
    MulUnrolled(a, b);
  }

  lemma OddProduct01(a: bv8, b: bv8)
    requires a & 0xC1 == 0x41 && b & 1 == 1
    ensures Mul(a, b) != 0
  {
    hide Mul;
    MulUnrolled(a, b);
  }

  lemma OddProduct10(a: bv8, b: bv8)
    requires a & 0xC1 == 0x81 && b & 1 == 1
    ensures Mul(a, b) != 0
  {
    hide Mul;
    MulUnrolled(a, b);
  }

  lemma OddProduct11(a: bv8, b: bv8)
    requires a & 0xC1 == 0xC1 && b & 1 == 1
    ensures Mul(a, b) != 0
  {
    hide Mul;
    MulUnrolled(a, b);
  }

  /** The product of two odd elements is not zero, by the two highest bits of the first. */
  lemma OddProduct(a: bv8, b: bv8)
    requires a & 1 == 1 && b & 1 == 1
    ensures Mul(a, b) != 0
  {
    hide Mul;
    if a & 0xC1 == 0x01 {
      OddProduct00(a, b);
    } else if a & 0xC1 == 0x41 {
      OddProduct01(a, b);
    } else if a & 0xC1 == 0x81 {
      OddProduct10(a, b);
    } else {
      OddProduct11(a, b);
    }
  }

  lemma EvenHalves(a: bv8)
    requires a & 1 == 0
    ensures a == Xtime(Half(a)) && (Half(a) == 0 <==> a == 0)
  {
  }

  lemma {:induction false} OddFactor(a: bv8, b: bv8, n: nat)
    requires a & 1 == 1 && b != 0 && Below(b, n)
    ensures Mul(a, b) != 0
    decreases n
  {
    if b & 1 == 1 {
      OddProduct(a, b);
    } else {
      assert n > 0 && Below(Half(b), n - 1);
      EvenHalves(b);
      OddFactor(a, Half(b), n - 1);
      HalvedFactor(b, a);
    }
  }

  lemma HalvedFactor(b: bv8, a: bv8)
    requires b == Xtime(Half(b)) && Mul(a, Half(b)) != 0
    ensures Mul(a, b) != 0
  {
    hide *;
    MulComm(a, b);
    MulComm(a, Half(b));
    XtimeThrough(Half(b), a);
    XtimeZero(Mul(Half(b), a));
  }

  lemma {:induction false} NoZeroDivisorsFrom(a: bv8, b: bv8, n: nat)
    requires a != 0 && b != 0 && Below(a, n)
    ensures Mul(a, b) != 0
    decreases n
  {
    if a & 1 == 1 {
      BelowEight(b);
      OddFactor(a, b, 8);
    } else {
      assert n > 0 && Below(Half(a), n - 1);
      EvenHalves(a);
      NoZeroDivisorsFrom(Half(a), b, n - 1);
      hide *;
      MulComm(b, Half(a));
      MulComm(a, b);
      HalvedFactor(a, b);
    }
  }

  /** A product is zero only if a factor is. */
  lemma NoZeroDivisors(a: bv8, b: bv8)
    requires Mul(a, b) == 0
    ensures a == 0 || b == 0
  {
    BelowEight(a);
    if a != 0 && b != 0 {
      NoZeroDivisorsFrom(a, b, 8);
    }
  }
}
