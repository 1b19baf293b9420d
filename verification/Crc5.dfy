/** The two forms of the 5-bit CRC over embedded link control bits. */
module Crc5 {
  import opened BitSequences

  function BitByte(bit: bool): bv8 {
    if bit then 1 else 0
  }

  /** One step of the register that divides by x^5 + x^4 + x^2 + 1 while shifting. */
  function CrcStep(crc: bv8, bit: bool): bv8 {
    var shifted := (crc << 1) & 0x1F;
    if (((crc >> 4) & 1) == 1) != bit then shifted ^ 0x15 else shifted
  }

  function CrcFrom(crc: bv8, bits: seq<bool>): bv8
    decreases |bits|
  {
    if bits == [] then crc else CrcFrom(CrcStep(crc, bits[0]), bits[1..])
  }

  function Crc(bits: seq<bool>): bv8 {
    CrcFrom(0, bits)
  }

  method EmbeddedLCCRC5(bits: seq<bool>) returns (crc: bv8)
    ensures crc == Crc(bits)
  {
    crc := 0;
    for i := 0 to |bits|
      invariant CrcFrom(crc, bits[i..]) == Crc(bits)
    {
      assert bits[i..][1..] == bits[i + 1..];
      var feedback := ((crc >> 4) & 1) ^ BitByte(bits[i]);
      ghost var before := crc;
      crc := (crc << 1) & 0x1F;
      if feedback == 1 {
        crc := crc ^ 0x15;
      }
      assert crc == CrcStep(before, bits[i]);
    }
  }

  /** One step of the register that shifts the message in at the low end. */
  function ResidualStep(reg: bv8, bit: bool): bv8 {
    var shifted := ((reg << 1) & 0x1F) | BitByte(bit);
    if ((reg >> 4) & 1) == 1 then shifted ^ 0x15 else shifted
  }

  function ResidualFrom(reg: bv8, bits: seq<bool>): bv8
    decreases |bits|
  {
    if bits == [] then reg else ResidualFrom(ResidualStep(reg, bits[0]), bits[1..])
  }

  /** The register at the end, inverted. */
  function Residual(bits: seq<bool>): bv8 {
    ResidualFrom(0, bits) ^ 0x1F
  }

  method EmbeddedLCCRC5Residual(bits: seq<bool>) returns (crc: bv8)
    ensures crc == Residual(bits)
  {
    var reg: bv8 := 0;
    for i := 0 to |bits|
      invariant reg < 32
      invariant ResidualFrom(reg, bits[i..]) == ResidualFrom(0, bits)
    {
      assert bits[i..][1..] == bits[i + 1..];
      var msb := (reg >> 4) & 1;
      ghost var before := reg;
      reg := ((reg << 1) & 0x1F) | BitByte(bits[i]);
      if msb == 1 {
        reg := reg ^ 0x15;
      }
      assert reg == ResidualStep(before, bits[i]);
    }
    assert bits[|bits|..] == [];
    assert reg & 0x1F == reg;
    crc := (reg & 0x1F) ^ 0x1F;
  }

  // ---------- The forms agree ----------

  function Flush(reg: bv8): bv8 {
    ResidualStep(ResidualStep(ResidualStep(ResidualStep(ResidualStep(reg, false), false), false), false), false)
  }

  /** Flushing commutes with a step: the dividing register is the flushed shifting register. */
  lemma FlushStep(reg: bv8, bit: bool)
    requires reg < 32
    ensures Flush(ResidualStep(reg, bit)) == CrcStep(Flush(reg), bit)
    ensures ResidualStep(reg, bit) < 32
  {
  }

  lemma {:induction false} FlushedRun(reg: bv8, bits: seq<bool>)
    requires reg < 32
    ensures CrcFrom(Flush(reg), bits) == ResidualFrom(reg, bits + [false, false, false, false, false])
    decreases |bits|
  {
    if bits == [] {
      var z := [false, false, false, false, false];
      assert bits + z == z;
      FiveZeros(reg);
    } else {
      hide Flush, ResidualStep, CrcStep;
      FlushStep(reg, bits[0]);
      FlushedRun(ResidualStep(reg, bits[0]), bits[1..]);
      assert (bits + [false, false, false, false, false])[1..] == bits[1..] + [false, false, false, false, false];
    }
  }

  lemma FiveZeros(reg: bv8)
    ensures ResidualFrom(reg, [false, false, false, false, false]) == Flush(reg)
  {
    hide ResidualStep;
    var r1 := ResidualStep(reg, false);
    var r2 := ResidualStep(r1, false);
    var r3 := ResidualStep(r2, false);
    var r4 := ResidualStep(r3, false);
    assert ResidualFrom(r4, [false]) == ResidualStep(r4, false);
    assert ResidualFrom(r3, [false, false]) == ResidualFrom(r4, [false]);
    assert ResidualFrom(r2, [false, false, false]) == ResidualFrom(r3, [false, false]);
    assert ResidualFrom(r1, [false, false, false, false]) == ResidualFrom(r2, [false, false, false]);
  }

  /** The dividing form is the residual form of the message followed by five zeros, inverted. */
  lemma FormsAgree(bits: seq<bool>)
    ensures Crc(bits) == Residual(bits + [false, false, false, false, false]) ^ 0x1F
  {
    assert Flush(0) == 0;
    FlushedRun(0, bits);
    DoubleInversion(ResidualFrom(0, bits + [false, false, false, false, false]));
  }

  lemma DoubleInversion(x: bv8)
    ensures x ^ 0x1F ^ 0x1F == x
  {
  }

  // ---------- Checking ----------

  /** The five CRC bits in the order they are sent. */
  function CrcBits(crc: bv8): (b: seq<bool>)
    ensures |b| == 5
  {
    [crc & 0x10 != 0, crc & 0x08 != 0, crc & 0x04 != 0, crc & 0x02 != 0, crc & 0x01 != 0]
  }

  lemma {:induction false} CrcAppend(crc: bv8, a: seq<bool>, b: seq<bool>)
    ensures CrcFrom(crc, a + b) == CrcFrom(CrcFrom(crc, a), b)
    decreases |a|
  {
    hide CrcStep;
    if a == [] {
      assert a + b == b;
    } else {
      assert (a + b)[1..] == a[1..] + b;
      CrcAppend(CrcStep(crc, a[0]), a[1..], b);
    }
  }

  lemma {:induction false} CrcSmall(crc: bv8, bits: seq<bool>)
    requires crc < 32
    ensures CrcFrom(crc, bits) < 32
    decreases |bits|
  {
    if bits != [] {
      assert CrcStep(crc, bits[0]) < 32;
      CrcSmall(CrcStep(crc, bits[0]), bits[1..]);
    }
  }

  lemma FiveSteps(crc: bv8, b: seq<bool>)
    requires |b| == 5
    ensures CrcFrom(crc, b) == CrcStep(CrcStep(CrcStep(CrcStep(CrcStep(crc, b[0]), b[1]), b[2]), b[3]), b[4])
  {
    hide CrcStep;
    var r1 := CrcStep(crc, b[0]);
    var r2 := CrcStep(r1, b[1]);
    var r3 := CrcStep(r2, b[2]);
    var r4 := CrcStep(r3, b[3]);
    assert CrcFrom(r4, b[4..]) == CrcStep(r4, b[4]);
    assert b[3..][1..] == b[4..];
    assert CrcFrom(r3, b[3..]) == CrcFrom(r4, b[4..]);
    assert b[2..][1..] == b[3..];
    assert CrcFrom(r2, b[2..]) == CrcFrom(r3, b[3..]);
    assert b[1..][1..] == b[2..];
    assert CrcFrom(r1, b[1..]) == CrcFrom(r2, b[2..]);
  }

  lemma OwnBitsCancel(crc: bv8)
    requires crc < 32
    ensures CrcFrom(crc, CrcBits(crc)) == 0
  {
    hide CrcFrom;
    FiveSteps(crc, CrcBits(crc));
  }

  /** A message followed by its own CRC leaves zero. */
  lemma SelfCheck(bits: seq<bool>)
    ensures Crc(bits + CrcBits(Crc(bits))) == 0
  {
    hide CrcFrom;
    CrcSmall(0, bits);
    CrcAppend(0, bits, CrcBits(Crc(bits)));
    OwnBitsCancel(Crc(bits));
  }

  // ---------- Burst errors ----------

  lemma StepInjective(x: bv8, y: bv8, bit: bool)
    requires x < 32 && y < 32 && CrcStep(x, bit) == CrcStep(y, bit)
    ensures x == y
  {
  }

  lemma {:induction false} RunInjective(x: bv8, y: bv8, bits: seq<bool>)
    requires x < 32 && y < 32 && CrcFrom(x, bits) == CrcFrom(y, bits)
    ensures x == y
    decreases |bits|
  {
    if bits != [] {
      assert CrcStep(x, bits[0]) < 32 && CrcStep(y, bits[0]) < 32;
      RunInjective(CrcStep(x, bits[0]), CrcStep(y, bits[0]), bits[1..]);
      StepInjective(x, y, bits[0]);
    }
  }

  lemma WindowInjective(crc: bv8, v: seq<bool>, w: seq<bool>)
    requires crc < 32 && |v| == |w| == 5 && CrcFrom(crc, v) == CrcFrom(crc, w)
    ensures v == w
  {
    hide CrcFrom, CrcStep;
    FiveSteps(crc, v);
    FiveSteps(crc, w);
    FiveBits(crc, v[0], v[1], v[2], v[3], v[4], w[0], w[1], w[2], w[3], w[4]);
  }

  lemma FiveBits(crc: bv8, v0: bool, v1: bool, v2: bool, v3: bool, v4: bool, w0: bool, w1: bool, w2: bool, w3: bool, w4: bool)
    requires crc < 32
    requires CrcStep(CrcStep(CrcStep(CrcStep(CrcStep(crc, v0), v1), v2), v3), v4)
          == CrcStep(CrcStep(CrcStep(CrcStep(CrcStep(crc, w0), w1), w2), w3), w4)
    ensures v0 == w0 && v1 == w1 && v2 == w2 && v3 == w3 && v4 == w4
  {
  }

  /** Damage confined to five consecutive bits always changes the CRC. */
  lemma BurstDetected(before: seq<bool>, v: seq<bool>, w: seq<bool>, after: seq<bool>)
    requires |v| == |w| <= 5 && v != w
    ensures Crc(before + v + after) != Crc(before + w + after)
  {
    hide CrcFrom;
    var s := CrcFrom(0, before);
    CrcSmall(0, before);
    CrcAppend(0, before + v, after);
    CrcAppend(0, before + w, after);
    CrcAppend(0, before, v);
    CrcAppend(0, before, w);
    CrcSmall(s, v);
    CrcSmall(s, w);
    var pad := Zeros(5 - |v|);
    CrcAppend(s, v, pad);
    CrcAppend(s, w, pad);
    assert v == (v + pad)[..|v|] && w == (w + pad)[..|w|];
    if CrcFrom(CrcFrom(s, v), after) == CrcFrom(CrcFrom(s, w), after) {
      RunInjective(CrcFrom(s, v), CrcFrom(s, w), after);
      WindowInjective(s, v + pad, w + pad);
    }
  }

  // ---------- Linearity and double errors ----------

  function Plus(x: bv8, y: bv8): bv8 {
    x ^ y
  }

  lemma StepLinear(x: bv8, y: bv8, a: bool, b: bool, c: bool)
    requires x < 32 && y < 32 && c == (a != b)
    ensures CrcStep(Plus(x, y), c) == Plus(CrcStep(x, a), CrcStep(y, b)) && CrcStep(x, a) < 32 && CrcStep(y, b) < 32
  {
  }

  lemma CrcUnfold(x: bv8, bits: seq<bool>, rest: seq<bool>)
    requires bits != [] && rest == bits[1..]
    ensures CrcFrom(x, bits) == CrcFrom(CrcStep(x, bits[0]), rest)
  {
    hide CrcStep;
  }

  lemma {:induction false} CrcLinearFrom(x: bv8, y: bv8, a: seq<bool>, b: seq<bool>)
    requires x < 32 && y < 32 && |a| == |b|
    ensures CrcFrom(Plus(x, y), Xor(a, b)) == Plus(CrcFrom(x, a), CrcFrom(y, b))
    decreases |a|
  {
    if a == [] {
      assert Xor(a, b) == [];
    } else {
      hide *;
      var c := Xor(a, b);
      XorTail(a, b);
      StepLinear(x, y, a[0], b[0], c[0]);
      CrcUnfold(x, a, a[1..]);
      CrcUnfold(y, b, b[1..]);
      CrcUnfold(Plus(x, y), c, Xor(a[1..], b[1..]));
      CrcLinearFrom(CrcStep(x, a[0]), CrcStep(y, b[0]), a[1..], b[1..]);
    }
  }

  lemma XorTail(a: seq<bool>, b: seq<bool>)
    requires |a| == |b| > 0
    ensures Xor(a, b)[0] == (a[0] != b[0]) && Xor(a, b)[1..] == Xor(a[1..], b[1..])
  {
  }

  /** The CRC is linear over exclusive-or. */
  lemma CrcLinear(a: seq<bool>, b: seq<bool>)
    requires |a| == |b|
    ensures Crc(Xor(a, b)) == Crc(a) ^ Crc(b)
  {
    hide CrcFrom;
    assert Plus(0, 0) == 0;
    CrcLinearFrom(0, 0, a, b);
  }

  lemma {:induction false} CrcZeros(n: nat)
    ensures CrcFrom(0, Zeros(n)) == 0
  {
    if n > 0 {
      CrcZeros(n - 1);
      assert Zeros(n)[1..] == Zeros(n - 1);
    }
  }

  /** The register n zeros after a single one. */
  function Orbit(n: nat): bv8 {
    if n == 0 then 0x15 else CrcStep(Orbit(n - 1), false)
  }

  lemma {:induction false} OrbitIs(n: nat)
    ensures CrcFrom(0x15, Zeros(n)) == Orbit(n)
  {
    hide CrcStep;
    if n > 0 {
      OrbitIs(n - 1);
      assert Zeros(n) == Zeros(n - 1) + [false];
      CrcAppend(0x15, Zeros(n - 1), [false]);
    }
  }

  /** It runs through fifteen values and comes back; only the last of them is 0x10. */
  lemma OrbitRound()
    ensures Orbit(15) == 0x15
    ensures forall n :: 0 <= n < 15 ==> (Orbit(n) == 0x10 <==> n == 14)
  {
    assert Orbit(1) == 0x1F && Orbit(2) == 0x0B && Orbit(3) == 0x16;
    assert Orbit(4) == 0x19 && Orbit(5) == 0x07 && Orbit(6) == 0x0E;
    assert Orbit(7) == 0x1C && Orbit(8) == 0x0D && Orbit(9) == 0x1A;
    assert Orbit(10) == 0x01 && Orbit(11) == 0x02 && Orbit(12) == 0x04;
    assert Orbit(13) == 0x08 && Orbit(14) == 0x10;
  }

  lemma {:induction false} OrbitPeriod(n: nat)
    ensures Orbit(n + 15) == Orbit(n)
  {
    hide CrcStep;
    if n == 0 {
      OrbitRound();
    } else {
      OrbitPeriod(n - 1);
    }
  }

  lemma {:induction false} OrbitAt(n: nat)
    ensures Orbit(n) == 0x10 <==> n % 15 == 14
  {
    if n < 15 {
      OrbitRound();
    } else {
      OrbitAt(n - 15);
      OrbitPeriod(n - 15);
    }
  }

  /** Ones at two places, zeros elsewhere. */
  function TwoOnes(n: nat, p: nat, q: nat): seq<bool>
    requires p < q < n
  {
    Zeros(p) + [true] + Zeros(q - p - 1) + [true] + Zeros(n - q - 1)
  }

  lemma OneTrue()
    ensures CrcFrom(0, [true]) == 0x15
    ensures forall x: bv8 :: x < 32 ==> (CrcFrom(x, [true]) == 0 <==> x == 0x10)
  {
  }

  /** Two flipped bits go unnoticed if and only if their distance is a multiple of fifteen. */
  lemma DoubleError(n: nat, p: nat, q: nat)
    requires p < q < n
    ensures Crc(TwoOnes(n, p, q)) == 0 <==> (q - p) % 15 == 0
  {
    hide CrcFrom, CrcStep, Orbit;
    var a, b, c := Zeros(p), Zeros(q - p - 1), Zeros(n - q - 1);
    CrcAppend(0, a + [true] + b + [true], c);
    CrcAppend(0, a + [true] + b, [true]);
    CrcAppend(0, a + [true], b);
    CrcAppend(0, a, [true]);
    CrcZeros(p);
    OneTrue();
    OrbitIs(q - p - 1);
    OrbitAt(q - p - 1);
    CrcSmall(0x15, b);
    var r := CrcFrom(Orbit(q - p - 1), [true]);
    CrcSmall(Orbit(q - p - 1), [true]);
    CrcZeros(n - q - 1);
    if CrcFrom(r, c) == 0 {
      RunInjective(r, 0, c);
    }
  }

  /** A single flipped bit is always noticed. */
  lemma SingleError(n: nat, p: nat)
    requires p < n
    ensures Crc(Unit(n, p)) != 0
  {
    hide CrcFrom, CrcStep;
    var a, c := Zeros(p), Zeros(n - p - 1);
    assert Unit(n, p) == a + [true] + c;
    CrcAppend(0, a + [true], c);
    CrcAppend(0, a, [true]);
    CrcZeros(p);
    OneTrue();
    CrcZeros(n - p - 1);
    if CrcFrom(0x15, c) == 0 {
      RunInjective(0x15, 0, c);
    }
  }
}
