/** Bytes as numbers: the conversion from and to Go's unsigned integers. */
module ByteValues {
  import opened Bytes

  /** The lowest binary digits of a number, most significant first. */
  function Digits(n: nat, count: nat): (d: seq<bool>)
    ensures |d| == count
  {
    if count == 0 then [] else Digits(n / 2, count - 1) + [n % 2 == 1]
  }

  function Number(d: seq<bool>): nat {
    if d == [] then 0 else 2 * Number(d[..|d| - 1]) + if d[|d| - 1] then 1 else 0
  }

  function Power(k: nat): (p: nat)
    ensures p > 0
  {
    if k == 0 then 1 else 2 * Power(k - 1)
  }

  /** A number modulo a power of two is the number its lowest digits write. */
  lemma {:induction false} NumberOfDigits(n: nat, count: nat)
    ensures Number(Digits(n, count)) == n % Power(count)
  {
    if count > 0 {
      NumberOfDigits(n / 2, count - 1);
      var d := Digits(n, count);
      assert d[..count - 1] == Digits(n / 2, count - 1);
      HalfMod(n, Power(count - 1));
    }
  }

  lemma HalfMod(n: nat, p: nat)
    requires p > 0
    ensures n % (2 * p) == 2 * (n / 2 % p) + n % 2
  {
    var q := n / 2 / p;
    var r := 2 * (n / 2 % p) + n % 2;
    assert n / 2 == q * p + n / 2 % p;
    assert n == (2 * p) * q + r;
    Remainder(n, 2 * p, q, r);
  }

  lemma Remainder(n: nat, m: nat, q: nat, r: nat)
    requires n == m * q + r && r < m
    ensures n % m == r
  {
    var k := n / m - q;
    assert m * k == r - n % m;
    SmallMultiple(m, k);
  }

  lemma SmallMultiple(m: int, k: int)
    requires -m < m * k < m
    ensures k == 0
  {
    assert k >= 1 ==> m * k >= m;
    assert k <= -1 ==> m * k <= -m;
  }

  /** The conversion `byte(n)`. */
  function LowByte(n: nat): bv8 {
    ByteOf(Digits(n, 8))
  }

  function Value(b: bv8): nat {
    b as nat
  }

  function Weight(bit: bool, w: nat): nat {
    if bit then w else 0
  }

  lemma ValueOfBits(b: bv8)
    ensures Value(b) ==
      Weight(BitOf(b, 0), 128) + Weight(BitOf(b, 1), 64) + Weight(BitOf(b, 2), 32) + Weight(BitOf(b, 3), 16) +
      Weight(BitOf(b, 4), 8) + Weight(BitOf(b, 5), 4) + Weight(BitOf(b, 6), 2) + Weight(BitOf(b, 7), 1)
  {
  }

  /** Two, then four, more digits on the right. */
  lemma NumberOnTwo(d: seq<bool>, a: bool, b: bool)
    ensures Number(d + [a, b]) == 4 * Number(d) + Weight(a, 2) + Weight(b, 1)
  {
    hide Number;
    NumberOnOne(d, a);
    NumberOnOne(d + [a], b);
    assert d + [a] + [b] == d + [a, b];
  }

  lemma NumberOnFour(d: seq<bool>, e: seq<bool>)
    requires |e| == 4
    ensures Number(d + e) == 16 * Number(d) + Weight(e[0], 8) + Weight(e[1], 4) + Weight(e[2], 2) + Weight(e[3], 1)
  {
    hide Number;
    NumberOnTwo(d, e[0], e[1]);
    NumberOnTwo(d + [e[0], e[1]], e[2], e[3]);
    assert d + [e[0], e[1]] + [e[2], e[3]] == d + e;
  }

  lemma NumberOnOne(d: seq<bool>, bit: bool)
    ensures Number(d + [bit]) == 2 * Number(d) + Weight(bit, 1)
  {
    assert (d + [bit])[..|d|] == d;
  }

  lemma NumberOfEight(d: seq<bool>)
    requires |d| == 8
    ensures Number(d) ==
      Weight(d[0], 128) + Weight(d[1], 64) + Weight(d[2], 32) + Weight(d[3], 16) + Weight(d[4], 8) + Weight(d[5], 4) +
      Weight(d[6], 2) + Weight(d[7], 1)
  {
    assert Number([]) == 0;
    hide Number;
    NumberOnFour([], d[..4]);
    assert [] + d[..4] == d[..4];
    NumberOnFour(d[..4], d[4..]);
    assert d[..4] + d[4..] == d;
  }

  lemma LowByteValue(n: nat)
    ensures Value(LowByte(n)) == n % 256
  {
    hide Value, BitOf, ByteOf, Digits, Number, Power, Weight;
    var d, b := Digits(n, 8), LowByte(n);
    forall k: nat | k < 8
      ensures BitOf(b, k) == d[k]
    {
      ByteOfBits(d, k);
    }
    ValueOfBits(b);
    NumberOfEight(d);
    NumberOfDigits(n, 8);
    assert Power(8) == 256 by {
      PowerEight();
    }
  }

  lemma PowerEight()
    ensures Power(8) == 256
  {
    assert Power(4) == 16;
  }

  lemma ValueIs(b: bv8, c: bv8)
    ensures Value(b) == Value(c) ==> b == c
  {
  }

  /** A number from its digits to the base 256. */
  lemma TwoDigits(n: nat)
    ensures n / 0x100 % 0x100 * 0x100 + n % 0x100 == n % 0x1_0000
  {
    var q, d := n / 0x100, n % 0x100;
    var p, c := q / 0x100, q % 0x100;
    assert n == 0x1_0000 * p + (0x100 * c + d);
  }

  lemma ThreeDigits(n: nat)
    ensures n / 0x1_0000 % 0x100 * 0x1_0000 + n / 0x100 % 0x100 * 0x100 + n % 0x100 == n % 0x100_0000
  {
    var q, d0 := n / 0x100, n % 0x100;
    var p, d1 := q / 0x100, q % 0x100;
    var t, d2 := p / 0x100, p % 0x100;
    assert n == 0x100_0000 * t + (0x1_0000 * d2 + 0x100 * d1 + d0);
    assert n / 0x1_0000 == p;
  }

  lemma FourDigits(n: nat)
    ensures n / 0x100_0000 % 0x100 * 0x100_0000 + n / 0x1_0000 % 0x100 * 0x1_0000 + n / 0x100 % 0x100 * 0x100 + n % 0x100
         == n % 0x1_0000_0000
  {
    var t, r := n / 0x100_0000, n % 0x100_0000;
    var u, d := t / 0x100, t % 0x100;
    ThreeDigits(n);
    assert n == 0x1_0000_0000 * u + (0x100_0000 * d + r);
    assert n % 0x1_0000_0000 == 0x100_0000 * d + r;
  }
}
