/** The slot type of a data burst, from golayEncode208 in internal/dmr/bptc/bptc19696.go: its distance and its place. */
module SlotType {
  import opened BitSequences
  import opened Bytes
  import opened Bptc
  import opened LcBurst

  function Weight(b: bool): nat {
    if b then 1 else 0
  }

  lemma PickCons(u: seq<bool>, places: seq<nat>)
    requires places != [] && forall i :: 0 <= i < |places| ==> places[i] < |u|
    ensures Parity(Pick(u, places)) == (u[places[0]] != Parity(Pick(u, places[1..])))
  {
    assert Pick(u, places)[1..] == Pick(u, places[1..]);
  }

  lemma PickOne(u: seq<bool>, a: nat)
    requires a < |u|
    ensures Parity(Pick(u, [a])) == u[a]
  {
    PickCons(u, [a]);
  }

  lemma PickTwo(u: seq<bool>, a: nat, b: nat)
    requires a < |u| && b < |u|
    ensures Parity(Pick(u, [a, b])) == (u[a] != u[b])
  {
    hide Parity, Pick;
    PickCons(u, [a, b]);
    assert [a, b][1..] == [b];
    PickOne(u, b);
  }

  lemma PickThree(u: seq<bool>, a: nat, b: nat, c: nat)
    requires a < |u| && b < |u| && c < |u|
    ensures Parity(Pick(u, [a, b, c])) == (u[a] != (u[b] != u[c]))
  {
    hide Parity, Pick;
    PickCons(u, [a, b, c]);
    assert [a, b, c][1..] == [b, c];
    PickTwo(u, b, c);
  }

  lemma PickFour(u: seq<bool>, a: nat, b: nat, c: nat, d: nat)
    requires a < |u| && b < |u| && c < |u| && d < |u|
    ensures Parity(Pick(u, [a, b, c, d])) == (u[a] != (u[b] != (u[c] != u[d])))
  {
    hide Parity, Pick;
    PickCons(u, [a, b, c, d]);
    assert [a, b, c, d][1..] == [b, c, d];
    PickThree(u, b, c, d);
  }

  lemma PickFive(u: seq<bool>, a: nat, b: nat, c: nat, d: nat, e: nat)
    requires a < |u| && b < |u| && c < |u| && d < |u| && e < |u|
    ensures Parity(Pick(u, [a, b, c, d, e])) == (u[a] != (u[b] != (u[c] != (u[d] != u[e]))))
  {
    hide Parity, Pick;
    PickCons(u, [a, b, c, d, e]);
    assert [a, b, c, d, e][1..] == [b, c, d, e];
    PickFour(u, b, c, d, e);
  }

  lemma PickSix(u: seq<bool>, a: nat, b: nat, c: nat, d: nat, e: nat, f: nat)
    requires a < |u| && b < |u| && c < |u| && d < |u| && e < |u| && f < |u|
    ensures Parity(Pick(u, [a, b, c, d, e, f])) == (u[a] != (u[b] != (u[c] != (u[d] != (u[e] != u[f])))))
  {
    hide Parity, Pick;
    PickCons(u, [a, b, c, d, e, f]);
    assert [a, b, c, d, e, f][1..] == [b, c, d, e, f];
    PickFive(u, b, c, d, e, f);
  }

  /** The twelve parity bits of eight data bits. */
  function Checks(u: seq<bool>): (s: seq<bool>)
    requires |u| == 8
    ensures |s| == 12
  {
    seq(12, k requires 0 <= k < 12 => Parity(Pick(u, GOLAY_CHECKS[k])))
  }

  lemma ChecksFirst(u: seq<bool>)
    requires |u| == 8
    ensures Checks(u)[0] == (u[1] != (u[4] != (u[5] != (u[6] != u[7]))))
    ensures Checks(u)[1] == (u[1] != (u[2] != u[4]))
    ensures Checks(u)[2] == (u[0] != (u[2] != (u[3] != u[5])))
  {
    hide Parity, Pick;
    PickFive(u, 1, 4, 5, 6, 7);
    PickThree(u, 1, 2, 4);
    PickFour(u, 0, 2, 3, 5);
  }

  lemma ChecksSecond(u: seq<bool>)
    requires |u| == 8
    ensures Checks(u)[3] == (u[0] != (u[1] != (u[3] != (u[4] != u[6]))))
    ensures Checks(u)[4] == (u[0] != (u[1] != (u[2] != (u[4] != (u[5] != u[7])))))
    ensures Checks(u)[5] == (u[0] != (u[2] != (u[3] != (u[4] != u[7]))))
  {
    hide Parity, Pick;
    PickFive(u, 0, 1, 3, 4, 6);
    PickSix(u, 0, 1, 2, 4, 5, 7);
    PickFive(u, 0, 2, 3, 4, 7);
  }

  lemma ChecksThird(u: seq<bool>)
    requires |u| == 8
    ensures Checks(u)[6] == (u[3] != (u[6] != u[7]))
    ensures Checks(u)[7] == (u[0] != (u[1] != (u[5] != u[6])))
    ensures Checks(u)[8] == (u[0] != (u[1] != (u[2] != (u[6] != u[7]))))
  {
    hide Parity, Pick;
    PickThree(u, 3, 6, 7);
    PickFour(u, 0, 1, 5, 6);
    PickFive(u, 0, 1, 2, 6, 7);
  }

  lemma ChecksFourth(u: seq<bool>)
    requires |u| == 8
    ensures Checks(u)[9] == (u[2] != (u[3] != (u[4] != (u[5] != u[6]))))
    ensures Checks(u)[10] == (u[0] != (u[3] != (u[4] != (u[5] != (u[6] != u[7])))))
    ensures Checks(u)[11] == (u[1] != (u[2] != (u[3] != (u[5] != u[7]))))
  {
    hide Parity, Pick;
    PickFive(u, 2, 3, 4, 5, 6);
    PickSix(u, 0, 3, 4, 5, 6, 7);
    PickFive(u, 1, 2, 3, 5, 7);
  }

  function Ones(s: seq<bool>): nat {
    if s == [] then 0 else Ones(s[..|s| - 1]) + Weight(s[|s| - 1])
  }

  lemma OnesOfTwenty(s: seq<bool>)
    requires |s| == 20
    ensures Ones(s) ==
      Weight(s[0]) + Weight(s[1]) + Weight(s[2]) + Weight(s[3]) + Weight(s[4]) + Weight(s[5]) + Weight(s[6]) + Weight(s[7]) +
      Weight(s[8]) + Weight(s[9]) + Weight(s[10]) + Weight(s[11]) + Weight(s[12]) + Weight(s[13]) + Weight(s[14]) +
      Weight(s[15]) + Weight(s[16]) + Weight(s[17]) + Weight(s[18]) + Weight(s[19])
  {
    hide Weight;
    forall n | 0 < n <= 20
      ensures Ones(s[..n]) == Ones(s[..n - 1]) + Weight(s[n - 1])
    {
      assert s[..n][..n - 1] == s[..n - 1];
    }
    assert s[..20] == s && s[..0] == [];
    hide Ones;
    assert Ones(s[..5]) == Weight(s[0]) + Weight(s[1]) + Weight(s[2]) + Weight(s[3]) + Weight(s[4]);
    assert Ones(s[..10]) == Ones(s[..5]) + Weight(s[5]) + Weight(s[6]) + Weight(s[7]) + Weight(s[8]) + Weight(s[9]);
    assert Ones(s[..15]) == Ones(s[..10]) + Weight(s[10]) + Weight(s[11]) + Weight(s[12]) + Weight(s[13]) + Weight(s[14]);
  }

  /** Twenty bits of which the last twelve are the sums the code prescribes. */
  predicate IsWord(s: seq<bool>) {
    && |s| == 20
    && s[8] == (s[1] != (s[4] != (s[5] != (s[6] != s[7]))))
    && s[9] == (s[1] != (s[2] != s[4]))
    && s[10] == (s[0] != (s[2] != (s[3] != s[5])))
    && s[11] == (s[0] != (s[1] != (s[3] != (s[4] != s[6]))))
    && s[12] == (s[0] != (s[1] != (s[2] != (s[4] != (s[5] != s[7])))))
    && s[13] == (s[0] != (s[2] != (s[3] != (s[4] != s[7]))))
    && s[14] == (s[3] != (s[6] != s[7]))
    && s[15] == (s[0] != (s[1] != (s[5] != s[6])))
    && s[16] == (s[0] != (s[1] != (s[2] != (s[6] != s[7]))))
    && s[17] == (s[2] != (s[3] != (s[4] != (s[5] != s[6]))))
    && s[18] == (s[0] != (s[3] != (s[4] != (s[5] != (s[6] != s[7])))))
    && s[19] == (s[1] != (s[2] != (s[3] != (s[5] != s[7]))))
  }

  /** Every word whose data is not zero has at least eight ones. */
  lemma NonzeroWeight(s: seq<bool>)
    requires IsWord(s) && exists i :: 0 <= i < 8 && s[i]
    ensures Ones(s) >= 8
  {
    hide Ones;
    OnesOfTwenty(s);
  }

  lemma SumsAreWord(u: seq<bool>)
    requires |u| == 8
    ensures IsWord(u + Checks(u))
  {
    hide Checks;
    var s := u + Checks(u);
    assert forall i :: 0 <= i < 8 ==> s[i] == u[i];
    assert forall i :: 8 <= i < 20 ==> s[i] == Checks(u)[i - 8];
    ChecksFirst(u);
    ChecksSecond(u);
    ChecksThird(u);
    ChecksFourth(u);
  }

  lemma {:induction false} OnesCounted(s: seq<bool>)
    ensures Ones(s) == |set i | 0 <= i < |s| && s[i]|
  {
    if s != [] {
      var n := |s| - 1;
      OnesCounted(s[..n]);
      var all, before := set i | 0 <= i < |s| && s[i], set i | 0 <= i < n && s[..n][i];
      assert all == if s[n] then before + {n} else before;
    }
  }

  lemma WordsDiffer(x: bv8, y: bv8)
    ensures Xor(GolayEncode208(x), GolayEncode208(y)) == Xor(Bits([x]), Bits([y])) + Checks(Xor(Bits([x]), Bits([y])))
  {
    hide Parity, Pick;
    var u, v := Bits([x]), Bits([y]);
    forall k | 0 <= k < 12
      ensures Checks(Xor(u, v))[k] == (Checks(u)[k] != Checks(v)[k])
    {
      PickLinear(u, v, GOLAY_CHECKS[k]);
    }
    assert GolayEncode208(x) == u + Checks(u) && GolayEncode208(y) == v + Checks(v);
  }

  /** The slot type words of different bytes differ in at least 8 of 20 bits. */
  lemma GolayDistance(x: bv8, y: bv8)
    requires x != y
    ensures Distance(GolayEncode208(x), GolayEncode208(y)) >= 8
  {
    hide GolayEncode208, Checks, IsWord, Ones;
    var a, b := GolayEncode208(x), GolayEncode208(y);
    var u := Xor(Bits([x]), Bits([y]));
    WordsDiffer(x, y);
    SumsAreWord(u);
    SomeBitDiffers(x, y);
    assert forall i :: 0 <= i < 8 ==> (u + Checks(u))[i] == u[i];
    NonzeroWeight(u + Checks(u));
    OnesCounted(Xor(a, b));
    assert Differences(a, b) == set i | 0 <= i < |Xor(a, b)| && Xor(a, b)[i];
  }

  lemma SomeBitDiffers(x: bv8, y: bv8)
    requires x != y
    ensures var u := Xor(Bits([x]), Bits([y])); exists i :: 0 <= i < 8 && u[i]
  {
    var u := Xor(Bits([x]), Bits([y]));
    if forall i :: 0 <= i < 8 ==> !u[i] {
      forall k | 0 <= k < 8
        ensures BitOf(x, k) == BitOf(y, k)
      {
        assert !u[k] && Bits([x])[k] == BitOf(x, k) && Bits([y])[k] == BitOf(y, k);
      }
      SameByte(x, y);
    }
  }

  /** What a burst says of itself: the 20 bits around the sync are the word of color code and data type, the middle is the sync. */
  lemma SlotTypeInBurst(lc: Lc, dataType: bv8, colorCode: bv8)
    ensures var b := Bits(BuiltBurst(lc, dataType, colorCode));
      && b[108..156] == Bits(DATA_SYNC)
      && b[98..108] + b[156..166] == GolayEncode208(((colorCode & 0xF) << 4) | (dataType & 0xF))
      && b[98..106] == Bits([((colorCode & 0xF) << 4) | (dataType & 0xF)])
  {
    hide Encoded, GOLAY_CHECKS;
    var all := BurstBits(Bits(lc), dataType, colorCode);
    BitsOfPacked(all);
    var slot := SlotTypeBits(dataType, colorCode);
    assert all[98..108] == slot[..10] && all[156..166] == slot[10..];
    assert slot[..10] + slot[10..] == slot;
    assert all[98..106] == slot[..8];
  }
}
