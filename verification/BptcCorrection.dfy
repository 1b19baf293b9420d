/** Which channel errors the decoder repairs, for every message. */
module BptcCorrection {
  import opened BitSequences
  import opened Bptc
  import opened BptcTheorems

  // ---------- Columns with at most one error ----------

  ghost predicate LonePerColumn(g: Block) {
    forall r: nat, r': nat, c: nat :: r < 13 && r' < 13 && c < 15 && At(g, r, c) && At(g, r', c) ==> r == r'
  }

  /** The columns that hold an error. */
  ghost function HitColumns(g: Block): set<int> {
    set c | 0 <= c < 15 && Col(g, c) != Zeros(13)
  }

  lemma RowNeverBad(b: seq<bool>)
    requires |b| == 15
    ensures !RowBad(b)
    ensures RowFlip(b) < 0 <==> RowSyndrome(b) == 0
  {
    hide RowSyndrome;
    assert forall s :: 0 < s < 16 ==> ROW_TABLE[s] >= 0;
  }

  lemma LoneColumn(g: Block, c: nat)
    requires LonePerColumn(g) && c < 15
    ensures !ColBad(Col(g, c))
    ensures ColFlip(Col(g, c)) >= 0 <==> Col(g, c) != Zeros(13)
    ensures forall r: nat :: r < 13 ==> !At(ColPassed(g), r, c)
  {
    hide ColSyndrome;
    var b := Col(g, c);
    if b == Zeros(13) {
      ZeroColChecks();
      assert forall r: nat :: r < 13 ==> At(g, r, c) == b[r];
    } else {
      var p :| 0 <= p < 13 && b[p] != Zeros(13)[p];
      assert At(g, p, c);
      assert b == Unit(13, p);
      ColUnitFlip(p);
      assert forall r: nat :: r < 13 ==> At(g, r, c) == b[r];
    }
  }

  /** If the row pass leaves at most one error in each column, everything is repaired. */
  lemma LoneResidueRepaired(m: Message, f: Block)
    requires LonePerColumn(RowPassed(Deinterleave(f)))
    ensures var g := Deinterleave(f);
      Decoded(Xor(Encoded(m), f)) == Decoding(m, |FixedRows(g, 9)| + |HitColumns(RowPassed(g))|, false)
  {
    hide ColFlip, ColBad, RowFlip, RowBad, RowPassed, ColPassed, Encoded;
    var g := Deinterleave(f);
    var h := RowPassed(g);
    forall c | 0 <= c < 15
      ensures !ColBad(Col(h, c)) && (ColFlip(Col(h, c)) >= 0 <==> Col(h, c) != Zeros(13))
    {
      LoneColumn(h, c);
    }
    forall r | 0 <= r < 9
      ensures !RowBad(Row(g, r))
    {
      RowNeverBad(Row(g, r));
    }
    assert FixedCols(h, 15) == HitColumns(h);
    assert DataOf(ColPassed(h)) == Zeros(96) by {
      forall k | 0 <= k < 96
        ensures !DataOf(ColPassed(h))[k]
      {
        LoneColumn(h, DataCol(k));
      }
    }
    assert Xor(m, Zeros(96)) == m;
    DecodeDependsOnErrorOnly(m, f);
  }

  // ---------- Rows with at most one error ----------

  lemma LoneRow(g: Block, r: nat)
    requires r < 9
    requires forall c: nat, c': nat :: c < 15 && c' < 15 && At(g, r, c) && At(g, r, c') ==> c == c'
    ensures RowFlip(Row(g, r)) >= 0 <==> exists c: nat :: c < 15 && At(g, r, c)
    ensures forall c: nat :: c < 15 ==> !At(RowPassed(g), r, c)
  {
    hide RowSyndrome;
    var b := Row(g, r);
    assert forall c: nat :: c < 15 ==> At(g, r, c) == b[c];
    if b == Zeros(15) {
      ZeroRowChecks();
    } else {
      var p :| 0 <= p < 15 && b[p] != Zeros(15)[p];
      assert b == Unit(15, p);
      RowUnitFlip(p);
    }
  }

  lemma ClearRow(g: Block, r: nat)
    requires r < 13 && forall c: nat :: c < 15 ==> !At(g, r, c)
    ensures forall c: nat :: c < 15 ==> !At(RowPassed(g), r, c)
  {
    hide RowSyndrome;
    assert Row(g, r) == Zeros(15);
    ZeroRowChecks();
  }

  // ---------- Errors confined to one row ----------

  /** Any number of errors in a single one of the 13 rows is repaired. */
  lemma RowBurstRepaired(m: Message, f: Block, row: nat)
    requires row < 13
    requires forall r: nat, c: nat :: r < 13 && c < 15 && At(Deinterleave(f), r, c) ==> r == row
    ensures Decoded(Xor(Encoded(m), f)).data == m
    ensures !Decoded(Xor(Encoded(m), f)).uncorrectable
  {
    hide RowPassed, Encoded, Decoded;
    var g := Deinterleave(f);
    forall r: nat, c: nat | r < 13 && r != row && c < 15
      ensures !At(RowPassed(g), r, c)
    {
      ClearRow(g, r);
    }
    LoneResidueRepaired(m, f);
  }

  // ---------- Scattered errors ----------

  /** At most one error in each of rows 0 to 8, and at most one in each column of rows 9 to 12. */
  ghost predicate Scattered(g: Block) {
    && (forall r: nat, c: nat, c': nat :: r < 9 && c < 15 && c' < 15 && At(g, r, c) && At(g, r, c') ==> c == c')
    && (forall r: nat, r': nat, c: nat :: 9 <= r < 13 && 9 <= r' < 13 && c < 15 && At(g, r, c) && At(g, r', c) ==> r == r')
  }

  /** The places, other than reserved place 0, that the channel flipped. */
  ghost function Flips(f: Block): set<int> {
    set i | 1 <= i < 196 && f[i]
  }

  lemma ScatteredResidue(g: Block)
    requires Scattered(g)
    ensures forall r: nat, c: nat :: r < 13 && c < 15 ==> At(RowPassed(g), r, c) == (r >= 9 && At(g, r, c))
    ensures forall r: nat :: r < 9 ==> (RowFlip(Row(g, r)) >= 0 <==> exists c: nat :: c < 15 && At(g, r, c))
  {
    hide RowFlip, Row;
    forall r: nat | r < 9
      ensures forall c: nat :: c < 15 ==> !At(RowPassed(g), r, c)
      ensures RowFlip(Row(g, r)) >= 0 <==> exists c: nat :: c < 15 && At(g, r, c)
    {
      LoneRow(g, r);
    }
  }

  /** The true cells among the flat positions lo to hi. */
  ghost function Cells(g: Block, lo: nat, hi: nat): set<int>
    requires hi <= 196
  {
    set a | lo <= a < hi && g[a]
  }

  lemma FlatCell(g: Block, a: nat)
    requires 1 <= a < 196
    ensures (a - 1) / 15 < 13 && (a - 1) % 15 < 15 && At(g, (a - 1) / 15, (a - 1) % 15) == g[a]
  {
  }

  lemma FlipsAreCells(f: Block)
    ensures |Flips(f)| == |Cells(Deinterleave(f), 1, 196)|
  {
    var g := Deinterleave(f);
    var move := (a: int) => a * 181 % 196;
    var cells := Cells(g, 1, 196);
    forall a, b | a in cells && b in cells && move(a) == move(b)
      ensures a == b
    {
      InterleaveInverse(a);
      InterleaveInverse(b);
    }
    assert Flips(f) == set a | a in cells :: move(a) by {
      forall i | i in Flips(f)
        ensures i * 13 % 196 in cells && move(i * 13 % 196) == i
      {
        InterleaveInverse(i);
      }
      forall a | a in cells
        ensures move(a) in Flips(f)
      {
        InterleaveInverse(a);
      }
    }
    ImageCardinality(cells, Flips(f), move);
  }

  lemma LoneRowsCount(g: Block)
    requires Scattered(g)
    ensures |FixedRows(g, 9)| == |Cells(g, 1, 136)|
  {
    hide RowFlip, RowPassed, Row;
    ScatteredResidue(g);
    var rowOf := (a: int) => (a - 1) / 15;
    var cells := Cells(g, 1, 136);
    forall a, b | a in cells && b in cells && rowOf(a) == rowOf(b)
      ensures a == b
    {
      FlatCell(g, a);
      FlatCell(g, b);
    }
    assert FixedRows(g, 9) == set a | a in cells :: rowOf(a) by {
      forall r | r in FixedRows(g, 9)
        ensures exists a :: a in cells && rowOf(a) == r
      {
        var c: nat :| c < 15 && At(g, r, c);
        assert 1 + 15 * r + c in cells;
      }
      forall a | a in cells
        ensures rowOf(a) in FixedRows(g, 9)
      {
        FlatCell(g, a);
      }
    }
    ImageCardinality(cells, FixedRows(g, 9), rowOf);
  }

  lemma LoneColumnsCount(g: Block)
    requires Scattered(g)
    ensures |HitColumns(RowPassed(g))| == |Cells(g, 136, 196)|
  {
    hide RowFlip, RowPassed;
    ScatteredResidue(g);
    var h := RowPassed(g);
    var colOf := (a: int) => (a - 1) % 15;
    var cells := Cells(g, 136, 196);
    forall a, b | a in cells && b in cells && colOf(a) == colOf(b)
      ensures a == b
    {
      FlatCell(g, a);
      FlatCell(g, b);
    }
    assert HitColumns(h) == set a | a in cells :: colOf(a) by {
      forall c | c in HitColumns(h)
        ensures exists a :: a in cells && colOf(a) == c
      {
        var r :| 0 <= r < 13 && Col(h, c)[r] != Zeros(13)[r];
        assert At(h, r, c);
        assert 1 + 15 * r + c in cells;
      }
      forall a | a in cells
        ensures colOf(a) in HitColumns(h)
      {
        FlatCell(g, a);
        assert At(h, (a - 1) / 15, (a - 1) % 15);
        assert Col(h, colOf(a))[(a - 1) / 15];
      }
    }
    ImageCardinality(cells, HitColumns(h), colOf);
  }

  /**
    Scattered errors are all repaired, and `corrected` counts exactly the places the
    channel flipped, reserved place 0 apart.
   */
  lemma ScatteredRepaired(m: Message, f: Block)
    requires Scattered(Deinterleave(f))
    ensures Decoded(Xor(Encoded(m), f)) == Decoding(m, |Flips(f)|, false)
  {
    hide RowPassed, RowFlip, Encoded, Decoded;
    var g := Deinterleave(f);
    ScatteredResidue(g);
    LoneResidueRepaired(m, f);
    FlipsAreCells(f);
    LoneRowsCount(g);
    LoneColumnsCount(g);
    assert Cells(g, 1, 196) == Cells(g, 1, 136) + Cells(g, 136, 196);
    assert Cells(g, 1, 136) !! Cells(g, 136, 196);
  }

  // ---------- Two errors: exactly when they are repaired ----------

  /** The error that hits exactly the two given cells. */
  function TwoCells(r1: nat, c1: nat, r2: nat, c2: nat): Block {
    Grid(false, (r: nat, c: nat) => (r == r1 && c == c1) || (r == r2 && c == c2))
  }

  /** Two errors in one column of the parity rows, which the row pass never looks at. */
  predicate ParityColumnPair(r1: nat, c1: nat, r2: nat, c2: nat) {
    c1 == c2 && r1 >= 9 && r2 >= 9
  }

  lemma TwoFlipsElsewhere(m: Message, r1: nat, c1: nat, r2: nat, c2: nat)
    requires r1 < 13 && c1 < 15 && r2 < 13 && c2 < 15 && (r1 != r2 || c1 != c2)
    requires !ParityColumnPair(r1, c1, r2, c2)
    ensures var d := Decoded(Xor(Encoded(m), Interleave(TwoCells(r1, c1, r2, c2)))); d.data == m && !d.uncorrectable
  {
    hide Encoded, Decoded, Interleave, Deinterleave;
    var g := TwoCells(r1, c1, r2, c2);
    InterleaveRoundTrip(g);
    if r1 == r2 {
      RowBurstRepaired(m, Interleave(g), r1);
    } else {
      ScatteredRepaired(m, Interleave(g));
    }
  }

  /** The syndrome of a column whose data cells are clear is spelled by its parity cells. */
  lemma ParityCellsSyndrome(b: seq<bool>)
    requires |b| == 13 && forall r :: 0 <= r < 9 ==> !b[r]
    ensures ColSyndrome(b) == Index(b[9], b[10], b[11], b[12])
  {
    hide ColParity;
    ColParityAgrees(b, Zeros(13));
    forall k | 0 <= k < 4
      ensures !ColParity(b, k)
    {
      ClearParity(k);
    }
  }

  lemma ClearParity(k: nat)
    requires k < 4
    ensures !ColParity(Zeros(13), k)
  {
    assert Pick(Zeros(13), COL_CHECKS[k]) == Zeros(|COL_CHECKS[k]|);
    ParityZeros(|COL_CHECKS[k]|);
  }

  /** The cell the column pass then flips: a data row, unless the pair is rows 9 and 12. */
  function Mistaken(r1: nat, r2: nat): int {
    if {r1, r2} == {9, 10} then 6
    else if {r1, r2} == {9, 11} then 3
    else if {r1, r2} == {10, 11} then 7
    else if {r1, r2} == {10, 12} then 4
    else if {r1, r2} == {11, 12} then 8
    else -1
  }

  lemma PairColumn(b: seq<bool>, r1: nat, r2: nat)
    requires |b| == 13 && 9 <= r1 < r2 < 13
    requires forall r :: 0 <= r < 13 ==> b[r] == (r == r1 || r == r2)
    ensures ColSyndrome(b) != 0 && ColFlip(b) == Mistaken(r1, r2)
  {
    hide ColSyndrome;
    ParityCellsSyndrome(b);
    assert r1 == 9 || r1 == 10 || r1 == 11;
  }

  lemma PairResidue(r1: nat, r2: nat, c: nat)
    requires 9 <= r1 < r2 < 13 && c < 15
    ensures var h := RowPassed(TwoCells(r1, c, r2, c));
      && h == TwoCells(r1, c, r2, c)
      && (forall r: nat, k: nat :: r < 9 && k < 15 ==> At(ColPassed(h), r, k) == (k == c && r == Mistaken(r1, r2)))
      && ((exists k | 0 <= k < 15 :: ColBad(Col(h, k))) <==> Mistaken(r1, r2) < 0)
  {
    hide RowFlip, ColFlip, ColSyndrome, Mistaken;
    var g := TwoCells(r1, c, r2, c);
    forall r: nat, k: nat | r < 13 && k < 15
      ensures At(RowPassed(g), r, k) == At(g, r, k)
    {
      if r < 9 {
        ClearRow(g, r);
      }
    }
    SameGrid(RowPassed(g), g);
    PairColumn(Col(g, c), r1, r2);
    forall k | 0 <= k < 15 && k != c
      ensures ColFlip(Col(g, k)) == -1 && !ColBad(Col(g, k))
    {
      assert Col(g, k) == Zeros(13);
      ClearColumn();
    }
  }

  lemma ClearColumn()
    ensures ColSyndrome(Zeros(13)) == 0 && ColFlip(Zeros(13)) == -1
  {
    hide ColSyndrome;
    ZeroColChecks();
  }

  /** A lone data cell touches the message exactly in columns 0 to 10. */
  lemma LoneDataCell(g: Block, p: int, c: nat)
    requires -1 <= p < 9 && p != 0 && c < 15
    requires forall r: nat, k: nat :: r < 9 && k < 15 ==> At(g, r, k) == (k == c && r == p)
    ensures DataOf(g) == Zeros(96) <==> c >= 11 || p < 0
  {
    hide At;
    if c < 11 && p > 0 {
      var k := 8 + 11 * (p - 1) + c;
      assert DataRow(k) == p && DataCol(k) == c;
      assert DataOf(g)[k];
    } else {
      forall k | 0 <= k < 96
        ensures !DataOf(g)[k]
      {
        assert !At(g, DataRow(k), DataCol(k));
      }
    }
  }

  lemma ParityColumnPairDecoded(m: Message, r1: nat, r2: nat, c: nat)
    requires 9 <= r1 < r2 < 13 && c < 15
    ensures var d := Decoded(Xor(Encoded(m), Interleave(TwoCells(r1, c, r2, c))));
      && (d.data == m <==> c >= 11 || Mistaken(r1, r2) < 0)
      && (d.uncorrectable <==> Mistaken(r1, r2) < 0)
  {
    hide Encoded, RowPassed, ColPassed, RowFlip, ColFlip, RowBad, ColBad, DataOf, TwoCells;
    var g := TwoCells(r1, c, r2, c);
    var f := Interleave(g);
    InterleaveRoundTrip(g);
    PairResidue(r1, r2, c);
    forall r | 0 <= r < 9
      ensures !RowBad(Row(g, r))
    {
      RowNeverBad(Row(g, r));
    }
    DecodeDependsOnErrorOnly(m, f);
    LoneDataCell(ColPassed(g), Mistaken(r1, r2), c);
    XorNeutral(m, Decoded(f).data);
  }

  /**
    Two errors, for every message: the message comes back unless both errors lie in one
    data column of rows 9 to 12, other than the pair of rows 9 and 12; and the decoder
    says so only for that pair. The remaining pairs corrupt the message silently.
   */
  lemma TwoFlips(m: Message, r1: nat, c1: nat, r2: nat, c2: nat)
    requires r1 < 13 && c1 < 15 && r2 < 13 && c2 < 15 && (r1 != r2 || c1 != c2)
    ensures var d := Decoded(Xor(Encoded(m), Interleave(TwoCells(r1, c1, r2, c2))));
      && (d.data == m <==> !(c1 == c2 < 11 && r1 >= 9 && r2 >= 9 && {r1, r2} != {9, 12}))
      && (d.uncorrectable <==> c1 == c2 && {r1, r2} == {9, 12})
  {
    hide Encoded, Decoded, Interleave;
    if !ParityColumnPair(r1, c1, r2, c2) {
      TwoFlipsElsewhere(m, r1, c1, r2, c2);
    } else {
      assert TwoCells(r1, c1, r2, c2) == TwoCells(r2, c2, r1, c1) by {
        SameGrid(TwoCells(r1, c1, r2, c2), TwoCells(r2, c2, r1, c1));
      }
      if r1 < r2 {
        ParityColumnPairDecoded(m, r1, r2, c1);
      } else {
        ParityColumnPairDecoded(m, r2, r1, c1);
      }
    }
  }
}
