/** What the product code guarantees: linearity, distance, and the exact effect of channel errors. */
module BptcTheorems {
  import opened BitSequences
  import opened Bptc

  // ---------- Linearity ----------

  lemma RowParityLinear(a: seq<bool>, b: seq<bool>, k: nat)
    requires |a| == |b| && |a| >= 11 && k < 4
    ensures RowParity(Xor(a, b), k) == (RowParity(a, k) != RowParity(b, k))
  {
    PickLinear(a, b, ROW_CHECKS[k]);
  }

  lemma ColParityLinear(a: seq<bool>, b: seq<bool>, k: nat)
    requires |a| == |b| && |a| >= 9 && k < 4
    ensures ColParity(Xor(a, b), k) == (ColParity(a, k) != ColParity(b, k))
  {
    PickLinear(a, b, COL_CHECKS[k]);
  }

  /** A row of zero syndrome does not change the syndrome of what is added to it. */
  lemma RowSyndromeShift(w: seq<bool>, e: seq<bool>)
    requires |w| == |e| == 15 && RowSyndrome(w) == 0
    ensures RowSyndrome(Xor(w, e)) == RowSyndrome(e)
  {
    hide RowParity;
    RowParityLinear(w, e, 0);
    RowParityLinear(w, e, 1);
    RowParityLinear(w, e, 2);
    RowParityLinear(w, e, 3);
  }

  lemma ColSyndromeShift(w: seq<bool>, e: seq<bool>)
    requires |w| == |e| == 13 && ColSyndrome(w) == 0
    ensures ColSyndrome(Xor(w, e)) == ColSyndrome(e)
  {
    hide ColParity;
    ColParityLinear(w, e, 0);
    ColParityLinear(w, e, 1);
    ColParityLinear(w, e, 2);
    ColParityLinear(w, e, 3);
  }

  lemma InfoLinear(x: Message, y: Message, r: nat)
    requires r < 9
    ensures Info(Xor(x, y), r) == Xor(Info(x, r), Info(y, r))
  {
  }

  lemma RowCellLinear(x: Message, y: Message, r: nat, c: nat)
    requires r < 9 && c < 15
    ensures RowCell(Xor(x, y), r, c) == (RowCell(x, r, c) != RowCell(y, r, c))
  {
    hide RowParity, Info;
    InfoLinear(x, y, r);
    if c >= 11 {
      RowParityLinear(Info(x, r), Info(y, r), c - 11);
    }
  }

  lemma CellLinear(x: Message, y: Message, r: nat, c: nat)
    requires r < 13 && c < 15
    ensures Cell(Xor(x, y), r, c) == (Cell(x, r, c) != Cell(y, r, c))
  {
    hide RowCell, ColParity;
    if r < 9 {
      RowCellLinear(x, y, r, c);
    } else {
      forall i | 0 <= i < 9
        ensures ColData(Xor(x, y), c)[i] == Xor(ColData(x, c), ColData(y, c))[i]
      {
        RowCellLinear(x, y, i, c);
      }
      assert ColData(Xor(x, y), c) == Xor(ColData(x, c), ColData(y, c));
      ColParityLinear(ColData(x, c), ColData(y, c), r - 9);
    }
  }

  lemma AtXor(g: Block, h: Block, r: nat, c: nat)
    requires r < 13 && c < 15
    ensures At(Xor(g, h), r, c) == (At(g, r, c) != At(h, r, c))
  {
  }

  lemma CodewordLinear(x: Message, y: Message)
    ensures Codeword(Xor(x, y)) == Xor(Codeword(x), Codeword(y))
  {
    hide Cell, Grid, At;
    forall r: nat, c: nat | r < 13 && c < 15
      ensures At(Codeword(Xor(x, y)), r, c) == At(Xor(Codeword(x), Codeword(y)), r, c)
    {
      CellLinear(x, y, r, c);
      AtXor(Codeword(x), Codeword(y), r, c);
    }
    SameGrid(Codeword(Xor(x, y)), Xor(Codeword(x), Codeword(y)));
  }

  /** Encode is linear over exclusive-or. */
  lemma EncodedLinear(x: Message, y: Message)
    ensures Encoded(Xor(x, y)) == Xor(Encoded(x), Encoded(y))
  {
    hide Codeword;
    CodewordLinear(x, y);
  }

  // ---------- Every row and column of a codeword checks ----------

  lemma DataRowChecks(m: Message, r: nat)
    requires r < 9
    ensures RowSyndrome(Row(Codeword(m), r)) == 0
  {
    var b := Row(Codeword(m), r);
    var d := Info(m, r);
    assert forall c :: 0 <= c < 15 ==> b[c] == RowCell(m, r, c);
    RowFilled(b, d);
  }

  lemma ColChecks(m: Message, c: nat)
    requires c < 15
    ensures ColSyndrome(Col(Codeword(m), c)) == 0
  {
    hide RowCell, ColParity, ColSyndrome;
    var b := Col(Codeword(m), c);
    var d := ColData(m, c);
    assert forall r :: 0 <= r < 13 ==> b[r] == Cell(m, r, c);
    ColFilled(b, d);
  }

  /** The exclusive-or of some rows of a grid. */
  function RowSum(g: Block, rows: seq<nat>): (b: seq<bool>)
    requires forall i :: 0 <= i < |rows| ==> rows[i] < 13
    ensures |b| == 15
  {
    if rows == [] then Zeros(15) else Xor(Row(g, rows[0]), RowSum(g, rows[1..]))
  }

  lemma ZeroRowChecks()
    ensures RowSyndrome(Zeros(15)) == 0
  {
    forall k | 0 <= k < 4
      ensures !RowParity(Zeros(15), k)
    {
      assert Pick(Zeros(15), ROW_CHECKS[k]) == Zeros(|ROW_CHECKS[k]|);
      ParityZeros(|ROW_CHECKS[k]|);
    }
  }

  lemma ZeroColChecks()
    ensures ColSyndrome(Zeros(13)) == 0
  {
    forall k | 0 <= k < 4
      ensures !ColParity(Zeros(13), k)
    {
      assert Pick(Zeros(13), COL_CHECKS[k]) == Zeros(|COL_CHECKS[k]|);
      ParityZeros(|COL_CHECKS[k]|);
    }
  }

  lemma {:induction false} RowSumChecks(g: Block, rows: seq<nat>)
    requires forall i :: 0 <= i < |rows| ==> rows[i] < 13 && RowSyndrome(Row(g, rows[i])) == 0
    ensures RowSyndrome(RowSum(g, rows)) == 0
  {
    hide RowSyndrome;
    if rows == [] {
      ZeroRowChecks();
    } else {
      RowSumChecks(g, rows[1..]);
      RowSyndromeShift(Row(g, rows[0]), RowSum(g, rows[1..]));
    }
  }

  lemma {:induction false} RowSumAt(g: Block, rows: seq<nat>, c: nat)
    requires c < 15 && forall i :: 0 <= i < |rows| ==> rows[i] < 13
    ensures RowSum(g, rows)[c] == Parity(Pick(Col(g, c), rows))
  {
    if rows != [] {
      RowSumAt(g, rows[1..], c);
      assert Pick(Col(g, c), rows)[1..] == Pick(Col(g, c), rows[1..]);
    }
  }

  lemma ParityCell(m: Message, k: nat, c: nat)
    requires k < 4 && c < 15
    ensures At(Codeword(m), 9 + k, c) == ColParity(Col(Codeword(m), c), k)
  {
    hide RowCell, ColParity;
    var w := Codeword(m);
    assert forall r :: 0 <= r < 9 ==> Col(w, c)[r] == ColData(m, c)[r] by {
      assert forall r :: 0 <= r < 9 ==> At(w, r, c) == Cell(m, r, c);
    }
    ColParityAgrees(Col(w, c), ColData(m, c));
  }

  lemma ParityRowIsSum(m: Message, k: nat)
    requires k < 4
    ensures Row(Codeword(m), 9 + k) == RowSum(Codeword(m), COL_CHECKS[k])
  {
    hide Codeword, Parity;
    var w := Codeword(m);
    forall c: nat | c < 15
      ensures Row(w, 9 + k)[c] == RowSum(w, COL_CHECKS[k])[c]
    {
      RowSumAt(w, COL_CHECKS[k], c);
      ParityCell(m, k, c);
    }
  }

  /** All 13 rows and all 15 columns of a codeword have syndrome zero. */
  lemma CodewordChecks(m: Message)
    ensures forall r :: 0 <= r < 13 ==> RowSyndrome(Row(Codeword(m), r)) == 0
    ensures forall c :: 0 <= c < 15 ==> ColSyndrome(Col(Codeword(m), c)) == 0
  {
    hide RowSyndrome, ColSyndrome, Codeword;
    forall r | 0 <= r < 9
      ensures RowSyndrome(Row(Codeword(m), r)) == 0
    {
      DataRowChecks(m, r);
    }
    forall r | 9 <= r < 13
      ensures RowSyndrome(Row(Codeword(m), r)) == 0
    {
      var rows := COL_CHECKS[r - 9];
      assert forall i :: 0 <= i < |rows| ==> rows[i] < 9;
      RowSumChecks(Codeword(m), rows);
      ParityRowIsSum(m, r - 9);
    }
    forall c | 0 <= c < 15
      ensures ColSyndrome(Col(Codeword(m), c)) == 0
    {
      ColChecks(m, c);
    }
  }

  // ---------- Single errors ----------

  lemma RowUnitParity(p: nat, k: nat)
    requires p < 15 && k < 4
    ensures RowParity(Unit(15, p), k) <==> p in ROW_CHECKS[k]
  {
    ParityUnit(15, p, ROW_CHECKS[k]);
  }

  lemma ColUnitParity(p: nat, k: nat)
    requires p < 13 && k < 4
    ensures ColParity(Unit(13, p), k) <==> p in COL_CHECKS[k]
  {
    ParityUnit(13, p, COL_CHECKS[k]);
  }

  /** The row table undoes every single error in a row. */
  lemma RowUnitFlip(p: nat)
    requires p < 15
    ensures RowSyndrome(Unit(15, p)) != 0 && RowFlip(Unit(15, p)) == p
  {
    hide RowParity;
    RowUnitParity(p, 0);
    RowUnitParity(p, 1);
    RowUnitParity(p, 2);
    RowUnitParity(p, 3);
  }

  /** The column table undoes every single error in a column. */
  lemma ColUnitFlip(p: nat)
    requires p < 13
    ensures ColSyndrome(Unit(13, p)) != 0 && ColFlip(Unit(13, p)) == p
  {
    hide ColParity;
    ColUnitParity(p, 0);
    ColUnitParity(p, 1);
    ColUnitParity(p, 2);
    ColUnitParity(p, 3);
  }

  // ---------- Distance ----------

  /** A nonzero row of syndrome zero has at least three true cells. */
  lemma ThreeInRow(b: seq<bool>, p: nat) returns (q: nat, s: nat)
    requires |b| == 15 && RowSyndrome(b) == 0 && p < 15 && b[p]
    ensures q < 15 && s < 15 && p != q && p != s && q != s && b[q] && b[s]
  {
    hide RowSyndrome, RowFlip;
    RowUnitFlip(p);
    assert b != Unit(15, p);
    q :| 0 <= q < 15 && b[q] != Unit(15, p)[q];
    RowUnitFlip(q);
    RowSyndromeShift(b, Unit(15, q));
    assert Xor(b, Unit(15, q)) != Unit(15, p) by {
      if Xor(b, Unit(15, q)) == Unit(15, p) {
        SameRowFlip(p, q);
      }
    }
    s :| 0 <= s < 15 && Xor(b, Unit(15, q))[s] != Unit(15, p)[s];
  }

  lemma SameRowFlip(p: nat, q: nat)
    requires p < 15 && q < 15 && RowSyndrome(Unit(15, p)) == RowSyndrome(Unit(15, q))
    ensures p == q
  {
    hide RowSyndrome;
    RowUnitFlip(p);
    RowUnitFlip(q);
  }

  lemma SameColFlip(p: nat, q: nat)
    requires p < 13 && q < 13 && ColSyndrome(Unit(13, p)) == ColSyndrome(Unit(13, q))
    ensures p == q
  {
    hide ColSyndrome;
    ColUnitFlip(p);
    ColUnitFlip(q);
  }

  /** A nonzero column of syndrome zero has at least three true cells. */
  lemma ThreeInCol(b: seq<bool>, p: nat) returns (q: nat, s: nat)
    requires |b| == 13 && ColSyndrome(b) == 0 && p < 13 && b[p]
    ensures q < 13 && s < 13 && p != q && p != s && q != s && b[q] && b[s]
  {
    hide ColSyndrome, ColFlip;
    ColUnitFlip(p);
    assert b != Unit(13, p);
    q :| 0 <= q < 13 && b[q] != Unit(13, p)[q];
    ColUnitFlip(q);
    ColSyndromeShift(b, Unit(13, q));
    assert Xor(b, Unit(13, q)) != Unit(13, p) by {
      if Xor(b, Unit(13, q)) == Unit(13, p) {
        SameColFlip(p, q);
      }
    }
    s :| 0 <= s < 13 && Xor(b, Unit(13, q))[s] != Unit(13, p)[s];
  }

  /** Where the cell in row r, column c sits in the interleaved block. */
  function Place(r: nat, c: nat): (i: nat)
    requires r < 13 && c < 15
    ensures i < 196
  {
    (1 + 15 * r + c) * 181 % 196
  }

  lemma PlaceInjective(r: nat, c: nat, r': nat, c': nat)
    requires r < 13 && c < 15 && r' < 13 && c' < 15 && Place(r, c) == Place(r', c')
    ensures r == r' && c == c'
  {
    InterleaveInverse(1 + 15 * r + c);
    InterleaveInverse(1 + 15 * r' + c');
  }

  lemma PlaceOf(g: Block, r: nat, c: nat)
    requires r < 13 && c < 15
    ensures Interleave(g)[Place(r, c)] == At(g, r, c)
  {
    InterleaveInverse(1 + 15 * r + c);
  }

  lemma InterleaveRoundTrip(g: Block)
    ensures Deinterleave(Interleave(g)) == g
    ensures Interleave(Deinterleave(g)) == g
  {
    forall a | 0 <= a < 196
      ensures Deinterleave(Interleave(g))[a] == g[a]
      ensures Interleave(Deinterleave(g))[a] == g[a]
    {
      InterleaveInverse(a);
    }
  }

  lemma InfoAt(m: Message, k: nat)
    requires k < 96
    ensures Info(m, DataRow(k))[DataCol(k)] == m[k]
  {
  }

  /** The encoder puts every message bit where the decoder reads it. */
  lemma DataOfCodeword(m: Message)
    ensures DataOf(Codeword(m)) == m
  {
    hide Info, DataRow, DataCol;
    forall k | 0 <= k < 96
      ensures At(Codeword(m), DataRow(k), DataCol(k)) == m[k]
    {
      InfoAt(m, k);
    }
  }

  /** The cells of a grid that hold a true bit. */
  ghost predicate TrueCells(g: Block, cells: seq<(nat, nat)>) {
    && (forall i :: 0 <= i < |cells| ==> cells[i].0 < 13 && cells[i].1 < 15 && At(g, cells[i].0, cells[i].1))
    && (forall i, j :: 0 <= i < j < |cells| ==> cells[i] != cells[j])
  }

  /** A true cell of a codeword has two more in its column, and so on for three columns of its row. */
  lemma NineTrueCells(m: Message, r: nat, c: nat) returns (cells: seq<(nat, nat)>)
    requires r < 13 && c < 15 && At(Codeword(m), r, c)
    ensures |cells| == 9 && TrueCells(Codeword(m), cells)
  {
    hide Codeword, RowSyndrome, ColSyndrome;
    var w := Codeword(m);
    CodewordChecks(m);
    var c', c'' := ThreeInRow(Row(w, r), c);
    var p, q := ThreeInCol(Col(w, c), r);
    var p', q' := ThreeInCol(Col(w, c'), r);
    var p'', q'' := ThreeInCol(Col(w, c''), r);
    cells := [(r, c), (p, c), (q, c), (r, c'), (p', c'), (q', c'), (r, c''), (p'', c''), (q'', c'')];
  }

  lemma TrueCellDiffers(x: Message, y: Message, r: nat, c: nat)
    requires r < 13 && c < 15 && At(Codeword(Xor(x, y)), r, c)
    ensures Place(r, c) in Differences(Encoded(x), Encoded(y))
  {
    hide Codeword;
    CodewordLinear(x, y);
    PlaceOf(Codeword(x), r, c);
    PlaceOf(Codeword(y), r, c);
  }

  /** Where each message bit is on the air: row 0 holds 8 of them from its fourth column on, rows 1 to 8 hold 11 each. */
  lemma MessageOnAir(m: Message, k: nat)
    requires k < 96
    ensures var a := if k < 8 then 4 + k else 16 + 15 * ((k - 8) / 11) + (k - 8) % 11;
      Encoded(m)[a * 181 % 196] == m[k]
  {
    hide Codeword;
    DataOfCodeword(m);
    assert DataOf(Codeword(m))[k] == m[k];
    PlaceOf(Codeword(m), DataRow(k), DataCol(k));
  }

  /** Two different messages are encoded as blocks that differ in at least nine places. */
  lemma EncodedDistance(x: Message, y: Message)
    requires x != y
    ensures Distance(Encoded(x), Encoded(y)) >= 9
  {
    hide Codeword, Encoded, At, Place;
    var k :| 0 <= k < 96 && x[k] != y[k];
    DataOfCodeword(Xor(x, y));
    assert DataOf(Codeword(Xor(x, y)))[k];
    var cells := NineTrueCells(Xor(x, y), DataRow(k), DataCol(k));
    var places := seq(9, i requires 0 <= i < 9 => Place(cells[i].0, cells[i].1));
    forall i | 0 <= i < 9
      ensures places[i] in Differences(Encoded(x), Encoded(y))
    {
      TrueCellDiffers(x, y, cells[i].0, cells[i].1);
    }
    forall i, j | 0 <= i < j < 9
      ensures places[i] != places[j]
    {
      if places[i] == places[j] {
        PlaceInjective(cells[i].0, cells[i].1, cells[j].0, cells[j].1);
      }
    }
    DistinctElements(places, Differences(Encoded(x), Encoded(y)));
  }

  // ---------- Decoding ----------

  lemma RowFlipShift(w: Block, e: Block, r: nat)
    requires r < 9 && RowSyndrome(Row(w, r)) == 0
    ensures RowFlip(Row(Xor(w, e), r)) == RowFlip(Row(e, r))
    ensures RowBad(Row(Xor(w, e), r)) == RowBad(Row(e, r))
  {
    hide RowSyndrome;
    RowSyndromeShift(Row(w, r), Row(e, r));
    assert Row(Xor(w, e), r) == Xor(Row(w, r), Row(e, r));
  }

  /** The row pass commutes with adding a grid whose data rows check. */
  lemma RowPassShift(w: Block, e: Block)
    requires forall r :: 0 <= r < 9 ==> RowSyndrome(Row(w, r)) == 0
    ensures RowPassed(Xor(w, e)) == Xor(w, RowPassed(e))
    ensures forall r :: 0 <= r < 9 ==> RowFlip(Row(Xor(w, e), r)) == RowFlip(Row(e, r))
    ensures forall r :: 0 <= r < 9 ==> RowBad(Row(Xor(w, e), r)) == RowBad(Row(e, r))
  {
    hide RowSyndrome, RowFlip, RowBad, Row;
    forall r | 0 <= r < 9
      ensures RowFlip(Row(Xor(w, e), r)) == RowFlip(Row(e, r)) && RowBad(Row(Xor(w, e), r)) == RowBad(Row(e, r))
    {
      RowFlipShift(w, e, r);
    }
    var g, h := RowPassed(Xor(w, e)), Xor(w, RowPassed(e));
    forall r: nat, c: nat | r < 13 && c < 15
      ensures At(g, r, c) == At(h, r, c)
    {
      assert At(h, r, c) == (At(w, r, c) != At(RowPassed(e), r, c));
      assert At(Xor(w, e), r, c) == (At(w, r, c) != At(e, r, c));
    }
    SameGrid(g, h);
  }

  lemma ColFlipShift(w: Block, e: Block, c: nat)
    requires c < 15 && ColSyndrome(Col(w, c)) == 0
    ensures ColFlip(Col(Xor(w, e), c)) == ColFlip(Col(e, c))
    ensures ColBad(Col(Xor(w, e), c)) == ColBad(Col(e, c))
  {
    hide ColSyndrome;
    ColSyndromeShift(Col(w, c), Col(e, c));
    assert Col(Xor(w, e), c) == Xor(Col(w, c), Col(e, c));
  }

  /** The column pass commutes with adding a grid whose columns check. */
  lemma ColPassShift(w: Block, e: Block)
    requires forall c :: 0 <= c < 15 ==> ColSyndrome(Col(w, c)) == 0
    ensures ColPassed(Xor(w, e)) == Xor(w, ColPassed(e))
    ensures forall c :: 0 <= c < 15 ==> ColFlip(Col(Xor(w, e), c)) == ColFlip(Col(e, c))
    ensures forall c :: 0 <= c < 15 ==> ColBad(Col(Xor(w, e), c)) == ColBad(Col(e, c))
  {
    hide ColSyndrome, ColFlip, ColBad, Col;
    forall c | 0 <= c < 15
      ensures ColFlip(Col(Xor(w, e), c)) == ColFlip(Col(e, c)) && ColBad(Col(Xor(w, e), c)) == ColBad(Col(e, c))
    {
      ColFlipShift(w, e, c);
    }
    var g, h := ColPassed(Xor(w, e)), Xor(w, ColPassed(e));
    forall r: nat, c: nat | r < 13 && c < 15
      ensures At(g, r, c) == At(h, r, c)
    {
      assert At(h, r, c) == (At(w, r, c) != At(ColPassed(e), r, c));
      assert At(Xor(w, e), r, c) == (At(w, r, c) != At(e, r, c));
    }
    SameGrid(g, h);
  }

  /**
    What the decoder does depends on the channel error alone: it returns the message,
    changed exactly where it would change the zero message, with the same statistics.
   */
  lemma DecodeDependsOnErrorOnly(m: Message, f: Block)
    ensures Decoded(Xor(Encoded(m), f)) == Decoded(f).(data := Xor(m, Decoded(f).data))
  {
    hide RowSyndrome, ColSyndrome, RowFlip, ColFlip, RowBad, ColBad, RowPassed, ColPassed, Codeword;
    var w, e := Codeword(m), Deinterleave(f);
    CodewordChecks(m);
    InterleaveRoundTrip(w);
    assert Deinterleave(Xor(Encoded(m), f)) == Xor(w, e);
    RowPassShift(w, e);
    ColPassShift(w, RowPassed(e));
    assert FixedRows(Xor(w, e), 9) == FixedRows(e, 9);
    assert FixedCols(Xor(w, RowPassed(e)), 15) == FixedCols(RowPassed(e), 15);
    DataOfCodeword(m);
    assert DataOf(Xor(w, ColPassed(RowPassed(e)))) == Xor(m, DataOf(ColPassed(RowPassed(e))));
  }
}
