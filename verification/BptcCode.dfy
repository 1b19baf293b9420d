/** The imperative encoder and decoder, proved to compute `Encoded` and `Decoded`. */
module BptcCode {
  import opened Bptc

  // ---------- Parity ----------

  /** Writes one cell. */
  method Put(grid: array<bool>, r: nat, c: nat, bit: bool)
    requires grid.Length == 196 && r < 13 && c < 15
    modifies grid
    ensures grid[0] == old(grid[0])
    ensures forall i: nat, k: nat :: i < 13 && k < 15 ==> At(grid[..], i, k) == if i == r && k == c then bit else At(old(grid[..]), i, k)
  {
    grid[1 + r * 15 + c] := bit;
  }

  /** Fills the four parity cells of row r so that the row's syndrome is zero. */
  method ComputeRowParity(grid: array<bool>, r: nat)
    requires grid.Length == 196 && r < 9
    modifies grid
    ensures grid[0] == old(grid[0]) && RowSyndrome(Row(grid[..], r)) == 0
    ensures forall i: nat, c: nat :: i < 13 && c < 15 && (i != r || c < 11) ==> At(grid[..], i, c) == At(old(grid[..]), i, c)
  {
    var d := Row(grid[..], r)[..11];
    Put(grid, r, 11, RowParity(d, 0));
    Put(grid, r, 12, RowParity(d, 1));
    Put(grid, r, 13, RowParity(d, 2));
    Put(grid, r, 14, RowParity(d, 3));
    RowFilled(Row(grid[..], r), d);
  }

  /** Copies the first n cells of column c. */
  method CopyColumn(grid: array<bool>, c: nat, n: nat) returns (d: seq<bool>)
    requires grid.Length == 196 && c < 15 && n <= 13
    ensures d == Col(grid[..], c)[..n]
  {
    var col := new bool[n];
    for r := 0 to n
      invariant forall i :: 0 <= i < r ==> col[i] == Col(grid[..], c)[i]
    {
      col[r] := grid[1 + r * 15 + c];
    }
    d := col[..];
  }

  /** Fills the four parity cells of column c so that the column's syndrome is zero. */
  method ComputeColParity(grid: array<bool>, c: nat)
    requires grid.Length == 196 && c < 15
    modifies grid
    ensures grid[0] == old(grid[0]) && ColSyndrome(Col(grid[..], c)) == 0
    ensures forall r: nat, k: nat :: r < 13 && k < 15 && (k != c || r < 9) ==> At(grid[..], r, k) == At(old(grid[..]), r, k)
  {
    var d := CopyColumn(grid, c, 9);
    Put(grid, 9, c, ColParity(d, 0));
    Put(grid, 10, c, ColParity(d, 1));
    Put(grid, 11, c, ColParity(d, 2));
    Put(grid, 12, c, ColParity(d, 3));
    ColFilled(Col(grid[..], c), d);
  }

  /** A row whose data cells are the message's and whose syndrome is zero is the code row. */
  lemma RowIsDetermined(m: Message, g: Block, r: nat)
    requires r < 9 && RowSyndrome(Row(g, r)) == 0
    requires forall c :: 0 <= c < 11 ==> At(g, r, c) == Info(m, r)[c]
    ensures forall c :: 0 <= c < 15 ==> At(g, r, c) == RowCell(m, r, c)
  {
    var b := Row(g, r);
    RowParityAgrees(b, Info(m, r));
    assert b[11] == RowParity(b, 0) && b[12] == RowParity(b, 1) && b[13] == RowParity(b, 2) && b[14] == RowParity(b, 3);
  }

  lemma ColIsDetermined(m: Message, g: Block, c: nat)
    requires c < 15 && ColSyndrome(Col(g, c)) == 0
    requires forall r :: 0 <= r < 9 ==> At(g, r, c) == RowCell(m, r, c)
    ensures forall r :: 0 <= r < 13 ==> At(g, r, c) == Cell(m, r, c)
  {
    var b := Col(g, c);
    ColParityAgrees(b, ColData(m, c));
    assert b[9] == ColParity(b, 0) && b[10] == ColParity(b, 1) && b[11] == ColParity(b, 2) && b[12] == ColParity(b, 3);
  }

  // ---------- Encode ----------

  predicate HasInfo(m: Message, g: Block, n: nat)
    requires n <= 9
  {
    !g[0] && forall r: nat, c: nat :: r < n && c < 11 ==> At(g, r, c) == Info(m, r)[c]
  }

  /** Places the 96 data bits, everything else zero. */
  method PlaceData(grid: array<bool>, data: Message)
    requires grid.Length == 196
    requires forall a :: 0 <= a < 196 ==> !grid[a]
    modifies grid
    ensures HasInfo(data, grid[..], 9)
  {
    var idx := 0;
    for c := 3 to 11
      invariant idx == c - 3
      invariant forall a :: 0 <= a < 196 ==> grid[a] == (4 <= a < 1 + c && data[a - 4])
    {
      grid[1 + c] := data[idx];
      idx := idx + 1;
    }
    for r := 1 to 9
      invariant idx == 8 + 11 * (r - 1)
      invariant HasInfo(data, grid[..], r)
    {
      var base := 1 + r * 15;
      for c := 0 to 11
        invariant idx == 8 + 11 * (r - 1) + c
        invariant HasInfo(data, grid[..], r)
        invariant forall k: nat :: k < c ==> At(grid[..], r, k) == Info(data, r)[k]
      {
        grid[base + c] := data[idx];
        idx := idx + 1;
      }
    }
  }

  method FillRows(grid: array<bool>, m: Message)
    requires grid.Length == 196 && HasInfo(m, grid[..], 9)
    modifies grid
    ensures !grid[0]
    ensures forall r: nat, c: nat :: r < 9 && c < 15 ==> At(grid[..], r, c) == RowCell(m, r, c)
  {
    for r := 0 to 9
      invariant HasInfo(m, grid[..], 9)
      invariant forall i: nat, c: nat :: i < r && c < 15 ==> At(grid[..], i, c) == RowCell(m, i, c)
    {
      ComputeRowParity(grid, r);
      RowIsDetermined(m, grid[..], r);
    }
  }

  method FillCols(grid: array<bool>, m: Message)
    requires grid.Length == 196 && !grid[0]
    requires forall r: nat, c: nat :: r < 9 && c < 15 ==> At(grid[..], r, c) == RowCell(m, r, c)
    modifies grid
    ensures grid[..] == Codeword(m)
  {
    for c := 0 to 15
      invariant !grid[0]
      invariant forall r: nat, k: nat :: r < 9 && k < 15 ==> At(grid[..], r, k) == RowCell(m, r, k)
      invariant forall r: nat, k: nat :: r < 13 && k < c ==> At(grid[..], r, k) == Cell(m, r, k)
    {
      ComputeColParity(grid, c);
      ColIsDetermined(m, grid[..], c);
    }
    SameGrid(grid[..], Codeword(m));
  }

  method InterleaveBits(grid: Block) returns (out: Block)
    ensures out == Interleave(grid)
  {
    var res := new bool[196];
    for a := 0 to 196
      invariant forall b {:trigger grid[b]} :: 0 <= b < a ==> res[b * 181 % 196] == grid[b]
    {
      forall b | 0 <= b < a
        ensures b * 181 % 196 != a * 181 % 196
      {
        InterleaveInverse(a);
        InterleaveInverse(b);
      }
      res[a * 181 % 196] := grid[a];
    }
    forall i | 0 <= i < 196
      ensures res[i] == Interleave(grid)[i]
    {
      InterleaveInverse(i);
      assert res[i * 13 % 196 * 181 % 196] == grid[i * 13 % 196];
    }
    out := res[..];
  }

  method Encode(data: Message) returns (out: Block)
    ensures out == Encoded(data)
  {
    var grid := new bool[196](i => false);
    PlaceData(grid, data);
    FillRows(grid, data);
    FillCols(grid, data);
    out := InterleaveBits(grid[..]);
  }

  // ---------- Decode ----------

  /** Block b is block a with row r corrected. */
  ghost predicate RowCorrected(a: Block, b: Block, r: nat)
    requires r < 9
  {
    && b[0] == a[0]
    && forall i: nat, c: nat :: i < 13 && c < 15 ==> At(b, i, c) == (At(a, i, c) != (i == r && RowFlip(Row(a, r)) == c))
  }

  /** Block a is block g with the rows below n corrected. */
  ghost predicate RowsDone(g: Block, a: Block, n: nat) {
    && a[0] == g[0]
    && forall i: nat, c: nat :: i < 13 && c < 15 ==> At(a, i, c) == (At(g, i, c) != (i < n <= 9 && RowFlip(Row(g, i)) == c))
  }

  ghost predicate AnyRowBad(g: Block, n: nat)
    requires n <= 9
  {
    exists i | 0 <= i < n :: RowBad(Row(g, i))
  }

  lemma AnyRowBadNext(g: Block, n: nat)
    requires n < 9
    ensures AnyRowBad(g, n + 1) == (AnyRowBad(g, n) || RowBad(Row(g, n)))
  {
    hide RowBad, Row;
  }

  lemma AnyRowBadIs(g: Block, n: nat)
    requires n <= 9
    ensures AnyRowBad(g, n) == exists i | 0 <= i < n :: RowBad(Row(g, i))
  {
  }

  lemma NoRowsDone(g: Block)
    ensures RowsDone(g, g, 0) && FixedRows(g, 0) == {} && !AnyRowBad(g, 0)
  {
  }

  lemma RowsDoneNext(g: Block, a: Block, b: Block, r: nat)
    requires r < 9 && RowsDone(g, a, r) && RowCorrected(a, b, r)
    ensures Row(a, r) == Row(g, r) && RowsDone(g, b, r + 1)
  {
    hide RowFlip;
    assert Row(a, r) == Row(g, r);
  }

  lemma FixedRowsNext(g: Block, r: nat)
    requires r < 9
    ensures |FixedRows(g, r + 1)| == |FixedRows(g, r)| + if RowFlip(Row(g, r)) >= 0 then 1 else 0
  {
    hide RowFlip, Row;
    assert FixedRows(g, r + 1) == FixedRows(g, r) + if RowFlip(Row(g, r)) >= 0 then {r} else {};
  }

  /** Corrects row r; tells whether a cell was flipped and whether the row is beyond repair. */
  method CorrectRow(grid: array<bool>, r: nat) returns (fixed: bool, bad: bool)
    requires grid.Length == 196 && r < 9
    modifies grid
    ensures RowCorrected(old(grid[..]), grid[..], r)
    ensures fixed == (RowFlip(Row(old(grid[..]), r)) >= 0)
    ensures bad == RowBad(Row(old(grid[..]), r))
  {
    fixed, bad := false, false;
    var row := Row(grid[..], r);
    var s := RowSyndrome(row);
    if s != 0 {
      var pos := ROW_TABLE[s];
      assert pos == RowFlip(row);
      if pos >= 0 {
        Put(grid, r, pos, !At(grid[..], r, pos));
        fixed := true;
      } else {
        bad := true;
      }
    }
  }

  /** The row pass, over rows 0 to 8. */
  method CorrectRows(grid: array<bool>) returns (total: nat, unc: bool)
    requires grid.Length == 196
    modifies grid
    ensures grid[..] == RowPassed(old(grid[..]))
    ensures total == |FixedRows(old(grid[..]), 9)|
    ensures unc == exists r | 0 <= r < 9 :: RowBad(Row(old(grid[..]), r))
  {
    hide AnyRowBad, At, RowFlip, RowBad, RowsDone, RowCorrected, FixedRows, Row, RowPassed;
    total, unc := 0, false;
    ghost var g := grid[..];
    NoRowsDone(g);
    for r := 0 to 9
      invariant RowsDone(g, grid[..], r)
      invariant total == |FixedRows(g, r)|
      invariant unc == AnyRowBad(g, r)
    {
      ghost var a := grid[..];
      var fixed, bad := CorrectRow(grid, r);
      RowsDoneNext(g, a, grid[..], r);
      FixedRowsNext(g, r);
      AnyRowBadNext(g, r);
      total := total + if fixed then 1 else 0;
      unc := unc || bad;
    }
    RowsAllDone(g, grid[..]);
    AnyRowBadIs(g, 9);
  }

  lemma RowsAllDone(g: Block, a: Block)
    requires RowsDone(g, a, 9)
    ensures a == RowPassed(g)
  {
    hide RowFlip, Row;
    SameGrid(a, RowPassed(g));
  }

  /** Block b is block a with column c corrected. */
  ghost predicate ColCorrected(a: Block, b: Block, c: nat)
    requires c < 15
  {
    && b[0] == a[0]
    && forall r: nat, k: nat :: r < 13 && k < 15 ==> At(b, r, k) == (At(a, r, k) != (k == c && ColFlip(Col(a, c)) == r))
  }

  /** Block a is block g with the columns below n corrected. */
  ghost predicate ColsDone(g: Block, a: Block, n: nat) {
    && a[0] == g[0]
    && forall r: nat, k: nat :: r < 13 && k < 15 ==> At(a, r, k) == (At(g, r, k) != (k < n && ColFlip(Col(g, k)) == r))
  }

  ghost predicate AnyColBad(g: Block, n: nat)
    requires n <= 15
  {
    exists k | 0 <= k < n :: ColBad(Col(g, k))
  }

  lemma AnyColBadNext(g: Block, n: nat)
    requires n < 15
    ensures AnyColBad(g, n + 1) == (AnyColBad(g, n) || ColBad(Col(g, n)))
  {
    hide ColBad, Col;
  }

  lemma AnyColBadIs(g: Block, n: nat)
    requires n <= 15
    ensures AnyColBad(g, n) == exists k | 0 <= k < n :: ColBad(Col(g, k))
  {
  }

  lemma NoColsDone(g: Block)
    ensures ColsDone(g, g, 0) && FixedCols(g, 0) == {} && !AnyColBad(g, 0)
  {
  }

  lemma ColsDoneNext(g: Block, a: Block, b: Block, c: nat)
    requires c < 15 && ColsDone(g, a, c) && ColCorrected(a, b, c)
    ensures Col(a, c) == Col(g, c) && ColsDone(g, b, c + 1)
  {
    hide ColFlip;
    assert Col(a, c) == Col(g, c);
  }

  lemma FixedColsNext(g: Block, c: nat)
    requires c < 15
    ensures |FixedCols(g, c + 1)| == |FixedCols(g, c)| + if ColFlip(Col(g, c)) >= 0 then 1 else 0
  {
    hide ColFlip, Col;
    assert FixedCols(g, c + 1) == FixedCols(g, c) + if ColFlip(Col(g, c)) >= 0 then {c} else {};
  }

  /** Corrects column c; tells whether a cell was flipped and whether the column is beyond repair. */
  method CorrectCol(grid: array<bool>, c: nat) returns (fixed: bool, bad: bool)
    requires grid.Length == 196 && c < 15
    modifies grid
    ensures ColCorrected(old(grid[..]), grid[..], c)
    ensures fixed == (ColFlip(Col(old(grid[..]), c)) >= 0)
    ensures bad == ColBad(Col(old(grid[..]), c))
  {
    fixed, bad := false, false;
    var col := CopyColumn(grid, c, 13);
    assert col == Col(grid[..], c);
    var s := ColSyndrome(col);
    if s != 0 {
      var pos := COL_TABLE[s];
      assert pos == ColFlip(col);
      if pos >= 0 {
        Put(grid, pos, c, !At(grid[..], pos, c));
        fixed := true;
      } else {
        bad := true;
      }
    }
  }

  /** The column pass, over all 15 columns. */
  method CorrectCols(grid: array<bool>) returns (total: nat, unc: bool)
    requires grid.Length == 196
    modifies grid
    ensures grid[..] == ColPassed(old(grid[..]))
    ensures total == |FixedCols(old(grid[..]), 15)|
    ensures unc == exists c | 0 <= c < 15 :: ColBad(Col(old(grid[..]), c))
  {
    hide AnyColBad, At, ColFlip, ColBad, ColsDone, ColCorrected, FixedCols, Col, ColPassed;
    total, unc := 0, false;
    ghost var g := grid[..];
    NoColsDone(g);
    for c := 0 to 15
      invariant ColsDone(g, grid[..], c)
      invariant total == |FixedCols(g, c)|
      invariant unc == AnyColBad(g, c)
    {
      ghost var a := grid[..];
      var fixed, bad := CorrectCol(grid, c);
      ColsDoneNext(g, a, grid[..], c);
      FixedColsNext(g, c);
      AnyColBadNext(g, c);
      total := total + if fixed then 1 else 0;
      unc := unc || bad;
    }
    ColsAllDone(g, grid[..]);
    AnyColBadIs(g, 15);
  }

  lemma ColsAllDone(g: Block, a: Block)
    requires ColsDone(g, a, 15)
    ensures a == ColPassed(g)
  {
    hide ColFlip, Col;
    SameGrid(a, ColPassed(g));
  }

  method ExtractData(grid: Block) returns (data: Message)
    ensures data == DataOf(grid)
  {
    var res := new bool[96];
    var idx := 0;
    for c := 3 to 11
      invariant idx == c - 3
      invariant forall k :: 0 <= k < idx ==> res[k] == DataOf(grid)[k]
    {
      res[idx] := grid[1 + c];
      idx := idx + 1;
    }
    for r := 1 to 9
      invariant idx == 8 + 11 * (r - 1)
      invariant forall k :: 0 <= k < idx ==> res[k] == DataOf(grid)[k]
    {
      var base := 1 + r * 15;
      for c := 0 to 11
        invariant idx == 8 + 11 * (r - 1) + c
        invariant forall k :: 0 <= k < idx ==> res[k] == DataOf(grid)[k]
      {
        DataAt(r, c);
        res[idx] := grid[base + c];
        idx := idx + 1;
      }
    }
    data := res[..];
  }

  lemma DataAt(r: nat, c: nat)
    requires 1 <= r < 9 && c < 11
    ensures 1 + (8 + 11 * (r - 1) + c - 8) / 11 == r && (8 + 11 * (r - 1) + c - 8) % 11 == c
  {
  }

  method Decode(bits: Block) returns (data: Message, corrected: nat, uncorrectable: bool)
    ensures Decoding(data, corrected, uncorrectable) == Decoded(bits)
  {
    hide RowPassed, ColPassed, RowFlip, ColFlip, RowBad, ColBad;
    var grid := new bool[196];
    for a := 0 to 196
      invariant forall i :: 0 <= i < a ==> grid[i] == Deinterleave(bits)[i]
    {
      grid[a] := bits[a * 181 % 196];
    }
    assert grid[..] == Deinterleave(bits);
    var n1, u1 := CorrectRows(grid);
    var n2, u2 := CorrectCols(grid);
    data := ExtractData(grid[..]);
    corrected, uncorrectable := n1 + n2, u1 || u2;
  }
}
