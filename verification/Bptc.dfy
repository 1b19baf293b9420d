/**
  BPTC(196,96): the block product turbo code of Annex B of ETSI TS 102 361-1,
  as internal/dmr/bptc/bptc19696.go implements it.

  A cell of the 196-cell grid holds 0 or 1 and is modelled as a `bool`, with
  exclusive-or as `!=`. Cell 0 is reserved; cell 1 + 15*r + c is row r, column c
  of a 13 by 15 matrix.
 */
module Bptc {
  import opened BitSequences

  type Block = b: seq<bool> | |b| == 196 witness seq(196, i => false)
  type Message = m: seq<bool> | |m| == 96 witness seq(96, i => false)

  // ---------- Parity checks and syndromes ----------

  /** The data cells summed by each parity bit of a Hamming(15,11) row and of a Hamming(13,9) column. */
  const ROW_CHECKS: seq<seq<nat>> := [[0, 1, 2, 3, 5, 7, 8], [1, 2, 3, 4, 6, 8, 9], [2, 3, 4, 5, 7, 9, 10], [0, 1, 2, 4, 6, 7, 10]]
  const COL_CHECKS: seq<seq<nat>> := [[0, 1, 3, 5, 6], [0, 1, 2, 4, 6, 7], [0, 1, 2, 3, 5, 7, 8], [0, 2, 4, 5, 8]]

  function RowParity(d: seq<bool>, k: nat): bool
    requires 11 <= |d| && k < 4
  {
    Parity(Pick(d, ROW_CHECKS[k]))
  }

  function ColParity(d: seq<bool>, k: nat): bool
    requires 9 <= |d| && k < 4
  {
    Parity(Pick(d, COL_CHECKS[k]))
  }

  function Index(s0: bool, s1: bool, s2: bool, s3: bool): (s: nat)
    ensures s < 16
  {
    (if s0 then 1 else 0) + (if s1 then 2 else 0) + (if s2 then 4 else 0) + (if s3 then 8 else 0)
  }

  function RowSyndrome(b: seq<bool>): (s: nat)
    requires |b| == 15
    ensures s < 16
  {
    Index(RowParity(b, 0) != b[11], RowParity(b, 1) != b[12], RowParity(b, 2) != b[13], RowParity(b, 3) != b[14])
  }

  function ColSyndrome(b: seq<bool>): (s: nat)
    requires |b| == 13
    ensures s < 16
  {
    Index(ColParity(b, 0) != b[9], ColParity(b, 1) != b[10], ColParity(b, 2) != b[11], ColParity(b, 3) != b[12])
  }

  /** Syndrome to error position; -1 where no single-bit error has that syndrome. */
  const ROW_TABLE: seq<int> := [-1, 11, 12, 8, 13, 5, 9, 3, 14, 0, 6, 1, 10, 7, 4, 2]
  const COL_TABLE: seq<int> := [-1, 9, 10, 6, 11, 3, 7, 1, 12, -1, 4, -1, 8, 5, 2, 0]

  /** The cell the decoder flips in a row, or -1. */
  function RowFlip(b: seq<bool>): (p: int)
    requires |b| == 15
    ensures -1 <= p < 15
  {
    ROW_TABLE[RowSyndrome(b)]
  }

  function ColFlip(b: seq<bool>): (p: int)
    requires |b| == 13
    ensures -1 <= p < 13
  {
    COL_TABLE[ColSyndrome(b)]
  }

  // ---------- Lines of the code ----------

  /** Parity depends on the data cells only. */
  lemma RowParityAgrees(b: seq<bool>, d: seq<bool>)
    requires |b| >= 11 && |d| >= 11
    requires forall i :: 0 <= i < 11 ==> b[i] == d[i]
    ensures forall k :: 0 <= k < 4 ==> RowParity(b, k) == RowParity(d, k)
  {
    forall k | 0 <= k < 4
      ensures RowParity(b, k) == RowParity(d, k)
    {
      assert Pick(b, ROW_CHECKS[k]) == Pick(d, ROW_CHECKS[k]);
    }
  }

  lemma ColParityAgrees(b: seq<bool>, d: seq<bool>)
    requires |b| >= 9 && |d| >= 9
    requires forall i :: 0 <= i < 9 ==> b[i] == d[i]
    ensures forall k :: 0 <= k < 4 ==> ColParity(b, k) == ColParity(d, k)
  {
    forall k | 0 <= k < 4
      ensures ColParity(b, k) == ColParity(d, k)
    {
      assert Pick(b, COL_CHECKS[k]) == Pick(d, COL_CHECKS[k]);
    }
  }

  /** A row, or column, that carries the parity of its data has syndrome zero. */
  lemma RowFilled(b: seq<bool>, d: seq<bool>)
    requires |b| == 15 && |d| == 11
    requires forall i :: 0 <= i < 11 ==> b[i] == d[i]
    requires b[11] == RowParity(d, 0) && b[12] == RowParity(d, 1) && b[13] == RowParity(d, 2) && b[14] == RowParity(d, 3)
    ensures RowSyndrome(b) == 0
  {
    RowParityAgrees(b, d);
  }

  lemma ColFilled(b: seq<bool>, d: seq<bool>)
    requires |b| == 13 && |d| == 9
    requires forall i :: 0 <= i < 9 ==> b[i] == d[i]
    requires b[9] == ColParity(d, 0) && b[10] == ColParity(d, 1) && b[11] == ColParity(d, 2) && b[12] == ColParity(d, 3)
    ensures ColSyndrome(b) == 0
  {
    ColParityAgrees(b, d);
  }

  // ---------- The grid ----------

  /** The cell in row r, column c. */
  function At(g: Block, r: nat, c: nat): bool
    requires r < 13 && c < 15
  {
    g[1 + 15 * r + c]
  }

  /** The grid with the given reserved cell 0 and the given matrix. */
  function Grid(reserved: bool, f: (nat, nat) --> bool): (g: Block)
    requires forall r, c :: r < 13 && c < 15 ==> f.requires(r, c)
    ensures g[0] == reserved
    ensures forall r: nat, c: nat :: r < 13 && c < 15 ==> At(g, r, c) == f(r, c)
  {
    var g := seq(196, a requires 0 <= a < 196 => if a == 0 then reserved else f((a - 1) / 15, (a - 1) % 15));
    assert forall r: nat, c: nat :: r < 13 && c < 15 ==> At(g, r, c) == f(r, c) by {
      forall r: nat, c: nat | r < 13 && c < 15
        ensures At(g, r, c) == f(r, c)
      {
        assert (15 * r + c) / 15 == r && (15 * r + c) % 15 == c;
      }
    }
    g
  }

  /** Grids agree when all their cells do. */
  lemma SameGrid(g: Block, h: Block)
    requires g[0] == h[0]
    requires forall r: nat, c: nat :: r < 13 && c < 15 ==> At(g, r, c) == At(h, r, c)
    ensures g == h
  {
    forall a | 0 <= a < 196
      ensures g[a] == h[a]
    {
      if a > 0 {
        assert At(g, (a - 1) / 15, (a - 1) % 15) == At(h, (a - 1) / 15, (a - 1) % 15);
      }
    }
  }

  function Row(g: Block, r: nat): (b: seq<bool>)
    requires r < 13
    ensures |b| == 15
  {
    seq(15, c requires 0 <= c < 15 => At(g, r, c))
  }

  function Col(g: Block, c: nat): (b: seq<bool>)
    requires c < 15
    ensures |b| == 13
  {
    seq(13, r requires 0 <= r < 13 => At(g, r, c))
  }

  // ---------- What Encode computes ----------

  /** The data cells of rows 0 to 8; columns 0 to 2 of row 0 are reserved. */
  function Info(m: Message, r: nat): (d: seq<bool>)
    requires r < 9
    ensures |d| == 11
  {
    seq(11, c requires 0 <= c < 11 => if r == 0 then 3 <= c && m[c - 3] else m[8 + 11 * (r - 1) + c])
  }

  function RowCell(m: Message, r: nat, c: nat): bool
    requires r < 9 && c < 15
  {
    if c < 11 then Info(m, r)[c] else RowParity(Info(m, r), c - 11)
  }

  function ColData(m: Message, c: nat): (d: seq<bool>)
    requires c < 15
    ensures |d| == 9
  {
    seq(9, r requires 0 <= r < 9 => RowCell(m, r, c))
  }

  function Cell(m: Message, r: nat, c: nat): bool
    requires r < 13 && c < 15
  {
    if r < 9 then RowCell(m, r, c) else ColParity(ColData(m, c), r - 9)
  }

  /** The grid before interleaving. */
  function Codeword(m: Message): Block {
    Grid(false, (r: nat, c: nat) requires r < 13 && c < 15 => Cell(m, r, c))
  }

  /** Section B.1.1: grid cell a goes to place 181*a mod 196; 13 inverts 181. */
  function Interleave(g: Block): Block {
    seq(196, i requires 0 <= i < 196 => g[i * 13 % 196])
  }

  function Deinterleave(b: Block): Block {
    seq(196, a requires 0 <= a < 196 => b[a * 181 % 196])
  }

  /** Interleaving and deinterleaving are inverse permutations. */
  lemma InterleaveInverse(a: nat)
    requires a < 196
    ensures a * 181 % 196 * 13 % 196 == a
    ensures a * 13 % 196 * 181 % 196 == a
  {
    var q := a * 181 / 196;
    var s := a * 13 / 196;
    Remainder(a * 181 % 196 * 13, 12 * a - 13 * q, a);
    Remainder(a * 13 % 196 * 181, 12 * a - 181 * s, a);
  }

  lemma Remainder(n: int, t: int, a: nat)
    requires n == a + 196 * t && a < 196
    ensures n % 196 == a
  {
  }

  function Encoded(m: Message): Block {
    Interleave(Codeword(m))
  }

  // ---------- What Decode computes ----------

  /** The grid after the row pass: rows 9 to 12 are left alone. */
  function RowPassed(g: Block): Block {
    Grid(g[0], (r: nat, c: nat) requires r < 13 && c < 15 => At(g, r, c) != (r < 9 && RowFlip(Row(g, r)) == c))
  }

  /** The grid after the column pass. */
  function ColPassed(g: Block): Block {
    Grid(g[0], (r: nat, c: nat) requires r < 13 && c < 15 => At(g, r, c) != (ColFlip(Col(g, c)) == r))
  }

  /** Where the decoder reads message bit k: columns 3 to 10 of row 0, then columns 0 to 10 of rows 1 to 8. */
  function DataRow(k: nat): (r: nat)
    requires k < 96
    ensures r < 9
  {
    if k < 8 then 0 else 1 + (k - 8) / 11
  }

  function DataCol(k: nat): (c: nat)
    requires k < 96
    ensures c < 11
  {
    if k < 8 then 3 + k else (k - 8) % 11
  }

  function DataOf(g: Block): Message {
    seq(96, k requires 0 <= k < 96 => At(g, DataRow(k), DataCol(k)))
  }

  /** Rows below n that the row pass corrects, and columns the column pass corrects. */
  ghost function FixedRows(g: Block, n: nat): set<int>
    requires n <= 9
  {
    set r | 0 <= r < n && RowFlip(Row(g, r)) >= 0
  }

  ghost function FixedCols(g: Block, n: nat): set<int>
    requires n <= 15
  {
    set c | 0 <= c < n && ColFlip(Col(g, c)) >= 0
  }

  /** Damage the decoder notices but cannot place. */
  ghost predicate RowBad(b: seq<bool>)
    requires |b| == 15
  {
    RowSyndrome(b) != 0 && RowFlip(b) < 0
  }

  ghost predicate ColBad(b: seq<bool>)
    requires |b| == 13
  {
    ColSyndrome(b) != 0 && ColFlip(b) < 0
  }

  datatype Decoding = Decoding(data: Message, corrected: nat, uncorrectable: bool)

  /** The answer of the decoder, as a function of the received block. */
  ghost function Decoded(b: Block): Decoding {
    var g := Deinterleave(b);
    var h := RowPassed(g);
    Decoding(
      DataOf(ColPassed(h)),
      |FixedRows(g, 9)| + |FixedCols(h, 15)|,
      (exists r | 0 <= r < 9 :: RowBad(Row(g, r))) || (exists c | 0 <= c < 15 :: ColBad(Col(h, c))))
  }
}
