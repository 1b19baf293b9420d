/**
  The embedded link control: 72 LC bits and a 5-bit CRC in an 8 by 16 matrix,
  each row a Hamming(16,11,4) word and the last row the column parity, read out
  column by column as four fragments of four bytes.
 */
module EmbeddedLc {
  import opened BitSequences
  import opened Bytes
  import opened Bptc
  import opened BptcTheorems
  import opened LinkControl
  import opened Crc5

  type Info = b: seq<bool> | |b| == 77 witness seq(77, i => false)

  // ---------- The matrix ----------

  /** A row: eleven data bits, four Hamming parity bits, one overall parity bit. */
  function Short(d: seq<bool>): (b: seq<bool>)
    requires |d| == 11
    ensures |b| == 15
  {
    d + [RowParity(d, 0), RowParity(d, 1), RowParity(d, 2), RowParity(d, 3)]
  }

  function Extended(d: seq<bool>): (b: seq<bool>)
    requires |d| == 11
    ensures |b| == 16
  {
    Short(d) + [Parity(Short(d))]
  }

  /** The sum of the first n data rows. */
  function DataSum(info: Info, n: nat): (d: seq<bool>)
    requires n <= 7
    ensures |d| == 11
  {
    if n == 0 then Zeros(11) else Xor(DataSum(info, n - 1), info[11 * (n - 1)..11 * n])
  }

  function DataRow8(info: Info, r: nat): (d: seq<bool>)
    requires r < 8
    ensures |d| == 11
  {
    if r < 7 then info[11 * r..11 * r + 11] else DataSum(info, 7)
  }

  function MatrixRow(info: Info, r: nat): (b: seq<bool>)
    requires r < 8
    ensures |b| == 16
  {
    Extended(DataRow8(info, r))
  }

  function Cell8(info: Info, r: nat, c: nat): bool
    requires r < 8 && c < 16
  {
    MatrixRow(info, r)[c]
  }

  function Column8(info: Info, c: nat): (b: seq<bool>)
    requires c < 16
    ensures |b| == 8
  {
    seq(8, r requires 0 <= r < 8 => Cell8(info, r, c))
  }

  /** The 128 bits in transmission order. */
  function ColumnWise(info: Info): (b: seq<bool>)
    ensures |b| == 128
  {
    seq(128, i requires 0 <= i < 128 => Cell8(info, i % 8, i / 8))
  }

  // ---------- Linearity ----------

  lemma ShortLinear(a: seq<bool>, b: seq<bool>)
    requires |a| == |b| == 11
    ensures Short(Xor(a, b)) == Xor(Short(a), Short(b))
  {
    hide RowParity;
    RowParityLinear(a, b, 0);
    RowParityLinear(a, b, 1);
    RowParityLinear(a, b, 2);
    RowParityLinear(a, b, 3);
  }

  lemma ExtendedLinear(a: seq<bool>, b: seq<bool>)
    requires |a| == |b| == 11
    ensures Extended(Xor(a, b)) == Xor(Extended(a), Extended(b))
  {
    hide Short, Parity;
    ShortLinear(a, b);
    ParityLinear(Short(a), Short(b));
  }

  lemma ExtendedZeros()
    ensures Extended(Zeros(11)) == Zeros(16)
  {
    ExtendedLinear(Zeros(11), Zeros(11));
    assert Xor(Zeros(11), Zeros(11)) == Zeros(11);
    var z := Extended(Zeros(11));
    assert Xor(z, z) == Zeros(16);
  }

  lemma {:induction false} DataSumLinear(x: Info, y: Info, n: nat)
    requires n <= 7
    ensures DataSum(Xor(x, y), n) == Xor(DataSum(x, n), DataSum(y, n))
  {
    if n == 0 {
      assert Xor(Zeros(11), Zeros(11)) == Zeros(11);
    } else {
      DataSumLinear(x, y, n - 1);
    }
  }

  lemma MatrixLinear(x: Info, y: Info, r: nat, c: nat)
    requires r < 8 && c < 16
    ensures Cell8(Xor(x, y), r, c) == (Cell8(x, r, c) != Cell8(y, r, c))
  {
    hide Extended;
    DataSumLinear(x, y, 7);
    assert DataRow8(Xor(x, y), r) == Xor(DataRow8(x, r), DataRow8(y, r));
    ExtendedLinear(DataRow8(x, r), DataRow8(y, r));
  }

  // ---------- Rows and columns check ----------

  /** Each row is a word of the extended Hamming code: zero syndrome, even overall parity. */
  lemma RowChecks(info: Info, r: nat)
    requires r < 8
    ensures RowSyndrome(MatrixRow(info, r)[..15]) == 0
    ensures !Parity(MatrixRow(info, r))
  {
    hide RowSyndrome, RowParity;
    var d := DataRow8(info, r);
    var b := Short(d);
    assert MatrixRow(info, r)[..15] == b;
    RowFilled(b, d);
    ParityAppend(b, Parity(b));
  }

  lemma {:induction false} ParityAppend(s: seq<bool>, bit: bool)
    ensures Parity(s + [bit]) == (Parity(s) != bit)
  {
    if s == [] {
      assert s + [bit] == [bit];
    } else {
      ParityAppend(s[1..], bit);
      assert (s + [bit])[1..] == s[1..] + [bit];
    }
  }

  lemma {:induction false} PartialColumn(info: Info, n: nat, c: nat)
    requires n <= 7 && c < 16
    ensures Parity(Column8(info, c)[..n]) == Extended(DataSum(info, n))[c]
  {
    hide Extended;
    if n == 0 {
      ExtendedZeros();
    } else {
      PartialColumn(info, n - 1, c);
      ExtendedLinear(DataSum(info, n - 1), DataRow8(info, n - 1));
      assert Column8(info, c)[..n] == Column8(info, c)[..n - 1] + [Cell8(info, n - 1, c)];
      ParityAppend(Column8(info, c)[..n - 1], Cell8(info, n - 1, c));
    }
  }

  /** Every column, the parity columns included, has even parity. */
  lemma ColumnEven(info: Info, c: nat)
    requires c < 16
    ensures !Parity(Column8(info, c))
  {
    hide Extended, Parity;
    PartialColumn(info, 7, c);
    assert Column8(info, c) == Column8(info, c)[..7] + [Cell8(info, 7, c)];
    ParityAppend(Column8(info, c)[..7], Cell8(info, 7, c));
  }

  // ---------- Distance ----------

  /** A true cell of a matrix has another one in its column. */
  lemma TwoInColumn(info: Info, r: nat, c: nat) returns (r': nat)
    requires r < 8 && c < 16 && Cell8(info, r, c)
    ensures r' < 8 && r' != r && Cell8(info, r', c)
  {
    hide Cell8, Parity;
    ColumnEven(info, c);
    UnitIsOdd(8, r);
    assert Column8(info, c) != Unit(8, r);
    r' :| 0 <= r' < 8 && Column8(info, c)[r'] != Unit(8, r)[r'];
  }

  /** A true cell left of the last column has three more in its row. */
  lemma FourInRow(info: Info, r: nat, p: nat) returns (q: nat, s: nat, t: nat)
    requires r < 8 && p < 15 && Cell8(info, r, p)
    ensures q < 15 && s < 15 && t < 16 && p != q && p != s && q != s && t != p && t != q && t != s
    ensures Cell8(info, r, q) && Cell8(info, r, s) && Cell8(info, r, t)
  {
    hide Parity, RowSyndrome, MatrixRow;
    var b := MatrixRow(info, r);
    RowChecks(info, r);
    q, s := ThreeInRow(b[..15], p);
    var three := Xor(Xor(Unit(16, p), Unit(16, q)), Unit(16, s));
    UnitIsOdd(16, p);
    UnitIsOdd(16, q);
    UnitIsOdd(16, s);
    ParityLinear(Unit(16, p), Unit(16, q));
    ParityLinear(Xor(Unit(16, p), Unit(16, q)), Unit(16, s));
    assert b != three;
    t :| 0 <= t < 16 && b[t] != three[t];
  }

  lemma EightTrueCells(info: Info, r: nat, p: nat) returns (cells: seq<(nat, nat)>)
    requires r < 8 && p < 15 && Cell8(info, r, p)
    ensures |cells| == 8
    ensures forall i :: 0 <= i < 8 ==> cells[i].0 < 8 && cells[i].1 < 16 && Cell8(info, cells[i].0, cells[i].1)
    ensures forall i, j :: 0 <= i < j < 8 ==> cells[i] != cells[j]
  {
    hide Cell8;
    var q, s, t := FourInRow(info, r, p);
    var rp := TwoInColumn(info, r, p);
    var rq := TwoInColumn(info, r, q);
    var rs := TwoInColumn(info, r, s);
    var rt := TwoInColumn(info, r, t);
    cells := [(r, p), (rp, p), (r, q), (rq, q), (r, s), (rs, s), (r, t), (rt, t)];
  }

  /** Two different 77-bit contents are sent as blocks that differ in at least eight bits. */
  lemma ColumnWiseDistance(x: Info, y: Info)
    requires x != y
    ensures Distance(ColumnWise(x), ColumnWise(y)) >= 8
  {
    hide Cell8;
    var k :| 0 <= k < 77 && x[k] != y[k];
    InfoCell(Xor(x, y), k);
    var cells := EightTrueCells(Xor(x, y), k / 11, k % 11);
    var places := seq(8, i requires 0 <= i < 8 => 8 * cells[i].1 + cells[i].0);
    forall i | 0 <= i < 8
      ensures places[i] in Differences(ColumnWise(x), ColumnWise(y))
    {
      var (r, c) := cells[i];
      assert places[i] / 8 == c && places[i] % 8 == r;
      MatrixLinear(x, y, r, c);
    }
    DistinctElements(places, Differences(ColumnWise(x), ColumnWise(y)));
  }

  lemma InfoCell(info: Info, k: nat)
    requires k < 77
    ensures Cell8(info, k / 11, k % 11) == info[k]
  {
    hide RowParity;
    assert k == 11 * (k / 11) + k % 11;
  }

  // ---------- The encoder ----------

  /** The nine LC bytes: flags, feature set, default service options, addressee, caller. */
  function EmbeddedBytes(src: Id, dst: Id, groupCall: bool): (d: seq<bv8>)
    ensures |d| == 9
  {
    LcData(src, dst, groupCall, 0x20)
  }

  function EmbeddedInfo(src: Id, dst: Id, groupCall: bool): Info {
    var bits := Bits(EmbeddedBytes(src, dst, groupCall));
    bits + CrcBits(Residual(bits))
  }

  /** The four fragments, one after the other. */
  function Fragments(src: Id, dst: Id, groupCall: bool): (f: seq<bv8>)
    ensures |f| == 16
  {
    Packed(ColumnWise(EmbeddedInfo(src, dst, groupCall)))
  }

  /** Every one of the 16 bytes sent has an even number of bits set. */
  lemma FragmentBytesEven(src: Id, dst: Id, groupCall: bool, c: nat)
    requires c < 16
    ensures !Parity(Bits([Fragments(src, dst, groupCall)[c]]))
  {
    hide Packed, Cell8, EmbeddedInfo, Parity;
    var info := EmbeddedInfo(src, dst, groupCall);
    var f := Fragments(src, dst, groupCall);
    BitsOfPacked(ColumnWise(info));
    forall r: nat | r < 8
      ensures Bits([f[c]])[r] == Column8(info, c)[r]
    {
      assert (8 * c + r) / 8 == c && (8 * c + r) % 8 == r;
      assert Bits(f)[8 * c + r] == ColumnWise(info)[8 * c + r];
    }
    assert Bits([f[c]]) == Column8(info, c);
    ColumnEven(info, c);
  }

  /** Different calls, as far as 24-bit ids tell, have fragments that differ in at least eight of 128 bits. */
  lemma FragmentDistance(src: Id, dst: Id, groupCall: bool, src': Id, dst': Id, groupCall': bool)
    requires Low24(src) != Low24(src') || Low24(dst) != Low24(dst') || groupCall != groupCall'
    ensures Distance(Bits(Fragments(src, dst, groupCall)), Bits(Fragments(src', dst', groupCall'))) >= 8
  {
    hide Packed, ColumnWise, Residual, Low24, Bits;
    var x, y := EmbeddedInfo(src, dst, groupCall), EmbeddedInfo(src', dst', groupCall');
    BitsOfPacked(ColumnWise(x));
    BitsOfPacked(ColumnWise(y));
    var a, b := EmbeddedBytes(src, dst, groupCall), EmbeddedBytes(src', dst', groupCall');
    assert x[..72] == Bits(a) && y[..72] == Bits(b);
    if x == y {
      SameBits(a, b);
      SameCall(src, dst, groupCall, src', dst', groupCall');
    }
    ColumnWiseDistance(x, y);
  }

  lemma SameBits(a: seq<bv8>, b: seq<bv8>)
    requires Bits(a) == Bits(b) && |a| == |b|
    ensures a == b
  {
    hide Packed;
    PackedOfBits(a);
    PackedOfBits(b);
  }

  lemma SameCall(src: Id, dst: Id, groupCall: bool, src': Id, dst': Id, groupCall': bool)
    requires EmbeddedBytes(src, dst, groupCall) == EmbeddedBytes(src', dst', groupCall')
    ensures Low24(src) == Low24(src') && Low24(dst) == Low24(dst') && groupCall == groupCall'
  {
    hide IdBytes, IdOf, Low24;
    var a, b := EmbeddedBytes(src, dst, groupCall), EmbeddedBytes(src', dst', groupCall');
    assert a[0] == b[0];
    assert IdBytes(dst) == a[3..6] && IdBytes(src) == a[6..9];
    assert IdBytes(dst') == b[3..6] && IdBytes(src') == b[6..9];
    IdRoundTrip(src);
    IdRoundTrip(dst);
    IdRoundTrip(src');
    IdRoundTrip(dst');
  }

  /** Rows 0 to 6 take the 77 bits, eleven at a time; row 7 takes their column parity. */
  method FillData(matrix: array2<bool>, info: Info)
    requires matrix.Length0 == 8 && matrix.Length1 == 16
    modifies matrix
    ensures forall r, c :: 0 <= r < 8 && 0 <= c < 11 ==> matrix[r, c] == DataRow8(info, r)[c]
    ensures forall r, c :: 0 <= r < 8 && 11 <= c < 16 ==> matrix[r, c] == old(matrix[r, c])
  {
    var idx := 0;
    for r := 0 to 7
      invariant idx == 11 * r
      invariant forall i, c :: 0 <= i < 8 && 11 <= c < 16 ==> matrix[i, c] == old(matrix[i, c])
      invariant forall i, c :: 0 <= i < r && 0 <= c < 11 ==> matrix[i, c] == DataRow8(info, i)[c]
    {
      for c := 0 to 11
        invariant idx == 11 * r + c
        invariant forall i, k :: 0 <= i < 8 && 11 <= k < 16 ==> matrix[i, k] == old(matrix[i, k])
        invariant forall i, k :: 0 <= i < r && 0 <= k < 11 ==> matrix[i, k] == DataRow8(info, i)[k]
        invariant forall k :: 0 <= k < c ==> matrix[r, k] == DataRow8(info, r)[k]
      {
        matrix[r, c] := info[idx];
        idx := idx + 1;
      }
    }
    for c := 0 to 11
      invariant forall i, k :: 0 <= i < 8 && 11 <= k < 16 ==> matrix[i, k] == old(matrix[i, k])
      invariant forall i, k :: 0 <= i < 7 && 0 <= k < 11 ==> matrix[i, k] == DataRow8(info, i)[k]
      invariant forall k :: 0 <= k < c ==> matrix[7, k] == DataRow8(info, 7)[k]
    {
      var p := false;
      for r := 0 to 7
        invariant p == DataSum(info, r)[c]
      {
        p := p != matrix[r, c];
      }
      matrix[7, c] := p;
    }
  }

  /** Gives row r its Hamming bits and its overall parity bit. */
  method FillRow(matrix: array2<bool>, r: nat, ghost d: seq<bool>)
    requires matrix.Length0 == 8 && matrix.Length1 == 16 && r < 8 && |d| == 11
    requires forall c :: 0 <= c < 11 ==> matrix[r, c] == d[c]
    modifies matrix
    ensures forall c :: 0 <= c < 16 ==> matrix[r, c] == Extended(d)[c]
    ensures forall i, c :: 0 <= i < 8 && 0 <= c < 16 && i != r ==> matrix[i, c] == old(matrix[i, c])
  {
    hide Parity, RowParity;
    var e := seq(11, c requires 0 <= c < 11 reads matrix => matrix[r, c]);
    assert e == d;
    matrix[r, 11] := RowParity(e, 0);
    matrix[r, 12] := RowParity(e, 1);
    matrix[r, 13] := RowParity(e, 2);
    matrix[r, 14] := RowParity(e, 3);
    ghost var b := Short(d);
    var p := false;
    ParityZeros(0);
    assert b[..0] == Zeros(0);
    for c := 0 to 15
      modifies {}
      invariant p == Parity(b[..c])
      invariant forall k :: 0 <= k < 15 ==> matrix[r, k] == b[k]
    {
      p := p != matrix[r, c];
      assert b[..c + 1] == b[..c] + [b[c]];
      ParityAppend(b[..c], b[c]);
    }
    assert b[..15] == b;
    matrix[r, 15] := p;
  }

  method EncodeEmbeddedLC(src: Id, dst: Id, groupCall: bool) returns (fragments: seq<bv8>)
    ensures fragments == Fragments(src, dst, groupCall)
  {
    hide Extended, Residual, Packed, DataRow8, Bits;
    var bits := Unpack(EmbeddedBytes(src, dst, groupCall));
    var crc := EmbeddedLCCRC5Residual(bits);
    var info := bits + CrcBits(crc);
    assert info == EmbeddedInfo(src, dst, groupCall);
    var matrix := new bool[8, 16];
    FillData(matrix, info);
    for r := 0 to 8
      invariant forall i, c :: r <= i < 8 && 0 <= c < 11 ==> matrix[i, c] == DataRow8(info, i)[c]
      invariant forall i, c :: 0 <= i < r && 0 <= c < 16 ==> matrix[i, c] == Cell8(info, i, c)
    {
      FillRow(matrix, r, DataRow8(info, r));
    }
    var out := ReadColumns(matrix, info);
    fragments := Pack(out);
  }

  method ReadColumns(matrix: array2<bool>, ghost info: Info) returns (out: seq<bool>)
    requires matrix.Length0 == 8 && matrix.Length1 == 16
    requires forall r, c :: 0 <= r < 8 && 0 <= c < 16 ==> matrix[r, c] == Cell8(info, r, c)
    ensures out == ColumnWise(info)
  {
    hide Cell8;
    out := [];
    for f := 0 to 4
      invariant |out| == 32 * f && out == ColumnWise(info)[..32 * f]
    {
      for c := 0 to 4
        invariant |out| == 32 * f + 8 * c && out == ColumnWise(info)[..32 * f + 8 * c]
      {
        for r := 0 to 8
          invariant |out| == 32 * f + 8 * c + r && out == ColumnWise(info)[..32 * f + 8 * c + r]
        {
          NextBit(info, f, c, r);
          out := out + [matrix[r, f * 4 + c]];
        }
      }
    }
  }

  lemma NextBit(info: Info, f: nat, c: nat, r: nat)
    requires f < 4 && c < 4 && r < 8
    ensures ColumnWise(info)[32 * f + 8 * c + r] == Cell8(info, r, f * 4 + c)
  {
    hide Cell8;
    var i := 32 * f + 8 * c + r;
    assert i == 8 * (f * 4 + c) + r;
  }
}
