/** What the embedded link control of an assembled voice burst protects: it has column parity and a CRC, but no row parity. */
module VoiceLcTheorems {
  import opened BitSequences
  import opened Bytes
  import opened LinkControl
  import opened Crc5
  import opened EmbeddedLc
  import opened VoiceBurst

  /** The columns sent are the first eleven of the matrix with row parity. */
  lemma VoiceCell(info: Info, r: nat, c: nat)
    requires r < 8 && c < 11
    ensures VoiceColumns(info)[8 * c + r] == Cell8(info, r, c)
  {
    hide Short;
    assert (8 * c + r) / 8 == c && (8 * c + r) % 8 == r;
    FirstEleven(DataRow8(info, r), c);
  }

  lemma FirstEleven(d: seq<bool>, c: nat)
    requires |d| == 11 && c < 11
    ensures Extended(d)[c] == d[c]
  {
    hide Parity;
  }

  /** A true information bit with no other but possibly one more in its column is noticed by the CRC. */
  lemma ColumnOfThree(u: Info, c: nat, i: nat) returns (j: nat, k: nat)
    requires c < 11 && i < 7 && u[11 * i + c] && Crc(u) == 0
    requires forall p: nat :: p < 77 && u[p] ==> p % 11 == c
    ensures j < 7 && k < 7 && i != j && i != k && j != k && u[11 * j + c] && u[11 * k + c]
  {
    hide Crc;
    var p := 11 * i + c;
    SingleError(77, p);
    assert u != Unit(77, p);
    var q :| 0 <= q < 77 && u[q] != Unit(77, p)[q];
    assert u[q] && q % 11 == c;
    j := q / 11;
    var low, high := if p < q then p else q, if p < q then q else p;
    DoubleError(77, low, high);
    ColumnDistance(i, j, c);
    PairIs(low, high);
    assert u != TwoOnes(77, low, high);
    var s :| 0 <= s < 77 && u[s] != TwoOnes(77, low, high)[s];
    assert u[s] && s % 11 == c;
    k := s / 11;
  }

  lemma PairIs(p: nat, q: nat)
    requires p < q < 77
    ensures |TwoOnes(77, p, q)| == 77
    ensures forall s :: 0 <= s < 77 ==> (TwoOnes(77, p, q)[s] <==> s == p || s == q)
  {
  }

  /** Places of one column are never a multiple of fifteen apart. */
  lemma ColumnDistance(i: nat, j: nat, c: nat)
    requires i < 7 && j < 7 && i != j
    ensures var p, q := 11 * i + c, 11 * j + c; (if p < q then q - p else p - q) % 15 != 0
  {
  }

  /** Three true cells of a column have a fourth, since the column is even. */
  lemma FourthInColumn(u: Info, c: nat, i: nat, j: nat, k: nat) returns (l: nat)
    requires c < 16 && i < 8 && j < 8 && k < 8 && i != j && i != k && j != k
    requires Cell8(u, i, c) && Cell8(u, j, c) && Cell8(u, k, c)
    ensures l < 8 && l != i && l != j && l != k && Cell8(u, l, c)
  {
    hide Cell8, Parity;
    ColumnEven(u, c);
    UnitIsOdd(8, i);
    UnitIsOdd(8, j);
    UnitIsOdd(8, k);
    ParityLinear(Unit(8, i), Unit(8, j));
    ParityLinear(Xor(Unit(8, i), Unit(8, j)), Unit(8, k));
    var three := Xor(Xor(Unit(8, i), Unit(8, j)), Unit(8, k));
    assert Column8(u, c) != three;
    l :| 0 <= l < 8 && Column8(u, c)[l] != three[l];
  }

  /** A nonzero difference with CRC zero shows in four cells: two each in two columns, or four in one. */
  lemma FourTrueCells(u: Info, p: nat) returns (cells: seq<(nat, nat)>)
    requires p < 77 && u[p] && Crc(u) == 0
    ensures |cells| == 4
    ensures forall i :: 0 <= i < 4 ==> cells[i].0 < 8 && cells[i].1 < 11 && Cell8(u, cells[i].0, cells[i].1)
    ensures forall i, j :: 0 <= i < j < 4 ==> cells[i] != cells[j]
  {
    hide Cell8, Crc;
    var r, c := p / 11, p % 11;
    InfoCell(u, p);
    if q: nat :| q < 77 && u[q] && q % 11 != c {
      InfoCell(u, q);
      var r' := TwoInColumn(u, r, c);
      var q' := TwoInColumn(u, q / 11, q % 11);
      cells := [(r, c), (r', c), (q / 11, q % 11), (q', q % 11)];
    } else {
      var j, k := ColumnOfThree(u, c, r);
      InfoCell(u, 11 * j + c);
      InfoCell(u, 11 * k + c);
      var l := FourthInColumn(u, c, r, j, k);
      cells := [(r, c), (j, c), (k, c), (l, c)];
    }
  }

  /** Different contents with CRC zero are sent as blocks that differ in at least four bits. */
  lemma VoiceColumnsDistance(x: Info, y: Info)
    requires x != y && Crc(x) == 0 && Crc(y) == 0
    ensures Distance(VoiceColumns(x), VoiceColumns(y)) >= 4
  {
    hide Cell8, Crc, VoiceColumns;
    var p :| 0 <= p < 77 && x[p] != y[p];
    CrcLinear(x, y);
    var cells := FourTrueCells(Xor(x, y), p);
    var places := seq(4, i requires 0 <= i < 4 => 8 * cells[i].1 + cells[i].0);
    forall i | 0 <= i < 4
      ensures places[i] in Differences(VoiceColumns(x), VoiceColumns(y))
    {
      var (r, c) := cells[i];
      MatrixLinear(x, y, r, c);
      VoiceCell(x, r, c);
      VoiceCell(y, r, c);
    }
    DistinctElements(places, Differences(VoiceColumns(x), VoiceColumns(y)));
  }

  lemma SameAddresses(src: Id, dst: Id, src': Id, dst': Id)
    requires LcData(src, dst, true, 0x00) == LcData(src', dst', true, 0x00)
    ensures Low24(src) == Low24(src') && Low24(dst) == Low24(dst')
  {
    hide IdBytes, IdOf, Low24;
    var a, b := LcData(src, dst, true, 0x00), LcData(src', dst', true, 0x00);
    assert a[3..6] == IdBytes(dst) && b[3..6] == IdBytes(dst') && a[6..9] == IdBytes(src) && b[6..9] == IdBytes(src');
    IdRoundTrip(src);
    IdRoundTrip(src');
    IdRoundTrip(dst);
    IdRoundTrip(dst');
  }

  /** Fragments of different 24-bit addresses differ in at least four of 128 bits. */
  lemma VoiceFragmentDistance(src: Id, dst: Id, src': Id, dst': Id)
    requires Low24(src) != Low24(src') || Low24(dst) != Low24(dst')
    ensures Distance(Bits(VoiceFragments(src, dst)), Bits(VoiceFragments(src', dst'))) >= 4
  {
    hide Packed, VoiceColumns, Crc, Low24, Bits, CrcBits;
    var x, y := VoiceInfo(src, dst), VoiceInfo(src', dst');
    BitsOfPacked(VoiceColumns(x));
    BitsOfPacked(VoiceColumns(y));
    var a, b := LcData(src, dst, true, 0x00), LcData(src', dst', true, 0x00);
    SelfCheck(Bits(a));
    SelfCheck(Bits(b));
    assert x[..72] == Bits(a) && y[..72] == Bits(b);
    if x == y {
      SameBits(a, b);
      SameAddresses(src, dst, src', dst');
    }
    VoiceColumnsDistance(x, y);
  }
}
