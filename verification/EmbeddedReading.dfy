/** A receiver of the embedded link control: the call that four fragments, or four voice bursts, name. */
module EmbeddedReading {
  import opened Bytes
  import opened LinkControl
  import opened Crc5
  import opened EmbeddedLc
  import opened VoiceBurst

  /** The 77 bits of content, row by row, out of 128 bits that were sent column by column. */
  function InfoIn(f: seq<bv8>): Info
    requires |f| == 16
  {
    seq(77, k requires 0 <= k < 77 => Bits(f)[8 * (k % 11) + k / 11])
  }

  /** The nine bytes that they begin with. */
  function BytesIn(f: seq<bv8>): (d: seq<bv8>)
    requires |f| == 16
    ensures |d| == 9
  {
    Packed(InfoIn(f)[..72])
  }

  /** The fragments name a call: flags, service options, addressee, caller. */
  predicate Names(f: seq<bv8>, src: Id, dst: Id, groupCall: bool, so: bv8)
    requires |f| == 16
  {
    var d := BytesIn(f);
    && d[0] == (if groupCall then 0x00 else 0x03) && d[1] == 0x00 && d[2] == so
    && IdOf(d[3..6]) == Low24(dst) && IdOf(d[6..9]) == Low24(src)
  }

  lemma PlaceInRange(k: nat)
    requires k < 77
    ensures k / 11 < 7 && k % 11 < 11 && 8 * (k % 11) + k / 11 < 88
    ensures (8 * (k % 11) + k / 11) / 8 == k % 11 && (8 * (k % 11) + k / 11) % 8 == k / 11
  {
  }

  /** Reading undoes the column order, with and without row parity. */
  lemma ReadsColumns(info: Info)
    ensures InfoIn(Packed(ColumnWise(info))) == info
    ensures InfoIn(Packed(VoiceColumns(info))) == info
  {
    hide Packed, Bits, Cell8, DataRow8;
    BitsOfPacked(ColumnWise(info));
    BitsOfPacked(VoiceColumns(info));
    forall k: nat | k < 77
      ensures ColumnWise(info)[8 * (k % 11) + k / 11] == info[k] == VoiceColumns(info)[8 * (k % 11) + k / 11]
    {
      PlaceInRange(k);
      InfoCell(info, k);
      DataCell(info, k);
    }
  }

  lemma DataCell(info: Info, k: nat)
    requires k < 77
    ensures k / 11 < 7 && DataRow8(info, k / 11)[k % 11] == info[k]
  {
    PlaceInRange(k);
    assert k == 11 * (k / 11) + k % 11;
  }

  lemma NamesCall(d: seq<bv8>, src: Id, dst: Id, groupCall: bool, so: bv8)
    requires d == LcData(src, dst, groupCall, so)
    ensures d[0] == (if groupCall then 0x00 else 0x03) && d[1] == 0x00 && d[2] == so
    ensures IdOf(d[3..6]) == Low24(dst) && IdOf(d[6..9]) == Low24(src)
  {
    hide IdBytes, IdOf, Low24;
    assert d[3..6] == IdBytes(dst) && d[6..9] == IdBytes(src);
    IdRoundTrip(src);
    IdRoundTrip(dst);
  }

  /** The fragments of a call name it, with the default service options, and end in the CRC of what they name. */
  lemma FragmentsRead(src: Id, dst: Id, groupCall: bool)
    ensures var f := Fragments(src, dst, groupCall);
      Names(f, src, dst, groupCall, 0x20) && InfoIn(f)[72..] == CrcBits(Residual(Bits(BytesIn(f))))
  {
    hide Packed, Bits, ColumnWise, Residual, CrcBits, InfoIn, LcData, IdOf, Low24;
    var info, d := EmbeddedInfo(src, dst, groupCall), EmbeddedBytes(src, dst, groupCall);
    ReadsColumns(info);
    assert info[..72] == Bits(d);
    PackedOfBits(d);
    NamesCall(d, src, dst, groupCall, 0x20);
  }

  /** The four link control bytes in the middle of a burst, between the halves of its EMB word. */
  function FragmentIn(b: Voice): (f: seq<bv8>)
    ensures |f| == 4
  {
    MiddleOf(b)[1..5]
  }

  /** Every burst but the first carries a fragment, in turn. */
  lemma FragmentOf(f1: Frame, f2: Frame, f3: Frame, seqNo: nat, src: Id, dst: Id, colorCode: bv8)
    requires seqNo > 0
    ensures var k := (seqNo - 1) % 4;
      FragmentIn(Assembled(f1, f2, f3, seqNo, src, dst, colorCode)) == VoiceFragments(src, dst)[4 * k..4 * k + 4]
  {
    hide VoiceFragments, EmbCode, High, Low, MiddleOf, Assembled;
    ExtractAssembled(f1, f2, f3, seqNo, src, dst, colorCode);
  }

  /** What burst n of a superframe adds, whatever vocoder frames it holds. */
  function Piece(f: (Frame, Frame, Frame), seqNo: nat, src: Id, dst: Id, colorCode: bv8): (p: seq<bv8>)
    ensures |p| == 4
  {
    FragmentIn(Assembled(f.0, f.1, f.2, seqNo, src, dst, colorCode))
  }

  /**
    The bursts 1 to 4 of a superframe, whatever vocoder frames they hold, together name the call as a group call, and end in
    the CRC of what they name.
   */
  lemma SuperframeNames(
    a: (Frame, Frame, Frame), b: (Frame, Frame, Frame), c: (Frame, Frame, Frame), d: (Frame, Frame, Frame),
    src: Id, dst: Id, colorCode: bv8)
    ensures var f := Piece(a, 1, src, dst, colorCode) + Piece(b, 2, src, dst, colorCode)
                   + Piece(c, 3, src, dst, colorCode) + Piece(d, 4, src, dst, colorCode);
      Names(f, src, dst, true, 0x00) && InfoIn(f)[72..] == CrcBits(Crc(Bits(BytesIn(f))))
  {
    hide FragmentIn, Assembled, VoiceFragments, Names, InfoIn, CrcBits, Crc, Bits, BytesIn;
    var v := VoiceFragments(src, dst);
    FragmentOf(a.0, a.1, a.2, 1, src, dst, colorCode);
    FragmentOf(b.0, b.1, b.2, 2, src, dst, colorCode);
    FragmentOf(c.0, c.1, c.2, 3, src, dst, colorCode);
    FragmentOf(d.0, d.1, d.2, 4, src, dst, colorCode);
    assert v[0..4] + v[4..8] + v[8..12] + v[12..16] == v;
    VoiceFragmentsRead(src, dst);
  }

  lemma VoiceFragmentsRead(src: Id, dst: Id)
    ensures var f := VoiceFragments(src, dst);
      Names(f, src, dst, true, 0x00) && InfoIn(f)[72..] == CrcBits(Crc(Bits(BytesIn(f))))
  {
    hide Packed, Bits, VoiceColumns, Crc, CrcBits, InfoIn, LcData, IdOf, Low24;
    var info, d := VoiceInfo(src, dst), LcData(src, dst, true, 0x00);
    ReadsColumns(info);
    assert info[..72] == Bits(d);
    PackedOfBits(d);
    NamesCall(d, src, dst, true, 0x00);
  }

  /** The EMB word is the table's word for the color code and the place of the fragment: 1 for the first, 3 for the fourth, 2 between. */
  lemma EmbWord(colorCode: bv8, seqNo: nat)
    ensures var place: bv8 := if seqNo == 1 || seqNo == 5 then 1 else if seqNo == 4 then 3 else 2;
      var i := ((colorCode & 0xF) << 3) | place;
      i < 128 && EmbCode(colorCode, seqNo) == QR1676[i as int]
  {
  }
}
