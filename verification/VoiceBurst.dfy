/** Assembly of 33-byte voice bursts and extraction of their vocoder frames, from internal/dmr/voice_burst.go. */
module VoiceBurst {
  import opened BitSequences
  import opened Bytes
  import opened LinkControl
  import opened Crc5
  import opened EmbeddedLc

  type Frame = s: seq<bv8> | |s| == 9 witness seq(9, i => 0)
  type Voice = s: seq<bv8> | |s| == 33 witness seq(33, i => 0)

  /** The BS-sourced voice sync. */
  const VOICE_SYNC: seq<bv8> := [0x75, 0x5F, 0xD7, 0xDF, 0x75, 0xF7]

  const QR1676: seq<bv16> := [
    0x0000, 0x0273, 0x04E5, 0x0696, 0x09C9, 0x0BBA, 0x0D2C, 0x0F5F, 0x11E2, 0x1391, 0x1507, 0x1774, 0x182B, 0x1A58, 0x1CCE, 0x1EBD,
    0x21B7, 0x23C4, 0x2552, 0x2721, 0x287E, 0x2A0D, 0x2C9B, 0x2EE8, 0x3055, 0x3226, 0x34B0, 0x36C3, 0x399C, 0x3BEF, 0x3D79, 0x3F0A,
    0x411E, 0x436D, 0x45FB, 0x4788, 0x48D7, 0x4AA4, 0x4C32, 0x4E41, 0x50FC, 0x528F, 0x5419, 0x566A, 0x5935, 0x5B46, 0x5DD0, 0x5FA3,
    0x60A9, 0x62DA, 0x644C, 0x663F, 0x6960, 0x6B13, 0x6D85, 0x6FF6, 0x714B, 0x7338, 0x75AE, 0x77DD, 0x7882, 0x7AF1, 0x7C67, 0x7E14,
    0x804F, 0x823C, 0x84AA, 0x86D9, 0x8986, 0x8BF5, 0x8D63, 0x8F10, 0x91AD, 0x93DE, 0x9548, 0x973B, 0x9864, 0x9A17, 0x9C81, 0x9EF2,
    0xA1F8, 0xA38B, 0xA51D, 0xA76E, 0xA831, 0xAA42, 0xACD4, 0xAEA7, 0xB01A, 0xB269, 0xB4FF, 0xB68C, 0xB9D3, 0xBBA0, 0xBD36, 0xBF45,
    0xC151, 0xC322, 0xC5B4, 0xC7C7, 0xC898, 0xCAEB, 0xCC7D, 0xCE0E, 0xD0B3, 0xD2C0, 0xD456, 0xD625, 0xD97A, 0xDB09, 0xDD9F, 0xDFEC,
    0xE0E6, 0xE295, 0xE403, 0xE670, 0xE92F, 0xEB5C, 0xEDCA, 0xEFB9, 0xF104, 0xF377, 0xF5E1, 0xF792, 0xF8CD, 0xFABE, 0xFC28, 0xFE5B
  ]

  // ---------- Writing bits ----------

  /** How many of count bits from start on exist in a source of the given byte length. */
  function Available(length: nat, start: nat, count: nat): nat {
    if start >= 8 * length then 0 else if start + count <= 8 * length then count else 8 * length - start
  }

  /** The effect of or-ing n source bits into a buffer at a position. */
  ghost predicate BitsOred(before: seq<bv8>, after: seq<bv8>, pos: nat, src: seq<bv8>, start: nat, n: nat)
    requires |before| == |after| && pos + n <= 8 * |after| && (n == 0 || start + n <= 8 * |src|)
  {
    forall i: nat :: i < 8 * |after| ==> Bit(after, i) == (Bit(before, i) || (pos <= i < pos + n && Bit(src, start + i - pos)))
  }

  /** Sets bit i of a buffer. */
  method SetBitAt(buf: array<bv8>, i: nat)
    requires i < 8 * buf.Length
    modifies buf
    ensures forall j: nat :: j < 8 * buf.Length ==> Bit(buf[..], j) == (Bit(old(buf[..]), j) || j == i)
  {
    ghost var before := buf[..];
    buf[i / 8] := buf[i / 8] | Mask(i % 8);
    forall j: nat | j < 8 * buf.Length
      ensures Bit(buf[..], j) == (Bit(before, j) || j == i)
    {
      SetBit(before[i / 8], i % 8, j % 8);
    }
  }

  class BitWriter {
    const buf: array<bv8>
    var bitPos: nat

    constructor (buf: array<bv8>)
      ensures this.buf == buf && bitPos == 0
    {
      this.buf := buf;
      bitPos := 0;
    }

    /** Ors bits into the buffer at the cursor; stops early when the source runs out. */
    method WriteBits(src: seq<bv8>, srcBitStart: nat, count: nat)
      requires bitPos + Available(|src|, srcBitStart, count) <= 8 * buf.Length
      modifies this`bitPos, buf
      ensures bitPos == old(bitPos) + Available(|src|, srcBitStart, count)
      ensures BitsOred(old(buf[..]), buf[..], old(bitPos), src, srcBitStart, Available(|src|, srcBitStart, count))
    {
      ghost var before, start := buf[..], bitPos;
      for i := 0 to count
        invariant bitPos == start + Available(|src|, srcBitStart, i)
        invariant i == 0 || srcBitStart + i <= 8 * |src|
        invariant BitsOred(before, buf[..], start, src, srcBitStart, Available(|src|, srcBitStart, i))
      {
        var readPos := srcBitStart + i;
        if readPos / 8 >= |src| {
          break;
        }
        if BitOf(src[readPos / 8], readPos % 8) {
          SetBitAt(buf, bitPos);
        }
        bitPos := bitPos + 1;
      }
    }
  }

  /** Ors count source bits into a buffer. */
  method CopyBits(dst: array<bv8>, dstBitStart: nat, src: seq<bv8>, srcBitStart: nat, count: nat)
    requires dstBitStart + count <= 8 * dst.Length && srcBitStart + count <= 8 * |src|
    modifies dst
    ensures BitsOred(old(dst[..]), dst[..], dstBitStart, src, srcBitStart, count)
  {
    ghost var before := dst[..];
    for i := 0 to count
      invariant BitsOred(before, dst[..], dstBitStart, src, srcBitStart, i)
    {
      var srcPos := srcBitStart + i;
      if BitOf(src[srcPos / 8], srcPos % 8) {
        SetBitAt(dst, dstBitStart + i);
      }
    }
  }

  // ---------- Embedded LC without row parity ----------

  /** The LC of a group call with zero service options, and its CRC. */
  function VoiceInfo(src: Id, dst: Id): Info {
    var bits := Bits(LcData(src, dst, true, 0x00));
    bits + CrcBits(Crc(bits))
  }

  /** Columns 0 to 10 carry the data rows and their parity; columns 11 to 15 stay zero. */
  function VoiceColumns(info: Info): (b: seq<bool>)
    ensures |b| == 128
  {
    seq(128, i requires 0 <= i < 128 => i / 8 < 11 && DataRow8(info, i % 8)[i / 8])
  }

  function VoiceFragments(src: Id, dst: Id): (f: seq<bv8>)
    ensures |f| == 16
  {
    Packed(VoiceColumns(VoiceInfo(src, dst)))
  }

  method EncodeVoiceLC(src: Id, dst: Id) returns (fragments: seq<bv8>)
    ensures fragments == VoiceFragments(src, dst)
  {
    hide Packed, DataRow8, Bits, Crc;
    var bits := Unpack(LcData(src, dst, true, 0x00));
    var crc := EmbeddedLCCRC5(bits);
    var info := bits + CrcBits(crc);
    assert info == VoiceInfo(src, dst);
    var matrix := new bool[8, 16]((r, c) => false);
    FillData(matrix, info);
    var out := new bool[128];
    for frag := 0 to 4
      modifies out
      invariant forall a :: 0 <= a < 32 * frag ==> out[a] == VoiceColumns(info)[a]
    {
      for i := 0 to 32
        modifies out
        invariant forall a :: 0 <= a < 32 * frag + i ==> out[a] == VoiceColumns(info)[a]
      {
        var col := frag * 4 + i / 8;
        var row := i % 8;
        assert (32 * frag + i) / 8 == col && (32 * frag + i) % 8 == row;
        out[32 * frag + i] := matrix[row, col];
      }
    }
    assert out[..] == VoiceColumns(info);
    fragments := Pack(out[..]);
  }

  // ---------- Embedded control ----------

  /** The EMB codeword for a color code and a burst number. */
  function EmbCode(colorCode: bv8, seqNo: nat): bv16 {
    var lcss: bv8 := if seqNo == 1 || seqNo == 5 then 1 else if seqNo == 4 then 3 else 2;
    var emb := (colorCode << 4) | ((lcss << 1) & 0x06);
    QR1676[((emb >> 1) & 0x7F) as int]
  }

  function High(code: bv16): bv8 {
    (code >> 8) as bv8
  }

  function Low(code: bv16): bv8 {
    (code & 0xFF) as bv8
  }

  function PatchLow(b: bv8, e: bv8): bv8 {
    (b & 0xF0) | ((e >> 4) & 0x0F)
  }

  function PatchHigh(b: bv8, e: bv8): bv8 {
    (b & 0x0F) | ((e << 4) & 0xF0)
  }

  /** Patching a low or a high nibble, bit by bit. */
  lemma NibblePatch(b: bv8, e: bv8, k: nat)
    requires k < 8
    ensures BitOf(PatchLow(b, e), k) == if k < 4 then BitOf(b, k) else BitOf(e, k - 4)
    ensures BitOf(PatchHigh(b, e), k) == if k < 4 then BitOf(e, k + 4) else BitOf(b, k)
  {
  }

  /** A burst with the EMB bytes at bits 108 to 115 and 148 to 155. */
  function WithEmb(b: Voice, hi: bv8, lo: bv8): Voice {
    b[13 := PatchLow(b[13], hi)][14 := PatchHigh(b[14], hi)][18 := PatchLow(b[18], lo)][19 := PatchHigh(b[19], lo)]
  }

  lemma EmbBit(b: Voice, hi: bv8, lo: bv8, i: nat)
    requires i < 264
    ensures Bit(WithEmb(b, hi, lo), i)
         == if 108 <= i < 116 then BitOf(hi, i - 108) else if 148 <= i < 156 then BitOf(lo, i - 148) else Bit(b, i)
  {
    hide BitOf, PatchLow, PatchHigh;
    var q, k := i / 8, i % 8;
    if q == 13 {
      NibblePatch(b[13], hi, k);
    } else if q == 14 {
      NibblePatch(b[14], hi, k);
    } else if q == 18 {
      NibblePatch(b[18], lo, k);
    } else if q == 19 {
      NibblePatch(b[19], lo, k);
    }
  }

  method ApplyEmbeddedControl(frame: array<bv8>, colorCode: bv8, seqNo: nat)
    requires frame.Length == 33
    modifies frame
    ensures frame[..] == WithEmb(old(frame[..]), High(EmbCode(colorCode, seqNo)), Low(EmbCode(colorCode, seqNo)))
  {
    hide EmbCode;
    var code := EmbCode(colorCode, seqNo);
    var hi, lo := High(code), Low(code);
    frame[13] := PatchLow(frame[13], hi);
    frame[14] := PatchHigh(frame[14], hi);
    frame[18] := PatchLow(frame[18], lo);
    frame[19] := PatchHigh(frame[19], lo);
  }

  // ---------- Assembly and extraction ----------

  /** The 48 middle bits of burst seqNo: sync in burst 0, else EMB around an LC fragment. */
  function Middle(seqNo: nat, src: Id, dst: Id, colorCode: bv8): (m: seq<bv8>)
    ensures |m| == 6
  {
    if seqNo == 0 then VOICE_SYNC
    else
      var k := (seqNo - 1) % 4;
      var frag := VoiceFragments(src, dst)[4 * k..4 * k + 4];
      if seqNo <= 5 then [High(EmbCode(colorCode, seqNo))] + frag + [Low(EmbCode(colorCode, seqNo))]
      else [0x00] + frag + [0x00]
  }

  /** Three frames around 48 middle bits. */
  function BurstOf(f1: Frame, f2: Frame, f3: Frame, middle: seq<bv8>): Voice
    requires |middle| == 6
  {
    Packed(Bits(f1) + Bits(f2)[..36] + Bits(middle) + Bits(f2)[36..] + Bits(f3))
  }

  function Assembled(f1: Frame, f2: Frame, f3: Frame, seqNo: nat, src: Id, dst: Id, colorCode: bv8): Voice {
    BurstOf(f1, f2, f3, Middle(seqNo, src, dst, colorCode))
  }

  /** Where each bit of a burst comes from. */
  lemma BurstBit(f1: Frame, f2: Frame, f3: Frame, middle: seq<bv8>, i: nat)
    requires |middle| == 6 && i < 264
    ensures Bit(BurstOf(f1, f2, f3, middle), i)
         == if i < 72 then Bit(f1, i) else if i < 108 then Bit(f2, i - 72) else if i < 156 then Bit(middle, i - 108)
            else if i < 192 then Bit(f2, i - 120) else Bit(f3, i - 192)
  {
    hide Packed, Bit;
    var all := Bits(f1) + Bits(f2)[..36] + Bits(middle) + Bits(f2)[36..] + Bits(f3);
    BitsOfPacked(all);
    assert Bits(Packed(all))[i] == all[i];
  }

  /** The bits a writer takes from a source: as many of the wanted ones as there are. */
  function Taken(src: seq<bv8>, start: nat, count: nat): (b: seq<bool>)
    ensures |b| == Available(|src|, start, count)
  {
    if start >= 8 * |src| then [] else Bits(src)[start..start + Available(|src|, start, count)]
  }

  /** What is written for frames of any length: run after run, then zeros. */
  function Written(f1: seq<bv8>, f2: seq<bv8>, f3: seq<bv8>, middle: seq<bv8>): (b: seq<bool>)
    requires |middle| == 6
    ensures |b| <= 264
  {
    Taken(f1, 0, 72) + Taken(f2, 0, 36) + Bits(middle) + Taken(f2, 36, 36) + Taken(f3, 0, 72)
  }

  function Filled(b: seq<bool>): (z: seq<bool>)
    requires |b| <= 264
    ensures |z| == 264
  {
    b + Zeros(264 - |b|)
  }

  function RawBurst(f1: seq<bv8>, f2: seq<bv8>, f3: seq<bv8>, middle: seq<bv8>): Voice
    requires |middle| == 6
  {
    Packed(Filled(Written(f1, f2, f3, middle)))
  }

  /** The burst for frames of any length. */
  function AssembledFrom(f1: seq<bv8>, f2: seq<bv8>, f3: seq<bv8>, seqNo: nat, src: Id, dst: Id, colorCode: bv8): Voice {
    if seqNo == 0 then RawBurst(f1, f2, f3, VOICE_SYNC)
    else
      var k := (seqNo - 1) % 4;
      var raw := RawBurst(f1, f2, f3, [0x00] + VoiceFragments(src, dst)[4 * k..4 * k + 4] + [0x00]);
      if seqNo <= 5 then WithEmb(raw, High(EmbCode(colorCode, seqNo)), Low(EmbCode(colorCode, seqNo))) else raw
  }

  /** One run written behind those before it. */
  lemma OneRun(b: Voice, b': Voice, done: seq<bool>, src: seq<bv8>, start: nat, count: nat)
    requires |done| + Available(|src|, start, count) <= 264 && Bits(b) == Filled(done)
    requires BitsOred(b, b', |done|, src, start, Available(|src|, start, count))
    ensures Bits(b') == Filled(done + Taken(src, start, count))
  {
    hide Bit;
    var more := Taken(src, start, count);
    var all := Filled(done + more);
    forall i: nat | i < 264
      ensures Bits(b')[i] == all[i]
    {
      assert Bits(b)[i] == Filled(done)[i];
      assert |done| <= i < |done| + |more| ==> all[i] == Bits(src)[start + i - |done|];
    }
  }

  lemma NothingWritten(b: Voice)
    requires forall i: nat :: i < 264 ==> !Bit(b, i)
    ensures Bits(b) == Filled([])
  {
  }

  /** Frames of nine bytes fill the burst. */
  lemma NineBytes(f1: Frame, f2: Frame, f3: Frame, middle: seq<bv8>)
    requires |middle| == 6
    ensures RawBurst(f1, f2, f3, middle) == BurstOf(f1, f2, f3, middle)
  {
    hide Packed;
    assert Taken(f1, 0, 72) == Bits(f1) && Taken(f3, 0, 72) == Bits(f3);
    assert Taken(f2, 0, 36) == Bits(f2)[..36] && Taken(f2, 36, 36) == Bits(f2)[36..];
    assert Filled(Written(f1, f2, f3, middle)) == Written(f1, f2, f3, middle);
  }

  lemma AssembledNine(f1: Frame, f2: Frame, f3: Frame, seqNo: nat, src: Id, dst: Id, colorCode: bv8)
    ensures AssembledFrom(f1, f2, f3, seqNo, src, dst, colorCode) == Assembled(f1, f2, f3, seqNo, src, dst, colorCode)
  {
    hide RawBurst, BurstOf, WithEmb, EmbCode, VoiceFragments;
    if seqNo == 0 {
      NineBytes(f1, f2, f3, VOICE_SYNC);
    } else {
      var k := (seqNo - 1) % 4;
      var frag := VoiceFragments(src, dst)[4 * k..4 * k + 4];
      NineBytes(f1, f2, f3, [0x00] + frag + [0x00]);
      EmbInMiddle(f1, f2, f3, frag, High(EmbCode(colorCode, seqNo)), Low(EmbCode(colorCode, seqNo)));
    }
  }

  lemma EmbInMiddle(f1: Frame, f2: Frame, f3: Frame, frag: seq<bv8>, hi: bv8, lo: bv8)
    requires |frag| == 4
    ensures WithEmb(BurstOf(f1, f2, f3, [0x00] + frag + [0x00]), hi, lo) == BurstOf(f1, f2, f3, [hi] + frag + [lo])
  {
    hide BurstOf, WithEmb, BitOf;
    var a, b := WithEmb(BurstOf(f1, f2, f3, [0x00] + frag + [0x00]), hi, lo), BurstOf(f1, f2, f3, [hi] + frag + [lo]);
    forall i: nat | i < 264
      ensures Bit(a, i) == Bit(b, i)
    {
      EmbBit(BurstOf(f1, f2, f3, [0x00] + frag + [0x00]), hi, lo, i);
      BurstBit(f1, f2, f3, [0x00] + frag + [0x00], i);
      BurstBit(f1, f2, f3, [hi] + frag + [lo], i);
    }
    SameBytes(a, b);
  }

  /** Writes three frames around six middle bytes, each frame as far as it goes. */
  method WriteBurst(f1: seq<bv8>, f2: seq<bv8>, f3: seq<bv8>, middle: seq<bv8>) returns (burst: array<bv8>)
    requires |middle| == 6
    ensures fresh(burst) && burst.Length == 33 && burst[..] == RawBurst(f1, f2, f3, middle)
  {
    hide BitsOred, Taken, Filled, Bits, Packed;
    burst := new bv8[33](i => 0);
    ghost var b0 := burst[..];
    assert forall i: nat :: i < 264 ==> !Bit(b0, i);
    NothingWritten(b0);
    var bw := new BitWriter(burst);
    ghost var r1, r2, r3 := Taken(f1, 0, 72), Taken(f2, 0, 36), Taken(middle, 0, 48);
    bw.WriteBits(f1, 0, 72);
    ghost var b1 := burst[..];
    OneRun(b0, b1, [], f1, 0, 72);
    assert [] + r1 == r1;
    bw.WriteBits(f2, 0, 36);
    ghost var b2 := burst[..];
    OneRun(b1, b2, r1, f2, 0, 36);
    bw.WriteBits(middle, 0, 48);
    ghost var b3 := burst[..];
    OneRun(b2, b3, r1 + r2, middle, 0, 48);
    bw.WriteBits(f2, 36, 36);
    ghost var b4 := burst[..];
    OneRun(b3, b4, r1 + r2 + r3, f2, 36, 36);
    bw.WriteBits(f3, 0, 72);
    OneRun(b4, burst[..], r1 + r2 + r3 + Taken(f2, 36, 36), f3, 0, 72);
    WholeSource(middle);
    PackedOfBits(burst[..]);
  }

  lemma WholeSource(middle: seq<bv8>)
    requires |middle| == 6
    ensures Taken(middle, 0, 48) == Bits(middle)
  {
  }

  method AssembleVoiceBurst(f1: seq<bv8>, f2: seq<bv8>, f3: seq<bv8>, seqNo: nat, src: Id, dst: Id, colorCode: bv8)
    returns (voice: Voice)
    ensures voice == AssembledFrom(f1, f2, f3, seqNo, src, dst, colorCode)
  {
    hide RawBurst, WithEmb, EmbCode, VoiceFragments;
    if seqNo == 0 {
      var burst := WriteBurst(f1, f2, f3, VOICE_SYNC);
      return burst[..];
    }
    var frags := EncodeVoiceLC(src, dst);
    var k := (seqNo - 1) % 4;
    var frag := frags[4 * k..4 * k + 4];
    var burst := WriteBurst(f1, f2, f3, [0x00] + frag + [0x00]);
    if 1 <= seqNo <= 5 {
      ApplyEmbeddedControl(burst, colorCode, seqNo);
    }
    voice := burst[..];
  }

  /** The three frames of a burst. */
  function FramesOf(b: Voice): (Frame, Frame, Frame) {
    (Packed(Bits(b)[..72]), Packed(Bits(b)[72..108] + Bits(b)[156..192]), Packed(Bits(b)[192..]))
  }

  function MiddleOf(b: Voice): (m: seq<bv8>)
    ensures |m| == 6
  {
    Packed(Bits(b)[108..156])
  }

  /** Copies the given bit runs of a burst into a zeroed buffer: first n1 bits from s1, then n2 bits from s2. */
  method CopyRuns(burst: Voice, s1: nat, n1: nat, s2: nat, n2: nat) returns (out: seq<bv8>)
    requires (n1 + n2) % 8 == 0 && s1 + n1 <= 264 && s2 + n2 <= 264
    ensures out == Packed(Bits(burst)[s1..s1 + n1] + Bits(burst)[s2..s2 + n2])
  {
    hide Packed;
    var buf := new bv8[(n1 + n2) / 8](i => 0);
    assert forall i: nat :: i < n1 + n2 ==> !Bit(buf[..], i);
    CopyBits(buf, 0, burst, s1, n1);
    CopyBits(buf, n1, burst, s2, n2);
    out := buf[..];
    ghost var runs := Bits(burst)[s1..s1 + n1] + Bits(burst)[s2..s2 + n2];
    assert |Bits(out)| == |runs|;
    forall i: nat | i < n1 + n2
      ensures Bits(out)[i] == runs[i]
    {
      assert Bits(out)[i] == Bit(out, i);
      assert i < n1 ==> runs[i] == Bit(burst, s1 + i);
      assert i >= n1 ==> runs[i] == Bit(burst, s2 + i - n1);
    }
    assert Bits(out) == runs;
    PackedOfBits(out);
  }

  method ExtractVoiceFramesFromBurst(burst: Voice) returns (f1: Frame, f2: Frame, f3: Frame)
    ensures (f1, f2, f3) == FramesOf(burst)
  {
    hide Packed;
    f1 := CopyRuns(burst, 0, 72, 0, 0);
    f2 := CopyRuns(burst, 72, 36, 156, 36);
    f3 := CopyRuns(burst, 192, 72, 0, 0);
    assert Bits(burst)[0..72] + Bits(burst)[0..0] == Bits(burst)[..72];
    assert Bits(burst)[192..264] + Bits(burst)[0..0] == Bits(burst)[192..];
  }

  method ExtractMiddle48(burst: Voice) returns (m: seq<bv8>)
    ensures m == MiddleOf(burst)
  {
    hide Packed;
    m := CopyRuns(burst, 108, 48, 0, 0);
    assert Bits(burst)[108..156] + Bits(burst)[0..0] == Bits(burst)[108..156];
  }

  // ---------- Round trips ----------

  lemma BurstBits264(f1: Frame, f2: Frame, f3: Frame, middle: seq<bv8>)
    requires |middle| == 6
    ensures Bits(BurstOf(f1, f2, f3, middle)) == Bits(f1) + Bits(f2)[..36] + Bits(middle) + Bits(f2)[36..] + Bits(f3)
  {
    hide Packed;
    BitsOfPacked(Bits(f1) + Bits(f2)[..36] + Bits(middle) + Bits(f2)[36..] + Bits(f3));
  }

  /** Extraction after assembly returns the frames and the middle bytes, whatever the burst number. */
  lemma ExtractAssembled(f1: Frame, f2: Frame, f3: Frame, seqNo: nat, src: Id, dst: Id, colorCode: bv8)
    ensures FramesOf(Assembled(f1, f2, f3, seqNo, src, dst, colorCode)) == (f1, f2, f3)
    ensures MiddleOf(Assembled(f1, f2, f3, seqNo, src, dst, colorCode)) == Middle(seqNo, src, dst, colorCode)
  {
    hide Packed, Bit, Middle;
    var m := Middle(seqNo, src, dst, colorCode);
    var b := Bits(Assembled(f1, f2, f3, seqNo, src, dst, colorCode));
    BurstBits264(f1, f2, f3, m);
    assert b[..72] == Bits(f1) && b[192..] == Bits(f3) && b[108..156] == Bits(m);
    assert b[72..108] + b[156..192] == Bits(f2);
    PackedOfBits(f1);
    PackedOfBits(f2);
    PackedOfBits(f3);
    PackedOfBits(m);
  }

  /** Reassembling an extracted burst changes nothing outside the middle 48 bits. */
  lemma ReassembleExtracted(b: Voice, seqNo: nat, src: Id, dst: Id, colorCode: bv8, i: nat)
    requires i < 108 || 156 <= i < 264
    ensures var (f1, f2, f3) := FramesOf(b); Bit(Assembled(f1, f2, f3, seqNo, src, dst, colorCode), i) == Bit(b, i)
  {
    hide Packed, Bit, Middle, BurstOf;
    var (f1, f2, f3) := FramesOf(b);
    var bits := Bits(b);
    BitsOfPacked(bits[..72]);
    BitsOfPacked(bits[72..108] + bits[156..192]);
    BitsOfPacked(bits[192..]);
    BurstBit(f1, f2, f3, Middle(seqNo, src, dst, colorCode), i);
    if i < 72 {
      assert Bits(f1)[i] == bits[i];
    } else if i < 108 {
      assert Bits(f2)[i - 72] == bits[i];
    } else if i < 192 {
      assert Bits(f2)[i - 120] == bits[i];
    } else {
      assert Bits(f3)[i - 192] == bits[i];
    }
  }
}
