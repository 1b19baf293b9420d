/**
  Link control bursts: 12 LC bytes carried by BPTC(196,96) inside a 33-byte data
  burst, around a slot type and a sync pattern.
 */
module LcBurst {
  import opened BitSequences
  import opened Bytes
  import opened Bptc
  import BptcCode
  import opened BptcCorrection

  type Lc = s: seq<bv8> | |s| == 12 witness seq(12, i => 0)
  type Burst = s: seq<bv8> | |s| == 33 witness seq(33, i => 0)

  /** The data bits summed by each of the twelve parity bits of Golay(20,8). */
  const GOLAY_CHECKS: seq<seq<nat>> := [
    [1, 4, 5, 6, 7], [1, 2, 4], [0, 2, 3, 5], [0, 1, 3, 4, 6], [0, 1, 2, 4, 5, 7], [0, 2, 3, 4, 7],
    [3, 6, 7], [0, 1, 5, 6], [0, 1, 2, 6, 7], [2, 3, 4, 5, 6], [0, 3, 4, 5, 6, 7], [1, 2, 3, 5, 7]]

  function GolayEncode208(input: bv8): (s: seq<bool>)
    ensures |s| == 20
  {
    var b := Bits([input]);
    assert |b| == 8;
    b + seq(12, k requires 0 <= k < 12 => Parity(Pick(b, GOLAY_CHECKS[k])))
  }

  /** The BS-sourced data sync 0xDFF57D75DF5D. */
  const DATA_SYNC: seq<bv8> := [0xDF, 0xF5, 0x7D, 0x75, 0xDF, 0x5D]

  function SlotTypeBits(dataType: bv8, colorCode: bv8): (s: seq<bool>)
    ensures |s| == 20
  {
    GolayEncode208(((colorCode & 0xF) << 4) | (dataType & 0xF))
  }

  /** The 264 bits of the burst. */
  function BurstBits(info: Message, dataType: bv8, colorCode: bv8): (b: seq<bool>)
    ensures |b| == 264
  {
    var encoded, slot := Encoded(info), SlotTypeBits(dataType, colorCode);
    encoded[..98] + slot[..10] + Bits(DATA_SYNC) + slot[10..] + encoded[98..]
  }

  function BuiltBurst(lc: Lc, dataType: bv8, colorCode: bv8): Burst {
    Packed(BurstBits(Bits(lc), dataType, colorCode))
  }

  /** The 196 code bits around the slot type and the sync. */
  function InfoPart(burst: Burst): Block {
    Bits(burst)[..98] + Bits(burst)[166..]
  }

  datatype LcResult = Recovered(lc: Lc) | Uncorrectable

  /** What DecodeLCFromBurst finds in a burst. */
  ghost function LcIn(burst: Burst): LcResult {
    var d := Decoded(InfoPart(burst));
    if d.uncorrectable then Uncorrectable else Recovered(Packed(d.data))
  }

  method BuildLCDataBurst(lcBytes: Lc, dataType: bv8, colorCode: bv8) returns (data: Burst)
    ensures data == BuiltBurst(lcBytes, dataType, colorCode)
  {
    var infoBits := Unpack(lcBytes);
    var encoded := BptcCode.Encode(infoBits);
    var slotBits := SlotTypeBits(dataType, colorCode);
    var sync := Unpack(DATA_SYNC);
    data := Pack(encoded[..98] + slotBits[..10] + sync + slotBits[10..] + encoded[98..]);
  }

  method DecodeLCFromBurst(dmrData: Burst) returns (lcBytes: Lc, ok: bool)
    ensures LcIn(dmrData) == if ok then Recovered(lcBytes) else Uncorrectable
    ensures !ok ==> lcBytes == seq(12, i => 0)
  {
    hide Decoded;
    var allBits := Unpack(dmrData);
    var info, _, uncorrectable := BptcCode.Decode(allBits[..98] + allBits[166..]);
    if uncorrectable {
      return seq(12, i => 0), false;
    }
    lcBytes := Pack(info);
    ok := true;
  }

  lemma InfoPartOfBuilt(lc: Lc, dataType: bv8, colorCode: bv8)
    ensures InfoPart(BuiltBurst(lc, dataType, colorCode)) == Encoded(Bits(lc))
  {
    hide Encoded, Packed, SlotTypeBits;
    BitsOfPacked(BurstBits(Bits(lc), dataType, colorCode));
  }

  /** Whatever happens to the slot type and sync, scattered errors in the code part lose nothing. */
  lemma LcSurvivesScatteredErrors(lc: Lc, f: Block, received: Burst)
    requires InfoPart(received) == Xor(Encoded(Bits(lc)), f)
    requires Scattered(Deinterleave(f))
    ensures LcIn(received) == Recovered(lc)
  {
    hide Decoded, Encoded, Scattered, Deinterleave, InfoPart, Packed;
    ScatteredRepaired(Bits(lc), f);
    PackedOfBits(lc);
  }

  /** Reading back a built burst gives the LC bytes that went in. */
  lemma LcRoundTrip(lc: Lc, dataType: bv8, colorCode: bv8)
    ensures LcIn(BuiltBurst(lc, dataType, colorCode)) == Recovered(lc)
  {
    hide LcIn, BuiltBurst, InfoPart, Encoded;
    InfoPartOfBuilt(lc, dataType, colorCode);
    XorNeutral(Encoded(Bits(lc)), Zeros(196));
    assert Deinterleave(Zeros(196)) == Zeros(196);
    LcSurvivesScatteredErrors(lc, Zeros(196), BuiltBurst(lc, dataType, colorCode));
  }
}
