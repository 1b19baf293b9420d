/** The 12-byte full link control that headers and terminators carry. */
module LinkControl {
  import opened BitSequences
  import opened ByteValues
  import opened Gf256
  import RS = ReedSolomon

  /** A radio or talkgroup number: Go's `uint`, of which the air interface carries 24 bits. */
  type Id = nat

  /** The three bytes that carry an id, high byte first. */
  function IdBytes(id: Id): (s: seq<bv8>)
    ensures |s| == 3
  {
    [LowByte(id / 0x1_0000), LowByte(id / 0x100), LowByte(id)]
  }

  /** Reading an id back from three bytes, high byte first. */
  function IdOf(s: seq<bv8>): Id
    requires |s| == 3
  {
    Value(s[0]) * 0x1_0000 + Value(s[1]) * 0x100 + Value(s[2])
  }

  /** What of an id fits on the air. */
  function Low24(id: Id): Id {
    id % 0x100_0000
  }

  lemma IdRoundTrip(id: Id)
    ensures IdOf(IdBytes(id)) == Low24(id)
  {
    hide LowByte, Value;
    LowByteValue(id / 0x1_0000);
    LowByteValue(id / 0x100);
    LowByteValue(id);
    ThreeDigits(id);
  }

  const VOICE_LC_HEADER: bv8 := 1
  const TERMINATOR_WITH_LC: bv8 := 2

  function ParityMask(dataType: bv8): bv8 {
    if dataType == VOICE_LC_HEADER then 0x96
    else if dataType == TERMINATOR_WITH_LC then 0x99
    else 0x00
  }

  /** The nine bytes the parity protects. */
  function LcData(src: Id, dst: Id, groupCall: bool, so: bv8): (d: seq<bv8>)
    ensures |d| == 9
  {
    [if groupCall then 0x00 else 0x03, 0x00, so] + IdBytes(dst) + IdBytes(src)
  }

  function Masked(parity: seq<bv8>, mask: bv8): (p: seq<bv8>)
    ensures |p| == |parity|
  {
    seq(|parity|, i requires 0 <= i < |parity| => Add(parity[i], mask))
  }

  function StandardLc(src: Id, dst: Id, groupCall: bool, so: bv8, dataType: bv8): (lc: seq<bv8>)
    ensures |lc| == 12
  {
    var d := LcData(src, dst, groupCall, so);
    d + Masked(RS.Parity3(d), ParityMask(dataType))
  }

  method BuildStandardLCBytesForDataType(src: Id, dst: Id, groupCall: bool, so: bv8, dataType: bv8) returns (lc: seq<bv8>)
    ensures lc == StandardLc(src, dst, groupCall, so, dataType)
  {
    hide RS.Parity3;
    var flco: bv8 := 0x03;
    if groupCall {
      flco := 0x00;
    }
    var d := [flco & 0x3F, 0x00, so] + IdBytes(dst) + IdBytes(src);
    assert d == LcData(src, dst, groupCall, so);
    var parity := RS.ReedSolomon129Parity(d);
    var mask := ParityMask(dataType);
    lc := d + [Add(parity[0], mask), Add(parity[1], mask), Add(parity[2], mask)];
  }

  /** The call an LC names: service options, addressee, caller and call type, as 24-bit numbers. */
  datatype Call = Call(src: Id, dst: Id, groupCall: bool, so: bv8)

  function CallOf(lc: seq<bv8>): Call
    requires |lc| == 12
  {
    Call(IdOf(lc[6..9]), IdOf(lc[3..6]), lc[0] == 0x00, lc[2])
  }

  /** What of a call fits on the air: the low 24 bits of its ids. */
  function OnAir(c: Call): Call {
    c.(src := Low24(c.src), dst := Low24(c.dst))
  }

  function LcOf(c: Call, dataType: bv8): (lc: seq<bv8>)
    ensures |lc| == 12
  {
    StandardLc(c.src, c.dst, c.groupCall, c.so, dataType)
  }

  /** An LC names the call it was built for. */
  lemma CallRoundTrip(c: Call, dataType: bv8)
    ensures CallOf(LcOf(c, dataType)) == OnAir(c)
  {
    hide RS.Parity3, IdBytes, IdOf, Low24, Masked;
    var lc := LcOf(c, dataType);
    assert lc[6..9] == IdBytes(c.src) && lc[3..6] == IdBytes(c.dst);
    IdRoundTrip(c.src);
    IdRoundTrip(c.dst);
  }

  /** What a receiver checks: without the mask of its kind, 0x96 in a header and 0x99 in a terminator, an LC is a Reed-Solomon word. */
  lemma ReceiverChecks(c: Call, dataType: bv8, x: bv8)
    requires RS.Root(x)
    ensures var lc := LcOf(c, dataType);
      var mask := if dataType == 0x01 then 0x96 else if dataType == 0x02 then 0x99 else 0x00;
      RS.Eval(lc[..9] + [Add(lc[9], mask), Add(lc[10], mask), Add(lc[11], mask)], x) == 0
  {
    hide RS.Parity3, RS.Eval, LcData, Add;
    var d := LcData(c.src, c.dst, c.groupCall, c.so);
    var lc, mask, p := LcOf(c, dataType), ParityMask(dataType), RS.Parity3(d);
    forall i | 0 <= i < 3
      ensures Add(lc[9 + i], mask) == p[i]
    {
      MaskTwice(p[i], mask);
    }
    assert lc[..9] + [Add(lc[9], mask), Add(lc[10], mask), Add(lc[11], mask)] == RS.Word(d);
    RS.WordVanishes(d, x);
  }

  lemma MaskTwice(p: bv8, mask: bv8)
    ensures Add(Add(p, mask), mask) == p
  {
  }

  lemma MaskKeepsDifferences(a: seq<bv8>, b: seq<bv8>, mask: bv8)
    requires |a| == |b| == 9
    ensures Differences(a + Masked(RS.Parity3(a), mask), b + Masked(RS.Parity3(b), mask)) == Differences(RS.Word(a), RS.Word(b))
  {
    hide RS.Parity3;
    var p, q := RS.Parity3(a), RS.Parity3(b);
    forall i | 0 <= i < 3
      ensures Masked(p, mask)[i] == Masked(q, mask)[i] <==> p[i] == q[i]
    {
      MaskInjective(p[i], q[i], mask);
    }
  }

  lemma MaskInjective(p: bv8, q: bv8, mask: bv8)
    ensures Add(p, mask) == Add(q, mask) <==> p == q
  {
  }

  /** Two LCs of one kind that name different calls differ in at least four bytes. */
  lemma LcDistance(x: Call, y: Call, dataType: bv8)
    requires OnAir(x) != OnAir(y)
    ensures Distance(LcOf(x, dataType), LcOf(y, dataType)) >= 4
  {
    hide RS.Parity3, LcData, RS.Word, Masked, OnAir, CallOf;
    var a, b := LcData(x.src, x.dst, x.groupCall, x.so), LcData(y.src, y.dst, y.groupCall, y.so);
    CallRoundTrip(x, dataType);
    CallRoundTrip(y, dataType);
    RS.WordDistance(a, b);
    MaskKeepsDifferences(a, b, ParityMask(dataType));
  }
}
