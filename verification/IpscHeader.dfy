/** The IPSC user packet header and the RTP header behind it, from internal/ipsc/translator.go. */
module IpscHeader {
  import opened ByteValues
  import opened LinkControl

  /** Big-endian words. */
  function Word32(n: nat): (s: seq<bv8>)
    ensures |s| == 4
  {
    [LowByte(n / 0x100_0000), LowByte(n / 0x1_0000), LowByte(n / 0x100), LowByte(n)]
  }

  function Word16(n: nat): (s: seq<bv8>)
    ensures |s| == 2
  {
    [LowByte(n / 0x100), LowByte(n)]
  }

  function Read32(s: seq<bv8>): nat
    requires |s| == 4
  {
    Value(s[0]) * 0x100_0000 + Value(s[1]) * 0x1_0000 + Value(s[2]) * 0x100 + Value(s[3])
  }

  function Read16(s: seq<bv8>): nat
    requires |s| == 2
  {
    Value(s[0]) * 0x100 + Value(s[1])
  }

  datatype Header = Header(
    isData: bool, groupCall: bool, peerId: nat, ipscSeq: nat, src: Id, dst: Id, callControl: nat, slot: bool, isEnd: bool)

  datatype Rtp = Rtp(marker: bool, payloadType: bv8, seqNo: nat, timestamp: nat)

  function PacketType(h: Header): bv8 {
    if h.isData then (if h.groupCall then 0x83 else 0x84) else if h.groupCall then 0x80 else 0x81
  }

  /** Timeslot 2 is bit 5 of the call info, the end of the call bit 6. */
  function CallInfo(h: Header): bv8 {
    if h.slot then (if h.isEnd then 0x60 else 0x20) else if h.isEnd then 0x40 else 0x00
  }

  function HeaderBytes(h: Header): (s: seq<bv8>)
    ensures |s| == 18
  {
    [PacketType(h)] + Word32(h.peerId) + [LowByte(h.ipscSeq)] + IdBytes(h.src) + IdBytes(h.dst) +
    [if h.groupCall then 0x02 else 0x01] + Word32(h.callControl) + [CallInfo(h)]
  }

  function RtpBytes(r: Rtp): (s: seq<bv8>)
    ensures |s| == 12
  {
    [0x80, if r.marker then r.payloadType | 0x80 else r.payloadType] + Word16(r.seqNo) + Word32(r.timestamp) + Word32(0)
  }

  // ---------- Reading a packet ----------

  /** Enough of a packet for its header, its RTP header and its burst type. */
  type Raw = s: seq<bv8> | |s| >= 31 witness seq(31, i => 0)

  function PeerIn(d: Raw): nat { Read32(d[1..5]) }

  function SrcIn(d: Raw): Id { IdOf(d[6..9]) }

  function DstIn(d: Raw): Id { IdOf(d[9..12]) }

  function CallControlIn(d: Raw): nat { Read32(d[13..17]) }

  function IpscSeqIn(d: Raw): nat { Value(d[5]) }

  predicate GroupIn(d: Raw) { d[12] == 0x02 }

  predicate SlotIn(d: Raw) { d[17] & 0x20 != 0 }

  predicate EndIn(d: Raw) { d[17] & 0x40 != 0 }

  predicate MarkerIn(d: Raw) { d[19] & 0x80 != 0 }

  function RtpSeqIn(d: Raw): nat { Read16(d[20..22]) }

  function TimestampIn(d: Raw): nat { Read32(d[22..26]) }

  lemma Word32RoundTrip(n: nat)
    ensures Read32(Word32(n)) == n % 0x1_0000_0000
  {
    hide Value, LowByte;
    LowByteValue(n);
    LowByteValue(n / 0x100);
    LowByteValue(n / 0x1_0000);
    LowByteValue(n / 0x100_0000);
    FourDigits(n);
  }

  lemma Word16RoundTrip(n: nat)
    ensures Read16(Word16(n)) == n % 0x1_0000
  {
    hide Value, LowByte;
    LowByteValue(n);
    LowByteValue(n / 0x100);
    TwoDigits(n);
  }

  lemma HeaderPart(h: Header, rest: seq<bv8>)
    requires |rest| >= 13
    ensures var d: Raw := HeaderBytes(h) + rest;
      && d[0] == PacketType(h) && IpscSeqIn(d) == h.ipscSeq % 256 && GroupIn(d) == h.groupCall
      && PeerIn(d) == h.peerId % 0x1_0000_0000 && CallControlIn(d) == h.callControl % 0x1_0000_0000
      && SrcIn(d) == Low24(h.src) && DstIn(d) == Low24(h.dst) && SlotIn(d) == h.slot && EndIn(d) == h.isEnd
  {
    hide Word32, IdBytes, Read32, IdOf, Low24, Value, LowByte;
    var d: Raw := HeaderBytes(h) + rest;
    assert d[..18] == HeaderBytes(h);
    assert d[1..5] == Word32(h.peerId) && d[13..17] == Word32(h.callControl);
    assert d[6..9] == IdBytes(h.src) && d[9..12] == IdBytes(h.dst);
    Word32RoundTrip(h.peerId);
    Word32RoundTrip(h.callControl);
    IdRoundTrip(h.src);
    IdRoundTrip(h.dst);
    LowByteValue(h.ipscSeq);
    assert d[17] == CallInfo(h);
  }

  lemma RtpPart(front: seq<bv8>, r: Rtp, body: seq<bv8>)
    requires |front| == 18 && |body| >= 1 && r.payloadType & 0x80 == 0
    ensures var d: Raw := front + RtpBytes(r) + body;
      MarkerIn(d) == r.marker && RtpSeqIn(d) == r.seqNo % 0x1_0000 && TimestampIn(d) == r.timestamp % 0x1_0000_0000
  {
    hide Word32, Word16, Read32, Read16;
    var d: Raw := front + RtpBytes(r) + body;
    assert d[20..22] == Word16(r.seqNo) && d[22..26] == Word32(r.timestamp);
    Word32RoundTrip(r.timestamp);
    Word16RoundTrip(r.seqNo);
    MarkerBit(r.payloadType);
    assert d[19] == if r.marker then r.payloadType | 0x80 else r.payloadType;
  }

  /** Whatever follows, a reader finds in the bytes what the writer put there, as far as it fits. */
  lemma HeaderRoundTrip(h: Header, r: Rtp, body: seq<bv8>)
    requires |body| >= 1 && r.payloadType & 0x80 == 0
    ensures var d: Raw := HeaderBytes(h) + RtpBytes(r) + body;
      && d[0] == PacketType(h) && IpscSeqIn(d) == h.ipscSeq % 256 && GroupIn(d) == h.groupCall
      && PeerIn(d) == h.peerId % 0x1_0000_0000 && CallControlIn(d) == h.callControl % 0x1_0000_0000
      && SrcIn(d) == Low24(h.src) && DstIn(d) == Low24(h.dst) && SlotIn(d) == h.slot && EndIn(d) == h.isEnd
      && MarkerIn(d) == r.marker && RtpSeqIn(d) == r.seqNo % 0x1_0000 && TimestampIn(d) == r.timestamp % 0x1_0000_0000
  {
    hide *;
    assert HeaderBytes(h) + RtpBytes(r) + body == HeaderBytes(h) + (RtpBytes(r) + body);
    HeaderPart(h, RtpBytes(r) + body);
    RtpPart(HeaderBytes(h), r, body);
  }

  lemma MarkerBit(b: bv8)
    ensures (b | 0x80) & 0x80 != 0
  {
  }
}
