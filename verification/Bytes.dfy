/** Bytes as eight bits, most significant first: bit k of a byte is `(b >> (7-k)) & 1`. */
module Bytes {

  /** The byte `1 << (7-k)`. */
  function Mask(k: nat): bv8
    requires k < 8
  {
    if k == 0 then 0x80 else if k == 1 then 0x40 else if k == 2 then 0x20 else if k == 3 then 0x10
    else if k == 4 then 0x08 else if k == 5 then 0x04 else if k == 6 then 0x02 else 0x01
  }

  predicate BitOf(b: bv8, k: nat)
    requires k < 8
  {
    b & Mask(k) != 0
  }

  lemma SetBit(b: bv8, k: nat, j: nat)
    requires k < 8 && j < 8
    ensures BitOf(b | Mask(k), j) == (BitOf(b, j) || j == k)
  {
  }

  /** Bytes are equal when their bits are. */
  lemma SameByte(a: bv8, b: bv8)
    requires forall k :: 0 <= k < 8 ==> BitOf(a, k) == BitOf(b, k)
    ensures a == b
  {
    assert BitOf(a, 0) == BitOf(b, 0) && BitOf(a, 1) == BitOf(b, 1) && BitOf(a, 2) == BitOf(b, 2) && BitOf(a, 3) == BitOf(b, 3);
    assert BitOf(a, 4) == BitOf(b, 4) && BitOf(a, 5) == BitOf(b, 5) && BitOf(a, 6) == BitOf(b, 6) && BitOf(a, 7) == BitOf(b, 7);
  }

  /** Bit i of a byte string. */
  predicate Bit(s: seq<bv8>, i: nat)
    requires i < 8 * |s|
  {
    BitOf(s[i / 8], i % 8)
  }

  /** All bits of a byte string, in order. */
  function Bits(s: seq<bv8>): (b: seq<bool>)
    ensures |b| == 8 * |s|
  {
    seq(8 * |s|, i requires 0 <= i < 8 * |s| => Bit(s, i))
  }

  /** Byte strings are equal when their bits are. */
  lemma SameBytes(s: seq<bv8>, t: seq<bv8>)
    requires |s| == |t|
    requires forall i: nat :: i < 8 * |s| ==> Bit(s, i) == Bit(t, i)
    ensures s == t
  {
    forall q | 0 <= q < |s|
      ensures s[q] == t[q]
    {
      forall k | 0 <= k < 8
        ensures BitOf(s[q], k) == BitOf(t[q], k)
      {
        assert Bit(s, 8 * q + k) == Bit(t, 8 * q + k);
      }
      SameByte(s[q], t[q]);
    }
  }

  function ByteOf(b: seq<bool>): bv8
    requires |b| == 8
  {
    (if b[0] then 0x80 else 0) | (if b[1] then 0x40 else 0) | (if b[2] then 0x20 else 0) | (if b[3] then 0x10 else 0)
    | (if b[4] then 0x08 else 0) | (if b[5] then 0x04 else 0) | (if b[6] then 0x02 else 0) | (if b[7] then 0x01 else 0)
  }

  /** The byte string with the given bits. */
  function Packed(b: seq<bool>): (s: seq<bv8>)
    requires |b| % 8 == 0
    ensures |s| == |b| / 8
  {
    seq(|b| / 8, q requires 0 <= q < |b| / 8 => ByteOf(b[8 * q..8 * q + 8]))
  }

  lemma ByteOfBits(b: seq<bool>, k: nat)
    requires |b| == 8 && k < 8
    ensures BitOf(ByteOf(b), k) == b[k]
  {
  }

  lemma BitsOfPacked(b: seq<bool>)
    requires |b| % 8 == 0
    ensures Bits(Packed(b)) == b
  {
    forall i: nat | i < |b|
      ensures Bit(Packed(b), i) == b[i]
    {
      ByteOfBits(b[8 * (i / 8)..8 * (i / 8) + 8], i % 8);
    }
  }

  lemma PackedOfBits(s: seq<bv8>)
    ensures Packed(Bits(s)) == s
  {
    hide Packed;
    BitsOfPacked(Bits(s));
    forall i: nat | i < 8 * |s|
      ensures Bit(Packed(Bits(s)), i) == Bit(s, i)
    {
      assert Bits(Packed(Bits(s)))[i] == Bits(s)[i];
    }
    SameBytes(Packed(Bits(s)), s);
  }

  /** Unpacks a byte string into its bits. */
  method Unpack(s: seq<bv8>) returns (b: seq<bool>)
    ensures b == Bits(s)
  {
    var out := new bool[8 * |s|];
    for i := 0 to |s|
      invariant forall a :: 0 <= a < 8 * i ==> out[a] == Bits(s)[a]
    {
      for j := 0 to 8
        invariant forall a :: 0 <= a < 8 * i + j ==> out[a] == Bits(s)[a]
      {
        assert (8 * i + j) / 8 == i && (8 * i + j) % 8 == j;
        out[i * 8 + j] := BitOf(s[i], j);
      }
    }
    b := out[..];
  }

  /** Packs bits into bytes by setting, in a zeroed buffer, the bits that are true. */
  method Pack(b: seq<bool>) returns (s: seq<bv8>)
    requires |b| % 8 == 0
    ensures s == Packed(b)
  {
    var out := new bv8[|b| / 8](i => 0);
    for i := 0 to |b|
      invariant forall a: nat :: a < |b| ==> Bit(out[..], a) == (a < i && b[a])
    {
      if b[i] {
        ghost var before := out[..];
        out[i / 8] := out[i / 8] | Mask(i % 8);
        forall a: nat | a < |b|
          ensures Bit(out[..], a) == (Bit(before, a) || a == i)
        {
          SetBit(before[i / 8], i % 8, a % 8);
        }
      }
    }
    s := out[..];
    assert Bits(s) == b;
    PackedOfBits(s);
  }

  /** Copies bytes into a buffer behind those already written. */
  method Put(buf: array<bv8>, at: nat, s: seq<bv8>)
    requires at + |s| <= buf.Length
    modifies buf
    ensures buf[..at + |s|] == old(buf[..at]) + s
    ensures forall k :: at + |s| <= k < buf.Length ==> buf[k] == old(buf[k])
  {
    for i := 0 to |s|
      invariant forall k :: 0 <= k < buf.Length ==> buf[k] == if at <= k < at + i then s[k - at] else old(buf[k])
    {
      buf[at + i] := s[i];
    }
  }
}
