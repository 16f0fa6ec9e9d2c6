/** Bytes as bits, the highest first, as a QR code lays them out. */
module QrBits {

  /** getBit(b, 7 - i). */
  function BitOf(b: bv8, i: nat): bool
    requires i < 8
  {
    match i
    case 0 => b & 0x80 != 0 case 1 => b & 0x40 != 0 case 2 => b & 0x20 != 0 case 3 => b & 0x10 != 0
    case 4 => b & 0x08 != 0 case 5 => b & 0x04 != 0 case 6 => b & 0x02 != 0 case 7 => b & 0x01 != 0
  }

  function Weight(b: bool, w: bv8): bv8 { if b then w else 0 }

  function ByteOf(bits: seq<bool>): bv8
    requires |bits| == 8
  {
    Weight(bits[0], 0x80) | Weight(bits[1], 0x40) | Weight(bits[2], 0x20) | Weight(bits[3], 0x10)
    | Weight(bits[4], 0x08) | Weight(bits[5], 0x04) | Weight(bits[6], 0x02) | Weight(bits[7], 0x01)
  }

  function BitsOf(b: bv8): (s: seq<bool>)
    ensures |s| == 8
  {
    [BitOf(b, 0), BitOf(b, 1), BitOf(b, 2), BitOf(b, 3), BitOf(b, 4), BitOf(b, 5), BitOf(b, 6), BitOf(b, 7)]
  }

  /** The bits of all the bytes. */
  function Bits(bytes: seq<bv8>): (s: seq<bool>)
    ensures |s| == 8 * |bytes|
  {
    if bytes == [] then [] else Bits(bytes[..|bytes| - 1]) + BitsOf(bytes[|bytes| - 1])
  }

  /** The bytes of whole groups of eight bits. */
  function Bytes(bits: seq<bool>): (s: seq<bv8>)
    requires |bits| % 8 == 0
    ensures |s| == |bits| / 8
  {
    if bits == [] then [] else Bytes(bits[..|bits| - 8]) + [ByteOf(bits[|bits| - 8..])]
  }

  lemma Together(b: bv8)
    ensures Weight(b & 0x80 != 0, 0x80) | Weight(b & 0x40 != 0, 0x40) | Weight(b & 0x20 != 0, 0x20)
          | Weight(b & 0x10 != 0, 0x10) | Weight(b & 0x08 != 0, 0x08) | Weight(b & 0x04 != 0, 0x04)
          | Weight(b & 0x02 != 0, 0x02) | Weight(b & 0x01 != 0, 0x01) == b
  {
  }

  lemma ByteComesBack(b: bv8)
    ensures ByteOf(BitsOf(b)) == b
  {
    Together(b);
    hide Weight;
  }

  lemma BitsComeBack(bits: seq<bool>)
    requires |bits| == 8
    ensures BitsOf(ByteOf(bits)) == bits
  {
  }

  lemma BitsSnoc(bytes: seq<bv8>, b: bv8)
    ensures Bits(bytes + [b]) == Bits(bytes) + BitsOf(b)
  {
    hide BitsOf;
    assert (bytes + [b])[..|bytes|] == bytes;
  }

  lemma BytesSnoc(bits: seq<bool>, eight: seq<bool>)
    requires |bits| % 8 == 0 && |eight| == 8
    ensures Bytes(bits + eight) == Bytes(bits) + [ByteOf(eight)]
  {
    hide ByteOf;
    assert (bits + eight)[..|bits|] == bits && (bits + eight)[|bits|..] == eight;
  }

  lemma {:induction false} BytesOfBits(bytes: seq<bv8>)
    ensures Bytes(Bits(bytes)) == bytes
  {
    hide BitsOf, ByteOf;
    if bytes != [] {
      var n := |bytes| - 1;
      BytesOfBits(bytes[..n]);
      ByteComesBack(bytes[n]);
      BytesSnoc(Bits(bytes[..n]), BitsOf(bytes[n]));
    }
  }

  lemma {:induction false} BitsOfBytes(bits: seq<bool>, n: nat)
    requires |bits| == 8 * n
    ensures Bits(Bytes(bits)) == bits
  {
    hide BitsOf, ByteOf;
    if n > 0 {
      var head, eight := bits[..8 * (n - 1)], bits[8 * (n - 1)..];
      assert bits == head + eight;
      hide Bits, Bytes;
      BitsOfBytes(head, n - 1);
      BytesSnoc(head, eight);
      BitsComeBack(eight);
      BitsSnoc(Bytes(head), ByteOf(eight));
    }
  }

  lemma {:induction false} BitAt(bytes: seq<bv8>, i: nat)
    requires i < 8 * |bytes|
    ensures Bits(bytes)[i] == BitOf(bytes[i / 8], i % 8)
  {
    hide BitOf;
    var n := |bytes| - 1;
    if i < 8 * n {
      BitAt(bytes[..n], i);
    } else {
      assert i == 8 * n + i % 8;
    }
  }

  // --- Setting bits ---

  function Mask(k: nat): bv8
    requires k < 8
  {
    match k
    case 0 => 0x80 case 1 => 0x40 case 2 => 0x20 case 3 => 0x10
    case 4 => 0x08 case 5 => 0x04 case 6 => 0x02 case 7 => 0x01
  }

  lemma OrBit(b: bv8, k: nat, l: nat)
    requires k < 8 && l < 8
    ensures BitOf(b | Mask(k), l) <==> BitOf(b, l) || k == l
  {
    match k
    case 0 => case 1 => case 2 => case 3 => case 4 => case 5 => case 6 => case 7 =>
  }

  lemma NoBits(l: nat)
    requires l < 8
    ensures !BitOf(0, l)
  {
  }

  predicate Packed(bytes: seq<bv8>, bits: seq<bool>, n: nat)
    requires |bits| == 8 * |bytes|
  {
    forall i | 0 <= i < |bits| :: BitOf(bytes[i / 8], i % 8) == (i < n && bits[i])
  }

  lemma PackedBit(bytes: seq<bv8>, j: nat, k: nat, i: nat)
    requires j < |bytes| && k < 8 && i < 8 * |bytes|
    ensures BitOf(bytes[j := bytes[j] | Mask(k)][i / 8], i % 8) <==> BitOf(bytes[i / 8], i % 8) || i == 8 * j + k
  {
    hide BitOf, Mask;
    OrBit(bytes[j], k, i % 8);
  }

  lemma PackedMore(bytes: seq<bv8>, bits: seq<bool>, n: nat)
    requires |bits| == 8 * |bytes| && n < |bits| && Packed(bytes, bits, n)
    ensures Packed(if bits[n] then bytes[n / 8 := bytes[n / 8] | Mask(n % 8)] else bytes, bits, n + 1)
  {
    hide BitOf, Mask;
    if bits[n] {
      var j, k := n / 8, n % 8;
      var after := bytes[j := bytes[j] | Mask(k)];
      forall i | 0 <= i < |bits|
        ensures BitOf(after[i / 8], i % 8) == (i < n + 1 && bits[i])
      {
        PackedBit(bytes, j, k, i);
      }
    }
  }

  lemma PackedAll(bytes: seq<bv8>, bits: seq<bool>)
    requires |bits| == 8 * |bytes| && Packed(bytes, bits, |bits|)
    ensures Bits(bytes) == bits
  {
    hide BitOf;
    forall i | 0 <= i < |bits|
      ensures Bits(bytes)[i] == bits[i]
    {
      BitAt(bytes, i);
    }
  }

  /** Packing bits into bytes in big endian, as encodeSegments does. */
  method Pack(bb: seq<bool>) returns (codewords: array<bv8>)
    requires |bb| % 8 == 0
    ensures fresh(codewords) && Bits(codewords[..]) == bb
  {
    hide BitOf, Mask, Packed, Bits;
    codewords := new bv8[|bb| / 8](_ => 0);
    NothingPacked(codewords[..], bb);
    for i := 0 to |bb|
      invariant Packed(codewords[..], bb, i)
    {
      PackedMore(codewords[..], bb, i);
      ghost var before := codewords[..];
      if bb[i] {
        codewords[i / 8] := codewords[i / 8] | Mask(i % 8);
        assert codewords[..] == before[i / 8 := before[i / 8] | Mask(i % 8)];
      }
    }
    PackedAll(codewords[..], bb);
  }

  lemma NothingPacked(bytes: seq<bv8>, bits: seq<bool>)
    requires |bits| == 8 * |bytes| && forall k | 0 <= k < |bytes| :: bytes[k] == 0
    ensures Packed(bytes, bits, 0)
  {
    hide BitOf;
    forall i | 0 <= i < |bits|
      ensures !BitOf(bytes[i / 8], i % 8)
    {
      NoBits(i % 8);
    }
  }
}
