/** Numbers of a fixed number of bytes, the most significant byte first. */
module Endian {
  import opened MoshTypes

  const U32: nat := 0x1_0000_0000

  function Pow256(n: nat): nat { if n == 0 then 1 else 256 * Pow256(n - 1) }

  function BigEndian(v: nat, n: nat): (b: Bytes)
    ensures |b| == n
  {
    if n == 0 then [] else BigEndian(v / 256, n - 1) + [v % 256]
  }

  function FromBigEndian(b: Bytes): nat {
    if b == [] then 0 else 256 * FromBigEndian(b[..|b| - 1]) + Last(b)
  }

  lemma {:induction false} BigEndianRoundTrip(v: nat, n: nat)
    requires v < Pow256(n)
    ensures FromBigEndian(BigEndian(v, n)) == v
  {
    if n > 0 {
      BigEndianRoundTrip(v / 256, n - 1);
      assert BigEndian(v, n)[..n - 1] == BigEndian(v / 256, n - 1);
    }
  }

  lemma PowSizes()
    ensures Pow256(8) == U64 && Pow256(4) == U32
  {
    assert Pow256(4) == 256 * (256 * (256 * (256 * Pow256(0)))) == U32;
    assert Pow256(8) == 256 * (256 * (256 * (256 * Pow256(4))));
  }
}
