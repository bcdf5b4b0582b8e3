/** Bytes and fixed-width big-endian lengths, as used by both wire formats. */
module Bytes {
  type byte = b: int | 0 <= b < 256

  type Data = seq<byte>

  function Pow256(k: nat): (r: nat)
    ensures r > 0
  {
    if k == 0 then 1 else 256 * Pow256(k - 1)
  }

  /** The k low-order bytes of `n`, most significant first. */
  function BigEndian(n: nat, k: nat): (r: Data)
    ensures |r| == k
  {
    if k == 0 then [] else BigEndian(n / 256, k - 1) + [n % 256]
  }

  function Decode(s: Data): nat {
    if s == [] then 0 else 256 * Decode(s[..|s| - 1]) + s[|s| - 1]
  }

  /** A length that fits its field survives the trip. */
  lemma {:induction false} DecodeBigEndian(n: nat, k: nat)
    requires n < Pow256(k)
    ensures Decode(BigEndian(n, k)) == n
  {
    if k > 0 {
      DecodeBigEndian(n / 256, k - 1);
      assert BigEndian(n, k)[..k - 1] == BigEndian(n / 256, k - 1);
    }
  }

  lemma {:induction false} DecodeBounded(s: Data)
    ensures Decode(s) < Pow256(|s|)
  {
    if s != [] { DecodeBounded(s[..|s| - 1]); }
  }
}
