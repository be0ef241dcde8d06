/** Bytes as numbers, and the ways larger numbers are laid out in them. */
module Bytes {
  type byte = x: int | 0 <= x < 256

  /** htons, then written to memory. */
  function BigEndian16(n: nat): (r: seq<byte>)
    requires n < 0x1_0000
    ensures |r| == 2
  {
    [n / 256, n % 256]
  }

  function FromBigEndian16(hi: byte, lo: byte): (n: nat)
    ensures n < 0x1_0000
  {
    256 * hi + lo
  }

  lemma BigEndian16Reads(n: nat)
    requires n < 0x1_0000
    ensures FromBigEndian16(BigEndian16(n)[0], BigEndian16(n)[1]) == n
  {
  }
}
