/** The worst-case output length of the LZ4 compressor, the one collaborator the size rules call. */
module Lz4Bound {

  /** LZ4_compressBound: the largest output LZ4 can produce from n input bytes. */
  function CompressBound(n: nat): (bound: nat)
    ensures bound >= n + 16
  {
    n + n / 255 + 16
  }

  /** A larger input never has a smaller worst-case output. */
  lemma CompressBoundMonotone(m: nat, n: nat)
    requires m <= n
    ensures CompressBound(m) <= CompressBound(n)
  {
    assert m / 255 <= n / 255;
  }
}
