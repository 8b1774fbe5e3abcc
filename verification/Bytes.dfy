/** Bytes and numbers in network order. */
module Bytes {
  type byte = x: int | 0 <= x < 256

  function Pow256(k: nat): (p: nat)
    ensures p > 0
  {
    if k == 0 then 1 else 256 * Pow256(k - 1)
  }

  /** The number written in bytes, the most significant first. */
  function Number(b: seq<byte>): (n: nat)
    ensures n < Pow256(|b|)
  {
    if |b| == 0 then 0 else 256 * Number(b[..|b| - 1]) + b[|b| - 1] as int
  }
}
