/** Numbers as octets, most significant first. */
module Octets {

  type Octet = n: nat | n < 256

  /** The number that octets stand for. */
  function Value(s: seq<Octet>): nat {
    if s == [] then 0 else 256 * Value(s[..|s| - 1]) + s[|s| - 1]
  }

  /** `to_be_bytes`: the last `n` octets of a number. */
  function BigEndian(v: nat, n: nat): (s: seq<Octet>)
    ensures |s| == n
  {
    if n == 0 then [] else BigEndian(v / 256, n - 1) + [v % 256]
  }

  function Pow256(n: nat): (p: nat)
    ensures p >= 1
  {
    if n == 0 then 1 else 256 * Pow256(n - 1)
  }

  /** A number that fits is told by its octets. */
  lemma {:induction false} ValueOfBigEndian(v: nat, n: nat)
    requires v < Pow256(n)
    ensures Value(BigEndian(v, n)) == v
  {
    if n > 0 {
      ValueOfBigEndian(v / 256, n - 1);
      assert BigEndian(v, n)[..n - 1] == BigEndian(v / 256, n - 1);
    }
  }
}
