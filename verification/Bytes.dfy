/** Bytes, and the 32-bit arithmetic of the host. */
module Bytes {
  type byte = b: int | 0 <= b < 256

  const TWO32: nat := 0x1_0000_0000

  /** Two counts less than 2^32 apart that agree modulo 2^32 are the same. */
  lemma SameResidueSameCount(older: nat, newer: nat)
    requires older <= newer < older + TWO32
    requires older % TWO32 == newer % TWO32
    ensures older == newer
  {
    assert newer - older == TWO32 * (newer / TWO32 - older / TWO32);
  }

  /** How many leading bytes two strings share. */
  function Agree(a: seq<byte>, b: seq<byte>): (n: nat)
    ensures n <= |a| && n <= |b|
    ensures a[..n] == b[..n]
    ensures n < |a| && n < |b| ==> a[n] != b[n]
  {
    if a == [] || b == [] || a[0] != b[0] then 0
    else
      var n := Agree(a[1..], b[1..]);
      assert a[..1 + n] == [a[0]] + a[1..][..n];
      assert b[..1 + n] == [b[0]] + b[1..][..n];
      1 + n
  }
}
