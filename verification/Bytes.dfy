/** Bytes and the numbers they stand for. */
module Bytes {

  function LowByte(n: nat): bv8 { (n % 256) as bv8 }

  function Value(b: bv8): (n: nat)
    ensures n < 256
  {
    b as nat
  }

  /** Every number below 256 is the value of a byte. */
  lemma {:induction false} ByteWith(m: nat) returns (b: bv8)
    requires m < 256
    ensures b as nat == m
  {
    if m == 0 {
      b := 0;
    } else {
      var c := ByteWith(m - 1);
      NextByte(c);
      b := c + 1;
    }
  }

  lemma NextByte(b: bv8)
    requires b as nat < 255
    ensures (b + 1) as nat == b as nat + 1
  {}

  lemma ByteFrom(b: bv8, m: nat)
    requires b as nat == m
    ensures m as bv8 == b
  {}

  lemma LowByteValue(n: nat)
    ensures Value(LowByte(n)) == n % 256
  {
    var b := ByteWith(n % 256);
    ByteFrom(b, n % 256);
  }

  /** Four bytes, low byte first. */
  function Length32(n: nat): (s: seq<bv8>)
    ensures |s| == 4
  {
    [LowByte(n), LowByte(n / 256), LowByte(n / 256 / 256), LowByte(n / 256 / 256 / 256)]
  }

  function Zeros(n: nat): (z: seq<bv8>)
    ensures |z| == n && forall k :: 0 <= k < n ==> z[k] == 0
  {
    seq(n, _ => 0)
  }
}
