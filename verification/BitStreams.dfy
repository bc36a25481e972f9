/** Bit streams shared by the two checksums. */
module BitStreams {

  function XorBits(a: seq<bv1>, b: seq<bv1>): (x: seq<bv1>)
    requires |a| == |b|
    ensures |x| == |a|
  {
    seq(|a|, i requires 0 <= i < |a| => a[i] ^ b[i])
  }

  lemma XorBitsZero(a: seq<bv1>, b: seq<bv1>)
    requires |a| == |b|
    ensures (forall i :: 0 <= i < |a| ==> XorBits(a, b)[i] == 0) <==> a == b
  {
    if a == b {
      forall i | 0 <= i < |a| ensures XorBits(a, b)[i] == 0 {
        assert a[i] ^ a[i] == 0;
      }
    } else {
      var i :| 0 <= i < |a| && a[i] != b[i];
      assert XorBits(a, b)[i] == a[i] ^ b[i];
    }
  }
}
