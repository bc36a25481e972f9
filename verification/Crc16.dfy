/** The CRC-16 that protects netXtransport payloads (examples/tcpserver/Marshaller/HilMarshaller.c).

    The code updates a byte at a time with a handful of shifts. The reference here is the
    definition of the checksum: long division of the bit stream by x^16 + x^12 + x^5 + 1,
    one bit at a time, most significant bit of each byte first. */
module Crc16 {
  import opened BitStreams

  // ---------------------------------------------------------------- reference

  /** One step of the division register: the next message bit meets the top of the register. */
  function Shift(reg: bv16, bit: bv1): bv16 {
    Feedback(Meet(reg, bit))
  }

  function Meet(reg: bv16, bit: bv1): bv16 {
    reg ^ ((bit as bv16) << 15)
  }

  function Feedback(x: bv16): bv16 {
    if x & 0x8000 != 0 then (x << 1) ^ 0x1021 else x << 1
  }

  function Divide(reg: bv16, bits: seq<bv1>): bv16
    decreases |bits|
  {
    if bits == [] then reg else Divide(Shift(reg, bits[0]), bits[1..])
  }

  function ByteBits(b: bv8): (bits: seq<bv1>)
    ensures |bits| == 8
  {
    [((b >> 7) & 1) as bv1, ((b >> 6) & 1) as bv1, ((b >> 5) & 1) as bv1, ((b >> 4) & 1) as bv1,
     ((b >> 3) & 1) as bv1, ((b >> 2) & 1) as bv1, ((b >> 1) & 1) as bv1, (b & 1) as bv1]
  }

  function Bits(data: seq<bv8>): (bits: seq<bv1>)
    ensures |bits| == 8 * |data|
  {
    if data == [] then [] else ByteBits(data[0]) + Bits(data[1..])
  }

  /** What CalculateCRC16 returns. An empty buffer skips the final inversion. */
  function Checksum(data: seq<bv8>): bv16 {
    if data == [] then 0xFFFF else Invert(Divide(0xFFFF, Bits(data)))
  }

  function Invert(x: bv16): bv16 { !x }

  // ------------------------------------------------- the byte-wise shift trick

  /** The five assignments of the source's loop body. */
  function ShiftTrick(crc: bv16, b: bv8): bv16 {
    var swapped := ((crc >> 8) | (crc << 8)) ^ (b as bv16);
    var low := swapped ^ ((swapped & 0xFF) >> 4);
    var high := low ^ ((low << 8) << 4);
    high ^ (((high & 0xFF) << 4) << 1)
  }

  /** One, two and four division steps over the top bits of m in closed form: the bits shifted out
      return at positions 0, 5 and 12, and cannot leave the register again so soon. */
  function Step(x: bv16): bv16 {
    (x << 1) ^ (x >> 15) ^ ((x >> 15) << 5) ^ ((x >> 15) << 12)
  }

  function TwoBits(reg: bv16, m: bv16): bv16 {
    var x := reg ^ (m & 0xC000);
    (x << 2) ^ (x >> 14) ^ ((x >> 14) << 5) ^ ((x >> 14) << 12)
  }

  function FourBits(reg: bv16, m: bv16): bv16 {
    var x := reg ^ (m & 0xF000);
    (x << 4) ^ (x >> 12) ^ ((x >> 12) << 5) ^ ((x >> 12) << 12)
  }

  lemma FeedbackIsStep(x: bv16)
    ensures Feedback(x) == Step(x)
  {
    if x & 0x8000 != 0 {
      assert x >> 15 == 1;
    } else {
      assert x >> 15 == 0;
    }
  }

  lemma ShiftClosed(reg: bv16, bit: bv1)
    ensures var x := reg ^ ((bit as bv16) << 15);
            Shift(reg, bit) == (x << 1) ^ (x >> 15) ^ ((x >> 15) << 5) ^ ((x >> 15) << 12)
  {
    hide Feedback;
    FeedbackIsStep(reg ^ ((bit as bv16) << 15));
  }

  lemma TwoBitsClosed(reg: bv16, m: bv16)
    ensures var x := reg ^ (m & 0xC000);
            TwoBits(reg, m) == (x << 2) ^ (x >> 14) ^ ((x >> 14) << 5) ^ ((x >> 14) << 12)
  {}

  lemma TwoShifts(reg: bv16, a: bv1, b: bv1)
    ensures Shift(Shift(reg, a), b) == TwoBits(reg, ((a as bv16) << 15) | ((b as bv16) << 14))
  {
    hide Shift, TwoBits;
    ShiftClosed(reg, a);
    ShiftClosed(var x := reg ^ ((a as bv16) << 15);
                (x << 1) ^ (x >> 15) ^ ((x >> 15) << 5) ^ ((x >> 15) << 12), b);
    TwoBitsClosed(reg, ((a as bv16) << 15) | ((b as bv16) << 14));
  }

  lemma TwoTwice(reg: bv16, m: bv16)
    ensures TwoBits(TwoBits(reg, m), m << 2) == FourBits(reg, m)
  {
    assert TwoBits(var x := reg ^ (m & 0xC000);
                   (x << 2) ^ (x >> 14) ^ ((x >> 14) << 5) ^ ((x >> 14) << 12), m << 2) == FourBits(reg, m);
  }

  lemma FourTwice(reg: bv16, b: bv8)
    ensures FourBits(FourBits(reg, (b as bv16) << 8), (b as bv16) << 12) == ShiftTrick(reg, b)
  {
    assert FourBits(var x := reg ^ (((b as bv16) << 8) & 0xF000);
                    (x << 4) ^ (x >> 12) ^ ((x >> 12) << 5) ^ ((x >> 12) << 12), (b as bv16) << 12) == ShiftTrick(reg, b);
  }

  lemma DivideFour(reg: bv16, s: seq<bv1>)
    requires |s| == 4
    ensures Divide(reg, s) == Shift(Shift(Shift(Shift(reg, s[0]), s[1]), s[2]), s[3])
  {
    hide Shift;
    var r1 := Shift(reg, s[0]);
    var r2 := Shift(r1, s[1]);
    var r3 := Shift(r2, s[2]);
    assert Divide(r3, s[3..]) == Divide(Shift(r3, s[3]), s[4..]) by { assert s[3..][1..] == s[4..]; }
    assert Divide(r2, s[2..]) == Divide(r3, s[3..]) by { assert s[2..][1..] == s[3..]; }
    assert Divide(r1, s[1..]) == Divide(r2, s[2..]) by { assert s[1..][1..] == s[2..]; }
  }

  lemma {:induction false} DivideConcat(reg: bv16, a: seq<bv1>, b: seq<bv1>)
    ensures Divide(reg, a + b) == Divide(Divide(reg, a), b)
    decreases |a|
  {
    hide Shift;
    if a == [] {
      assert a + b == b;
    } else {
      assert (a + b)[1..] == a[1..] + b;
      DivideConcat(Shift(reg, a[0]), a[1..], b);
    }
  }

  lemma NibbleMask(a: bv1, b: bv1, c: bv1, d: bv1, m: bv16)
    requires m == ((a as bv16) << 15) | ((b as bv16) << 14) | ((c as bv16) << 13) | ((d as bv16) << 12)
    ensures m & 0xC000 == (((a as bv16) << 15) | ((b as bv16) << 14)) & 0xC000
    ensures (m << 2) & 0xC000 == (((c as bv16) << 15) | ((d as bv16) << 14)) & 0xC000
  {}

  lemma FourShifts(reg: bv16, s: seq<bv1>, m: bv16)
    requires |s| == 4
    requires m == ((s[0] as bv16) << 15) | ((s[1] as bv16) << 14) | ((s[2] as bv16) << 13) | ((s[3] as bv16) << 12)
    ensures Divide(reg, s) == FourBits(reg, m)
  {
    NibbleMask(s[0], s[1], s[2], s[3], m);
    assert TwoBits(reg, m) == TwoBits(reg, ((s[0] as bv16) << 15) | ((s[1] as bv16) << 14));
    var mid := TwoBits(reg, m);
    assert TwoBits(mid, m << 2) == TwoBits(mid, ((s[2] as bv16) << 15) | ((s[3] as bv16) << 14));
    hide Shift, TwoBits, FourBits;
    DivideFour(reg, s);
    TwoShifts(reg, s[0], s[1]);
    TwoShifts(mid, s[2], s[3]);
    TwoTwice(reg, m);
  }

  lemma ByteMasks(b: bv8, m: bv16)
    requires m == (b as bv16) << 8
    ensures var s := ByteBits(b);
            && m & 0xF000 == ((s[0] as bv16) << 15) | ((s[1] as bv16) << 14) | ((s[2] as bv16) << 13) | ((s[3] as bv16) << 12)
            && (m << 4) & 0xF000 == ((s[4] as bv16) << 15) | ((s[5] as bv16) << 14) | ((s[6] as bv16) << 13) | ((s[7] as bv16) << 12)
  {}

  /** The source's loop body is eight steps of the long division. */
  lemma ShiftTrickDivides(crc: bv16, b: bv8)
    ensures ShiftTrick(crc, b) == Divide(crc, ByteBits(b))
  {
    hide Divide, FourBits, ShiftTrick, ByteBits;
    var s, m := ByteBits(b), (b as bv16) << 8;
    ByteMasks(b, m);
    FourBitsMasked(crc, m);
    FourShifts(crc, s[..4], m & 0xF000);
    var mid := FourBits(crc, m);
    FourBitsMasked(mid, m << 4);
    FourShifts(mid, s[4..], (m << 4) & 0xF000);
    assert (b as bv16) << 12 == m << 4 by { hide *; }
    FourTwice(crc, b);
    assert s == s[..4] + s[4..];
    DivideConcat(crc, s[..4], s[4..]);
  }

  lemma FourBitsMasked(reg: bv16, m: bv16)
    ensures FourBits(reg, m) == FourBits(reg, m & 0xF000)
  {
    assert (m & 0xF000) & 0xF000 == m & 0xF000;
  }

  /** CalculateCRC16: the byte-wise loop computes the long division. */
  method CalculateCRC16(data: seq<bv8>) returns (crc: bv16)
    ensures crc == Checksum(data)
    ensures crc == if data == [] then 0xFFFF else !Divide(0xFFFF, Bits(data))
  {
    crc := 0xFFFF;
    if |data| > 0 {
      for offset := 0 to |data|
        invariant Divide(crc, Bits(data[offset..])) == Divide(0xFFFF, Bits(data))
      {
        ByteStep(crc, data[offset..]);
        crc := ShiftTrick(crc, data[offset]);
        assert data[offset..][1..] == data[offset + 1..];
      }
      crc := Invert(crc);
    }
  }

  lemma ByteStep(crc: bv16, rest: seq<bv8>)
    requires |rest| > 0
    ensures Divide(crc, Bits(rest)) == Divide(ShiftTrick(crc, rest[0]), Bits(rest[1..]))
  {
    hide ShiftTrick, Shift;
    ShiftTrickDivides(crc, rest[0]);
    DivideConcat(crc, ByteBits(rest[0]), Bits(rest[1..]));
  }

  // ----------------------------------------------------------- error detection

  function Xor(a: bv16, b: bv16): bv16 { a ^ b }

  lemma StepLinear(x: bv16, y: bv16)
    ensures Step(x ^ y) == Step(x) ^ Step(y)
  {}

  lemma FeedbackLinear(x: bv16, y: bv16)
    ensures Feedback(Xor(x, y)) == Xor(Feedback(x), Feedback(y))
  {
    assert Step(Xor(x, y)) == Xor(Step(x), Step(y)) by {
      StepLinear(x, y);
      hide Step;
    }
    hide *;
    FeedbackIsStep(x);
    FeedbackIsStep(y);
    FeedbackIsStep(Xor(x, y));
  }

  lemma MeetLinear(r: bv16, s: bv16, a: bv1, b: bv1)
    ensures Xor(Meet(r, a), Meet(s, b)) == Meet(Xor(r, s), a ^ b)
  {
    assert Xor(r ^ ((a as bv16) << 15), s ^ ((b as bv16) << 15)) == Meet(r ^ s, a ^ b);
  }

  /** The division register is linear over exclusive or. */
  lemma ShiftLinear(r: bv16, s: bv16, a: bv1, b: bv1)
    ensures Xor(Shift(r, a), Shift(s, b)) == Shift(Xor(r, s), a ^ b)
  {
    hide Feedback, Meet, Xor;
    FeedbackLinear(Meet(r, a), Meet(s, b));
    MeetLinear(r, s, a, b);
  }

  lemma {:induction false} DivideLinear(r: bv16, s: bv16, a: seq<bv1>, b: seq<bv1>)
    requires |a| == |b|
    ensures Xor(Divide(r, a), Divide(s, b)) == Divide(Xor(r, s), XorBits(a, b))
    decreases |a|
  {
    hide Shift, Xor;
    if a != [] {
      ShiftLinear(r, s, a[0], b[0]);
      DivideLinear(Shift(r, a[0]), Shift(s, b[0]), a[1..], b[1..]);
      assert XorBits(a, b)[1..] == XorBits(a[1..], b[1..]);
    }
  }

  /** 0xFFFF shifted right k times. */
  function LowMask(k: nat): bv16 {
    if k == 0 then 0xFFFF else LowMask(k - 1) >> 1
  }

  lemma LowMaskOdd(k: nat)
    requires k <= 15
    ensures LowMask(k) & 1 == 1
  {
    assert LowMask(4) == 0x0FFF;
    assert LowMask(8) == 0x00FF;
    assert LowMask(12) == 0x000F;
    assert LowMask(15) == 0x0001;
  }

  lemma BackStep(c: bv16, b: bv1, m: bv16)
    requires m & 1 == 1 && Shift(c, b) & m == 0
    ensures c & (m >> 1) == 0
    ensures c == 0 ==> b == 0 && Shift(c, b) == 0
  {}

  lemma XorZero(a: bv16, b: bv16)
    ensures Xor(a, b) == 0 <==> a == b
  {
    hide Xor;
    XorUndo(a, b);
    XorUndo(0, b);
    XorSelf(b);
  }

  lemma XorSelf(a: bv16)
    ensures Xor(a, a) == 0 && Xor(0, a) == a
  {}

  lemma XorUndo(a: bv16, b: bv16)
    ensures Xor(Xor(a, b), b) == a
  {
    assert Xor(a ^ b, b) == a;
  }

  lemma ZeroShift(c: bv16)
    ensures Shift(c, 0) == 0 ==> c == 0
  {}

  /** A window of k <= 16 message bits clears the register only if the register's low 16 - k bits are
      clear before; a register that is clear before is cleared only by a window of zeros. */
  lemma {:induction false} WindowKernel(c: bv16, w: seq<bv1>)
    requires |w| <= 16 && Divide(c, w) == 0
    ensures c & LowMask(|w|) == 0
    ensures c == 0 ==> forall i :: 0 <= i < |w| ==> w[i] == 0
    decreases |w|
  {
    hide Shift;
    if w == [] {
      assert c & 0xFFFF == c;
    } else {
      WindowKernel(Shift(c, w[0]), w[1..]);
      LowMaskOdd(|w| - 1);
      BackStep(c, w[0], LowMask(|w| - 1));
      assert forall i :: 1 <= i < |w| ==> w[i] == w[1..][i - 1];
    }
  }

  lemma {:induction false} ZeroTail(c: bv16, z: seq<bv1>)
    requires Divide(c, z) == 0 && forall i :: 0 <= i < |z| ==> z[i] == 0
    ensures c == 0
    decreases |z|
  {
    hide Shift;
    if z != [] {
      ZeroTail(Shift(c, z[0]), z[1..]);
      ZeroShift(c);
    }
  }

  /** Two bit streams that differ only inside one window of at most 16 bits leave different
      registers, wherever the window lies and whatever the register held before. */
  lemma BurstDetected(c: bv16, before: seq<bv1>, u: seq<bv1>, v: seq<bv1>, after: seq<bv1>)
    requires |u| == |v| <= 16 && u != v
    ensures Divide(c, before + u + after) != Divide(c, before + v + after)
  {
    hide Divide, Xor;
    DivideConcat(c, before + u, after);
    DivideConcat(c, before, u);
    DivideConcat(c, before + v, after);
    DivideConcat(c, before, v);
    var d := Divide(c, before);
    var du, dv := Divide(d, u), Divide(d, v);
    if Divide(du, after) == Divide(dv, after) {
      XorZero(Divide(du, after), Divide(dv, after));
      DivideLinear(du, dv, after, after);
      XorBitsZero(after, after);
      ZeroTail(Xor(du, dv), XorBits(after, after));
      DivideLinear(d, d, u, v);
      XorZero(d, d);
      WindowKernel(0, XorBits(u, v));
      XorBitsZero(u, v);
    }
  }

  // ------------------------------------------------------------------ on bytes

  lemma {:induction false} BitsConcat(a: seq<bv8>, b: seq<bv8>)
    ensures Bits(a + b) == Bits(a) + Bits(b)
  {
    hide ByteBits;
    if a == [] {
      assert a + b == b;
    } else {
      assert (a + b)[1..] == a[1..] + b;
      BitsConcat(a[1..], b);
      assert ByteBits(a[0]) + (Bits(a[1..]) + Bits(b)) == ByteBits(a[0]) + Bits(a[1..]) + Bits(b);
    }
  }

  lemma ByteBitsInjective(a: bv8, b: bv8)
    requires ByteBits(a) == ByteBits(b)
    ensures a == b
  {}

  lemma {:induction false} BitsInjective(a: seq<bv8>, b: seq<bv8>)
    requires |a| == |b| && Bits(a) == Bits(b)
    ensures a == b
  {
    hide ByteBits;
    if a != [] {
      assert ByteBits(a[0]) == Bits(a)[..8] && Bits(a[1..]) == Bits(a)[8..];
      assert ByteBits(b[0]) == Bits(b)[..8] && Bits(b[1..]) == Bits(b)[8..];
      ByteBitsInjective(a[0], b[0]);
      BitsInjective(a[1..], b[1..]);
      assert a == [a[0]] + a[1..] && b == [b[0]] + b[1..];
    }
  }

  /** Any change confined to two adjacent bytes of a buffer changes its checksum. */
  lemma AdjacentBytesDetected(before: seq<bv8>, u: seq<bv8>, v: seq<bv8>, after: seq<bv8>)
    requires |u| == |v| <= 2 && u != v
    ensures Checksum(before + u + after) != Checksum(before + v + after)
  {
    hide Divide, Bits, Invert;
    BitsConcat(before + u, after);
    BitsConcat(before, u);
    BitsConcat(before + v, after);
    BitsConcat(before, v);
    if Bits(u) == Bits(v) {
      BitsInjective(u, v);
    }
    BurstDetected(0xFFFF, Bits(before), Bits(u), Bits(v), Bits(after));
    InvertTwice(Divide(0xFFFF, Bits(before + u + after)));
    InvertTwice(Divide(0xFFFF, Bits(before + v + after)));
  }

  lemma CheckStep(c: bv16, data: seq<bv8>, i: nat)
    requires i < |data|
    ensures Divide(c, Bits(data[i..])) == Divide(ShiftTrick(c, data[i]), Bits(data[i + 1..]))
  {
    hide Divide, ShiftTrick, Bits;
    assert data[i..][1..] == data[i + 1..];
    ByteStep(c, data[i..]);
  }

  lemma CheckValues()
    ensures ShiftTrick(0xFFFF, 0x31) == 0xC782
    ensures ShiftTrick(0xC782, 0x32) == 0x3DBA
    ensures ShiftTrick(0x3DBA, 0x33) == 0x5BCE
    ensures ShiftTrick(0x5BCE, 0x34) == 0x5349
    ensures ShiftTrick(0x5349, 0x35) == 0x4560
    ensures ShiftTrick(0x4560, 0x36) == 0x2EF4
    ensures ShiftTrick(0x2EF4, 0x37) == 0x7718
    ensures ShiftTrick(0x7718, 0x38) == 0xA12B
    ensures ShiftTrick(0xA12B, 0x39) == 0x29B1
  {}

  /** The check value of this CRC: that of the nine characters "123456789" is 0xD64E. */
  lemma CheckValue()
    ensures Checksum([0x31, 0x32, 0x33, 0x34, 0x35, 0x36, 0x37, 0x38, 0x39]) == 0xD64E
  {
    var data: seq<bv8> := [0x31, 0x32, 0x33, 0x34, 0x35, 0x36, 0x37, 0x38, 0x39];
    CheckRegister(data);
    hide Divide;
    assert Invert(0x29B1) == 0xD64E;
  }

  lemma CheckRegister(data: seq<bv8>)
    requires data == [0x31, 0x32, 0x33, 0x34, 0x35, 0x36, 0x37, 0x38, 0x39]
    ensures Divide(0xFFFF, Bits(data)) == 0x29B1
  {
    hide Divide, Bits, ShiftTrick;
    CheckEmpty(0x29B1);
    CheckValues();
    CheckStep(0xFFFF, data, 0);
    CheckStep(0xC782, data, 1);
    CheckStep(0x3DBA, data, 2);
    CheckStep(0x5BCE, data, 3);
    CheckStep(0x5349, data, 4);
    CheckStep(0x4560, data, 5);
    CheckStep(0x2EF4, data, 6);
    CheckStep(0x7718, data, 7);
    CheckStep(0xA12B, data, 8);
    assert data[0..] == data && data[9..] == [];
  }

  lemma CheckEmpty(c: bv16)
    ensures Divide(c, Bits([])) == c
  {}

  /** A payload whose checksum is zero. */
  lemma ZeroWitness()
    ensures Checksum([0x7B, 0x30]) == 0
  {
    var data: seq<bv8> := [0x7B, 0x30];
    assert data[1..] == [0x30] && data[1..][1..] == [];
    ByteStep(0xFFFF, data);
    ByteStep(0x2E0C, data[1..]);
    assert ShiftTrick(0xFFFF, 0x7B) == 0x2E0C && ShiftTrick(0x2E0C, 0x30) == 0xFFFF;
    hide ShiftTrick;
    assert Divide(0xFFFF, Bits(data)) == 0xFFFF by { assert Bits([]) == []; }
    assert Invert(0xFFFF) == 0;
  }

  lemma InvertTwice(x: bv16)
    ensures Invert(Invert(x)) == x
  {
    assert Invert(!x) == x;
  }
}
