/** Streaming MD5 (libcifx/Toolkit/Source/Hilmd5.c) against the one-shot definition of
    sections 3.1 to 3.5 of RFC 1321. */
module Md5 {
  import opened Bytes

  type Word = bv32

  // ---------------------------------------------------------------- reference

  datatype Regs = Regs(a: Word, b: Word, c: Word, d: Word)

  /** Section 3.3: the initial buffer. */
  const IV := Regs(0x67452301, 0xEFCDAB89, 0x98BADCFE, 0x10325476)

  // Section 3.4: the four auxiliary functions.
  function F(x: Word, y: Word, z: Word): Word { (x & y) | (!x & z) }
  function G(x: Word, y: Word, z: Word): Word { (x & z) | (y & !z) }
  function H(x: Word, y: Word, z: Word): Word { x ^ y ^ z }
  function I(x: Word, y: Word, z: Word): Word { y ^ (x | !z) }

  function RotateLeft(x: Word, s: bv6): Word
    requires 0 < s < 32
  {
    (x << s) | (x >> (32 - s))
  }

  /** a = b + ((a + mix + x + t) <<< s) */
  function Operation(a: Word, b: Word, mix: Word, x: Word, s: bv6, t: Word): Word
    requires 0 < s < 32
  {
    b + RotateLeft(a + mix + x + t, s)
  }

  // Section 3.4: the table of integer parts of 4294967296 * |sin(i)|, sixteen for each round.
  const SINES_1: seq<Word> := [
    0xD76AA478, 0xE8C7B756, 0x242070DB, 0xC1BDCEEE, 0xF57C0FAF, 0x4787C62A, 0xA8304613, 0xFD469501,
    0x698098D8, 0x8B44F7AF, 0xFFFF5BB1, 0x895CD7BE, 0x6B901122, 0xFD987193, 0xA679438E, 0x49B40821
  ]
  const SINES_2: seq<Word> := [
    0xF61E2562, 0xC040B340, 0x265E5A51, 0xE9B6C7AA, 0xD62F105D, 0x02441453, 0xD8A1E681, 0xE7D3FBC8,
    0x21E1CDE6, 0xC33707D6, 0xF4D50D87, 0x455A14ED, 0xA9E3E905, 0xFCEFA3F8, 0x676F02D9, 0x8D2A4C8A
  ]
  const SINES_3: seq<Word> := [
    0xFFFA3942, 0x8771F681, 0x6D9D6122, 0xFDE5380C, 0xA4BEEA44, 0x4BDECFA9, 0xF6BB4B60, 0xBEBFBC70,
    0x289B7EC6, 0xEAA127FA, 0xD4EF3085, 0x04881D05, 0xD9D4D039, 0xE6DB99E5, 0x1FA27CF8, 0xC4AC5665
  ]
  const SINES_4: seq<Word> := [
    0xF4292244, 0x432AFF97, 0xAB9423A7, 0xFC93A039, 0x655B59C3, 0x8F0CCC92, 0xFFEFF47D, 0x85845DD1,
    0x6FA87E4F, 0xFE2CE6E0, 0xA3014314, 0x4E0811A1, 0xF7537E82, 0xBD3AF235, 0x2AD7D2BB, 0xEB86D391
  ]

  /** What step i adds, rotates by and reads, by round. */
  function Mix(i: nat, b: Word, c: Word, d: Word): Word {
    if i < 16 then F(b, c, d) else if i < 32 then G(b, c, d) else if i < 48 then H(b, c, d) else I(b, c, d)
  }

  function Sine(i: nat): Word
    requires i < 64
  {
    if i < 16 then SINES_1[i] else if i < 32 then SINES_2[i - 16]
    else if i < 48 then SINES_3[i - 32] else SINES_4[i - 48]
  }

  function WordIndex(i: nat): (k: nat)
    ensures k < 16
  {
    if i < 16 then i else if i < 32 then (5 * i + 1) % 16 else if i < 48 then (3 * i + 5) % 16 else 7 * i % 16
  }

  function Amount(i: nat): (s: bv6)
    ensures 0 < s < 32
  {
    if i < 16 then Pick(i, 7, 12, 17, 22) else if i < 32 then Pick(i, 5, 9, 14, 20)
    else if i < 48 then Pick(i, 4, 11, 16, 23) else Pick(i, 6, 10, 15, 21)
  }

  function Pick(i: nat, s0: bv6, s1: bv6, s2: bv6, s3: bv6): bv6 {
    if i % 4 == 0 then s0 else if i % 4 == 1 then s1 else if i % 4 == 2 then s2 else s3
  }

  /** One of the 64 steps; the registers move on by one place. */
  function Step(r: Regs, x: seq<Word>, i: nat): Regs
    requires |x| == 16 && i < 64
  {
    Regs(r.d, Operation(r.a, r.b, Mix(i, r.b, r.c, r.d), x[WordIndex(i)], Amount(i), Sine(i)), r.b, r.c)
  }

  function Steps(n: nat, r: Regs, x: seq<Word>): Regs
    requires |x| == 16 && n <= 64
  {
    if n == 0 then r else Step(Steps(n - 1, r, x), x, n - 1)
  }

  function WordAt(s: seq<bv8>, i: nat): Word
    requires i + 4 <= |s|
  {
    (s[i] as Word) + ((s[i + 1] as Word) << 8) + ((s[i + 2] as Word) << 16) + ((s[i + 3] as Word) << 24)
  }

  function Words(block: seq<bv8>): (x: seq<Word>)
    requires |block| == 64
    ensures |x| == 16
  {
    seq(16, i requires 0 <= i < 16 => WordAt(block, 4 * i))
  }

  function Compress(r: Regs, block: seq<bv8>): Regs
    requires |block| == 64
  {
    Plus(r, Steps(64, r, Words(block)))
  }

  function Plus(r: Regs, s: Regs): Regs {
    Regs(r.a + s.a, r.b + s.b, r.c + s.c, r.d + s.d)
  }

  // ------------------------------------------------------- the unrolled rounds

  const T_MASK: Word := 0xFFFFFFFF

  /** The source's SET macro, given the value of the round's auxiliary function. */
  function Set(a: Word, b: Word, mix: Word, x: Word, s: bv6, t: Word): Word
    requires 0 < s < 32
  {
    RotateLeft(a + mix + x + t, s) + b
  }

  lemma SetIsOperation(a: Word, b: Word, mix: Word, x: Word, s: bv6, t: Word)
    requires 0 < s < 32
    ensures Set(a, b, mix, x, s, t) == Operation(a, b, mix, x, s, t)
  {
    hide RotateLeft;
  }

  /** One SET performs the next of the 64 steps. */
  lemma Advance(i: nat, start: Regs, x: seq<Word>, v: Word)
    requires |x| == 16 && i < 64
    requires var r := Steps(i, start, x);
             v == Set(r.a, r.b, Mix(i, r.b, r.c, r.d), x[WordIndex(i)], Amount(i), Sine(i))
    ensures var r := Steps(i, start, x);
            Steps(i + 1, start, x) == Regs(r.d, v, r.b, r.c)
  {
    hide Set, Operation, Mix, WordIndex, Amount, Sine;
    var r := Steps(i, start, x);
    SetIsOperation(r.a, r.b, Mix(i, r.b, r.c, r.d), x[WordIndex(i)], Amount(i), Sine(i));
  }

  lemma Parameters1()
    ensures WordIndex(0) == 0 && Amount(0) == 7
    ensures WordIndex(1) == 1 && Amount(1) == 12
    ensures WordIndex(2) == 2 && Amount(2) == 17
    ensures WordIndex(3) == 3 && Amount(3) == 22
    ensures WordIndex(4) == 4 && Amount(4) == 7
    ensures WordIndex(5) == 5 && Amount(5) == 12
    ensures WordIndex(6) == 6 && Amount(6) == 17
    ensures WordIndex(7) == 7 && Amount(7) == 22
    ensures WordIndex(8) == 8 && Amount(8) == 7
    ensures WordIndex(9) == 9 && Amount(9) == 12
    ensures WordIndex(10) == 10 && Amount(10) == 17
    ensures WordIndex(11) == 11 && Amount(11) == 22
    ensures WordIndex(12) == 12 && Amount(12) == 7
    ensures WordIndex(13) == 13 && Amount(13) == 12
    ensures WordIndex(14) == 14 && Amount(14) == 17
    ensures WordIndex(15) == 15 && Amount(15) == 22
    ensures forall i, b, c, d | 0 <= i < 16 :: Mix(i, b, c, d) == F(b, c, d)
  {
    hide F, G, H, I;
  }

  lemma Sines1()
    ensures Sine(0) == T_MASK ^ 0x28955b87
    ensures Sine(1) == T_MASK ^ 0x173848a9
    ensures Sine(2) == 0x242070db
    ensures Sine(3) == T_MASK ^ 0x3e423111
    ensures Sine(4) == T_MASK ^ 0x0a83f050
    ensures Sine(5) == 0x4787c62a
    ensures Sine(6) == T_MASK ^ 0x57cfb9ec
    ensures Sine(7) == T_MASK ^ 0x02b96afe
    ensures Sine(8) == 0x698098d8
    ensures Sine(9) == T_MASK ^ 0x74bb0850
    ensures Sine(10) == T_MASK ^ 0x0000a44e
    ensures Sine(11) == T_MASK ^ 0x76a32841
    ensures Sine(12) == 0x6b901122
    ensures Sine(13) == T_MASK ^ 0x02678e6c
    ensures Sine(14) == T_MASK ^ 0x5986bc71
    ensures Sine(15) == 0x49b40821
  {}

  method Round1(r: Regs, x: seq<Word>, ghost start: Regs) returns (a: Word, b: Word, c: Word, d: Word)
    requires |x| == 16 && r == Steps(0, start, x)
    ensures Regs(a, b, c, d) == Steps(16, start, x)
  {
    hide Set, Mix, WordIndex, Amount, Sine, Steps, F, G, H, I;
    Parameters1();
    Sines1();
    a, b, c, d := r.a, r.b, r.c, r.d;
    a := Set(a, b, F(b, c, d), x[0], 7, T_MASK ^ 0x28955b87);
    Advance(0, start, x, a);
    d := Set(d, a, F(a, b, c), x[1], 12, T_MASK ^ 0x173848a9);
    Advance(1, start, x, d);
    c := Set(c, d, F(d, a, b), x[2], 17, 0x242070db);
    Advance(2, start, x, c);
    b := Set(b, c, F(c, d, a), x[3], 22, T_MASK ^ 0x3e423111);
    Advance(3, start, x, b);
    a := Set(a, b, F(b, c, d), x[4], 7, T_MASK ^ 0x0a83f050);
    Advance(4, start, x, a);
    d := Set(d, a, F(a, b, c), x[5], 12, 0x4787c62a);
    Advance(5, start, x, d);
    c := Set(c, d, F(d, a, b), x[6], 17, T_MASK ^ 0x57cfb9ec);
    Advance(6, start, x, c);
    b := Set(b, c, F(c, d, a), x[7], 22, T_MASK ^ 0x02b96afe);
    Advance(7, start, x, b);
    a := Set(a, b, F(b, c, d), x[8], 7, 0x698098d8);
    Advance(8, start, x, a);
    d := Set(d, a, F(a, b, c), x[9], 12, T_MASK ^ 0x74bb0850);
    Advance(9, start, x, d);
    c := Set(c, d, F(d, a, b), x[10], 17, T_MASK ^ 0x0000a44e);
    Advance(10, start, x, c);
    b := Set(b, c, F(c, d, a), x[11], 22, T_MASK ^ 0x76a32841);
    Advance(11, start, x, b);
    a := Set(a, b, F(b, c, d), x[12], 7, 0x6b901122);
    Advance(12, start, x, a);
    d := Set(d, a, F(a, b, c), x[13], 12, T_MASK ^ 0x02678e6c);
    Advance(13, start, x, d);
    c := Set(c, d, F(d, a, b), x[14], 17, T_MASK ^ 0x5986bc71);
    Advance(14, start, x, c);
    b := Set(b, c, F(c, d, a), x[15], 22, 0x49b40821);
    Advance(15, start, x, b);
  }

  lemma Parameters2()
    ensures WordIndex(16) == 1 && Amount(16) == 5
    ensures WordIndex(17) == 6 && Amount(17) == 9
    ensures WordIndex(18) == 11 && Amount(18) == 14
    ensures WordIndex(19) == 0 && Amount(19) == 20
    ensures WordIndex(20) == 5 && Amount(20) == 5
    ensures WordIndex(21) == 10 && Amount(21) == 9
    ensures WordIndex(22) == 15 && Amount(22) == 14
    ensures WordIndex(23) == 4 && Amount(23) == 20
    ensures WordIndex(24) == 9 && Amount(24) == 5
    ensures WordIndex(25) == 14 && Amount(25) == 9
    ensures WordIndex(26) == 3 && Amount(26) == 14
    ensures WordIndex(27) == 8 && Amount(27) == 20
    ensures WordIndex(28) == 13 && Amount(28) == 5
    ensures WordIndex(29) == 2 && Amount(29) == 9
    ensures WordIndex(30) == 7 && Amount(30) == 14
    ensures WordIndex(31) == 12 && Amount(31) == 20
    ensures forall i, b, c, d | 16 <= i < 32 :: Mix(i, b, c, d) == G(b, c, d)
  {
    hide F, G, H, I;
  }

  lemma Sines2()
    ensures Sine(16) == T_MASK ^ 0x09e1da9d
    ensures Sine(17) == T_MASK ^ 0x3fbf4cbf
    ensures Sine(18) == 0x265e5a51
    ensures Sine(19) == T_MASK ^ 0x16493855
    ensures Sine(20) == T_MASK ^ 0x29d0efa2
    ensures Sine(21) == 0x02441453
    ensures Sine(22) == T_MASK ^ 0x275e197e
    ensures Sine(23) == T_MASK ^ 0x182c0437
    ensures Sine(24) == 0x21e1cde6
    ensures Sine(25) == T_MASK ^ 0x3cc8f829
    ensures Sine(26) == T_MASK ^ 0x0b2af278
    ensures Sine(27) == 0x455a14ed
    ensures Sine(28) == T_MASK ^ 0x561c16fa
    ensures Sine(29) == T_MASK ^ 0x03105c07
    ensures Sine(30) == 0x676f02d9
    ensures Sine(31) == T_MASK ^ 0x72d5b375
  {}

  method Round2(r: Regs, x: seq<Word>, ghost start: Regs) returns (a: Word, b: Word, c: Word, d: Word)
    requires |x| == 16 && r == Steps(16, start, x)
    ensures Regs(a, b, c, d) == Steps(32, start, x)
  {
    hide Set, Mix, WordIndex, Amount, Sine, Steps, F, G, H, I;
    Parameters2();
    Sines2();
    a, b, c, d := r.a, r.b, r.c, r.d;
    a := Set(a, b, G(b, c, d), x[1], 5, T_MASK ^ 0x09e1da9d);
    Advance(16, start, x, a);
    d := Set(d, a, G(a, b, c), x[6], 9, T_MASK ^ 0x3fbf4cbf);
    Advance(17, start, x, d);
    c := Set(c, d, G(d, a, b), x[11], 14, 0x265e5a51);
    Advance(18, start, x, c);
    b := Set(b, c, G(c, d, a), x[0], 20, T_MASK ^ 0x16493855);
    Advance(19, start, x, b);
    a := Set(a, b, G(b, c, d), x[5], 5, T_MASK ^ 0x29d0efa2);
    Advance(20, start, x, a);
    d := Set(d, a, G(a, b, c), x[10], 9, 0x02441453);
    Advance(21, start, x, d);
    c := Set(c, d, G(d, a, b), x[15], 14, T_MASK ^ 0x275e197e);
    Advance(22, start, x, c);
    b := Set(b, c, G(c, d, a), x[4], 20, T_MASK ^ 0x182c0437);
    Advance(23, start, x, b);
    a := Set(a, b, G(b, c, d), x[9], 5, 0x21e1cde6);
    Advance(24, start, x, a);
    d := Set(d, a, G(a, b, c), x[14], 9, T_MASK ^ 0x3cc8f829);
    Advance(25, start, x, d);
    c := Set(c, d, G(d, a, b), x[3], 14, T_MASK ^ 0x0b2af278);
    Advance(26, start, x, c);
    b := Set(b, c, G(c, d, a), x[8], 20, 0x455a14ed);
    Advance(27, start, x, b);
    a := Set(a, b, G(b, c, d), x[13], 5, T_MASK ^ 0x561c16fa);
    Advance(28, start, x, a);
    d := Set(d, a, G(a, b, c), x[2], 9, T_MASK ^ 0x03105c07);
    Advance(29, start, x, d);
    c := Set(c, d, G(d, a, b), x[7], 14, 0x676f02d9);
    Advance(30, start, x, c);
    b := Set(b, c, G(c, d, a), x[12], 20, T_MASK ^ 0x72d5b375);
    Advance(31, start, x, b);
  }

  lemma Parameters3()
    ensures WordIndex(32) == 5 && Amount(32) == 4
    ensures WordIndex(33) == 8 && Amount(33) == 11
    ensures WordIndex(34) == 11 && Amount(34) == 16
    ensures WordIndex(35) == 14 && Amount(35) == 23
    ensures WordIndex(36) == 1 && Amount(36) == 4
    ensures WordIndex(37) == 4 && Amount(37) == 11
    ensures WordIndex(38) == 7 && Amount(38) == 16
    ensures WordIndex(39) == 10 && Amount(39) == 23
    ensures WordIndex(40) == 13 && Amount(40) == 4
    ensures WordIndex(41) == 0 && Amount(41) == 11
    ensures WordIndex(42) == 3 && Amount(42) == 16
    ensures WordIndex(43) == 6 && Amount(43) == 23
    ensures WordIndex(44) == 9 && Amount(44) == 4
    ensures WordIndex(45) == 12 && Amount(45) == 11
    ensures WordIndex(46) == 15 && Amount(46) == 16
    ensures WordIndex(47) == 2 && Amount(47) == 23
    ensures forall i, b, c, d | 32 <= i < 48 :: Mix(i, b, c, d) == H(b, c, d)
  {
    hide F, G, H, I;
  }

  lemma Sines3()
    ensures Sine(32) == T_MASK ^ 0x0005c6bd
    ensures Sine(33) == T_MASK ^ 0x788e097e
    ensures Sine(34) == 0x6d9d6122
    ensures Sine(35) == T_MASK ^ 0x021ac7f3
    ensures Sine(36) == T_MASK ^ 0x5b4115bb
    ensures Sine(37) == 0x4bdecfa9
    ensures Sine(38) == T_MASK ^ 0x0944b49f
    ensures Sine(39) == T_MASK ^ 0x4140438f
    ensures Sine(40) == 0x289b7ec6
    ensures Sine(41) == T_MASK ^ 0x155ed805
    ensures Sine(42) == T_MASK ^ 0x2b10cf7a
    ensures Sine(43) == 0x04881d05
    ensures Sine(44) == T_MASK ^ 0x262b2fc6
    ensures Sine(45) == T_MASK ^ 0x1924661a
    ensures Sine(46) == 0x1fa27cf8
    ensures Sine(47) == T_MASK ^ 0x3b53a99a
  {}

  method Round3(r: Regs, x: seq<Word>, ghost start: Regs) returns (a: Word, b: Word, c: Word, d: Word)
    requires |x| == 16 && r == Steps(32, start, x)
    ensures Regs(a, b, c, d) == Steps(48, start, x)
  {
    hide Set, Mix, WordIndex, Amount, Sine, Steps, F, G, H, I;
    Parameters3();
    Sines3();
    a, b, c, d := r.a, r.b, r.c, r.d;
    a := Set(a, b, H(b, c, d), x[5], 4, T_MASK ^ 0x0005c6bd);
    Advance(32, start, x, a);
    d := Set(d, a, H(a, b, c), x[8], 11, T_MASK ^ 0x788e097e);
    Advance(33, start, x, d);
    c := Set(c, d, H(d, a, b), x[11], 16, 0x6d9d6122);
    Advance(34, start, x, c);
    b := Set(b, c, H(c, d, a), x[14], 23, T_MASK ^ 0x021ac7f3);
    Advance(35, start, x, b);
    a := Set(a, b, H(b, c, d), x[1], 4, T_MASK ^ 0x5b4115bb);
    Advance(36, start, x, a);
    d := Set(d, a, H(a, b, c), x[4], 11, 0x4bdecfa9);
    Advance(37, start, x, d);
    c := Set(c, d, H(d, a, b), x[7], 16, T_MASK ^ 0x0944b49f);
    Advance(38, start, x, c);
    b := Set(b, c, H(c, d, a), x[10], 23, T_MASK ^ 0x4140438f);
    Advance(39, start, x, b);
    a := Set(a, b, H(b, c, d), x[13], 4, 0x289b7ec6);
    Advance(40, start, x, a);
    d := Set(d, a, H(a, b, c), x[0], 11, T_MASK ^ 0x155ed805);
    Advance(41, start, x, d);
    c := Set(c, d, H(d, a, b), x[3], 16, T_MASK ^ 0x2b10cf7a);
    Advance(42, start, x, c);
    b := Set(b, c, H(c, d, a), x[6], 23, 0x04881d05);
    Advance(43, start, x, b);
    a := Set(a, b, H(b, c, d), x[9], 4, T_MASK ^ 0x262b2fc6);
    Advance(44, start, x, a);
    d := Set(d, a, H(a, b, c), x[12], 11, T_MASK ^ 0x1924661a);
    Advance(45, start, x, d);
    c := Set(c, d, H(d, a, b), x[15], 16, 0x1fa27cf8);
    Advance(46, start, x, c);
    b := Set(b, c, H(c, d, a), x[2], 23, T_MASK ^ 0x3b53a99a);
    Advance(47, start, x, b);
  }

  lemma Parameters4()
    ensures WordIndex(48) == 0 && Amount(48) == 6
    ensures WordIndex(49) == 7 && Amount(49) == 10
    ensures WordIndex(50) == 14 && Amount(50) == 15
    ensures WordIndex(51) == 5 && Amount(51) == 21
    ensures WordIndex(52) == 12 && Amount(52) == 6
    ensures WordIndex(53) == 3 && Amount(53) == 10
    ensures WordIndex(54) == 10 && Amount(54) == 15
    ensures WordIndex(55) == 1 && Amount(55) == 21
    ensures WordIndex(56) == 8 && Amount(56) == 6
    ensures WordIndex(57) == 15 && Amount(57) == 10
    ensures WordIndex(58) == 6 && Amount(58) == 15
    ensures WordIndex(59) == 13 && Amount(59) == 21
    ensures WordIndex(60) == 4 && Amount(60) == 6
    ensures WordIndex(61) == 11 && Amount(61) == 10
    ensures WordIndex(62) == 2 && Amount(62) == 15
    ensures WordIndex(63) == 9 && Amount(63) == 21
    ensures forall i, b, c, d | 48 <= i < 64 :: Mix(i, b, c, d) == I(b, c, d)
  {
    hide F, G, H, I;
  }

  lemma Sines4()
    ensures Sine(48) == T_MASK ^ 0x0bd6ddbb
    ensures Sine(49) == 0x432aff97
    ensures Sine(50) == T_MASK ^ 0x546bdc58
    ensures Sine(51) == T_MASK ^ 0x036c5fc6
    ensures Sine(52) == 0x655b59c3
    ensures Sine(53) == T_MASK ^ 0x70f3336d
    ensures Sine(54) == T_MASK ^ 0x00100b82
    ensures Sine(55) == T_MASK ^ 0x7a7ba22e
    ensures Sine(56) == 0x6fa87e4f
    ensures Sine(57) == T_MASK ^ 0x01d3191f
    ensures Sine(58) == T_MASK ^ 0x5cfebceb
    ensures Sine(59) == 0x4e0811a1
    ensures Sine(60) == T_MASK ^ 0x08ac817d
    ensures Sine(61) == T_MASK ^ 0x42c50dca
    ensures Sine(62) == 0x2ad7d2bb
    ensures Sine(63) == T_MASK ^ 0x14792c6e
  {}

  method Round4(r: Regs, x: seq<Word>, ghost start: Regs) returns (a: Word, b: Word, c: Word, d: Word)
    requires |x| == 16 && r == Steps(48, start, x)
    ensures Regs(a, b, c, d) == Steps(64, start, x)
  {
    hide Set, Mix, WordIndex, Amount, Sine, Steps, F, G, H, I;
    Parameters4();
    Sines4();
    a, b, c, d := r.a, r.b, r.c, r.d;
    a := Set(a, b, I(b, c, d), x[0], 6, T_MASK ^ 0x0bd6ddbb);
    Advance(48, start, x, a);
    d := Set(d, a, I(a, b, c), x[7], 10, 0x432aff97);
    Advance(49, start, x, d);
    c := Set(c, d, I(d, a, b), x[14], 15, T_MASK ^ 0x546bdc58);
    Advance(50, start, x, c);
    b := Set(b, c, I(c, d, a), x[5], 21, T_MASK ^ 0x036c5fc6);
    Advance(51, start, x, b);
    a := Set(a, b, I(b, c, d), x[12], 6, 0x655b59c3);
    Advance(52, start, x, a);
    d := Set(d, a, I(a, b, c), x[3], 10, T_MASK ^ 0x70f3336d);
    Advance(53, start, x, d);
    c := Set(c, d, I(d, a, b), x[10], 15, T_MASK ^ 0x00100b82);
    Advance(54, start, x, c);
    b := Set(b, c, I(c, d, a), x[1], 21, T_MASK ^ 0x7a7ba22e);
    Advance(55, start, x, b);
    a := Set(a, b, I(b, c, d), x[8], 6, 0x6fa87e4f);
    Advance(56, start, x, a);
    d := Set(d, a, I(a, b, c), x[15], 10, T_MASK ^ 0x01d3191f);
    Advance(57, start, x, d);
    c := Set(c, d, I(d, a, b), x[6], 15, T_MASK ^ 0x5cfebceb);
    Advance(58, start, x, c);
    b := Set(b, c, I(c, d, a), x[13], 21, 0x4e0811a1);
    Advance(59, start, x, b);
    a := Set(a, b, I(b, c, d), x[4], 6, T_MASK ^ 0x08ac817d);
    Advance(60, start, x, a);
    d := Set(d, a, I(a, b, c), x[11], 10, T_MASK ^ 0x42c50dca);
    Advance(61, start, x, d);
    c := Set(c, d, I(d, a, b), x[2], 15, 0x2ad7d2bb);
    Advance(62, start, x, c);
    b := Set(b, c, I(c, d, a), x[9], 21, T_MASK ^ 0x14792c6e);
    Advance(63, start, x, b);
  }

  /** md5_process: the unrolled rounds compute the compression of one block. */
  method Process(r: Regs, block: seq<bv8>) returns (s: Regs)
    requires |block| == 64
    ensures s == Compress(r, block)
  {
    hide Steps, Words, Plus;
    var x := Words(block);
    assert r == Steps(0, r, x) by { NoSteps(r, x); }
    var a, b, c, d := Round1(r, x, r);
    a, b, c, d := Round2(Regs(a, b, c, d), x, r);
    a, b, c, d := Round3(Regs(a, b, c, d), x, r);
    a, b, c, d := Round4(Regs(a, b, c, d), x, r);
    s := Plus(r, Regs(a, b, c, d));
  }

  lemma NoSteps(r: Regs, x: seq<Word>)
    requires |x| == 16
    ensures Steps(0, r, x) == r
  {}

  // ------------------------------------------------------ the whole message

  function Blocks(r: Regs, m: seq<bv8>): Regs
    requires |m| % 64 == 0
    decreases |m|
  {
    if m == [] then r else Blocks(Compress(r, m[..64]), m[64..])
  }

  function LittleEndian(v: nat, n: nat): (s: seq<bv8>)
    ensures |s| == n
    decreases n
  {
    if n == 0 then [] else [LowByte(v)] + LittleEndian(v / 256, n - 1)
  }

  /** Sections 3.1 and 3.2: a one bit, zeros up to 56 modulo 64 bytes, and the length in bits
      modulo 2^64, low byte first. */
  function Padded(m: seq<bv8>): (p: seq<bv8>)
    ensures |p| % 64 == 0
  {
    PadFits(|m|);
    m + [0x80] + Zeros((55 - |m|) % 64) + LittleEndian(8 * |m| % 0x1_0000_0000_0000_0000, 8)
  }

  lemma PadFits(n: nat)
    ensures (n + 1 + (55 - n) % 64 + 8) % 64 == 0
  {
    var q := (55 - n) / 64;
    assert n + 1 + (55 - n) % 64 + 8 == 64 * (1 - q);
  }

  function WordBytes(w: Word): seq<bv8> {
    [(w & 0xFF) as bv8, ((w >> 8) & 0xFF) as bv8, ((w >> 16) & 0xFF) as bv8, ((w >> 24) & 0xFF) as bv8]
  }

  /** Section 3.5. */
  function Digest(m: seq<bv8>): seq<bv8> {
    var r := Blocks(IV, Padded(m));
    WordBytes(r.a) + WordBytes(r.b) + WordBytes(r.c) + WordBytes(r.d)
  }

  lemma {:induction false} BlocksConcat(r: Regs, a: seq<bv8>, b: seq<bv8>)
    requires |a| % 64 == 0 && |b| % 64 == 0
    ensures Blocks(r, a + b) == Blocks(Blocks(r, a), b)
    decreases |a|
  {
    hide Compress;
    if a == [] {
      assert a + b == b;
    } else {
      assert (a + b)[..64] == a[..64] && (a + b)[64..] == a[64..] + b;
      BlocksConcat(Compress(r, a[..64]), a[64..], b);
    }
  }

  lemma OneBlock(r: Regs, block: seq<bv8>)
    requires |block| == 64
    ensures Blocks(r, block) == Compress(r, block)
  {
    hide Compress;
    assert block[..64] == block && block[64..] == [];
  }

  // ------------------------------------------------------- the streaming state

  const M := 0x1_0000_0000

  /** The two-word bit count after n message bytes. */
  predicate Counts(lo: nat, hi: nat, n: nat) {
    lo == 8 * n % M && hi == 8 * n / M % M
  }

  lemma CountOffset(lo: nat, hi: nat, n: nat)
    requires Counts(lo, hi, n)
    ensures lo / 8 % 64 == n % 64
  {
    var q := 8 * n / M;
    assert lo / 8 == n - 64 * (0x80_0000 * q);
    ModOfMultiple(n, 0x80_0000 * q);
  }

  lemma ModOfMultiple(n: int, k: int)
    ensures (n - 64 * k) % 64 == n % 64
  {}

  /** The carry test of md5_append keeps the two words in step with the message length. */
  lemma CountUpdate(lo: nat, hi: nat, n: nat, k: nat)
    requires Counts(lo, hi, n)
    ensures var nbits := 8 * k % M;
            var lo' := (lo + nbits) % M;
            var hi' := (hi + k / 0x2000_0000) % M;
            Counts(lo', if lo' < nbits then (hi' + 1) % M else hi', n + k)
  {
    var q, r := 8 * n / M, 8 * k / M;
    assert r == k / 0x2000_0000;
    var carry := if lo + 8 * k % M >= M then 1 else 0;
    var lo' := (lo + 8 * k % M) % M;
    assert lo' == lo + 8 * k % M - M * carry;
    assert 8 * (n + k) == M * (q + r + carry) + lo';
    QuotientOf(8 * (n + k), q + r + carry, lo');
    ModAdd(q, r);
    ModAdd(q + r, carry);
  }

  lemma QuotientOf(v: nat, k: nat, r: nat)
    requires v == M * k + r && r < M
    ensures v / M == k && v % M == r
  {}

  lemma ModAdd(a: nat, b: nat)
    ensures (a % M + b) % M == (a + b) % M
  {}

  function Full(m: seq<bv8>): (f: seq<bv8>)
    ensures |f| % 64 == 0
  {
    m[..|m| - |m| % 64]
  }

  function Rest(m: seq<bv8>): (r: seq<bv8>)
    ensures |r| == |m| % 64
  {
    m[|m| - |m| % 64..]
  }

  lemma StayPartial(m: seq<bv8>, d: seq<bv8>)
    requires |m| % 64 + |d| < 64
    ensures Full(m + d) == Full(m) && Rest(m + d) == Rest(m) + d && |m + d| % 64 == |m| % 64 + |d|
  {
    SmallStep(|m|, |d|);
    var cut := |m| - |m| % 64;
    assert (m + d)[..cut] == m[..cut] && (m + d)[cut..] == m[cut..] + d;
  }

  lemma SmallStep(n: nat, k: nat)
    requires n % 64 + k < 64
    ensures (n + k) % 64 == n % 64 + k
  {}

  lemma FillBlock(m: seq<bv8>, d: seq<bv8>)
    requires |m| % 64 + |d| == 64
    ensures Full(m) + (Rest(m) + d) == m + d && |m + d| % 64 == 0
  {
    assert m == Full(m) + Rest(m);
  }

  lemma FillNothing(m: seq<bv8>, d: seq<bv8>)
    requires |m| % 64 == 0
    ensures Full(m) == m + d[..0]
  {}

  lemma EndPartial(m: seq<bv8>, d: seq<bv8>, p: nat)
    requires p <= |d| < p + 64 && (|m| + p) % 64 == 0
    ensures Full(m + d) == m + d[..p] && Rest(m + d) == d[p..] && |m + d| % 64 == |d| - p
  {}

  lemma NextBlock(done: seq<bv8>, block: seq<bv8>)
    requires |done| % 64 == 0 && |block| == 64
    ensures Blocks(IV, done + block) == Compress(Blocks(IV, done), block)
  {
    hide Compress;
    BlocksConcat(IV, done, block);
    OneBlock(Blocks(IV, done), block);
  }

  class State {
    var lo: nat
    var hi: nat
    var abcd: Regs
    const buf: array<bv8>
    ghost var message: seq<bv8>

    /** What the fields mean: the length in bits, the registers after the full blocks, and the
        partial block at the front of the buffer. */
    ghost predicate Valid()
      reads this, buf
    {
      && buf.Length == 64
      && Counts(lo, hi, |message|)
      && abcd == Blocks(IV, Full(message))
      && buf[..|message| % 64] == Rest(message)
    }

    /** md5_init */
    constructor ()
      ensures Valid() && message == [] && fresh(buf)
    {
      lo, hi := 0, 0;
      abcd := Regs(0x67452301, T_MASK ^ 0x10325476, T_MASK ^ 0x67452301, 0x10325476);
      buf := new bv8[64];
      message := [];
    }

    method CopyIn(offset: nat, data: seq<bv8>)
      requires buf.Length == 64 && offset + |data| <= 64
      modifies buf
      ensures buf[..offset] == old(buf[..offset]) && buf[offset..offset + |data|] == data
    {
      for i := 0 to |data|
        invariant buf[..offset] == old(buf[..offset])
        invariant buf[offset..offset + i] == data[..i]
      {
        buf[offset + i] := data[i];
      }
    }

    method UpdateCount(nbytes: nat, ghost n: nat)
      requires Counts(lo, hi, n)
      modifies this`lo, this`hi
      ensures Counts(lo, hi, n + nbytes)
    {
      CountUpdate(lo, hi, n, nbytes);
      hide Counts;
      var nbits := 8 * nbytes % M;
      hi := (hi + nbytes / 0x2000_0000) % M;
      lo := (lo + nbits) % M;
      if lo < nbits {
        hi := (hi + 1) % M;
      }
    }

    /** md5_append: however the message is cut into pieces, the state stays that of the whole. */
    method Append(data: seq<bv8>)
      requires Valid()
      modifies this, buf
      ensures Valid() && message == old(message) + data
    {
      hide Blocks, Full, Rest;
      var offset := lo / 8 % 64;
      if |data| == 0 {
        assert message + data == message;
        return;
      }
      CountOffset(lo, hi, |message|);
      hide Counts;
      UpdateCount(|data|, |message|);
      Absorb(offset, data, message);
      message := message + data;
    }

    /** The part of md5_append after the count: first partial block, full blocks, last partial block. */
    method Absorb(offset: nat, data: seq<bv8>, ghost before: seq<bv8>)
      requires buf.Length == 64 && offset == |before| % 64 && data != []
      requires abcd == Blocks(IV, Full(before)) && buf[..offset] == Rest(before)
      modifies this`abcd, buf
      ensures abcd == Blocks(IV, Full(before + data))
      ensures buf[..|before + data| % 64] == Rest(before + data)
    {
      hide Blocks, Full, Rest;
      var p, partial := TopUp(offset, data, before);
      if !partial {
        p := FullBlocks(data, p, before);
        if |data| - p != 0 {
          CopyIn(0, data[p..]);
        }
        EndPartial(before, data, p);
      }
    }

    /** The initial partial block: filled and processed, or still not full. */
    method TopUp(offset: nat, data: seq<bv8>, ghost before: seq<bv8>) returns (p: nat, partial: bool)
      requires buf.Length == 64 && offset == |before| % 64 && data != []
      requires abcd == Blocks(IV, Full(before)) && buf[..offset] == Rest(before)
      modifies this`abcd, buf
      ensures partial ==> abcd == Blocks(IV, Full(before + data)) && buf[..|before + data| % 64] == Rest(before + data)
      ensures !partial ==> p <= |data| && (|before| + p) % 64 == 0 && abcd == Blocks(IV, before + data[..p])
    {
      hide Blocks, Compress, Full, Rest;
      p, partial := 0, false;
      if offset != 0 {
        var copy := if offset + |data| > 64 then 64 - offset else |data|;
        CopyIn(offset, data[..copy]);
        assert buf[..offset + copy] == buf[..offset] + buf[offset..offset + copy];
        if offset + copy < 64 {
          assert data[..copy] == data;
          StayPartial(before, data);
          return 0, true;
        }
        p := copy;
        assert buf[..] == buf[..offset + copy];
        abcd := Process(abcd, buf[..]);
        FillBlock(before, data[..p]);
        NextBlock(Full(before), Rest(before) + data[..p]);
      } else {
        FillNothing(before, data);
      }
    }

    method FullBlocks(data: seq<bv8>, start: nat, ghost before: seq<bv8>) returns (p: nat)
      requires start <= |data| && (|before| + start) % 64 == 0 && abcd == Blocks(IV, before + data[..start])
      modifies this`abcd
      ensures p <= |data| < p + 64 && (|before| + p) % 64 == 0 && abcd == Blocks(IV, before + data[..p])
    {
      hide Blocks, Compress;
      p := start;
      while |data| - p >= 64
        invariant p <= |data| && (|before| + p) % 64 == 0
        invariant abcd == Blocks(IV, before + data[..p])
        decreases |data| - p
      {
        abcd := Process(abcd, data[p..p + 64]);
        NextBlock(before + data[..p], data[p..p + 64]);
        assert before + data[..p] + data[p..p + 64] == before + data[..p + 64];
        p := p + 64;
      }
    }

    /** md5_finish: however the message was appended, the digest of the whole message. */
    method Finish() returns (digest: seq<bv8>)
      requires Valid()
      modifies this, buf
      ensures digest == Digest(old(message))
    {
      hide Blocks, Counts, Length32, LittleEndian, Full, Rest, Zeros, Padded, WordBytes;
      var length := Length32(lo) + Length32(hi);
      var pad := [0x80] + Zeros((55 - lo / 8) % 64);
      PaddedPieces(lo, hi, message);
      Append(pad);
      Append(length);
      FullOfBlocks(message);
      digest := WordBytes(abcd.a) + WordBytes(abcd.b) + WordBytes(abcd.c) + WordBytes(abcd.d);
    }
  }

  lemma PaddedPieces(lo: nat, hi: nat, m: seq<bv8>)
    requires Counts(lo, hi, |m|)
    ensures m + ([0x80] + Zeros((55 - lo / 8) % 64)) + (Length32(lo) + Length32(hi)) == Padded(m)
  {
    hide LittleEndian, Length32, Counts;
    CountLength(lo, hi, |m|);
    CountOffset(lo, hi, |m|);
    PadSize(lo / 8, |m|);
    assert m + ([0x80] + Zeros((55 - |m|) % 64)) == m + [0x80] + Zeros((55 - |m|) % 64);
  }

  lemma FullOfBlocks(m: seq<bv8>)
    requires |m| % 64 == 0
    ensures Full(m) == m
  {}

  lemma PadSize(k: nat, n: nat)
    requires k % 64 == n % 64
    ensures (55 - k) % 64 == (55 - n) % 64
  {}

  lemma CountBytesLittle(w: nat)
    ensures Length32(w) == LittleEndian(w, 4)
  {
    hide LowByte;
    var w1 := w / 256;
    var w2 := w1 / 256;
    assert LittleEndian(w2, 2) == [LowByte(w2), LowByte(w2 / 256)];
  }

  lemma LittleEndianStep(lo: nat, t: nat, n: nat)
    ensures LittleEndian(lo + 256 * t, n + 1) == [LowByte(lo)] + LittleEndian(lo / 256 + t, n)
  {
    assert (lo + 256 * t) % 256 == lo % 256 && (lo + 256 * t) / 256 == lo / 256 + t;
  }

  lemma LittleEndianPair(lo: nat, hi: nat)
    requires lo < M
    ensures LittleEndian(lo + M * hi, 8) == Length32(lo) + LittleEndian(hi, 4)
  {
    hide LowByte, LittleEndian;
    var lo1 := lo / 256;
    var lo2 := lo1 / 256;
    var lo3 := lo2 / 256;
    assert lo3 / 256 == 0;
    LittleEndianStep(lo, 0x100_0000 * hi, 7);
    LittleEndianStep(lo1, 0x1_0000 * hi, 6);
    LittleEndianStep(lo2, 0x100 * hi, 5);
    LittleEndianStep(lo3, hi, 4);
    var rest := LittleEndian(hi, 4);
    assert [LowByte(lo)] + ([LowByte(lo1)] + ([LowByte(lo2)] + ([LowByte(lo3)] + rest)))
        == [LowByte(lo), LowByte(lo1), LowByte(lo2), LowByte(lo3)] + rest;
  }

  lemma CountLength(lo: nat, hi: nat, n: nat)
    requires Counts(lo, hi, n)
    ensures Length32(lo) + Length32(hi) == LittleEndian(8 * n % 0x1_0000_0000_0000_0000, 8)
  {
    hide LittleEndian, Length32;
    SplitCount(8 * n);
    LittleEndianPair(lo, hi);
    CountBytesLittle(hi);
  }

  lemma SplitCount(v: nat)
    ensures v % 0x1_0000_0000_0000_0000 == v % M + M * (v / M % M)
  {
    var q := v / M;
    assert v == M * q + v % M && q == M * (q / M) + q % M;
    assert v == M * M * (q / M) + (M * (q % M) + v % M);
    DivModUnique(v, q / M, M * (q % M) + v % M);
  }

  lemma DivModUnique(v: nat, k: nat, r: nat)
    requires v == 0x1_0000_0000_0000_0000 * k + r && r < 0x1_0000_0000_0000_0000
    ensures v % 0x1_0000_0000_0000_0000 == r
  {}

  function Concat(pieces: seq<seq<bv8>>): seq<bv8> {
    if pieces == [] then [] else Concat(pieces[..|pieces| - 1]) + pieces[|pieces| - 1]
  }

  /** Any split of a message into md5_append calls ends in the one-shot digest of the message. */
  method HashPieces(pieces: seq<seq<bv8>>) returns (digest: seq<bv8>)
    ensures digest == Digest(Concat(pieces))
  {
    var state := new State();
    for i := 0 to |pieces|
      invariant state.Valid() && fresh(state) && fresh(state.buf)
      invariant state.message == Concat(pieces[..i])
    {
      state.Append(pieces[i]);
      assert pieces[..i + 1][..i] == pieces[..i];
    }
    assert pieces[..|pieces|] == pieces;
    digest := state.Finish();
  }
}
