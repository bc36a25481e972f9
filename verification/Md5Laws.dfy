/** What the parts of the MD5 definition compute, told without their own formulas, and the digest of "abc"
    from section A.5 of RFC 1321, so that the definition and the unrolled code cannot go wrong together. */
module Md5Laws {
  import opened Bytes
  import opened Md5

  // -------------------------------------- section 3.4, bit by bit, for any set m of bits

  /** F: where x has ones the bits of y, where x has zeros those of z. */
  lemma FSelects(x: Word, y: Word, z: Word, m: Word)
    ensures x & m == m ==> F(x, y, z) & m == y & m
    ensures x & m == 0 ==> F(x, y, z) & m == z & m
  {}

  /** G: where z has ones the bits of x, where z has zeros those of y. */
  lemma GSelects(x: Word, y: Word, z: Word, m: Word)
    ensures z & m == m ==> G(x, y, z) & m == x & m
    ensures z & m == 0 ==> G(x, y, z) & m == y & m
  {}

  /** H: the parity of the three, by the bits of x and y. */
  lemma HParityEven(x: Word, y: Word, z: Word, m: Word)
    ensures x & m == 0 && y & m == 0 ==> H(x, y, z) & m == z & m
    ensures x & m == m && y & m == m ==> H(x, y, z) & m == z & m
  {
    HBothZero(x, y, z, m);
    HBothOne(x, y, z, m);
  }

  lemma HBothZero(x: Word, y: Word, z: Word, m: Word)
    ensures x & m == 0 && y & m == 0 ==> H(x, y, z) & m == z & m
  {}

  lemma HBothOne(x: Word, y: Word, z: Word, m: Word)
    ensures x & m == m && y & m == m ==> H(x, y, z) & m == z & m
  {}

  lemma HParityOdd(x: Word, y: Word, z: Word, m: Word)
    ensures x & m == m && y & m == 0 ==> H(x, y, z) & m == !z & m
    ensures x & m == 0 && y & m == m ==> H(x, y, z) & m == !z & m
  {
    HFirst(x, y, z, m);
    HSecond(x, y, z, m);
  }

  lemma HFirst(x: Word, y: Word, z: Word, m: Word)
    ensures x & m == m && y & m == 0 ==> H(x, y, z) & m == !z & m
  {}

  lemma HSecond(x: Word, y: Word, z: Word, m: Word)
    ensures x & m == 0 && y & m == m ==> H(x, y, z) & m == !z & m
  {}

  /** I: the bits of y, turned over where x has ones or z has zeros. */
  lemma ISelects(x: Word, y: Word, z: Word, m: Word)
    ensures x & m == m || z & m == 0 ==> I(x, y, z) & m == !y & m
    ensures x & m == 0 && z & m == m ==> I(x, y, z) & m == y & m
  {}

  // ------------------------------------------------------ rotation as a number

  function Number(w: Word): nat { w as nat }

  function Top(x: Word): Word { x >> 31 }

  function Low(x: Word): Word { x & 0x7FFFFFFF }

  /** A 32-bit number turned left by one place: doubled, and what runs out at the top comes in below. */
  function Turn(n: nat): nat { if n < 0x8000_0000 then 2 * n else 2 * n - 0x1_0000_0000 + 1 }

  function Turns(n: nat, s: nat): nat { if s == 0 then n else Turn(Turns(n, s - 1)) }

  lemma TurnedParts(x: Word)
    ensures Number((x << 1) | (x >> 31)) == Number(x & 0x7FFFFFFF) * 2 + Number(x >> 31)
  {}

  lemma TopAndLow(x: Word)
    ensures Number(x) == Number(Top(x)) * 0x8000_0000 + Number(Low(x))
  {}

  lemma TopIsBit(x: Word)
    ensures Number(Top(x)) <= 1
  {}

  lemma NumberFits(x: Word)
    ensures Number(x) < 0x1_0000_0000
  {}

  lemma RotatedParts(x: Word)
    ensures Number(RotateLeft(x, 1)) == Number(Low(x)) * 2 + Number(Top(x))
  {
    hide Number;
    TurnedParts(x);
  }

  lemma RotateOne(x: Word)
    ensures Number(RotateLeft(x, 1)) == Turn(Number(x))
  {
    hide Number, RotateLeft, Top, Low;
    RotatedParts(x);
    TopAndLow(x);
    TopIsBit(x);
    NumberFits(RotateLeft(x, 1));
  }

  lemma Further1(x: Word)
    ensures RotateLeft(x, 2) == RotateLeft(RotateLeft(x, 1), 1)
  {}

  lemma Further2(x: Word)
    ensures RotateLeft(x, 3) == RotateLeft(RotateLeft(x, 2), 1)
  {}

  lemma Further3(x: Word)
    ensures RotateLeft(x, 4) == RotateLeft(RotateLeft(x, 3), 1)
  {}

  lemma Further4(x: Word)
    ensures RotateLeft(x, 5) == RotateLeft(RotateLeft(x, 4), 1)
  {}

  lemma Further5(x: Word)
    ensures RotateLeft(x, 6) == RotateLeft(RotateLeft(x, 5), 1)
  {}

  lemma Further6(x: Word)
    ensures RotateLeft(x, 7) == RotateLeft(RotateLeft(x, 6), 1)
  {}

  lemma Further7(x: Word)
    ensures RotateLeft(x, 8) == RotateLeft(RotateLeft(x, 7), 1)
  {}

  lemma Further8(x: Word)
    ensures RotateLeft(x, 9) == RotateLeft(RotateLeft(x, 8), 1)
  {}

  lemma Further9(x: Word)
    ensures RotateLeft(x, 10) == RotateLeft(RotateLeft(x, 9), 1)
  {}

  lemma Further10(x: Word)
    ensures RotateLeft(x, 11) == RotateLeft(RotateLeft(x, 10), 1)
  {}

  lemma Further11(x: Word)
    ensures RotateLeft(x, 12) == RotateLeft(RotateLeft(x, 11), 1)
  {}

  lemma Further12(x: Word)
    ensures RotateLeft(x, 13) == RotateLeft(RotateLeft(x, 12), 1)
  {}

  lemma Further13(x: Word)
    ensures RotateLeft(x, 14) == RotateLeft(RotateLeft(x, 13), 1)
  {}

  lemma Further14(x: Word)
    ensures RotateLeft(x, 15) == RotateLeft(RotateLeft(x, 14), 1)
  {}

  lemma Further15(x: Word)
    ensures RotateLeft(x, 16) == RotateLeft(RotateLeft(x, 15), 1)
  {}

  lemma Further16(x: Word)
    ensures RotateLeft(x, 17) == RotateLeft(RotateLeft(x, 16), 1)
  {}

  lemma Further17(x: Word)
    ensures RotateLeft(x, 18) == RotateLeft(RotateLeft(x, 17), 1)
  {}

  lemma Further18(x: Word)
    ensures RotateLeft(x, 19) == RotateLeft(RotateLeft(x, 18), 1)
  {}

  lemma Further19(x: Word)
    ensures RotateLeft(x, 20) == RotateLeft(RotateLeft(x, 19), 1)
  {}

  lemma Further20(x: Word)
    ensures RotateLeft(x, 21) == RotateLeft(RotateLeft(x, 20), 1)
  {}

  lemma Further21(x: Word)
    ensures RotateLeft(x, 22) == RotateLeft(RotateLeft(x, 21), 1)
  {}

  lemma Further22(x: Word)
    ensures RotateLeft(x, 23) == RotateLeft(RotateLeft(x, 22), 1)
  {}

  /** Rotating by s + 1 places is rotating by s and then by one. */
  lemma Further(x: Word, s: bv6)
    requires 0 < s < 23
    ensures RotateLeft(x, s + 1) == RotateLeft(RotateLeft(x, s), 1)
  {
    hide RotateLeft;
    match s
    case 1 => Further1(x);
    case 2 => Further2(x);
    case 3 => Further3(x);
    case 4 => Further4(x);
    case 5 => Further5(x);
    case 6 => Further6(x);
    case 7 => Further7(x);
    case 8 => Further8(x);
    case 9 => Further9(x);
    case 10 => Further10(x);
    case 11 => Further11(x);
    case 12 => Further12(x);
    case 13 => Further13(x);
    case 14 => Further14(x);
    case 15 => Further15(x);
    case 16 => Further16(x);
    case 17 => Further17(x);
    case 18 => Further18(x);
    case 19 => Further19(x);
    case 20 => Further20(x);
    case 21 => Further21(x);
    case 22 => Further22(x);
  }

  lemma Places(s: bv6)
    requires 0 < s < 23
    ensures (s + 1) as nat == s as nat + 1
  {}

  lemma Fewer(s: bv6)
    requires 1 < s <= 23
    ensures (s - 1) as nat == s as nat - 1 && s - 1 + 1 == s && 0 < s - 1 < 23
  {}

  /** Every rotation of the four rounds, as a number, is that many turns by one place. */
  lemma {:induction false} RotateTurns(x: Word, s: bv6)
    requires 0 < s <= 23
    ensures Number(RotateLeft(x, s)) == Turns(Number(x), s as nat)
    decreases s as nat
  {
    hide Number, RotateLeft, Turn;
    if s == 1 {
      RotateOne(x);
      assert Turns(Number(x), 1) == Turn(Turns(Number(x), 0));
    } else {
      Fewer(s);
      RotateTurns(x, s - 1);
      Further(x, s - 1);
      RotateOne(RotateLeft(x, s - 1));
    }
  }

  // ----------------------------------------------------------- words and bytes

  lemma FourBytes(a: bv8, b: bv8, c: bv8, d: bv8)
    ensures ((a as Word) + ((b as Word) << 8) + ((c as Word) << 16) + ((d as Word) << 24)) as nat
         == a as nat + 256 * (b as nat + 256 * (c as nat + 256 * (d as nat)))
  {
    assert (a as Word) + ((b as Word) << 8) + ((c as Word) << 16) + ((d as Word) << 24)
        == (a as Word) | ((b as Word) << 8) | ((c as Word) << 16) | ((d as Word) << 24);
  }

  /** A word of a block is the number of its four bytes, low byte first. */
  lemma WordNumber(s: seq<bv8>, i: nat)
    requires i + 4 <= |s|
    ensures WordAt(s, i) as nat == s[i] as nat + 256 * (s[i + 1] as nat + 256 * (s[i + 2] as nat + 256 * (s[i + 3] as nat)))
  {
    FourBytes(s[i], s[i + 1], s[i + 2], s[i + 3]);
  }

  lemma SplitWord(w: Word)
    ensures ((w & 0xFF) as bv8 as Word) + (((w >> 8) & 0xFF) as bv8 as Word << 8)
          + (((w >> 16) & 0xFF) as bv8 as Word << 16) + (((w >> 24) & 0xFF) as bv8 as Word << 24) == w
  {}

  /** The bytes of a digest word make up the word again. */
  lemma BytesOfWord(w: Word)
    ensures |WordBytes(w)| == 4 && WordAt(WordBytes(w), 0) == w
  {
    SplitWord(w);
  }

  // ------------------------------------------------ the digest of section A.5

  const ABC: seq<bv8> := [0x61, 0x62, 0x63]

  /** The one block of "abc", as words. */
  function AbcWords(): (x: seq<Word>)
    ensures |x| == 16
  {
    seq(16, i requires 0 <= i < 16 => if i == 0 then 0x80636261 else if i == 14 then 24 else 0)
  }

  lemma AbcWordsAre()
    ensures AbcWords()[0] == 0x80636261 && AbcWords()[14] == 24
    ensures forall i :: 0 < i < 14 ==> AbcWords()[i] == 0
    ensures AbcWords()[15] == 0
  {}

  lemma AbcBlock()
    ensures |Padded(ABC)| == 64 && Words(Padded(ABC)) == AbcWords()
  {
    AbcPadded();
    var p := Padded(ABC);
    forall i | 0 <= i < 16 ensures WordAt(p, 4 * i) == AbcWords()[i] {
      AbcWord(p, i);
    }
  }

  lemma AbcPadded()
    ensures var p := Padded(ABC);
            |p| == 64 && p[0] == 0x61 && p[1] == 0x62 && p[2] == 0x63 && p[3] == 0x80 && p[56] == 24
            && forall k :: 4 <= k < 64 && k != 56 ==> p[k] == 0
  {
    AbcLength();
    hide LittleEndian;
    var length: seq<bv8> := LittleEndian(24, 8);
    assert Padded(ABC) == ABC + [0x80] + Zeros(52) + length;
  }

  lemma AbcLength()
    ensures LittleEndian(24, 8) == [24, 0, 0, 0, 0, 0, 0, 0]
  {
    hide LowByte;
    AbcLengthBytes();
    assert LittleEndian(0, 1) == [0];
    assert LittleEndian(0, 3) == [0, 0, 0];
    assert LittleEndian(0, 5) == [0, 0, 0, 0, 0];
    assert LittleEndian(0, 7) == [0, 0, 0, 0, 0, 0, 0];
  }

  lemma AbcLengthBytes()
    ensures LowByte(24) == 24 && LowByte(0) == 0
  {}

  lemma AbcWord(p: seq<bv8>, i: nat)
    requires i < 16 && |p| == 64 && p[0] == 0x61 && p[1] == 0x62 && p[2] == 0x63 && p[3] == 0x80 && p[56] == 24
    requires forall k :: 4 <= k < 64 && k != 56 ==> p[k] == 0
    ensures WordAt(p, 4 * i) == AbcWords()[i]
  {}

  lemma AbcStart()
    ensures Steps(0, IV, AbcWords()) == Regs(0x67452301, 0xEFCDAB89, 0x98BADCFE, 0x10325476)
  {}


  lemma AbcValues1()
    ensures Set(0x67452301, 0xEFCDAB89, F(0xEFCDAB89, 0x98BADCFE, 0x10325476), 0x80636261, 7, T_MASK ^ 0x28955b87) == 0xD6D117B4
    ensures Set(0x10325476, 0xD6D117B4, F(0xD6D117B4, 0xEFCDAB89, 0x98BADCFE), 0, 12, T_MASK ^ 0x173848a9) == 0x344A8432
    ensures Set(0x98BADCFE, 0x344A8432, F(0x344A8432, 0xD6D117B4, 0xEFCDAB89), 0, 17, 0x242070db) == 0x2F6FBD72
    ensures Set(0xEFCDAB89, 0x2F6FBD72, F(0x2F6FBD72, 0x344A8432, 0xD6D117B4), 0, 22, T_MASK ^ 0x3e423111) == 0x7AD956F2
    ensures Set(0xD6D117B4, 0x7AD956F2, F(0x7AD956F2, 0x2F6FBD72, 0x344A8432), 0, 7, T_MASK ^ 0x0a83f050) == 0xC73741EF
    ensures Set(0x344A8432, 0xC73741EF, F(0xC73741EF, 0x7AD956F2, 0x2F6FBD72), 0, 12, 0x4787c62a) == 0x8BAC3051
    ensures Set(0x2F6FBD72, 0x8BAC3051, F(0x8BAC3051, 0xC73741EF, 0x7AD956F2), 0, 17, T_MASK ^ 0x57cfb9ec) == 0x207DC67B
    ensures Set(0x7AD956F2, 0x207DC67B, F(0x207DC67B, 0x8BAC3051, 0xC73741EF), 0, 22, T_MASK ^ 0x02b96afe) == 0x928D99F6
  {}

  lemma AbcValues2()
    ensures Set(0xC73741EF, 0x928D99F6, F(0x928D99F6, 0x207DC67B, 0x8BAC3051), 0, 7, 0x698098d8) == 0x854B3712
    ensures Set(0x8BAC3051, 0x854B3712, F(0x854B3712, 0x928D99F6, 0x207DC67B), 0, 12, T_MASK ^ 0x74bb0850) == 0x74E2F284
    ensures Set(0x207DC67B, 0x74E2F284, F(0x74E2F284, 0x854B3712, 0x928D99F6), 0, 17, T_MASK ^ 0x0000a44e) == 0x3020401C
    ensures Set(0x928D99F6, 0x3020401C, F(0x3020401C, 0x74E2F284, 0x854B3712), 0, 22, T_MASK ^ 0x76a32841) == 0x5ED49596
    ensures Set(0x854B3712, 0x5ED49596, F(0x5ED49596, 0x3020401C, 0x74E2F284), 0, 7, 0x6b901122) == 0xDDA9B9A6
    ensures Set(0x74E2F284, 0xDDA9B9A6, F(0xDDA9B9A6, 0x5ED49596, 0x3020401C), 0, 12, T_MASK ^ 0x02678e6c) == 0xA1051895
    ensures Set(0x3020401C, 0xA1051895, F(0xA1051895, 0xDDA9B9A6, 0x5ED49596), 24, 17, T_MASK ^ 0x5986bc71) == 0xE396856B
    ensures Set(0x5ED49596, 0xE396856B, F(0xE396856B, 0xA1051895, 0xDDA9B9A6), 0, 22, 0x49b40821) == 0x72AFF2E0
  {}

  lemma AbcValues3()
    ensures Set(0xDDA9B9A6, 0x72AFF2E0, G(0x72AFF2E0, 0xE396856B, 0xA1051895), 0, 5, T_MASK ^ 0x09e1da9d) == 0x3E9E9126
    ensures Set(0xA1051895, 0x3E9E9126, G(0x3E9E9126, 0x72AFF2E0, 0xE396856B), 0, 9, T_MASK ^ 0x3fbf4cbf) == 0x4A1D804E
    ensures Set(0xE396856B, 0x4A1D804E, G(0x4A1D804E, 0x3E9E9126, 0x72AFF2E0), 0, 14, 0x265e5a51) == 0xE25E1652
    ensures Set(0x72AFF2E0, 0xE25E1652, G(0xE25E1652, 0x4A1D804E, 0x3E9E9126), 0x80636261, 20, T_MASK ^ 0x16493855) == 0xB5B204E4
    ensures Set(0x3E9E9126, 0xB5B204E4, G(0xB5B204E4, 0xE25E1652, 0x4A1D804E), 0, 5, T_MASK ^ 0x29d0efa2) == 0x59A8FFDA
    ensures Set(0x4A1D804E, 0x59A8FFDA, G(0x59A8FFDA, 0xB5B204E4, 0xE25E1652), 0, 9, 0x02441453) == 0x6D002F1E
    ensures Set(0xE25E1652, 0x6D002F1E, G(0x6D002F1E, 0x59A8FFDA, 0xB5B204E4), 0, 14, T_MASK ^ 0x275e197e) == 0xABFC7920
    ensures Set(0xB5B204E4, 0xABFC7920, G(0xABFC7920, 0x6D002F1E, 0x59A8FFDA), 0, 20, T_MASK ^ 0x182c0437) == 0x47092C07
  {}

  lemma AbcValues4()
    ensures Set(0x59A8FFDA, 0x47092C07, G(0x47092C07, 0xABFC7920, 0x6D002F1E), 0, 5, 0x21e1cde6) == 0xB7F268CF
    ensures Set(0x6D002F1E, 0xB7F268CF, G(0xB7F268CF, 0x47092C07, 0xABFC7920), 24, 9, T_MASK ^ 0x3cc8f829) == 0x09388EFF
    ensures Set(0xABFC7920, 0x09388EFF, G(0x09388EFF, 0xB7F268CF, 0x47092C07), 0, 14, T_MASK ^ 0x0b2af278) == 0xFE1623B1
    ensures Set(0x47092C07, 0xFE1623B1, G(0xFE1623B1, 0x09388EFF, 0xB7F268CF), 0, 20, 0x455a14ed) == 0x786ACB8F
    ensures Set(0xB7F268CF, 0x786ACB8F, G(0x786ACB8F, 0xFE1623B1, 0x09388EFF), 0, 5, T_MASK ^ 0x561c16fa) == 0x790A77FB
    ensures Set(0x09388EFF, 0x790A77FB, G(0x790A77FB, 0x786ACB8F, 0xFE1623B1), 0, 9, T_MASK ^ 0x03105c07) == 0x9F47E4F8
    ensures Set(0xFE1623B1, 0x9F47E4F8, G(0x9F47E4F8, 0x790A77FB, 0x786ACB8F), 0, 14, 0x676f02d9) == 0xA62884AA
    ensures Set(0x786ACB8F, 0xA62884AA, G(0xA62884AA, 0x9F47E4F8, 0x790A77FB), 0, 20, T_MASK ^ 0x72d5b375) == 0x726342D3
  {}

  lemma AbcValues5()
    ensures Set(0x790A77FB, 0x726342D3, H(0x726342D3, 0xA62884AA, 0x9F47E4F8), 0, 4, T_MASK ^ 0x0005c6bd) == 0xB3707EBF
    ensures Set(0x9F47E4F8, 0xB3707EBF, H(0xB3707EBF, 0x726342D3, 0xA62884AA), 0, 11, T_MASK ^ 0x788e097e) == 0x60127B2E
    ensures Set(0xA62884AA, 0x60127B2E, H(0x60127B2E, 0xB3707EBF, 0x726342D3), 0, 16, 0x6d9d6122) == 0x8D212FF5
    ensures Set(0x726342D3, 0x8D212FF5, H(0x8D212FF5, 0x60127B2E, 0xB3707EBF), 24, 23, T_MASK ^ 0x021ac7f3) == 0x3B0875C7
    ensures Set(0xB3707EBF, 0x3B0875C7, H(0x3B0875C7, 0x8D212FF5, 0x60127B2E), 0, 4, T_MASK ^ 0x5b4115bb) == 0x21B117B9
    ensures Set(0x60127B2E, 0x21B117B9, H(0x21B117B9, 0x3B0875C7, 0x8D212FF5), 0, 11, 0x4bdecfa9) == 0x6E7429D5
    ensures Set(0x8D212FF5, 0x6E7429D5, H(0x6E7429D5, 0x21B117B9, 0x3B0875C7), 0, 16, T_MASK ^ 0x0944b49f) == 0x3575227E
    ensures Set(0x3B0875C7, 0x3575227E, H(0x3575227E, 0x6E7429D5, 0x21B117B9), 0, 23, T_MASK ^ 0x4140438f) == 0x5A2F5EA5
  {}

  lemma AbcValues6()
    ensures Set(0x21B117B9, 0x5A2F5EA5, H(0x5A2F5EA5, 0x3575227E, 0x6E7429D5), 0, 4, 0x289b7ec6) == 0x11DE1779
    ensures Set(0x6E7429D5, 0x11DE1779, H(0x11DE1779, 0x5A2F5EA5, 0x3575227E), 0x80636261, 11, T_MASK ^ 0x155ed805) == 0xFADCAA38
    ensures Set(0x3575227E, 0xFADCAA38, H(0xFADCAA38, 0x11DE1779, 0x5A2F5EA5), 0, 16, T_MASK ^ 0x2b10cf7a) == 0x31C465CA
    ensures Set(0x5A2F5EA5, 0x31C465CA, H(0x31C465CA, 0xFADCAA38, 0x11DE1779), 0, 23, 0x04881d05) == 0x4C6124F4
    ensures Set(0x11DE1779, 0x4C6124F4, H(0x4C6124F4, 0x31C465CA, 0xFADCAA38), 0, 4, T_MASK ^ 0x262b2fc6) == 0x7F2E507B
    ensures Set(0xFADCAA38, 0x7F2E507B, H(0x7F2E507B, 0x4C6124F4, 0x31C465CA), 0, 11, T_MASK ^ 0x1924661a) == 0x99D9679D
    ensures Set(0x31C465CA, 0x99D9679D, H(0x99D9679D, 0x7F2E507B, 0x4C6124F4), 0, 16, 0x1fa27cf8) == 0x8FAE6399
    ensures Set(0x4C6124F4, 0x8FAE6399, H(0x8FAE6399, 0x99D9679D, 0x7F2E507B), 0, 23, T_MASK ^ 0x3b53a99a) == 0x7BEB9700
  {}

  lemma AbcValues7()
    ensures Set(0x7F2E507B, 0x7BEB9700, I(0x7BEB9700, 0x8FAE6399, 0x99D9679D), 0x80636261, 6, T_MASK ^ 0x0bd6ddbb) == 0x7B201DF8
    ensures Set(0x99D9679D, 0x7B201DF8, I(0x7B201DF8, 0x7BEB9700, 0x8FAE6399), 0, 10, 0x432aff97) == 0xF4E8E96E
    ensures Set(0x8FAE6399, 0xF4E8E96E, I(0xF4E8E96E, 0x7B201DF8, 0x7BEB9700), 24, 15, T_MASK ^ 0x546bdc58) == 0xB298CEFD
    ensures Set(0x7BEB9700, 0xB298CEFD, I(0xB298CEFD, 0xF4E8E96E, 0x7B201DF8), 0, 21, T_MASK ^ 0x036c5fc6) == 0x8BF025C4
    ensures Set(0x7B201DF8, 0x8BF025C4, I(0x8BF025C4, 0xB298CEFD, 0xF4E8E96E), 0, 6, 0x655b59c3) == 0x06CC5E8A
    ensures Set(0xF4E8E96E, 0x06CC5E8A, I(0x06CC5E8A, 0x8BF025C4, 0xB298CEFD), 0, 10, T_MASK ^ 0x70f3336d) == 0x5B0D97AA
    ensures Set(0xB298CEFD, 0x5B0D97AA, I(0x5B0D97AA, 0x06CC5E8A, 0x8BF025C4), 0, 15, T_MASK ^ 0x00100b82) == 0x7D632DD0
    ensures Set(0x8BF025C4, 0x7D632DD0, I(0x7D632DD0, 0x5B0D97AA, 0x06CC5E8A), 0, 21, T_MASK ^ 0x7a7ba22e) == 0x3BFA2C27
  {}

  lemma AbcValues8()
    ensures Set(0x06CC5E8A, 0x3BFA2C27, I(0x3BFA2C27, 0x7D632DD0, 0x5B0D97AA), 0, 6, 0x6fa87e4f) == 0x7F81CC35
    ensures Set(0x5B0D97AA, 0x7F81CC35, I(0x7F81CC35, 0x3BFA2C27, 0x7D632DD0), 0, 10, T_MASK ^ 0x01d3191f) == 0x094454AB
    ensures Set(0x7D632DD0, 0x094454AB, I(0x094454AB, 0x7F81CC35, 0x3BFA2C27), 0, 15, T_MASK ^ 0x5cfebceb) == 0x4F9DBE3F
    ensures Set(0x3BFA2C27, 0x4F9DBE3F, I(0x4F9DBE3F, 0x094454AB, 0x7F81CC35), 0, 21, 0x4e0811a1) == 0x7327D604
    ensures Set(0x7F81CC35, 0x7327D604, I(0x7327D604, 0x4F9DBE3F, 0x094454AB), 0, 6, T_MASK ^ 0x08ac817d) == 0x310ADE8F
    ensures Set(0x094454AB, 0x310ADE8F, I(0x310ADE8F, 0x7327D604, 0x4F9DBE3F), 0, 10, T_MASK ^ 0x42c50dca) == 0x624D8CB2
    ensures Set(0x4F9DBE3F, 0x624D8CB2, I(0x624D8CB2, 0x310ADE8F, 0x7327D604), 0, 15, 0x2ad7d2bb) == 0xE484B9D8
    ensures Set(0x7327D604, 0xE484B9D8, I(0xE484B9D8, 0x624D8CB2, 0x310ADE8F), 0, 21, T_MASK ^ 0x14792c6e) == 0xC08226B3
  {}

  lemma AbcSteps1()
    ensures Steps(8, IV, AbcWords()) == Regs(0xC73741EF, 0x928D99F6, 0x207DC67B, 0x8BAC3051)
  {
    hide Set, Mix, WordIndex, Amount, Sine, Steps, F, G, H, I, AbcWords;
    AbcStart();
    Parameters1();
    Sines1();
    AbcWordsAre();
    AbcValues1();
    Advance(0, IV, AbcWords(), 0xD6D117B4);
    Advance(1, IV, AbcWords(), 0x344A8432);
    Advance(2, IV, AbcWords(), 0x2F6FBD72);
    Advance(3, IV, AbcWords(), 0x7AD956F2);
    Advance(4, IV, AbcWords(), 0xC73741EF);
    Advance(5, IV, AbcWords(), 0x8BAC3051);
    Advance(6, IV, AbcWords(), 0x207DC67B);
    Advance(7, IV, AbcWords(), 0x928D99F6);
  }

  lemma AbcSteps2()
    ensures Steps(16, IV, AbcWords()) == Regs(0xDDA9B9A6, 0x72AFF2E0, 0xE396856B, 0xA1051895)
  {
    hide Set, Mix, WordIndex, Amount, Sine, Steps, F, G, H, I, AbcWords;
    AbcSteps1();
    Parameters1();
    Sines1();
    AbcWordsAre();
    AbcValues2();
    Advance(8, IV, AbcWords(), 0x854B3712);
    Advance(9, IV, AbcWords(), 0x74E2F284);
    Advance(10, IV, AbcWords(), 0x3020401C);
    Advance(11, IV, AbcWords(), 0x5ED49596);
    Advance(12, IV, AbcWords(), 0xDDA9B9A6);
    Advance(13, IV, AbcWords(), 0xA1051895);
    Advance(14, IV, AbcWords(), 0xE396856B);
    Advance(15, IV, AbcWords(), 0x72AFF2E0);
  }

  lemma AbcSteps3()
    ensures Steps(24, IV, AbcWords()) == Regs(0x59A8FFDA, 0x47092C07, 0xABFC7920, 0x6D002F1E)
  {
    hide Set, Mix, WordIndex, Amount, Sine, Steps, F, G, H, I, AbcWords;
    AbcSteps2();
    Parameters2();
    Sines2();
    AbcWordsAre();
    AbcValues3();
    Advance(16, IV, AbcWords(), 0x3E9E9126);
    Advance(17, IV, AbcWords(), 0x4A1D804E);
    Advance(18, IV, AbcWords(), 0xE25E1652);
    Advance(19, IV, AbcWords(), 0xB5B204E4);
    Advance(20, IV, AbcWords(), 0x59A8FFDA);
    Advance(21, IV, AbcWords(), 0x6D002F1E);
    Advance(22, IV, AbcWords(), 0xABFC7920);
    Advance(23, IV, AbcWords(), 0x47092C07);
  }

  lemma AbcSteps4()
    ensures Steps(32, IV, AbcWords()) == Regs(0x790A77FB, 0x726342D3, 0xA62884AA, 0x9F47E4F8)
  {
    hide Set, Mix, WordIndex, Amount, Sine, Steps, F, G, H, I, AbcWords;
    AbcSteps3();
    Parameters2();
    Sines2();
    AbcWordsAre();
    AbcValues4();
    Advance(24, IV, AbcWords(), 0xB7F268CF);
    Advance(25, IV, AbcWords(), 0x09388EFF);
    Advance(26, IV, AbcWords(), 0xFE1623B1);
    Advance(27, IV, AbcWords(), 0x786ACB8F);
    Advance(28, IV, AbcWords(), 0x790A77FB);
    Advance(29, IV, AbcWords(), 0x9F47E4F8);
    Advance(30, IV, AbcWords(), 0xA62884AA);
    Advance(31, IV, AbcWords(), 0x726342D3);
  }

  lemma AbcSteps5()
    ensures Steps(40, IV, AbcWords()) == Regs(0x21B117B9, 0x5A2F5EA5, 0x3575227E, 0x6E7429D5)
  {
    hide Set, Mix, WordIndex, Amount, Sine, Steps, F, G, H, I, AbcWords;
    AbcSteps4();
    Parameters3();
    Sines3();
    AbcWordsAre();
    AbcValues5();
    Advance(32, IV, AbcWords(), 0xB3707EBF);
    Advance(33, IV, AbcWords(), 0x60127B2E);
    Advance(34, IV, AbcWords(), 0x8D212FF5);
    Advance(35, IV, AbcWords(), 0x3B0875C7);
    Advance(36, IV, AbcWords(), 0x21B117B9);
    Advance(37, IV, AbcWords(), 0x6E7429D5);
    Advance(38, IV, AbcWords(), 0x3575227E);
    Advance(39, IV, AbcWords(), 0x5A2F5EA5);
  }

  lemma AbcSteps6()
    ensures Steps(48, IV, AbcWords()) == Regs(0x7F2E507B, 0x7BEB9700, 0x8FAE6399, 0x99D9679D)
  {
    hide Set, Mix, WordIndex, Amount, Sine, Steps, F, G, H, I, AbcWords;
    AbcSteps5();
    Parameters3();
    Sines3();
    AbcWordsAre();
    AbcValues6();
    Advance(40, IV, AbcWords(), 0x11DE1779);
    Advance(41, IV, AbcWords(), 0xFADCAA38);
    Advance(42, IV, AbcWords(), 0x31C465CA);
    Advance(43, IV, AbcWords(), 0x4C6124F4);
    Advance(44, IV, AbcWords(), 0x7F2E507B);
    Advance(45, IV, AbcWords(), 0x99D9679D);
    Advance(46, IV, AbcWords(), 0x8FAE6399);
    Advance(47, IV, AbcWords(), 0x7BEB9700);
  }

  lemma AbcSteps7()
    ensures Steps(56, IV, AbcWords()) == Regs(0x06CC5E8A, 0x3BFA2C27, 0x7D632DD0, 0x5B0D97AA)
  {
    hide Set, Mix, WordIndex, Amount, Sine, Steps, F, G, H, I, AbcWords;
    AbcSteps6();
    Parameters4();
    Sines4();
    AbcWordsAre();
    AbcValues7();
    Advance(48, IV, AbcWords(), 0x7B201DF8);
    Advance(49, IV, AbcWords(), 0xF4E8E96E);
    Advance(50, IV, AbcWords(), 0xB298CEFD);
    Advance(51, IV, AbcWords(), 0x8BF025C4);
    Advance(52, IV, AbcWords(), 0x06CC5E8A);
    Advance(53, IV, AbcWords(), 0x5B0D97AA);
    Advance(54, IV, AbcWords(), 0x7D632DD0);
    Advance(55, IV, AbcWords(), 0x3BFA2C27);
  }

  lemma AbcSteps8()
    ensures Steps(64, IV, AbcWords()) == Regs(0x310ADE8F, 0xC08226B3, 0xE484B9D8, 0x624D8CB2)
  {
    hide Set, Mix, WordIndex, Amount, Sine, Steps, F, G, H, I, AbcWords;
    AbcSteps7();
    Parameters4();
    Sines4();
    AbcWordsAre();
    AbcValues8();
    Advance(56, IV, AbcWords(), 0x7F81CC35);
    Advance(57, IV, AbcWords(), 0x094454AB);
    Advance(58, IV, AbcWords(), 0x4F9DBE3F);
    Advance(59, IV, AbcWords(), 0x7327D604);
    Advance(60, IV, AbcWords(), 0x310ADE8F);
    Advance(61, IV, AbcWords(), 0x624D8CB2);
    Advance(62, IV, AbcWords(), 0xE484B9D8);
    Advance(63, IV, AbcWords(), 0xC08226B3);
  }

  /** MD5 ("abc") = 900150983cd24fb0d6963f7d28e17f72. */
  lemma AbcDigest()
    ensures Digest(ABC) == [0x90, 0x01, 0x50, 0x98, 0x3C, 0xD2, 0x4F, 0xB0, 0xD6, 0x96, 0x3F, 0x7D, 0x28, 0xE1, 0x7F, 0x72]
  {
    AbcBlock();
    AbcSteps8();
    hide Padded, Words, Steps, AbcWords;
    var p := Padded(ABC);
    assert p[..64] == p && p[64..] == [];
    assert Compress(IV, p) == Regs(0x98500190, 0xB04FD23C, 0x7D3F96D6, 0x727FE128);
    hide Compress;
    assert Blocks(Regs(0x98500190, 0xB04FD23C, 0x7D3F96D6, 0x727FE128), []) == Regs(0x98500190, 0xB04FD23C, 0x7D3F96D6, 0x727FE128);
    assert Blocks(IV, p) == Regs(0x98500190, 0xB04FD23C, 0x7D3F96D6, 0x727FE128);
    AbcBytes();
  }

  lemma AbcBytes()
    ensures WordBytes(0x98500190) + WordBytes(0xB04FD23C) + WordBytes(0x7D3F96D6) + WordBytes(0x727FE128)
         == [0x90, 0x01, 0x50, 0x98, 0x3C, 0xD2, 0x4F, 0xB0, 0xD6, 0x96, 0x3F, 0x7D, 0x28, 0xE1, 0x7F, 0x72]
  {}
}
