/** The CRC-32 of the toolkit (libcifx/Toolkit/Source/Hilcrc32.c): a 256-entry table, one lookup per byte.

    The reference is the bit-serial form: the register shifts right and the reflected polynomial
    0xEDB88320 is added whenever a one leaves it; each byte is taken least significant bit first. */
module Crc32 {
  import opened BitStreams

  // ---------------------------------------------------------------- reference

  function Feedback(x: bv32): bv32 {
    if Odd(x) then Xor(Half(x), 0xEDB88320) else Half(x)
  }

  predicate Odd(x: bv32) { x & 1 != 0 }

  function Half(x: bv32): bv32 { x >> 1 }

  function Xor(a: bv32, b: bv32): bv32 { a ^ b }

  function Shift(reg: bv32, bit: bv1): bv32 {
    Feedback(Xor(reg, bit as bv32))
  }

  function Divide(reg: bv32, bits: seq<bv1>): bv32
    decreases |bits|
  {
    if bits == [] then reg else Divide(Shift(reg, bits[0]), bits[1..])
  }

  function ByteBits(b: bv8): (bits: seq<bv1>)
    ensures |bits| == 8
  {
    [(b & 1) as bv1, ((b >> 1) & 1) as bv1, ((b >> 2) & 1) as bv1, ((b >> 3) & 1) as bv1,
     ((b >> 4) & 1) as bv1, ((b >> 5) & 1) as bv1, ((b >> 6) & 1) as bv1, ((b >> 7) & 1) as bv1]
  }

  function Bits(data: seq<bv8>): (bits: seq<bv1>)
    ensures |bits| == 8 * |data|
  {
    if data == [] then [] else ByteBits(data[0]) + Bits(data[1..])
  }

  /** What CreateCRC32 returns when it continues from crc. */
  function Continue(crc: bv32, data: seq<bv8>): bv32 {
    if data == [] then crc else Invert(Divide(Invert(crc), Bits(data)))
  }

  function Invert(x: bv32): bv32 { x ^ 0xFFFFFFFF }

  // ---------------------------------------------------------------- the table

  const ROW_0: seq<bv32> := [
    0x00000000, 0x77073096, 0xee0e612c, 0x990951ba, 0x076dc419, 0x706af48f, 0xe963a535, 0x9e6495a3,
    0x0edb8832, 0x79dcb8a4, 0xe0d5e91e, 0x97d2d988, 0x09b64c2b, 0x7eb17cbd, 0xe7b82d07, 0x90bf1d91
  ]
  const ROW_1: seq<bv32> := [
    0x1db71064, 0x6ab020f2, 0xf3b97148, 0x84be41de, 0x1adad47d, 0x6ddde4eb, 0xf4d4b551, 0x83d385c7,
    0x136c9856, 0x646ba8c0, 0xfd62f97a, 0x8a65c9ec, 0x14015c4f, 0x63066cd9, 0xfa0f3d63, 0x8d080df5
  ]
  const ROW_2: seq<bv32> := [
    0x3b6e20c8, 0x4c69105e, 0xd56041e4, 0xa2677172, 0x3c03e4d1, 0x4b04d447, 0xd20d85fd, 0xa50ab56b,
    0x35b5a8fa, 0x42b2986c, 0xdbbbc9d6, 0xacbcf940, 0x32d86ce3, 0x45df5c75, 0xdcd60dcf, 0xabd13d59
  ]
  const ROW_3: seq<bv32> := [
    0x26d930ac, 0x51de003a, 0xc8d75180, 0xbfd06116, 0x21b4f4b5, 0x56b3c423, 0xcfba9599, 0xb8bda50f,
    0x2802b89e, 0x5f058808, 0xc60cd9b2, 0xb10be924, 0x2f6f7c87, 0x58684c11, 0xc1611dab, 0xb6662d3d
  ]
  const ROW_4: seq<bv32> := [
    0x76dc4190, 0x01db7106, 0x98d220bc, 0xefd5102a, 0x71b18589, 0x06b6b51f, 0x9fbfe4a5, 0xe8b8d433,
    0x7807c9a2, 0x0f00f934, 0x9609a88e, 0xe10e9818, 0x7f6a0dbb, 0x086d3d2d, 0x91646c97, 0xe6635c01
  ]
  const ROW_5: seq<bv32> := [
    0x6b6b51f4, 0x1c6c6162, 0x856530d8, 0xf262004e, 0x6c0695ed, 0x1b01a57b, 0x8208f4c1, 0xf50fc457,
    0x65b0d9c6, 0x12b7e950, 0x8bbeb8ea, 0xfcb9887c, 0x62dd1ddf, 0x15da2d49, 0x8cd37cf3, 0xfbd44c65
  ]
  const ROW_6: seq<bv32> := [
    0x4db26158, 0x3ab551ce, 0xa3bc0074, 0xd4bb30e2, 0x4adfa541, 0x3dd895d7, 0xa4d1c46d, 0xd3d6f4fb,
    0x4369e96a, 0x346ed9fc, 0xad678846, 0xda60b8d0, 0x44042d73, 0x33031de5, 0xaa0a4c5f, 0xdd0d7cc9
  ]
  const ROW_7: seq<bv32> := [
    0x5005713c, 0x270241aa, 0xbe0b1010, 0xc90c2086, 0x5768b525, 0x206f85b3, 0xb966d409, 0xce61e49f,
    0x5edef90e, 0x29d9c998, 0xb0d09822, 0xc7d7a8b4, 0x59b33d17, 0x2eb40d81, 0xb7bd5c3b, 0xc0ba6cad
  ]
  const ROW_8: seq<bv32> := [
    0xedb88320, 0x9abfb3b6, 0x03b6e20c, 0x74b1d29a, 0xead54739, 0x9dd277af, 0x04db2615, 0x73dc1683,
    0xe3630b12, 0x94643b84, 0x0d6d6a3e, 0x7a6a5aa8, 0xe40ecf0b, 0x9309ff9d, 0x0a00ae27, 0x7d079eb1
  ]
  const ROW_9: seq<bv32> := [
    0xf00f9344, 0x8708a3d2, 0x1e01f268, 0x6906c2fe, 0xf762575d, 0x806567cb, 0x196c3671, 0x6e6b06e7,
    0xfed41b76, 0x89d32be0, 0x10da7a5a, 0x67dd4acc, 0xf9b9df6f, 0x8ebeeff9, 0x17b7be43, 0x60b08ed5
  ]
  const ROW_A: seq<bv32> := [
    0xd6d6a3e8, 0xa1d1937e, 0x38d8c2c4, 0x4fdff252, 0xd1bb67f1, 0xa6bc5767, 0x3fb506dd, 0x48b2364b,
    0xd80d2bda, 0xaf0a1b4c, 0x36034af6, 0x41047a60, 0xdf60efc3, 0xa867df55, 0x316e8eef, 0x4669be79
  ]
  const ROW_B: seq<bv32> := [
    0xcb61b38c, 0xbc66831a, 0x256fd2a0, 0x5268e236, 0xcc0c7795, 0xbb0b4703, 0x220216b9, 0x5505262f,
    0xc5ba3bbe, 0xb2bd0b28, 0x2bb45a92, 0x5cb36a04, 0xc2d7ffa7, 0xb5d0cf31, 0x2cd99e8b, 0x5bdeae1d
  ]
  const ROW_C: seq<bv32> := [
    0x9b64c2b0, 0xec63f226, 0x756aa39c, 0x026d930a, 0x9c0906a9, 0xeb0e363f, 0x72076785, 0x05005713,
    0x95bf4a82, 0xe2b87a14, 0x7bb12bae, 0x0cb61b38, 0x92d28e9b, 0xe5d5be0d, 0x7cdcefb7, 0x0bdbdf21
  ]
  const ROW_D: seq<bv32> := [
    0x86d3d2d4, 0xf1d4e242, 0x68ddb3f8, 0x1fda836e, 0x81be16cd, 0xf6b9265b, 0x6fb077e1, 0x18b74777,
    0x88085ae6, 0xff0f6a70, 0x66063bca, 0x11010b5c, 0x8f659eff, 0xf862ae69, 0x616bffd3, 0x166ccf45
  ]
  const ROW_E: seq<bv32> := [
    0xa00ae278, 0xd70dd2ee, 0x4e048354, 0x3903b3c2, 0xa7672661, 0xd06016f7, 0x4969474d, 0x3e6e77db,
    0xaed16a4a, 0xd9d65adc, 0x40df0b66, 0x37d83bf0, 0xa9bcae53, 0xdebb9ec5, 0x47b2cf7f, 0x30b5ffe9
  ]
  const ROW_F: seq<bv32> := [
    0xbdbdf21c, 0xcabac28a, 0x53b39330, 0x24b4a3a6, 0xbad03605, 0xcdd70693, 0x54de5729, 0x23d967bf,
    0xb3667a2e, 0xc4614ab8, 0x5d681b02, 0x2a6f2b94, 0xb40bbe37, 0xc30c8ea1, 0x5a05df1b, 0x2d02ef8d
  ]

  const ROWS: seq<seq<bv32>> := [
    ROW_0, ROW_1, ROW_2, ROW_3, ROW_4, ROW_5, ROW_6, ROW_7,
    ROW_8, ROW_9, ROW_A, ROW_B, ROW_C, ROW_D, ROW_E, ROW_F
  ]

  /** The source's Crc32Table. */
  function Table(): (t: seq<bv32>)
    ensures |t| == 256
  {
    RowSizes();
    Flatten(ROWS)
  }

  lemma RowSizes()
    ensures |ROWS| == 16 && forall k :: 0 <= k < 16 ==> |ROWS[k]| == 16
  {}

  function Flatten(rows: seq<seq<bv32>>): (t: seq<bv32>)
    requires forall k :: 0 <= k < |rows| ==> |rows[k]| == 16
    ensures |t| == 16 * |rows|
  {
    if rows == [] then [] else rows[0] + Flatten(rows[1..])
  }

  lemma {:induction false} FlattenAt(rows: seq<seq<bv32>>, k: nat, l: nat)
    requires forall r :: 0 <= r < |rows| ==> |rows[r]| == 16
    requires k < |rows| && l < 16
    ensures Flatten(rows)[16 * k + l] == rows[k][l]
  {
    if k > 0 {
      FlattenAt(rows[1..], k - 1, l);
    }
  }

  function TableStep(crc: bv32, b: bv8): bv32 {
    Xor(Table()[(Xor(crc, b as bv32) & 0xFF) as nat], crc >> 8)
  }

  // ------------------------------------------------ the register, bit by bit

  /** k steps of the register without message bits. */
  function Iterate(k: nat, x: bv32): bv32 {
    if k == 0 then x else Feedback(Iterate(k - 1, x))
  }

  lemma OddXor(x: bv32, y: bv32)
    ensures Odd(Xor(x, y)) <==> Odd(x) != Odd(y)
  {}

  lemma HalfXor(x: bv32, y: bv32)
    ensures Half(Xor(x, y)) == Xor(Half(x), Half(y))
  {
    assert Half(x ^ y) == Xor(x >> 1, y >> 1);
  }

  lemma XorComm(x: bv32, y: bv32)
    ensures Xor(x, y) == Xor(y, x)
  {}

  lemma XorAssoc(x: bv32, y: bv32, z: bv32)
    ensures Xor(x, Xor(y, z)) == Xor(Xor(x, y), z)
  {
    assert Xor(x, y ^ z) == Xor(x ^ y, z);
  }

  lemma XorCancel(x: bv32, y: bv32, z: bv32)
    ensures Xor(Xor(x, z), Xor(y, z)) == Xor(x, y)
  {
    assert Xor(x ^ z, y ^ z) == x ^ y;
  }

  lemma XorZero(x: bv32, y: bv32)
    ensures Xor(x, y) == 0 <==> x == y
  {
    hide Xor;
    XorUndo(x, y);
    XorUndo(0, y);
    XorSelf(y);
  }

  lemma XorSelf(x: bv32)
    ensures Xor(x, x) == 0 && Xor(0, x) == x
  {}

  lemma XorUndo(x: bv32, y: bv32)
    ensures Xor(Xor(x, y), y) == x
  {
    assert Xor(x ^ y, y) == x;
  }

  lemma FeedbackLinear(x: bv32, y: bv32)
    ensures Feedback(Xor(x, y)) == Xor(Feedback(x), Feedback(y))
  {
    hide Odd, Half, Xor;
    OddXor(x, y);
    HalfXor(x, y);
    XorCancel(Half(x), Half(y), 0xEDB88320);
    XorAssoc(Half(x), Half(y), 0xEDB88320);
    XorAssoc(Half(x), 0xEDB88320, Half(y));
    XorComm(0xEDB88320, Half(y));
  }

  lemma {:induction false} IterateLinear(k: nat, x: bv32, y: bv32)
    ensures Iterate(k, Xor(x, y)) == Xor(Iterate(k, x), Iterate(k, y))
  {
    hide Feedback, Xor;
    if k > 0 {
      IterateLinear(k - 1, x, y);
      FeedbackLinear(Iterate(k - 1, x), Iterate(k - 1, y));
    }
  }

  // ------------------------------------------------ the table is eight steps

  lemma Columns0()
    ensures ROW_0[0] == Iterate(8, 0x00)
    ensures ROW_1[0] == Iterate(8, 0x10)
    ensures ROW_2[0] == Iterate(8, 0x20)
    ensures ROW_3[0] == Iterate(8, 0x30)
  {}

  lemma Columns4()
    ensures ROW_4[0] == Iterate(8, 0x40)
    ensures ROW_5[0] == Iterate(8, 0x50)
    ensures ROW_6[0] == Iterate(8, 0x60)
    ensures ROW_7[0] == Iterate(8, 0x70)
  {}

  lemma Columns8()
    ensures ROW_8[0] == Iterate(8, 0x80)
    ensures ROW_9[0] == Iterate(8, 0x90)
    ensures ROW_A[0] == Iterate(8, 0xA0)
    ensures ROW_B[0] == Iterate(8, 0xB0)
  {}

  lemma ColumnsC()
    ensures ROW_C[0] == Iterate(8, 0xC0)
    ensures ROW_D[0] == Iterate(8, 0xD0)
    ensures ROW_E[0] == Iterate(8, 0xE0)
    ensures ROW_F[0] == Iterate(8, 0xF0)
  {}

  lemma FirstRow1()
    ensures ROW_0[1] == Iterate(8, 1)
  {}

  lemma FirstRow2()
    ensures ROW_0[2] == Iterate(8, 2)
  {}

  lemma FirstRow4()
    ensures ROW_0[4] == Iterate(8, 4)
  {}

  lemma FirstRow8()
    ensures ROW_0[8] == Iterate(8, 8)
  {}

  lemma FirstRowSums()
    ensures ROW_0[3] == Xor(ROW_0[2], ROW_0[1]) && Xor(2, 1) == 3
    ensures ROW_0[5] == Xor(ROW_0[4], ROW_0[1]) && Xor(4, 1) == 5
    ensures ROW_0[6] == Xor(ROW_0[4], ROW_0[2]) && Xor(4, 2) == 6
    ensures ROW_0[7] == Xor(ROW_0[4], ROW_0[3]) && Xor(4, 3) == 7
    ensures ROW_0[9] == Xor(ROW_0[8], ROW_0[1]) && Xor(8, 1) == 9
    ensures ROW_0[10] == Xor(ROW_0[8], ROW_0[2]) && Xor(8, 2) == 10
    ensures ROW_0[11] == Xor(ROW_0[8], ROW_0[3]) && Xor(8, 3) == 11
    ensures ROW_0[12] == Xor(ROW_0[8], ROW_0[4]) && Xor(8, 4) == 12
    ensures ROW_0[13] == Xor(ROW_0[8], ROW_0[5]) && Xor(8, 5) == 13
    ensures ROW_0[14] == Xor(ROW_0[8], ROW_0[6]) && Xor(8, 6) == 14
    ensures ROW_0[15] == Xor(ROW_0[8], ROW_0[7]) && Xor(8, 7) == 15
  {}

  lemma FirstRowLinear()
    ensures |ROW_0| == 16
    ensures ROW_0[0] == Iterate(8, 0)
    ensures ROW_0[1] == Iterate(8, 1)
    ensures ROW_0[2] == Iterate(8, 2)
    ensures ROW_0[3] == Iterate(8, 3)
    ensures ROW_0[4] == Iterate(8, 4)
    ensures ROW_0[5] == Iterate(8, 5)
    ensures ROW_0[6] == Iterate(8, 6)
    ensures ROW_0[7] == Iterate(8, 7)
    ensures ROW_0[8] == Iterate(8, 8)
    ensures ROW_0[9] == Iterate(8, 9)
    ensures ROW_0[10] == Iterate(8, 10)
    ensures ROW_0[11] == Iterate(8, 11)
    ensures ROW_0[12] == Iterate(8, 12)
    ensures ROW_0[13] == Iterate(8, 13)
    ensures ROW_0[14] == Iterate(8, 14)
    ensures ROW_0[15] == Iterate(8, 15)
  {
    hide Iterate, Xor;
    Columns0();
    FirstRow1();
    FirstRow2();
    FirstRow4();
    FirstRow8();
    FirstRowSums();
    IterateLinear(8, 2, 1);
    IterateLinear(8, 4, 1);
    IterateLinear(8, 4, 2);
    IterateLinear(8, 4, 3);
    IterateLinear(8, 8, 1);
    IterateLinear(8, 8, 2);
    IterateLinear(8, 8, 3);
    IterateLinear(8, 8, 4);
    IterateLinear(8, 8, 5);
    IterateLinear(8, 8, 6);
    IterateLinear(8, 8, 7);
  }

  /** A row is its first entry added to the first row. */
  predicate Spans(row: seq<bv32>) {
    && |row| == 16
    && row[1] == Xor(row[0], ROW_0[1]) && row[2] == Xor(row[0], ROW_0[2]) && row[3] == Xor(row[0], ROW_0[3])
    && row[4] == Xor(row[0], ROW_0[4]) && row[5] == Xor(row[0], ROW_0[5]) && row[6] == Xor(row[0], ROW_0[6])
    && row[7] == Xor(row[0], ROW_0[7]) && row[8] == Xor(row[0], ROW_0[8]) && row[9] == Xor(row[0], ROW_0[9])
    && row[10] == Xor(row[0], ROW_0[10]) && row[11] == Xor(row[0], ROW_0[11]) && row[12] == Xor(row[0], ROW_0[12])
    && row[13] == Xor(row[0], ROW_0[13]) && row[14] == Xor(row[0], ROW_0[14]) && row[15] == Xor(row[0], ROW_0[15])
  }

  lemma Rows1()
    ensures Spans(ROW_1) && Spans(ROW_2) && Spans(ROW_3) && Spans(ROW_4) && Spans(ROW_5)
  {}

  lemma Rows6()
    ensures Spans(ROW_6) && Spans(ROW_7) && Spans(ROW_8) && Spans(ROW_9) && Spans(ROW_A)
  {}

  lemma RowsB()
    ensures Spans(ROW_B) && Spans(ROW_C) && Spans(ROW_D) && Spans(ROW_E) && Spans(ROW_F)
  {}

  lemma SpansAt(row: seq<bv32>, l: nat)
    requires Spans(row) && l < 16
    ensures row[l] == Xor(row[0], ROW_0[l])
  {
    assert row[0] == row[0] ^ 0;
  }

  lemma RowsSpan(k: nat)
    requires 0 < k < 16
    ensures |ROWS| == 16 && Spans(ROWS[k])
  {
    hide Spans;
    Rows1();
    Rows6();
    RowsB();
  }

  lemma TableAt(k: nat, l: nat)
    requires k < 16 && l < 16
    ensures |ROWS| == 16 && |ROWS[k]| == 16 && Table()[16 * k + l] == ROWS[k][l]
  {
    hide ROWS;
    RowSizes();
    FlattenAt(ROWS, k, l);
  }

  lemma NibbleIndex(i: bv8)
    ensures i as nat == 16 * ((i >> 4) as nat) + (i & 0x0F) as nat
    ensures ((i >> 4) as nat) < 16 && ((i & 0x0F) as nat) < 16
    ensures Xor((i & 0xF0) as bv32, (i & 0x0F) as bv32) == i as bv32
  {}

  lemma ColumnEntry(i: bv8)
    ensures |ROWS| == 16 && ((i >> 4) as nat) < 16 && |ROWS[(i >> 4) as nat]| == 16
    ensures ROWS[(i >> 4) as nat][0] == Iterate(8, (i & 0xF0) as bv32)
  {
    hide Iterate;
    Columns0();
    Columns4();
    Columns8();
    ColumnsC();
  }

  lemma FirstRowEntry(i: bv8)
    requires i < 16
    ensures |ROW_0| == 16 && ROW_0[i as nat] == Iterate(8, i as bv32)
  {
    hide Iterate;
    FirstRowLinear();
  }

  /** Every table entry is eight steps of the register. */
  lemma TableEntry(i: bv8)
    ensures Table()[i as nat] == Iterate(8, i as bv32)
  {
    hide Iterate, Xor, Table, Spans, ROW_0;
    NibbleIndex(i);
    var k, l := (i >> 4) as nat, (i & 0x0F) as nat;
    TableAt(k, l);
    ColumnEntry(i);
    assert i & 0x0F < 16;
    FirstRowEntry(i & 0x0F);
    IterateLinear(8, (i & 0xF0) as bv32, (i & 0x0F) as bv32);
    if k > 0 {
      RowsSpan(k);
      SpansAt(ROWS[k], l);
    } else {
      FirstRowAt(l);
    }
  }

  lemma FirstRowAt(l: nat)
    requires l < 16
    ensures |ROWS| == 16 && ROWS[0] == ROW_0 && |ROW_0| == 16
    ensures ROW_0[l] == Xor(ROW_0[0], ROW_0[l])
  {
    assert ROW_0[l] ^ 0 == ROW_0[l];
  }

  // ------------------------------------------- one byte of message, one lookup

  /** Message bit k of a byte, at its place in the register. */
  function Placed(k: nat, bit: bv1): bv32
    requires k < 8
  {
    if bit == 0 then 0 else [0x01, 0x02, 0x04, 0x08, 0x10, 0x20, 0x40, 0x80][k]
  }

  lemma PlacedArrives(k: nat, bit: bv1)
    requires k < 8
    ensures Iterate(k, Placed(k, bit)) == bit as bv32
  {
    if bit == 0 {
      IterateZero(k);
    } else {
      assert Iterate(0, 0x01) == 1 && Iterate(1, 0x02) == 1 && Iterate(2, 0x04) == 1 && Iterate(3, 0x08) == 1;
      assert Iterate(4, 0x10) == 1 && Iterate(5, 0x20) == 1 && Iterate(6, 0x40) == 1 && Iterate(7, 0x80) == 1;
    }
  }

  lemma {:induction false} IterateZero(k: nat)
    ensures Iterate(k, 0) == 0
  {
    if k > 0 {
      IterateZero(k - 1);
      assert Feedback(0) == 0;
    }
  }

  /** The register with message bits k..8 loaded ahead of time. */
  function Loaded(k: nat, c: bv32, bits: seq<bv1>): bv32
    requires k <= 8 == |bits|
    decreases 8 - k
  {
    if k == 8 then c else Loaded(k + 1, Xor(c, Placed(k, bits[k])), bits)
  }

  lemma {:induction false} DivideLoaded(k: nat, c: bv32, bits: seq<bv1>)
    requires k <= 8 == |bits|
    ensures Divide(Iterate(k, c), bits[k..]) == Iterate(8, Loaded(k, c, bits))
    decreases 8 - k
  {
    hide Xor, Feedback, Placed;
    if k < 8 {
      var loaded := Xor(c, Placed(k, bits[k]));
      IterateLinear(k, c, Placed(k, bits[k]));
      PlacedArrives(k, bits[k]);
      assert bits[k..][1..] == bits[k + 1..];
      assert Shift(Iterate(k, c), bits[k]) == Iterate(k + 1, loaded);
      DivideLoaded(k + 1, loaded, bits);
    }
  }

  function Masked(b: bv8, m: bv8): bv32 { (b & m) as bv32 }

  lemma PlacedBits(b: bv8)
    ensures var s := ByteBits(b);
            && Placed(0, s[0]) == Masked(b, 0x01) && Placed(1, s[1]) == Masked(b, 0x02)
            && Placed(2, s[2]) == Masked(b, 0x04) && Placed(3, s[3]) == Masked(b, 0x08)
            && Placed(4, s[4]) == Masked(b, 0x10) && Placed(5, s[5]) == Masked(b, 0x20)
            && Placed(6, s[6]) == Masked(b, 0x40) && Placed(7, s[7]) == Masked(b, 0x80)
  {}

  lemma MixBits(b: bv8)
    ensures Masked(b, 0x00) == 0 && Masked(b, 0xFF) == b as bv32
    ensures Xor(Masked(b, 0x00), Masked(b, 0x01)) == Masked(b, 0x01)
    ensures Xor(Masked(b, 0x01), Masked(b, 0x02)) == Masked(b, 0x03)
    ensures Xor(Masked(b, 0x03), Masked(b, 0x04)) == Masked(b, 0x07)
    ensures Xor(Masked(b, 0x07), Masked(b, 0x08)) == Masked(b, 0x0F)
    ensures Xor(Masked(b, 0x0F), Masked(b, 0x10)) == Masked(b, 0x1F)
    ensures Xor(Masked(b, 0x1F), Masked(b, 0x20)) == Masked(b, 0x3F)
    ensures Xor(Masked(b, 0x3F), Masked(b, 0x40)) == Masked(b, 0x7F)
    ensures Xor(Masked(b, 0x7F), Masked(b, 0x80)) == Masked(b, 0xFF)
  {}

  lemma {:induction false} LoadedLinear(k: nat, c: bv32, d: bv32, bits: seq<bv1>)
    requires k <= 8 == |bits|
    ensures Loaded(k, Xor(c, d), bits) == Xor(c, Loaded(k, d, bits))
    decreases 8 - k
  {
    hide Xor, Placed;
    if k < 8 {
      XorAssoc(c, d, Placed(k, bits[k]));
      LoadedLinear(k + 1, c, Xor(d, Placed(k, bits[k])), bits);
    }
  }

  lemma LoadedByte(c: bv32, b: bv8)
    ensures Loaded(0, c, ByteBits(b)) == Xor(c, b as bv32)
  {
    hide Xor, Masked, Placed, ByteBits;
    PlacedBits(b);
    MixBits(b);
    var s := ByteBits(b);
    assert Loaded(6, Masked(b, 0x3F), s) == Masked(b, 0xFF);
    assert Loaded(4, Masked(b, 0x0F), s) == Masked(b, 0xFF);
    assert Loaded(2, Masked(b, 0x03), s) == Masked(b, 0xFF);
    assert Loaded(0, Masked(b, 0x00), s) == Masked(b, 0xFF);
    LoadedLinear(0, c, 0, s);
    XorWithZero(c);
  }

  lemma XorWithZero(x: bv32)
    ensures Xor(x, 0) == x
  {}

  function Halved(k: nat, y: bv32): bv32 {
    if k == 0 then y else Half(Halved(k - 1, y))
  }

  lemma {:induction false} IterateEven(k: nat, y: bv32)
    requires forall j :: 0 <= j < k ==> !Odd(Halved(j, y))
    ensures Iterate(k, y) == Halved(k, y)
  {
    hide Odd, Half, Xor;
    if k > 0 {
      IterateEven(k - 1, y);
    }
  }

  lemma HalvedIs(y: bv32)
    ensures Halved(1, y) == y >> 1 && Halved(2, y) == y >> 2 && Halved(3, y) == y >> 3 && Halved(4, y) == y >> 4
    ensures Halved(5, y) == y >> 5 && Halved(6, y) == y >> 6 && Halved(7, y) == y >> 7 && Halved(8, y) == y >> 8
  {
    assert Halved(1, y) == y >> 1;
    assert Half(y >> 1) == y >> 2;
    assert Halved(2, y) == y >> 2;
    assert Half(y >> 2) == y >> 3;
    assert Halved(3, y) == y >> 3;
    assert Half(y >> 3) == y >> 4;
    assert Halved(4, y) == y >> 4;
    assert Half(y >> 4) == y >> 5;
    assert Halved(5, y) == y >> 5;
    assert Half(y >> 5) == y >> 6;
    assert Halved(6, y) == y >> 6;
    assert Half(y >> 6) == y >> 7;
    assert Halved(7, y) == y >> 7;
    assert Half(y >> 7) == y >> 8;
    assert Halved(8, y) == y >> 8;
  }

  lemma IterateHigh(y: bv32)
    requires y & 0xFF == 0
    ensures Iterate(8, y) == y >> 8
  {
    hide Iterate;
    forall j | 0 <= j < 8 ensures !Odd(Halved(j, y)) {
      hide Halved;
      HalvedIs(y);
      HalvedZero(y);
    }
    hide Odd;
    IterateEven(8, y);
    HalvedIs(y);
  }

  lemma HalvedZero(y: bv32)
    ensures Halved(0, y) == y
  {}

  /** One table lookup is eight steps of the division. */
  lemma TableStepDivides(crc: bv32, b: bv8)
    ensures TableStep(crc, b) == Divide(crc, ByteBits(b))
  {
    hide Iterate, Divide, Loaded, Table, ByteBits;
    var bits, x := ByteBits(b), Xor(crc, b as bv32);
    assert Iterate(0, crc) == crc by { IterateNone(crc); }
    assert bits[0..] == bits;
    DivideLoaded(0, crc, bits);
    LoadedByte(crc, b);
    SplitLowByte(x);
    TableEntry((x & 0xFF) as bv8);
    HighPart(crc, b);
  }

  lemma IterateNone(x: bv32)
    ensures Iterate(0, x) == x
  {}

  lemma SplitLowByte(x: bv32)
    ensures Iterate(8, x) == Xor(Iterate(8, ((x & 0xFF) as bv8) as bv32), x >> 8)
  {
    hide *;
    LowAndHigh(x);
    IterateLinear(8, x & 0xFF, x & 0xFFFFFF00);
    IterateHigh(x & 0xFFFFFF00);
    HighShifted(x);
    LowNarrowed(x);
  }

  lemma HighShifted(x: bv32)
    ensures (x & 0xFFFFFF00) >> 8 == x >> 8
  {}

  lemma LowNarrowed(x: bv32)
    ensures ((x & 0xFF) as bv8) as bv32 == x & 0xFF
  {}

  lemma LowAndHigh(x: bv32)
    ensures Xor(x & 0xFF, x & 0xFFFFFF00) == x
  {}

  lemma HighPart(c: bv32, b: bv8)
    ensures var x := Xor(c, b as bv32); x >> 8 == c >> 8 && (x & 0xFF) as nat == ((x & 0xFF) as bv8) as nat
  {
    assert (c ^ (b as bv32)) >> 8 == c >> 8;
  }

  lemma {:induction false} DivideConcat(reg: bv32, a: seq<bv1>, b: seq<bv1>)
    ensures Divide(reg, a + b) == Divide(Divide(reg, a), b)
    decreases |a|
  {
    hide Shift;
    if a == [] {
      assert a + b == b;
    } else {
      assert (a + b)[1..] == a[1..] + b;
      DivideConcat(Shift(reg, a[0]), a[1..], b);
    }
  }

  lemma ByteStep(crc: bv32, rest: seq<bv8>)
    requires |rest| > 0
    ensures Divide(crc, Bits(rest)) == Divide(TableStep(crc, rest[0]), Bits(rest[1..]))
  {
    hide TableStep, Shift, ByteBits;
    TableStepDivides(crc, rest[0]);
    DivideConcat(crc, ByteBits(rest[0]), Bits(rest[1..]));
  }

  /** CreateCRC32: one table lookup per byte computes the bit-serial form. */
  method CreateCRC32(crc: bv32, data: seq<bv8>) returns (r: bv32)
    ensures r == Continue(crc, data)
    ensures if data == [] then r == crc else r ^ 0xFFFFFFFF == Divide(crc ^ 0xFFFFFFFF, Bits(data))
  {
    hide TableStep, Invert;
    if |data| == 0 {
      return crc;
    }
    ContinueInverts(crc, data);
    r := Invert(crc);
    for i := 0 to |data|
      invariant Divide(r, Bits(data[i..])) == Divide(Invert(crc), Bits(data))
    {
      ByteStep(r, data[i..]);
      r := TableStep(r, data[i]);
      assert data[i..][1..] == data[i + 1..];
    }
    r := Invert(r);
  }

  /** What Continue means without Invert: every bit of the register is turned over before and after. */
  lemma ContinueInverts(crc: bv32, data: seq<bv8>)
    requires data != []
    ensures Continue(crc, data) ^ 0xFFFFFFFF == Divide(crc ^ 0xFFFFFFFF, Bits(data))
  {
    hide Divide;
    TurnedTwice(Divide(crc ^ 0xFFFFFFFF, Bits(data)));
  }

  lemma TurnedTwice(x: bv32)
    ensures (x ^ 0xFFFFFFFF) ^ 0xFFFFFFFF == x
  {}

  /** A byte goes into the register whole, and then eight steps follow. */
  lemma ByteIterates(c: bv32, b: bv8)
    ensures Divide(c, ByteBits(b)) == Iterate(8, Xor(c, b as bv32))
  {
    hide Iterate, Divide, Loaded, ByteBits, Xor;
    assert Iterate(0, c) == c by { IterateNone(c); }
    assert ByteBits(b)[0..] == ByteBits(b);
    DivideLoaded(0, c, ByteBits(b));
    LoadedByte(c, b);
  }

  lemma CheckStep(c: bv32, data: seq<bv8>, i: nat)
    requires i < |data|
    ensures Divide(c, Bits(data[i..])) == Divide(Iterate(8, Xor(c, data[i] as bv32)), Bits(data[i + 1..]))
  {
    hide Iterate, Divide, ByteBits, Xor;
    var rest := data[i..];
    assert rest[1..] == data[i + 1..];
    ByteIterates(c, rest[0]);
    DivideConcat(c, ByteBits(rest[0]), Bits(rest[1..]));
  }

  lemma CheckValues()
    ensures Iterate(8, Xor(0xFFFFFFFF, 0x31)) == 0x7C231048
    ensures Iterate(8, Xor(0x7C231048, 0x32)) == 0xB0ACBB32
    ensures Iterate(8, Xor(0xB0ACBB32, 0x33)) == 0x77B79C2D
    ensures Iterate(8, Xor(0x77B79C2D, 0x34)) == 0x641C1F5C
    ensures Iterate(8, Xor(0x641C1F5C, 0x35)) == 0x340AC5E3
    ensures Iterate(8, Xor(0x340AC5E3, 0x36)) == 0xF68D2C9E
    ensures Iterate(8, Xor(0xF68D2C9E, 0x37)) == 0xAFFC9660
    ensures Iterate(8, Xor(0xAFFC9660, 0x38)) == 0x651F2550
    ensures Iterate(8, Xor(0x651F2550, 0x39)) == 0x340BC6D9
  {}

  /** The check value of this CRC: that of the nine characters "123456789" is 0xCBF43926. */
  lemma CheckValue()
    ensures Continue(0, [0x31, 0x32, 0x33, 0x34, 0x35, 0x36, 0x37, 0x38, 0x39]) == 0xCBF43926
  {
    var data: seq<bv8> := [0x31, 0x32, 0x33, 0x34, 0x35, 0x36, 0x37, 0x38, 0x39];
    CheckRegister(data);
    hide Divide;
    assert Invert(0) == 0xFFFFFFFF && Invert(0x340BC6D9) == 0xCBF43926;
  }

  lemma CheckRegister(data: seq<bv8>)
    requires data == [0x31, 0x32, 0x33, 0x34, 0x35, 0x36, 0x37, 0x38, 0x39]
    ensures Divide(0xFFFFFFFF, Bits(data)) == 0x340BC6D9
  {
    hide Iterate, Divide, Bits, Xor;
    CheckEmpty(0x340BC6D9);
    CheckValues();
    CheckStep(0xFFFFFFFF, data, 0);
    CheckStep(0x7C231048, data, 1);
    CheckStep(0xB0ACBB32, data, 2);
    CheckStep(0x77B79C2D, data, 3);
    CheckStep(0x641C1F5C, data, 4);
    CheckStep(0x340AC5E3, data, 5);
    CheckStep(0xF68D2C9E, data, 6);
    CheckStep(0xAFFC9660, data, 7);
    CheckStep(0x651F2550, data, 8);
    assert data[0..] == data && data[9..] == [];
  }

  lemma CheckEmpty(c: bv32)
    ensures Divide(c, Bits([])) == c
  {}

  lemma InvertTwice(x: bv32)
    ensures Invert(Invert(x)) == x
  {
    assert Invert(x ^ 0xFFFFFFFF) == x;
  }

  lemma {:induction false} BitsConcat(a: seq<bv8>, b: seq<bv8>)
    ensures Bits(a + b) == Bits(a) + Bits(b)
  {
    hide ByteBits;
    if a == [] {
      assert a + b == b;
    } else {
      assert (a + b)[1..] == a[1..] + b;
      BitsConcat(a[1..], b);
      assert ByteBits(a[0]) + (Bits(a[1..]) + Bits(b)) == ByteBits(a[0]) + Bits(a[1..]) + Bits(b);
    }
  }

  /** Continuing from the checksum of one piece gives the checksum of the concatenation. */
  lemma ContinueComposes(crc: bv32, a: seq<bv8>, b: seq<bv8>)
    ensures Continue(Continue(crc, a), b) == Continue(crc, a + b)
  {
    hide Divide, Bits, Invert;
    if a == [] {
      assert a + b == b;
    } else if b == [] {
      assert a + b == a;
    } else {
      BitsConcat(a, b);
      DivideConcat(Invert(crc), Bits(a), Bits(b));
      InvertTwice(Divide(Invert(crc), Bits(a)));
    }
  }

  // ----------------------------------------------------------- error detection

  lemma MeetLinear(r: bv32, s: bv32, a: bv1, b: bv1)
    ensures Xor(Xor(r, a as bv32), Xor(s, b as bv32)) == Xor(Xor(r, s), (a ^ b) as bv32)
  {
    assert Xor(r ^ (a as bv32), s ^ (b as bv32)) == Xor(r ^ s, (a ^ b) as bv32);
  }

  lemma ShiftLinear(r: bv32, s: bv32, a: bv1, b: bv1)
    ensures Xor(Shift(r, a), Shift(s, b)) == Shift(Xor(r, s), a ^ b)
  {
    hide Feedback, Xor;
    FeedbackLinear(Xor(r, a as bv32), Xor(s, b as bv32));
    MeetLinear(r, s, a, b);
  }

  lemma {:induction false} DivideLinear(r: bv32, s: bv32, a: seq<bv1>, b: seq<bv1>)
    requires |a| == |b|
    ensures Xor(Divide(r, a), Divide(s, b)) == Divide(Xor(r, s), XorBits(a, b))
    decreases |a|
  {
    hide Shift, Xor;
    if a != [] {
      ShiftLinear(r, s, a[0], b[0]);
      DivideLinear(Shift(r, a[0]), Shift(s, b[0]), a[1..], b[1..]);
      assert XorBits(a, b)[1..] == XorBits(a[1..], b[1..]);
    }
  }

  /** All ones shifted left k times. */
  function HighMask(k: nat): bv32 {
    if k == 0 then 0xFFFFFFFF else HighMask(k - 1) << 1
  }

  lemma HighMaskTop(k: nat)
    requires k <= 31
    ensures HighMask(k) & 0x80000000 != 0
  {
    assert HighMask(4) == 0xFFFFFFF0;
    assert HighMask(8) == 0xFFFFFF00;
    assert HighMask(12) == 0xFFFFF000;
    assert HighMask(16) == 0xFFFF0000;
    assert HighMask(20) == 0xFFF00000;
    assert HighMask(24) == 0xFF000000;
    assert HighMask(28) == 0xF0000000;
    assert HighMask(31) == 0x80000000;
  }

  lemma BackStep(c: bv32, b: bv1, m: bv32)
    requires m & 0x80000000 != 0 && Shift(c, b) & m == 0
    ensures c & (m << 1) == 0
    ensures c == 0 ==> b == 0 && Shift(c, b) == 0
  {}

  lemma ZeroShift(c: bv32)
    ensures Shift(c, 0) == 0 ==> c == 0
  {}

  /** A window of k <= 32 message bits clears the register only if the register's high 32 - k bits are
      clear before; a register that is clear before is cleared only by a window of zeros. */
  lemma {:induction false} WindowKernel(c: bv32, w: seq<bv1>)
    requires |w| <= 32 && Divide(c, w) == 0
    ensures c & HighMask(|w|) == 0
    ensures c == 0 ==> forall i :: 0 <= i < |w| ==> w[i] == 0
    decreases |w|
  {
    hide Shift;
    if w == [] {
      assert c & 0xFFFFFFFF == c;
    } else {
      WindowKernel(Shift(c, w[0]), w[1..]);
      HighMaskTop(|w| - 1);
      BackStep(c, w[0], HighMask(|w| - 1));
      assert forall i :: 1 <= i < |w| ==> w[i] == w[1..][i - 1];
    }
  }

  lemma {:induction false} ZeroTail(c: bv32, z: seq<bv1>)
    requires Divide(c, z) == 0 && forall i :: 0 <= i < |z| ==> z[i] == 0
    ensures c == 0
    decreases |z|
  {
    hide Shift;
    if z != [] {
      ZeroTail(Shift(c, z[0]), z[1..]);
      ZeroShift(c);
    }
  }

  /** Two bit streams that differ only inside one window of at most 32 bits leave different
      registers, wherever the window lies and whatever the register held before. */
  lemma BurstDetected(c: bv32, before: seq<bv1>, u: seq<bv1>, v: seq<bv1>, after: seq<bv1>)
    requires |u| == |v| <= 32 && u != v
    ensures Divide(c, before + u + after) != Divide(c, before + v + after)
  {
    hide Divide, Xor;
    DivideConcat(c, before + u, after);
    DivideConcat(c, before, u);
    DivideConcat(c, before + v, after);
    DivideConcat(c, before, v);
    var d := Divide(c, before);
    var du, dv := Divide(d, u), Divide(d, v);
    if Divide(du, after) == Divide(dv, after) {
      XorZero(Divide(du, after), Divide(dv, after));
      DivideLinear(du, dv, after, after);
      XorBitsZero(after, after);
      ZeroTail(Xor(du, dv), XorBits(after, after));
      DivideLinear(d, d, u, v);
      XorZero(d, d);
      WindowKernel(0, XorBits(u, v));
      XorBitsZero(u, v);
    }
  }

  lemma ByteBitsInjective(a: bv8, b: bv8)
    requires ByteBits(a) == ByteBits(b)
    ensures a == b
  {}

  lemma {:induction false} BitsInjective(a: seq<bv8>, b: seq<bv8>)
    requires |a| == |b| && Bits(a) == Bits(b)
    ensures a == b
  {
    hide ByteBits;
    if a != [] {
      assert ByteBits(a[0]) == Bits(a)[..8] && Bits(a[1..]) == Bits(a)[8..];
      assert ByteBits(b[0]) == Bits(b)[..8] && Bits(b[1..]) == Bits(b)[8..];
      ByteBitsInjective(a[0], b[0]);
      BitsInjective(a[1..], b[1..]);
      assert a == [a[0]] + a[1..] && b == [b[0]] + b[1..];
    }
  }

  /** Buffers that differ only inside four adjacent bytes have different checksums, whatever
      checksum both continue from. */
  lemma AdjacentBytesDetected(crc: bv32, before: seq<bv8>, u: seq<bv8>, v: seq<bv8>, after: seq<bv8>)
    requires |u| == |v| <= 4 && u != v
    ensures Continue(crc, before + u + after) != Continue(crc, before + v + after)
  {
    hide Divide, Bits, Invert;
    BitsConcat(before + u, after);
    BitsConcat(before, u);
    BitsConcat(before + v, after);
    BitsConcat(before, v);
    if Bits(u) == Bits(v) {
      BitsInjective(u, v);
    }
    BurstDetected(Invert(crc), Bits(before), Bits(u), Bits(v), Bits(after));
    InvertTwice(Divide(Invert(crc), Bits(before + u + after)));
    InvertTwice(Divide(Invert(crc), Bits(before + v + after)));
  }
}
