/** The transport header that precedes every netXtransport packet
    (examples/tcpserver/Marshaller/APIHeader/HilTransport.h), byte for byte, low byte first. */
module Frame {
  import opened Bytes
  import Crc16

  const HEADER_SIZE := 20

  /** 0xA55A5AA5, low byte first. */
  const COOKIE: seq<bv8> := [0xA5, 0x5A, 0x5A, 0xA5]

  const TYPE_QUERYSERVER: bv16 := 0x0000
  const TYPE_ACKNOWLEDGE: bv16 := 0x8000
  const TYPE_KEEP_ALIVE: bv16 := 0xFFFF

  const STATE_OK: bv8 := 0x00
  const CHECKSUM_ERROR: bv8 := 0x10
  const LENGTH_INCOMPLETE: bv8 := 0x11
  const DATA_TYPE_UNKNOWN: bv8 := 0x12
  const BUFFEROVERFLOW_ERROR: bv8 := 0x16
  const RESOURCE_ERROR: bv8 := 0x17
  const KEEP_ALIVE_ERROR: bv8 := 0x20

  datatype Header = Header(
    length: nat,
    checksum: bv16,
    dataType: bv16,
    device: bv8,
    channel: bv8,
    sequence: bv8,
    state: bv8,
    transaction: bv16,
    reserved: bv16)

  // ----------------------------------------------------------------- integers

  function Nat32(b0: bv8, b1: bv8, b2: bv8, b3: bv8): (n: nat)
    ensures n < 0x1_0000_0000
  {
    Value(b0) + 256 * (Value(b1) + 256 * (Value(b2) + 256 * Value(b3)))
  }

  function Short16(w: bv16): (s: seq<bv8>)
    ensures |s| == 2
  {
    [(w & 0xFF) as bv8, (w >> 8) as bv8]
  }

  function Word16(lo: bv8, hi: bv8): bv16 {
    (lo as bv16) | ((hi as bv16) << 8)
  }

  function Long32(w: bv32): (s: seq<bv8>)
    ensures |s| == 4
  {
    [(w & 0xFF) as bv8, ((w >> 8) & 0xFF) as bv8, ((w >> 16) & 0xFF) as bv8, (w >> 24) as bv8]
  }

  function Word32(s: seq<bv8>): bv32
    requires |s| == 4
  {
    (s[0] as bv32) | ((s[1] as bv32) << 8) | ((s[2] as bv32) << 16) | ((s[3] as bv32) << 24)
  }

  lemma FourDigits(n: nat)
    requires n < 0x1_0000_0000
    ensures var m := n / 256; var k := m / 256;
            n == n % 256 + 256 * (m % 256 + 256 * (k % 256 + 256 * (k / 256 % 256)))
  {}

  lemma Nat32Length(n: nat)
    requires n < 0x1_0000_0000
    ensures var s := Length32(n); Nat32(s[0], s[1], s[2], s[3]) == n
  {
    hide LowByte, Value;
    var m := n / 256;
    var k := m / 256;
    LowByteValue(n);
    LowByteValue(m);
    LowByteValue(k);
    LowByteValue(k / 256);
    FourDigits(n);
  }

  lemma Word16Short(w: bv16)
    ensures var s := Short16(w); Word16(s[0], s[1]) == w
  {
    assert Word16((w & 0xFF) as bv8, (w >> 8) as bv8) == w;
  }

  // ------------------------------------------------------------------ headers

  function Encode(h: Header): (s: seq<bv8>)
    ensures |s| == HEADER_SIZE && s[..4] == COOKIE
  {
    COOKIE + Length32(h.length) + Short16(h.checksum) + Short16(h.dataType)
    + [h.device, h.channel, h.sequence, h.state] + Short16(h.transaction) + Short16(h.reserved)
  }

  function Decode(s: seq<bv8>): (h: Header)
    requires |s| == HEADER_SIZE
    ensures h.length < 0x1_0000_0000
  {
    Header(Nat32(s[4], s[5], s[6], s[7]), Word16(s[8], s[9]), Word16(s[10], s[11]),
           s[12], s[13], s[14], s[15], Word16(s[16], s[17]), Word16(s[18], s[19]))
  }

  /** The bytes behind the cookie, one by one. */
  lemma BytesAt(a: seq<bv8>, b: seq<bv8>, c: seq<bv8>, d: seq<bv8>, e: seq<bv8>, f: seq<bv8>, g: seq<bv8>)
    requires |a| == |b| == |e| == 4 && |c| == |d| == |f| == |g| == 2
    ensures var s := a + b + c + d + e + f + g;
            && s[4] == b[0] && s[5] == b[1] && s[6] == b[2] && s[7] == b[3] && s[8] == c[0] && s[9] == c[1]
            && s[10] == d[0] && s[11] == d[1] && s[12] == e[0] && s[13] == e[1] && s[14] == e[2] && s[15] == e[3]
            && s[16] == f[0] && s[17] == f[1] && s[18] == g[0] && s[19] == g[1]
  {}

  /** A header read back from its own bytes. */
  lemma DecodeEncode(h: Header)
    requires h.length < 0x1_0000_0000
    ensures Decode(Encode(h)) == h
  {
    hide Nat32, Word16, Length32, Short16;
    BytesAt(COOKIE, Length32(h.length), Short16(h.checksum), Short16(h.dataType),
            [h.device, h.channel, h.sequence, h.state], Short16(h.transaction), Short16(h.reserved));
    Nat32Length(h.length);
    Word16Short(h.checksum);
    Word16Short(h.dataType);
    Word16Short(h.transaction);
    Word16Short(h.reserved);
  }

  /** The header HilMarshallerConnTxData puts in front of data. */
  function Stamp(h: Header, data: seq<bv8>): Header {
    h.(length := |data|, checksum := if |data| > 0 then Crc16.Checksum(data) else 0)
  }

  /** A packet as it goes over the line. */
  function Packet(h: Header, data: seq<bv8>): seq<bv8> {
    Encode(Stamp(h, data)) + data
  }
}
