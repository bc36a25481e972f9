/** The receive scanner between calls: its invariant, independence from how the byte stream is
    cut into calls, and the receive timeout. */
module MarshallerScan {
  import opened Options
  import opened Frame
  import opened Marshaller

  // ---------------------------------------------------------------- invariant

  /** How scan state, offset, current buffer and timeout monitor hang together between calls. */
  predicate Inv(env: Env, c: Conn) {
    match c.scan
    case CookieScan => |c.raw| <= 3 && c.data == [] && c.current.None? && !c.monitor
    case HeaderScan => 4 <= |c.raw| < HEADER_SIZE && c.raw[..4] == COOKIE && c.data == [] && c.current.None? && c.monitor
    case DataWait =>
      && |c.raw| == HEADER_SIZE && c.raw[..4] == COOKIE && c.current.Some? && c.monitor
      && (var h := Decode(c.raw);
          && |c.data| < h.length <= Capacity(env, h)
          && h.dataType != TYPE_ACKNOWLEDGE)
    case TelegramCheck => false
  }

  lemma ByteKeepsInv(env: Env, c: Conn, b: bv8)
    requires Inv(env, c)
    ensures var (c', refused) := Byte(env, c, b);
            && Inv(env, c')
            && (refused ==> c.scan.HeaderScan? && c'.scan.CookieScan? && c'.raw == [])
            && (c.elapsed == 0 ==> c'.elapsed == 0)
  {
    hide Decode, Acknowledge, Transmit, TransmitOrFree, CheckKeepAlive, Main, Free;
    if c.scan.HeaderScan? {
      assert (c.raw + [b])[..4] == COOKIE;
    }
  }

  lemma {:induction false} FeedKeepsInv(env: Env, c: Conn, seen: seq<bv8>, chunk: seq<bv8>)
    requires Inv(env, c)
    ensures Inv(env, Feed(env, c, seen, chunk))
    ensures c.elapsed == 0 ==> Feed(env, c, seen, chunk).elapsed == 0
    decreases |seen| + |chunk|, if c.scan.HeaderScan? then 1 else 0, |chunk|
  {
    hide Byte, Inv;
    if chunk != [] {
      var (c', refused) := Byte(env, c, chunk[0]);
      ByteKeepsInv(env, c, chunk[0]);
      if refused {
        FeedKeepsInv(env, c', [], seen + chunk);
      } else if c.scan.HeaderScan? && c'.scan.HeaderScan? {
        FeedKeepsInv(env, c', seen + [chunk[0]], chunk[1..]);
      } else {
        FeedKeepsInv(env, c', [], chunk[1..]);
      }
    }
  }

  // ------------------------------------------------------- chunk independence

  function RxChunks(env: Env, c: Conn, chunks: seq<seq<bv8>>): Conn
    decreases |chunks|
  {
    if chunks == [] then c else RxChunks(env, RxData(env, c, chunks[0]), chunks[1..])
  }

  function Flatten(chunks: seq<seq<bv8>>): seq<bv8> {
    if chunks == [] then [] else chunks[0] + Flatten(chunks[1..])
  }

  /** Every byte in a call of its own. */
  function RxBytes(env: Env, c: Conn, stream: seq<bv8>): Conn
    decreases |stream|
  {
    if stream == [] then c else RxBytes(env, RxData(env, c, [stream[0]]), stream[1..])
  }

  /** No byte of the stream completes a header that is refused. */
  predicate NoRefusal(env: Env, c: Conn, stream: seq<bv8>)
    decreases |stream|
  {
    stream == [] ||
    var (c', refused) := Byte(env, c, stream[0]);
    !refused && NoRefusal(env, c', stream[1..])
  }

  lemma OneByte(env: Env, c: Conn, b: bv8)
    requires c.elapsed == 0 && !Byte(env, c, b).1
    ensures RxData(env, c, [b]) == Byte(env, c, b).0
  {
    hide Byte;
    assert c.(elapsed := 0) == c;
    var (c', refused) := Byte(env, c, b);
    assert [b][1..] == [];
    assert Feed(env, c', [], []) == c' && Feed(env, c', [b], []) == c';
    assert [] + [b] == [b];
  }

  lemma {:induction false} RxBytesConcat(env: Env, c: Conn, a: seq<bv8>, b: seq<bv8>)
    ensures RxBytes(env, c, a + b) == RxBytes(env, RxBytes(env, c, a), b)
    decreases |a|
  {
    hide RxData;
    if a == [] {
      assert a + b == b;
    } else {
      assert (a + b)[1..] == a[1..] + b;
      RxBytesConcat(env, RxData(env, c, [a[0]]), a[1..], b);
    }
  }

  /** Without refusals a chunk is its bytes, one call each, wherever the scan stands. */
  lemma {:induction false} FeedIsBytes(env: Env, c: Conn, seen: seq<bv8>, chunk: seq<bv8>)
    requires Inv(env, c) && c.elapsed == 0 && NoRefusal(env, c, chunk)
    ensures Feed(env, c, seen, chunk) == RxBytes(env, c, chunk)
    decreases |chunk|
  {
    hide Byte, Inv, RxData;
    if chunk != [] {
      var (c', refused) := Byte(env, c, chunk[0]);
      ByteKeepsInv(env, c, chunk[0]);
      OneByte(env, c, chunk[0]);
      FeedIsBytes(env, c', if c.scan.HeaderScan? && c'.scan.HeaderScan? then seen + [chunk[0]] else [], chunk[1..]);
    }
  }

  lemma {:induction false} NoRefusalSplits(env: Env, c: Conn, a: seq<bv8>, b: seq<bv8>)
    requires Inv(env, c) && c.elapsed == 0 && NoRefusal(env, c, a + b)
    ensures NoRefusal(env, c, a) && NoRefusal(env, RxBytes(env, c, a), b)
    ensures Inv(env, RxBytes(env, c, a)) && RxBytes(env, c, a).elapsed == 0
    decreases |a|
  {
    hide Byte, Inv, RxData;
    if a == [] {
      assert a + b == b;
    } else {
      assert (a + b)[0] == a[0] && (a + b)[1..] == a[1..] + b;
      ByteKeepsInv(env, c, a[0]);
      OneByte(env, c, a[0]);
      NoRefusalSplits(env, Byte(env, c, a[0]).0, a[1..], b);
    }
  }

  /** Chunk independence: however the stream is cut into receive calls, the final state, with its
      whole trace of acknowledges, answers and requests, is that of one call per byte. */
  lemma {:induction false} ChunkIndependence(env: Env, c: Conn, chunks: seq<seq<bv8>>)
    requires Inv(env, c) && c.elapsed == 0 && NoRefusal(env, c, Flatten(chunks))
    ensures RxChunks(env, c, chunks) == RxBytes(env, c, Flatten(chunks))
    decreases |chunks|
  {
    hide Inv, Feed, NoRefusal, RxBytes;
    if chunks == [] {
      assert RxBytes(env, c, []) == c by { NoBytes(env, c); }
    } else {
      var rest := Flatten(chunks[1..]);
      NoRefusalSplits(env, c, chunks[0], rest);
      assert c.(elapsed := 0) == c;
      FeedIsBytes(env, c, [], chunks[0]);
      RxBytesConcat(env, c, chunks[0], rest);
      ChunkIndependence(env, RxData(env, c, chunks[0]), chunks[1..]);
    }
  }

  lemma NoBytes(env: Env, c: Conn)
    ensures RxBytes(env, c, []) == c
  {}

  // ------------------------------------------------- exactly when it does not matter

  /** The end is the same for every cutting of a stream into calls. */
  ghost predicate CutFree(env: Env, c: Conn, stream: seq<bv8>) {
    forall chunks :: Flatten(chunks) == stream ==> RxChunks(env, c, chunks) == RxBytes(env, c, stream)
  }

  /** At no moment does the cutting show. */
  ghost predicate AlwaysCutFree(env: Env, c: Conn, stream: seq<bv8>) {
    forall n :: 0 <= n <= |stream| ==> CutFree(env, c, stream[..n])
  }

  lemma {:induction false} FirstRefusal(env: Env, c: Conn, stream: seq<bv8>) returns (p: nat)
    requires Inv(env, c) && c.elapsed == 0 && !NoRefusal(env, c, stream)
    ensures p < |stream| && NoRefusal(env, c, stream[..p]) && Byte(env, RxBytes(env, c, stream[..p]), stream[p]).1
    decreases |stream|
  {
    hide Byte, Inv, RxData;
    if Byte(env, c, stream[0]).1 {
      p := 0;
    } else {
      ByteKeepsInv(env, c, stream[0]);
      OneByte(env, c, stream[0]);
      p := FirstRefusal(env, Byte(env, c, stream[0]).0, stream[1..]);
      p := p + 1;
      assert stream[..p][1..] == stream[1..][..p - 1];
    }
  }

  lemma RefusedInHeader(env: Env, c: Conn, b: bv8)
    requires Inv(env, c) && Byte(env, c, b).1
    ensures c.scan.HeaderScan? && |c.raw| == HEADER_SIZE - 1
  {
    hide HeaderDone, CheckTelegram;
  }

  lemma HeaderGrew(env: Env, c: Conn, b: bv8)
    requires Inv(env, c) && Byte(env, c, b).0.scan.HeaderScan? && |Byte(env, c, b).0.raw| == HEADER_SIZE - 1
    ensures c.scan.HeaderScan? && |c.raw| == HEADER_SIZE - 2
  {
    hide HeaderDone, Decode;
    if c.scan.HeaderScan? && |c.raw| == HEADER_SIZE - 1 {
      HeaderLeft(env, c.(raw := c.raw + [b]));
    } else if c.scan.DataWait? {
      CheckLeaves(env, c.(data := c.data + [b], scan := TelegramCheck));
    }
  }

  lemma CheckLeaves(env: Env, c: Conn)
    requires |c.raw| == HEADER_SIZE && c.current.Some?
    ensures CheckTelegram(env, c).scan.CookieScan?
  {
    hide Decode, Acknowledge, TransmitOrFree, Free, Main, CheckKeepAlive;
  }

  /** A refused header whose last byte comes alone leaves that byte in the cookie window; if the byte
      before comes with it, both. */
  lemma RefusedTails(env: Env, c: Conn, x: bv8, y: bv8)
    requires Inv(env, c) && c.elapsed == 0 && !Byte(env, c, x).1 && Byte(env, Byte(env, c, x).0, y).1
    requires c.scan.HeaderScan? && Byte(env, c, x).0.scan.HeaderScan?
    ensures RxData(env, c, [x, y]).raw == [x, y] && RxData(env, Byte(env, c, x).0, [y]).raw == [y]
  {
    hide Byte, Inv, Feed;
    var m := Byte(env, c, x).0;
    ByteKeepsInv(env, c, x);
    ByteKeepsInv(env, m, y);
    var d := Byte(env, m, y).0;
    assert c.(elapsed := 0) == c && m.(elapsed := 0) == m;
    HeaderPair(env, c, x, y);
    SearchPair(env, d, x, y);
  }

  lemma HeaderPair(env: Env, c: Conn, x: bv8, y: bv8)
    requires !Byte(env, c, x).1 && Byte(env, Byte(env, c, x).0, y).1
    requires c.scan.HeaderScan? && Byte(env, c, x).0.scan.HeaderScan?
    ensures var m := Byte(env, c, x).0;
            var d := Byte(env, m, y).0;
            Feed(env, c, [], [x, y]) == Feed(env, d, [], [x, y]) && Feed(env, m, [], [y]) == Feed(env, d, [], [y])
  {
    hide Byte;
    var m := Byte(env, c, x).0;
    assert [x, y][1..] == [y] && [] + [x] == [x] && [x] + [y] == [x, y] && [] + [y] == [y];
    assert Feed(env, c, [], [x, y]) == Feed(env, m, [x], [y]);
  }

  lemma SearchPair(env: Env, d: Conn, x: bv8, y: bv8)
    requires d.scan.CookieScan? && d.raw == []
    ensures Feed(env, d, [], [x, y]).raw == [x, y] && Feed(env, d, [], [y]).raw == [y]
  {
    WindowByte(env, d, x);
    WindowByte(env, d, y);
    var dx := Byte(env, d, x).0;
    WindowByte(env, dx, y);
    hide Byte;
    assert [x, y][1..] == [y] && [y][1..] == [] && [x] + [y] == [x, y];
    var dxy, dy := Byte(env, dx, y).0, Byte(env, d, y).0;
    assert Feed(env, dxy, [], []) == dxy && Feed(env, dy, [], []) == dy;
    assert Feed(env, dx, [], [y]) == dxy;
  }

  lemma WindowByte(env: Env, c: Conn, b: bv8)
    requires c.scan.CookieScan? && |c.raw| < 3
    ensures Byte(env, c, b) == (c.(raw := c.raw + [b]), false)
  {}

  /** If a header is refused, cutting the stream before its last two bytes, or before its last one,
      makes a difference. */
  lemma RefusalShows(env: Env, c: Conn, stream: seq<bv8>, p: nat)
    requires Inv(env, c) && c.elapsed == 0 && c.scan.CookieScan? && p < |stream|
    requires NoRefusal(env, c, stream[..p]) && Byte(env, RxBytes(env, c, stream[..p]), stream[p]).1
    ensures !CutFree(env, c, stream[..p + 1])
  {
    hide Byte, Inv, RxData, RxBytes, NoRefusal;
    NoBytes(env, c);
    assert stream[..p] + [] == stream[..p];
    NoRefusalSplits(env, c, stream[..p], []);
    var cp := RxBytes(env, c, stream[..p]);
    RefusedInHeader(env, cp, stream[p]);
    assert stream[..0] == [];
    assert p > 0;
    var x, y := stream[p - 1], stream[p];
    assert stream[..p] == stream[..p - 1] + [x] && stream[..p + 1] == stream[..p] + [y];
    NoRefusalSplits(env, c, stream[..p - 1], [x]);
    var cq := RxBytes(env, c, stream[..p - 1]);
    RxBytesConcat(env, c, stream[..p - 1], [x]);
    RxBytesConcat(env, c, stream[..p], [y]);
    OneRefusalFree(env, cq, x);
    RxBytesSingle(env, cq, x);
    RxBytesSingle(env, cp, y);
    HeaderGrew(env, cq, x);
    RefusedTails(env, cq, x, y);
    var chunks := [stream[..p - 1], [x, y]];
    TwoChunks(env, c, stream[..p - 1], [x, y]);
    assert stream[..p - 1] + [x, y] == stream[..p + 1];
    FeedIsBytes(env, c, [], stream[..p - 1]);
    assert c.(elapsed := 0) == c;
    RxDataIsFeed(env, c, stream[..p - 1]);
    assert RxChunks(env, c, chunks).raw == [x, y] && RxBytes(env, c, stream[..p + 1]).raw == [y];
  }

  lemma RxDataIsFeed(env: Env, c: Conn, chunk: seq<bv8>)
    requires c.elapsed == 0
    ensures RxData(env, c, chunk) == Feed(env, c, [], chunk)
  {
    assert c.(elapsed := 0) == c;
  }

  lemma OneRefusalFree(env: Env, c: Conn, b: bv8)
    requires c.elapsed == 0 && NoRefusal(env, c, [b])
    ensures !Byte(env, c, b).1 && RxData(env, c, [b]) == Byte(env, c, b).0
  {
    hide Byte, RxData;
    OneByte(env, c, b);
  }

  lemma RxBytesSingle(env: Env, c: Conn, b: bv8)
    ensures RxBytes(env, c, [b]) == RxData(env, c, [b])
  {
    hide RxData;
    assert [b][1..] == [];
    NoBytes(env, RxData(env, c, [b]));
  }

  lemma TwoChunks(env: Env, c: Conn, a: seq<bv8>, b: seq<bv8>)
    ensures Flatten([a, b]) == a + b && RxChunks(env, c, [a, b]) == RxData(env, RxData(env, c, a), b)
  {
    hide RxData;
    assert [a, b][1..] == [b] && [b][1..] == [];
    var none: seq<seq<bv8>> := [];
    assert Flatten([b]) == b + Flatten(none) && Flatten(none) == [];
    var d := RxData(env, c, a);
    assert RxChunks(env, d, [b]) == RxChunks(env, RxData(env, d, b), none) == RxData(env, d, b);
  }

  /** Chunk independence holds at all times if and only if no header is refused. */
  lemma ChunkIndependenceExactly(env: Env, c: Conn, stream: seq<bv8>)
    requires Inv(env, c) && c.elapsed == 0 && c.scan.CookieScan?
    ensures AlwaysCutFree(env, c, stream) <==> NoRefusal(env, c, stream)
  {
    hide Inv, NoRefusal, RxChunks, RxBytes, Byte;
    if NoRefusal(env, c, stream) {
      forall n | 0 <= n <= |stream| ensures CutFree(env, c, stream[..n]) {
        assert stream == stream[..n] + stream[n..];
        NoRefusalSplits(env, c, stream[..n], stream[n..]);
        forall chunks | Flatten(chunks) == stream[..n] ensures RxChunks(env, c, chunks) == RxBytes(env, c, stream[..n]) {
          ChunkIndependence(env, c, chunks);
        }
      }
    } else {
      var p := FirstRefusal(env, c, stream);
      RefusalShows(env, c, stream, p);
    }
  }

  // ------------------------------------------------------- several bytes at once

  lemma {:induction false} FeedHeaderBytes(env: Env, c: Conn, seen: seq<bv8>, s: seq<bv8>, more: seq<bv8>)
    requires c.scan.HeaderScan? && |c.raw| + |s| < HEADER_SIZE
    ensures Feed(env, c, seen, s + more) == Feed(env, c.(raw := c.raw + s), seen + s, more)
    decreases |s|
  {
    hide HeaderDone;
    if s == [] {
      assert s + more == more && c.raw + s == c.raw && seen + s == seen;
    } else {
      var c' := c.(raw := c.raw + [s[0]]);
      assert Byte(env, c, s[0]) == (c', false);
      assert (s + more)[0] == s[0] && (s + more)[1..] == s[1..] + more;
      hide Byte;
      FeedHeaderBytes(env, c', seen + [s[0]], s[1..], more);
      assert c.raw + [s[0]] + s[1..] == c.raw + s && seen + [s[0]] + s[1..] == seen + s;
    }
  }

  /** The bytes that complete a header: refused, they and those seen before are scanned again. */
  lemma FeedHeaderLast(env: Env, c: Conn, seen: seq<bv8>, s: seq<bv8>, more: seq<bv8>)
    requires c.scan.HeaderScan? && |s| > 0 && |c.raw| + |s| == HEADER_SIZE
    ensures var (d, refused) := HeaderDone(env, c.(raw := c.raw + s));
            Feed(env, c, seen, s + more) == Feed(env, d, [], if refused then seen + s + more else more)
  {
    hide HeaderDone;
    var n := |s| - 1;
    var s', b := s[..n], s[n];
    assert s + more == s' + ([b] + more);
    FeedHeaderBytes(env, c, seen, s', [b] + more);
    var c' := c.(raw := c.raw + s');
    assert c'.raw + [b] == c.raw + s;
    var (d, refused) := HeaderDone(env, c.(raw := c.raw + s));
    assert Byte(env, c', b) == (d, refused);
    assert !d.scan.HeaderScan? by { HeaderLeft(env, c.(raw := c.raw + s)); }
    hide Byte;
    assert seen + s' + ([b] + more) == seen + s + more && ([b] + more)[1..] == more;
  }

  lemma HeaderLeft(env: Env, c: Conn)
    requires |c.raw| == HEADER_SIZE
    ensures !HeaderDone(env, c).0.scan.HeaderScan?
  {
    hide Decode, Acknowledge, Free;
  }

  lemma {:induction false} FeedDataBytes(env: Env, c: Conn, s: seq<bv8>, more: seq<bv8>)
    requires c.scan.DataWait? && |c.raw| == HEADER_SIZE && c.current.Some? && |c.data| + |s| < Decode(c.raw).length
    ensures Feed(env, c, [], s + more) == Feed(env, c.(data := c.data + s), [], more)
    decreases |s|
  {
    hide CheckTelegram, Decode;
    if s == [] {
      assert s + more == more && c.data + s == c.data;
    } else {
      var c' := c.(data := c.data + [s[0]]);
      assert Byte(env, c, s[0]) == (c', false);
      assert (s + more)[0] == s[0] && (s + more)[1..] == s[1..] + more;
      hide Byte;
      FeedDataBytes(env, c', s[1..], more);
      assert c.data + [s[0]] + s[1..] == c.data + s;
    }
  }

  lemma FeedDataLast(env: Env, c: Conn, s: seq<bv8>, more: seq<bv8>)
    requires c.scan.DataWait? && |c.raw| == HEADER_SIZE && c.current.Some?
    requires |s| > 0 && |c.data| + |s| == Decode(c.raw).length
    ensures Feed(env, c, [], s + more)
         == Feed(env, CheckTelegram(env, c.(data := c.data + s, scan := TelegramCheck)), [], more)
  {
    hide CheckTelegram, Decode;
    var n := |s| - 1;
    var s', b := s[..n], s[n];
    assert s + more == s' + ([b] + more);
    FeedDataBytes(env, c, s', [b] + more);
    var c' := c.(data := c.data + s');
    assert c'.data + [b] == c.data + s;
    var whole := c.(data := c.data + s, scan := TelegramCheck);
    assert Byte(env, c', b) == (CheckTelegram(env, whole), false);
    hide Byte;
    assert ([b] + more)[1..] == more;
  }

  // ------------------------------------------------------------------ timeout

  function Ticks(env: Env, c: Conn, n: nat): Conn {
    if n == 0 then c else Timer(env, Ticks(env, c, n - 1))
  }

  lemma {:induction false} QuietTicks(env: Env, c: Conn, n: nat)
    requires c.monitor && c.elapsed == 0 && 10 * n <= env.timeout && 10 * n < 0x1_0000_0000
    ensures Ticks(env, c, n) == c.(elapsed := 10 * n)
  {
    hide Reset;
    if n > 0 {
      QuietTicks(env, c, n - 1);
    }
  }

  /** A scanner stuck inside a frame is reset, and its buffer returned, by the tick number
      timeout / 10 + 1 after the last data and by none before, exactly if the timeout lies
      below 4294967290; from there on the 32-bit count of elapsed time wraps around first. */
  lemma TimeoutTick(env: Env, c: Conn)
    requires Inv(env, c) && !c.scan.CookieScan? && c.elapsed == 0 && env.timeout < 0x1_0000_0000
    ensures forall n: nat :: n <= env.timeout / 10 ==> Ticks(env, c, n) == c.(elapsed := 10 * n)
    ensures Ticks(env, c, env.timeout / 10 + 1) == Reset(c) <==> env.timeout < 4294967290
  {
    hide Reset, Ticks, Inv;
    assert c.monitor by { InsideMonitored(env, c); }
    forall n: nat | n <= env.timeout / 10 ensures Ticks(env, c, n) == c.(elapsed := 10 * n) {
      QuietTicks(env, c, n);
    }
    LastTick(env, c, env.timeout / 10);
  }

  lemma InsideMonitored(env: Env, c: Conn)
    requires Inv(env, c) && !c.scan.CookieScan?
    ensures c.monitor
  {}

  lemma LastTick(env: Env, c: Conn, last: nat)
    requires c.monitor && last == env.timeout / 10 && env.timeout < 0x1_0000_0000
    requires Ticks(env, c, last) == c.(elapsed := 10 * last)
    ensures Ticks(env, c, last + 1) == Reset(c) <==> env.timeout < 4294967290
  {
    hide Reset;
    assert Ticks(env, c, last + 1) == Timer(env, c.(elapsed := 10 * last));
    ResetForgetsElapsed(c, 10 * last + 10);
    ResetMonitor(c);
    if env.timeout < 4294967290 {
      assert env.timeout < (10 * last + 10) % 0x1_0000_0000 == 10 * last + 10;
    } else {
      assert last == 429496729 && (10 * last + 10) % 0x1_0000_0000 == 4;
    }
  }

  lemma ResetForgetsElapsed(c: Conn, e: nat)
    ensures Reset(c.(elapsed := e)) == Reset(c)
  {}

  lemma ResetMonitor(c: Conn)
    ensures !Reset(c).monitor && Reset(c).scan.CookieScan? && Reset(c).current.None?
  {}

  /** No number of ticks touches an idle scanner. */
  lemma {:induction false} IdleTicks(env: Env, c: Conn, n: nat)
    requires Inv(env, c) && c.scan.CookieScan?
    ensures Ticks(env, c, n) == c
  {
    if n > 0 {
      IdleTicks(env, c, n - 1);
    }
  }

  /** After the reset the scanner is idle again and every later tick leaves it alone. */
  lemma TimeoutEnds(env: Env, c: Conn, n: nat)
    requires Inv(env, c) && !c.scan.CookieScan? && c.elapsed == 0 && env.timeout < 4294967290
    requires n > env.timeout / 10
    ensures Ticks(env, c, n) == Reset(c)
    decreases n
  {
    hide Reset, Inv;
    if n == env.timeout / 10 + 1 {
      TimeoutTick(env, c);
    } else {
      TimeoutEnds(env, c, n - 1);
      ResetMonitor(c);
    }
  }

  // ---------------------------------------------- the timeout for every value of it

  /** The elapsed time after n ticks. */
  function Elapsed(n: nat): nat { 10 * n % 0x1_0000_0000 }

  /** The tick that resets a scanner stuck inside a frame, if any does. */
  function ResetTick(timeout: nat): Option<nat> {
    if timeout < 4294967290 then Some(timeout / 10 + 1)
    else if timeout < 4294967294 then Some(858993459)
    else None
  }

  lemma ElapsedBefore(timeout: nat, n: nat)
    requires timeout < 0x1_0000_0000
    requires match ResetTick(timeout) case Some(k) => n < k case None => true
    ensures Elapsed(n) <= timeout
  {
    if 429496730 <= n < 858993459 {
      assert 10 * n - 0x1_0000_0000 <= 4294967284;
      assert Elapsed(n) == 10 * n - 0x1_0000_0000;
    } else if n >= 858993459 {
      ElapsedEven(n);
    }
  }

  lemma ElapsedAt(timeout: nat)
    requires timeout < 0x1_0000_0000 && ResetTick(timeout).Some?
    ensures ResetTick(timeout).value > 0 && Elapsed(ResetTick(timeout).value) > timeout
  {}

  lemma ElapsedStep(n: nat)
    requires n > 0
    ensures (Elapsed(n - 1) + 10) % 0x1_0000_0000 == Elapsed(n)
  {}

  lemma ElapsedEven(n: nat)
    ensures Elapsed(n) <= 4294967294
  {
    var q := 10 * n / 0x1_0000_0000;
    assert Elapsed(n) == 2 * (5 * n - 0x8000_0000 * q);
  }

  lemma {:induction false} TicksCount(env: Env, c: Conn, n: nat)
    requires c.monitor && c.elapsed == 0 && env.timeout < 0x1_0000_0000
    requires match ResetTick(env.timeout) case Some(k) => n < k case None => true
    ensures Ticks(env, c, n) == c.(elapsed := Elapsed(n))
  {
    hide Reset, ResetTick;
    if n == 0 {
      assert Elapsed(0) == 0;
    } else {
      hide Elapsed;
      ElapsedBefore(env.timeout, n);
      EarlierTick(env.timeout, n);
      TicksCount(env, c, n - 1);
      ElapsedStep(n);
    }
  }

  lemma EarlierTick(timeout: nat, n: nat)
    requires n > 0 && match ResetTick(timeout) case Some(k) => n < k case None => true
    ensures match ResetTick(timeout) case Some(k) => n - 1 < k case None => true
  {}

  /** The timeout for every 32-bit value and any number of ticks without data: below 4294967290 the
      scanner is reset by tick T / 10 + 1; the four values from there on are only reached after the
      count has wrapped around, all by tick 858993459; the last two are never exceeded, because the
      count steps over even numbers, and no tick ever resets the scanner. */
  lemma {:induction false} TimeoutExactly(env: Env, c: Conn, n: nat)
    requires Inv(env, c) && !c.scan.CookieScan? && c.elapsed == 0 && env.timeout < 0x1_0000_0000
    ensures Ticks(env, c, n) ==
            if ResetTick(env.timeout).None? || n < ResetTick(env.timeout).value then c.(elapsed := Elapsed(n))
            else Reset(c)
    decreases n
  {
    InsideMonitored(env, c);
    hide Reset, Inv, Elapsed, ResetTick;
    if ResetTick(env.timeout).None? || n < ResetTick(env.timeout).value {
      TicksCount(env, c, n);
    } else {
      ElapsedAt(env.timeout);
      TimeoutExactly(env, c, n - 1);
      ResetMonitor(c);
      if n == ResetTick(env.timeout).value {
        ResetForgetsElapsed(c, Elapsed(n));
        ElapsedStep(n);
      }
    }
  }

  // ------------------------------------------------ receiving restarts the timeout

  /** Whatever time had elapsed, after a receive call none has, even if the call brings no byte. */
  lemma ReceiveRestarts(env: Env, c: Conn, chunk: seq<bv8>)
    requires Inv(env, c)
    ensures RxData(env, c, chunk).elapsed == 0 && Inv(env, RxData(env, c, chunk))
  {
    hide Inv, Feed;
    InvAnyTime(env, c, 0);
    FeedKeepsInv(env, c.(elapsed := 0), [], chunk);
  }

  lemma InvAnyTime(env: Env, c: Conn, e: nat)
    requires Inv(env, c)
    ensures Inv(env, c.(elapsed := e))
  {}

  /** The timeout counts from the last receive call: whatever had elapsed before it, a scanner that the
      call leaves inside a frame is reset by exactly the tick ResetTick names, counted from the call. */
  lemma TimeoutSinceReceive(env: Env, c: Conn, chunk: seq<bv8>, n: nat)
    requires Inv(env, c) && env.timeout < 0x1_0000_0000
    ensures var d := RxData(env, c, chunk);
            d.scan.CookieScan? ||
            Ticks(env, d, n) ==
            if ResetTick(env.timeout).None? || n < ResetTick(env.timeout).value then d.(elapsed := Elapsed(n))
            else Reset(d)
  {
    hide Inv, RxData, Reset, Elapsed, ResetTick, Ticks;
    ReceiveRestarts(env, c, chunk);
    if !RxData(env, c, chunk).scan.CookieScan? {
      TimeoutExactly(env, RxData(env, c, chunk), n);
    }
  }
}
