/** Reception in calls of any size. A refused header is not consumed: the code scans again what the call
    brought of it behind its cookie. The parser here knows where a call begins and follows the scanner
    through any cutting of any stream. */
module MarshallerCalls {
  import opened Options
  import opened Frame
  import opened Marshaller
  import opened MarshallerScan
  import opened MarshallerStream

  // ------------------------------------------------------- the reference parser

  /** The packets a call completes or refuses, and the bytes it leaves unfinished. */
  datatype Scanned = Scanned(items: seq<Item>, held: seq<bv8>)

  function Then(item: Item, rest: Scanned): Scanned { rest.(items := [item] + rest.items) }

  /** The bytes before position before are left over from earlier calls. */
  function ParseCall(env: Env, s: seq<bv8>, before: nat): Scanned
    requires before <= |s|
    decreases |s|, 1
  {
    match FindCookie(s)
    case None => Scanned([], LastThree(s))
    case Some(i) => ParsePacket(env, s[i..], if before < i + 4 then 4 else before - i)
  }

  /** A packet from its cookie on; if its header is refused the scan goes on at position again. */
  function ParsePacket(env: Env, s: seq<bv8>, again: nat): Scanned
    requires 4 <= again <= |s|
    decreases |s|, 0
  {
    if |s| < HEADER_SIZE then Scanned([], s)
    else
      var h := Decode(s[..HEADER_SIZE]);
      if h.dataType == TYPE_ACKNOWLEDGE then ParseCall(env, s[HEADER_SIZE..], 0)
      else if Capacity(env, h) < h.length then Then(Oversized(h), ParseCall(env, s[again..], 0))
      else
        var end := HEADER_SIZE + h.length;
        if |s| < end then Scanned([], s) else Then(Whole(h, s[HEADER_SIZE..end]), ParseCall(env, s[end..], 0))
  }

  /** The packets of a stream that arrives in chunks. */
  function ParseChunks(env: Env, held: seq<bv8>, chunks: seq<seq<bv8>>): seq<Item>
    decreases |chunks|
  {
    if chunks == [] then []
    else
      var call := ParseCall(env, held + chunks[0], |held|);
      call.items + ParseChunks(env, call.held, chunks[1..])
  }

  // ------------------------------------------------- the scanner between calls

  /** The scanner holds exactly the bytes of an unfinished packet, or of the cookie window. */
  predicate Holding(env: Env, c: Conn, held: seq<bv8>) {
    && Stocked(c) && c.elapsed == 0
    && match c.scan
       case CookieScan => c.raw == held && |held| <= 3 && !c.monitor && c.data == [] && c.current.None?
       case HeaderScan =>
         c.raw == held && 4 <= |held| < HEADER_SIZE && held[..4] == COOKIE && c.data == [] && c.current.None?
       case DataWait =>
         && |held| >= HEADER_SIZE && held[..4] == COOKIE && c.current.Some?
         && c.raw == held[..HEADER_SIZE] && c.data == held[HEADER_SIZE..]
         && (var h := Decode(c.raw);
             |c.data| < h.length <= Capacity(env, h) && h.dataType != TYPE_ACKNOWLEDGE)
       case TelegramCheck => false
  }

  lemma HoldingNothing(env: Env, c: Conn)
    ensures Ready(c) ==> Holding(env, c, [])
    ensures Holding(env, c, []) ==> Ready(c)
  {}

  lemma HoldingInv(env: Env, c: Conn, held: seq<bv8>)
    requires Holding(env, c, held) && c.scan.CookieScan?
    ensures Inv(env, c)
  {}

  /** From c the scanner went to d, and the parser found p. */
  predicate Ends(env: Env, c: Conn, d: Conn, p: Scanned) {
    View(d) == RespondAll(env, View(c), p.items) && Holding(env, d, p.held)
  }

  lemma EndsAfter(env: Env, c: Conn, m: Conn, item: Item, d: Conn, p: Scanned)
    requires View(m) == RespondItem(env, View(c), item) && Ends(env, m, d, p)
    ensures Ends(env, c, d, Then(item, p))
  {
    hide RespondItem, RespondAll, Holding;
    NextItem(env, View(c), item, p.items);
  }

  // ------------------------------------------------------------------ one call

  lemma FeedSearching(env: Env, c: Conn, s: seq<bv8>)
    requires c.scan.CookieScan? && |s| > 0 && !Byte(env, c, s[0]).1
    ensures Feed(env, c, [], s) == Feed(env, Byte(env, c, s[0]).0, [], s[1..])
  {
    hide Byte;
  }

  /** One byte of the cookie search inside a call. */
  lemma FeedCookieByte(env: Env, c: Conn, s: seq<bv8>)
    requires c.scan.CookieScan? && |c.raw| <= 3 && |s| > 0
    ensures var window := c.raw + [s[0]];
            Feed(env, c, [], s) ==
            if |window| < 4 then Feed(env, c.(raw := window), [], s[1..])
            else if window == COOKIE then Feed(env, c.(raw := COOKIE, scan := HeaderScan, monitor := true), [], s[1..])
            else Feed(env, c.(raw := window[1..]), [], s[1..])
  {
    hide Byte, Feed;
    CookieByte(env, c, s[0]);
    FeedSearching(env, c, s);
  }

  /** The same byte, seen from the place of the first cookie. */
  lemma CookieAhead(raw: seq<bv8>, s: seq<bv8>, n: nat)
    requires |raw| <= 3 && n <= |s| && |raw| + n >= 4 && FindCookie(raw + s) == Some(|raw| + n - 4)
    ensures var window := raw + [s[0]];
            && s[1..][n - 1..] == s[n..]
            && if |window| < 4 then FindCookie(window + s[1..]) == Some(|window| + n - 5)
               else if window == COOKIE then n == 1
               else n >= 2 && FindCookie(window[1..] + s[1..]) == Some(|window| + n - 6)
  {
    hide FindCookie;
    var window := raw + [s[0]];
    WindowSlides(raw, s);
    if |window| == 4 {
      if window == COOKIE {
        CookieFirst(raw + s);
      } else {
        FindCookieStep(raw + s);
      }
    }
  }

  /** The cookie search inside one call. */
  lemma {:induction false} FeedCookie(env: Env, c: Conn, s: seq<bv8>, n: nat)
    requires c.scan.CookieScan? && |c.raw| <= 3
    requires n <= |s| && |c.raw| + n >= 4 && FindCookie(c.raw + s) == Some(|c.raw| + n - 4)
    ensures Feed(env, c, [], s) == Feed(env, c.(raw := COOKIE, scan := HeaderScan, monitor := true), [], s[n..])
    decreases n
  {
    hide Feed, FindCookie;
    FeedCookieByte(env, c, s);
    CookieAhead(c.raw, s, n);
    var window := c.raw + [s[0]];
    if |window| < 4 {
      FeedCookie(env, c.(raw := window), s[1..], n - 1);
    } else if window != COOKIE {
      FeedCookie(env, c.(raw := window[1..]), s[1..], n - 1);
    }
  }

  lemma FeedNoCookie(env: Env, c: Conn, held: seq<bv8>, chunk: seq<bv8>)
    requires Holding(env, c, held) && c.scan.CookieScan? && FindCookie(held + chunk).None?
    ensures Feed(env, c, [], chunk) == c.(raw := LastThree(held + chunk))
    ensures Holding(env, Feed(env, c, [], chunk), LastThree(held + chunk))
  {
    hide Feed, RxBytes, NoRefusal, FindCookie, Inv;
    HoldingInv(env, c, held);
    CookieMissing(env, c, chunk);
    FeedIsBytes(env, c, [], chunk);
  }

  /** For every call: the scanner causes the responses the parser prescribes and holds the bytes the
      parser leaves. */
  lemma {:induction false} CallTrace(env: Env, c: Conn, held: seq<bv8>, chunk: seq<bv8>)
    requires Tcp(env) && Holding(env, c, held)
    ensures Ends(env, c, Feed(env, c, [], chunk), ParseCall(env, held + chunk, |held|))
    decreases |held| + |chunk|, 4
  {
    hide Feed, FindCookie, ParsePacket, Decode;
    var s := held + chunk;
    if c.scan.CookieScan? {
      match FindCookie(s)
      case None => FeedNoCookie(env, c, held, chunk);
      case Some(i) => SearchTrace(env, c, held, chunk, i);
    } else {
      assert s[..4] == held[..4];
      CookieFirst(s);
      assert s[0..] == s;
      if c.scan.HeaderScan? {
        HeaderTrace(env, c, held, chunk);
      } else {
        DataTrace(env, c, held, chunk, |held|);
      }
    }
  }

  lemma {:induction false} SearchTrace(env: Env, c: Conn, held: seq<bv8>, chunk: seq<bv8>, i: nat)
    requires Tcp(env) && Holding(env, c, held) && c.scan.CookieScan? && FindCookie(held + chunk) == Some(i)
    ensures Ends(env, c, Feed(env, c, [], chunk), ParseCall(env, held + chunk, |held|))
    decreases |held| + |chunk|, 3
  {
    hide Feed, FindCookie, ParsePacket, Decode;
    var s, n := held + chunk, i + 4 - |held|;
    CookieAt(s);
    FeedCookie(env, c, chunk, n);
    var c' := c.(raw := COOKIE, scan := HeaderScan, monitor := true);
    CutAtCookie(s, i);
    assert s[i + 4..] == chunk[n..];
    assert Holding(env, c', COOKIE);
    HeaderTrace(env, c', COOKIE, chunk[n..]);
    assert View(c') == View(c);
  }

  lemma {:induction false} HeaderTrace(env: Env, c: Conn, held: seq<bv8>, chunk: seq<bv8>)
    requires Tcp(env) && Holding(env, c, held) && c.scan.HeaderScan?
    ensures Ends(env, c, Feed(env, c, [], chunk), ParsePacket(env, held + chunk, |held|))
    decreases |held| + |chunk|, 2
  {
    hide Stocked, Decode, Feed, Ends, ParsePacket;
    if |held| + |chunk| < HEADER_SIZE {
      HeaderPart(env, c, held, chunk);
    } else {
      var n := HEADER_SIZE - |held|;
      var s := held + chunk;
      HeaderPieces(held, chunk, n);
      FeedHeaderLast(env, c, [], chunk[..n], chunk[n..]);
      StockedForgetsRaw(c, s[..HEADER_SIZE]);
      hide Holding, HeaderDone;
      JudgedTrace(env, c.(raw := s[..HEADER_SIZE]), s, |held|);
      EndsSame(env, c, c.(raw := s[..HEADER_SIZE]), Feed(env, c, [], chunk), ParsePacket(env, s, |held|));
    }
  }

  lemma HeaderPieces(held: seq<bv8>, chunk: seq<bv8>, n: nat)
    requires 4 <= |held| < HEADER_SIZE && |held| + n == HEADER_SIZE && n <= |chunk|
    ensures var s := held + chunk;
            && chunk == chunk[..n] + chunk[n..] && [] + chunk[..n] + chunk[n..] == chunk
            && held + chunk[..n] == s[..HEADER_SIZE] && chunk[n..] == s[HEADER_SIZE..] && chunk == s[|held|..]
            && s[..4] == held[..4]
  {}

  lemma HeaderPart(env: Env, c: Conn, held: seq<bv8>, chunk: seq<bv8>)
    requires Holding(env, c, held) && c.scan.HeaderScan? && |held| + |chunk| < HEADER_SIZE
    ensures Ends(env, c, Feed(env, c, [], chunk), ParsePacket(env, held + chunk, |held|))
  {
    assert chunk + [] == chunk && (held + chunk)[..4] == held[..4];
    FeedHeaderBytes(env, c, [], chunk, []);
    StockedForgetsRaw(c, held + chunk);
    hide Stocked;
  }

  /** A complete header and everything behind it. */
  lemma {:induction false} JudgedTrace(env: Env, c: Conn, s: seq<bv8>, again: nat)
    requires Tcp(env) && Stocked(c) && c.current.None? && c.elapsed == 0
    requires |s| >= HEADER_SIZE && c.raw == s[..HEADER_SIZE] && s[..4] == COOKIE && 4 <= again <= |s|
    ensures var (d, refused) := HeaderDone(env, c);
            Ends(env, c, Feed(env, d, [], if refused then s[again..] else s[HEADER_SIZE..]), ParsePacket(env, s, again))
    decreases |s|, 1
  {
    hide Feed, Holding, Ends, Stocked, Decode, HeaderDone, ParseCall, Respond, Capacity;
    HeaderDoneTcp(env, c);
    var h := Decode(c.raw);
    var (d, refused) := HeaderDone(env, c);
    var rest := s[HEADER_SIZE..];
    if h.dataType == TYPE_ACKNOWLEDGE {
      FreshTrace(env, d, rest);
      EndsSame(env, c, d, Feed(env, d, [], rest), ParseCall(env, rest, 0));
    } else if Capacity(env, h) < h.length {
      FreshTrace(env, d, s[again..]);
      EndsAfter(env, c, d, Oversized(h), Feed(env, d, [], s[again..]), ParseCall(env, s[again..], 0));
    } else if h.length == 0 {
      assert s[HEADER_SIZE..HEADER_SIZE] == [];
      FreshTrace(env, d, rest);
      EndsAfter(env, c, d, Whole(h, []), Feed(env, d, [], rest), ParseCall(env, rest, 0));
    } else {
      WaitingHolds(env, d, s[..HEADER_SIZE]);
      assert s[..HEADER_SIZE] + rest == s;
      DataTrace(env, d, s[..HEADER_SIZE], rest, again);
      EndsSame(env, c, d, Feed(env, d, [], rest), ParsePacket(env, s, again));
    }
  }

  lemma WaitingHolds(env: Env, c: Conn, held: seq<bv8>)
    requires |held| == HEADER_SIZE && held[..4] == COOKIE && c.scan.DataWait? && c.raw == held && c.data == []
    requires c.elapsed == 0 && c.current.Some? && Stocked(c)
    requires var h := Decode(held); 0 < h.length <= Capacity(env, h) && h.dataType != TYPE_ACKNOWLEDGE
    ensures Holding(env, c, held)
  {
    assert held[..HEADER_SIZE] == held && held[HEADER_SIZE..] == [];
  }

  lemma EndsSame(env: Env, c: Conn, m: Conn, d: Conn, p: Scanned)
    requires View(m) == View(c) && Ends(env, m, d, p)
    ensures Ends(env, c, d, p)
  {}

  /** From a scanner that holds nothing. */
  lemma {:induction false} FreshTrace(env: Env, c: Conn, s: seq<bv8>)
    requires Tcp(env) && Ready(c)
    ensures Ends(env, c, Feed(env, c, [], s), ParseCall(env, s, 0))
    decreases |s|, 5
  {
    hide Feed, Ends, ParseCall;
    assert [] + s == s;
    HoldingNothing(env, c);
    CallTrace(env, c, [], s);
  }

  lemma {:induction false} DataTrace(env: Env, c: Conn, held: seq<bv8>, chunk: seq<bv8>, again: nat)
    requires Tcp(env) && Holding(env, c, held) && c.scan.DataWait? && 4 <= again <= |held + chunk|
    ensures Ends(env, c, Feed(env, c, [], chunk), ParsePacket(env, held + chunk, again))
    decreases |held| + |chunk|, 0
  {
    hide Feed, ParsePacket, ParseCall, Ends, Stocked, Respond, Capacity, Decode;
    if |held| + |chunk| < HEADER_SIZE + Decode(c.raw).length {
      DataPart(env, c, held, chunk, again);
    } else {
      var end := HEADER_SIZE + Decode(c.raw).length;
      hide Holding;
      DataLast(env, c, held, chunk, end - |held|);
      var s := held + chunk;
      var d := CheckTelegram(env, c.(data := s[HEADER_SIZE..end], scan := TelegramCheck));
      hide CheckTelegram, Ready;
      FreshTrace(env, d, s[end..]);
      DataEnds(env, c, d, s, again, Feed(env, d, [], s[end..]));
    }
  }

  lemma DataEnds(env: Env, c: Conn, d: Conn, s: seq<bv8>, again: nat, after: Conn)
    requires 4 <= again <= |s| && |s| >= HEADER_SIZE
    requires var h := Decode(s[..HEADER_SIZE]);
             var end := HEADER_SIZE + h.length;
             && h.dataType != TYPE_ACKNOWLEDGE && h.length <= Capacity(env, h) && end <= |s|
             && View(d) == Respond(env, View(c), h, s[HEADER_SIZE..end]) && Ends(env, d, after, ParseCall(env, s[end..], 0))
    ensures Ends(env, c, after, ParsePacket(env, s, again))
  {
    hide ParsePacket, ParseCall, Ends, Respond, Capacity, Decode;
    PacketWhole(env, s, again);
    var h := Decode(s[..HEADER_SIZE]);
    var end := HEADER_SIZE + h.length;
    EndsAfter(env, c, d, Whole(h, s[HEADER_SIZE..end]), after, ParseCall(env, s[end..], 0));
  }

  lemma PacketWhole(env: Env, s: seq<bv8>, again: nat)
    requires 4 <= again <= |s| && |s| >= HEADER_SIZE
    ensures var h := Decode(s[..HEADER_SIZE]);
            var end := HEADER_SIZE + h.length;
            h.dataType != TYPE_ACKNOWLEDGE && h.length <= Capacity(env, h) && end <= |s| ==>
              ParsePacket(env, s, again) == Then(Whole(h, s[HEADER_SIZE..end]), ParseCall(env, s[end..], 0))
  {
    hide ParseCall, Decode, Capacity;
  }

  /** The bytes that complete a packet. */
  lemma DataLast(env: Env, c: Conn, held: seq<bv8>, chunk: seq<bv8>, n: nat)
    requires Tcp(env) && Holding(env, c, held) && c.scan.DataWait?
    requires n <= |chunk| && |held| + n == HEADER_SIZE + Decode(c.raw).length
    ensures var s := held + chunk;
            var h, end := Decode(s[..HEADER_SIZE]), |held| + n;
            var d := CheckTelegram(env, c.(data := s[HEADER_SIZE..end], scan := TelegramCheck));
            && h == Decode(c.raw) && h.dataType != TYPE_ACKNOWLEDGE && h.length <= Capacity(env, h)
            && Feed(env, c, [], chunk) == Feed(env, d, [], s[end..])
            && Ready(d) && View(d) == Respond(env, View(c), h, s[HEADER_SIZE..end])
  {
    hide Stocked, Decode, Capacity;
    var s, end := held + chunk, |held| + n;
    DataPieces(held, chunk, n);
    FeedDataLast(env, c, chunk[..n], chunk[n..]);
    var whole := c.(data := s[HEADER_SIZE..end], scan := TelegramCheck);
    StockedForgetsData(c, whole.data);
    hide Feed;
    CheckTelegramTcp(env, whole);
    CheckTelegramResets(env, whole);
  }

  lemma DataPieces(held: seq<bv8>, chunk: seq<bv8>, n: nat)
    requires |held| >= HEADER_SIZE && n <= |chunk|
    ensures var s := held + chunk;
            && s[..HEADER_SIZE] == held[..HEADER_SIZE] && chunk == chunk[..n] + chunk[n..]
            && held[HEADER_SIZE..] + chunk[..n] == s[HEADER_SIZE..|held| + n] && chunk[n..] == s[|held| + n..]
  {}

  lemma DataPart(env: Env, c: Conn, held: seq<bv8>, chunk: seq<bv8>, again: nat)
    requires Holding(env, c, held) && c.scan.DataWait? && 4 <= again <= |held + chunk|
    requires |held| + |chunk| < HEADER_SIZE + Decode(c.raw).length
    ensures Ends(env, c, Feed(env, c, [], chunk), ParsePacket(env, held + chunk, again))
  {
    hide Decode;
    var s := held + chunk;
    assert chunk + [] == chunk && s[..4] == held[..4] && s[..HEADER_SIZE] == c.raw;
    assert c.data + chunk == s[HEADER_SIZE..];
    FeedDataBytes(env, c, chunk, []);
    StockedForgetsData(c, c.data + chunk);
    hide Stocked;
  }

  // ------------------------------------------------------------- whole streams

  /** For every stream and every cutting of it into receive calls, refused headers included: the scanner
      causes exactly the responses the parser prescribes, in order. */
  lemma {:induction false} ChunksTrace(env: Env, c: Conn, held: seq<bv8>, chunks: seq<seq<bv8>>)
    requires Tcp(env) && Holding(env, c, held)
    ensures View(RxChunks(env, c, chunks)) == RespondAll(env, View(c), ParseChunks(env, held, chunks))
    decreases |chunks|
  {
    hide Feed, Holding, ParseCall;
    if chunks != [] {
      var call := ParseCall(env, held + chunks[0], |held|);
      assert c.(elapsed := 0) == c by { HoldingElapsed(env, c, held); }
      CallTrace(env, c, held, chunks[0]);
      var d := RxData(env, c, chunks[0]);
      ChunksTrace(env, d, call.held, chunks[1..]);
      RespondConcat(env, View(c), call.items, ParseChunks(env, call.held, chunks[1..]));
    }
  }

  lemma HoldingElapsed(env: Env, c: Conn, held: seq<bv8>)
    requires Holding(env, c, held)
    ensures c.elapsed == 0
  {}

  lemma {:induction false} RespondConcat(env: Env, s: Session, a: seq<Item>, b: seq<Item>)
    ensures RespondAll(env, s, a + b) == RespondAll(env, RespondAll(env, s, a), b)
    decreases |a|
  {
    hide RespondItem;
    if a == [] {
      assert a + b == b;
    } else {
      assert (a + b)[1..] == a[1..] + b;
      RespondConcat(env, RespondItem(env, s, a[0]), a[1..], b);
    }
  }

  lemma StreamTrace(env: Env, c: Conn, chunks: seq<seq<bv8>>)
    requires Tcp(env) && Ready(c)
    ensures View(RxChunks(env, c, chunks)) == RespondAll(env, View(c), ParseChunks(env, [], chunks))
  {
    HoldingNothing(env, c);
    ChunksTrace(env, c, [], chunks);
  }

  // --------------------------------------------- packets that fit need no calls

  lemma ParseDrop(env: Env, s: seq<bv8>)
    requires |s| >= 4 && s[..4] != COOKIE
    ensures Parse(env, s) == Parse(env, s[1..])
  {
    FindCookieStep(s);
    hide FindCookie, ParseFrom;
    match FindCookie(s[1..])
    case None =>
    case Some(i) => assert s[1..][i..] == s[i + 1..];
  }

  /** Bytes before the first cookie, and before the last three without one, do not matter. */
  lemma {:induction false} ParseSkips(env: Env, s: seq<bv8>, t: seq<bv8>)
    ensures match FindCookie(s)
            case None => Parse(env, s + t) == Parse(env, LastThree(s) + t)
            case Some(i) => Parse(env, s + t) == Parse(env, s[i..] + t)
    decreases |s|
  {
    hide Parse;
    if |s| >= 4 {
      if s[..4] == COOKIE {
        assert s[0..] == s;
      } else {
        assert (s + t)[..4] == s[..4] && (s + t)[1..] == s[1..] + t;
        ParseDrop(env, s + t);
        ParseSkips(env, s[1..], t);
        match FindCookie(s[1..])
        case None => assert LastThree(s[1..]) == LastThree(s);
        case Some(i) => assert s[1..][i..] == s[i + 1..];
      }
    }
  }

  lemma ParseAtCookie(env: Env, s: seq<bv8>)
    requires |s| >= 4 && s[..4] == COOKIE
    ensures Parse(env, s) == ParseFrom(env, s)
  {
    CookieFirst(s);
    hide FindCookie, ParseFrom;
    assert s[0..] == s;
  }

  /** Where everything fits, a call takes from the stream what the plain parser takes, and leaves it
      the rest. */
  lemma {:induction false} CallFits(env: Env, s: seq<bv8>, before: nat, t: seq<bv8>)
    requires before <= |s| && AllFit(Parse(env, s + t))
    ensures var call := ParseCall(env, s, before);
            Parse(env, s + t) == call.items + Parse(env, call.held + t)
    decreases |s|
  {
    hide Parse, Decode, Capacity, FindCookie, AllFit, LastThree;
    ParseSkips(env, s, t);
    if FindCookie(s).Some? {
      var i := FindCookie(s).value;
      CookieAt(s);
      var r := s[i..];
      assert r[..4] == s[i..i + 4];
      if |r| >= HEADER_SIZE {
        PacketFits(env, r, t);
        var h := Decode(r[..HEADER_SIZE]);
        var end := HEADER_SIZE + h.length;
        if h.dataType == TYPE_ACKNOWLEDGE {
          CallFits(env, r[HEADER_SIZE..], 0, t);
        } else if |r| >= end {
          CallFits(env, r[end..], 0, t);
        }
      }
    }
  }

  lemma PacketFits(env: Env, r: seq<bv8>, t: seq<bv8>)
    requires |r| >= HEADER_SIZE && r[..4] == COOKIE && AllFit(Parse(env, r + t))
    ensures var h := Decode(r[..HEADER_SIZE]);
            var end := HEADER_SIZE + h.length;
            if h.dataType == TYPE_ACKNOWLEDGE then
              Parse(env, r + t) == Parse(env, r[HEADER_SIZE..] + t)
            else
              && h.length <= Capacity(env, h)
              && (|r| >= end ==>
                    && Parse(env, r + t) == [Whole(h, r[HEADER_SIZE..end])] + Parse(env, r[end..] + t)
                    && AllFit(Parse(env, r[end..] + t)))
  {
    hide Parse, Decode, Capacity, AllFit;
    var s := r + t;
    var h := Decode(r[..HEADER_SIZE]);
    var end := HEADER_SIZE + h.length;
    assert s[..4] == r[..4] && s[..HEADER_SIZE] == r[..HEADER_SIZE] && s[HEADER_SIZE..] == r[HEADER_SIZE..] + t;
    ParseAtCookie(env, s);
    var start := Session(0, 0, []);
    if h.dataType != TYPE_ACKNOWLEDGE {
      NextItem(env, start, Oversized(h), Parse(env, s[HEADER_SIZE - 1..]));
      if |r| >= end {
        assert s[HEADER_SIZE..end] == r[HEADER_SIZE..end] && s[end..] == r[end..] + t;
        NextItem(env, start, Whole(h, r[HEADER_SIZE..end]), Parse(env, r[end..] + t));
      }
    }
  }

  /** What a call leaves unfinished holds no packet. */
  lemma {:induction false} HeldUnfinished(env: Env, s: seq<bv8>, before: nat)
    requires before <= |s|
    ensures Parse(env, ParseCall(env, s, before).held) == []
    decreases |s|
  {
    hide Parse, Decode, Capacity, FindCookie;
    match FindCookie(s)
    case None => ParseShort(env, LastThree(s));
    case Some(i) =>
      CookieAt(s);
      var r := s[i..];
      assert r[..4] == s[i..i + 4];
      var again := if before < i + 4 then 4 else before - i;
      ParseAtCookie(env, r);
      if |r| >= HEADER_SIZE {
        var h := Decode(r[..HEADER_SIZE]);
        var end := HEADER_SIZE + h.length;
        if h.dataType == TYPE_ACKNOWLEDGE {
          HeldUnfinished(env, r[HEADER_SIZE..], 0);
        } else if Capacity(env, h) < h.length {
          HeldUnfinished(env, r[again..], 0);
        } else if |r| >= end {
          HeldUnfinished(env, r[end..], 0);
        }
      }
  }

  lemma ParseShort(env: Env, s: seq<bv8>)
    requires |s| <= 3
    ensures Parse(env, s) == []
  {}

  /** A stream whose announced lengths all fit holds the same packets however it is cut. */
  lemma {:induction false} ChunksFit(env: Env, held: seq<bv8>, chunks: seq<seq<bv8>>)
    requires Parse(env, held) == [] && AllFit(Parse(env, held + Flatten(chunks)))
    ensures ParseChunks(env, held, chunks) == Parse(env, held + Flatten(chunks))
    decreases |chunks|
  {
    hide Parse, ParseCall;
    if chunks == [] {
      assert held + Flatten(chunks) == held;
    } else {
      var s, t := held + chunks[0], Flatten(chunks[1..]);
      var call := ParseCall(env, s, |held|);
      assert held + Flatten(chunks) == s + t;
      CallFits(env, s, |held|, t);
      HeldUnfinished(env, s, |held|);
      assert AllFit(Parse(env, call.held + t)) by {
        var all, rest := Parse(env, s + t), Parse(env, call.held + t);
        assert forall i :: 0 <= i < |rest| ==> rest[i] == all[|call.items| + i];
      }
      ChunksFit(env, call.held, chunks[1..]);
    }
  }

  lemma FittingParse(env: Env, chunks: seq<seq<bv8>>)
    requires AllFit(Parse(env, Flatten(chunks)))
    ensures ParseChunks(env, [], chunks) == Parse(env, Flatten(chunks))
  {
    ParseShort(env, []);
    hide Parse;
    assert [] + Flatten(chunks) == Flatten(chunks);
    ChunksFit(env, [], chunks);
  }

  // ------------------------------------------------------- acknowledges are skipped

  predicate NoneAcknowledge(items: seq<Item>) {
    forall i :: 0 <= i < |items| ==> items[i].header.dataType != TYPE_ACKNOWLEDGE
  }

  lemma {:induction false} CallSkipsAcks(env: Env, s: seq<bv8>, before: nat)
    requires before <= |s|
    ensures NoneAcknowledge(ParseCall(env, s, before).items)
    decreases |s|, 1
  {
    hide FindCookie, ParsePacket;
    match FindCookie(s)
    case None =>
    case Some(i) => PacketSkipsAcks(env, s[i..], if before < i + 4 then 4 else before - i);
  }

  lemma {:induction false} PacketSkipsAcks(env: Env, s: seq<bv8>, again: nat)
    requires 4 <= again <= |s|
    ensures NoneAcknowledge(ParsePacket(env, s, again).items)
    decreases |s|, 0
  {
    hide Decode, Capacity, ParseCall;
    if |s| >= HEADER_SIZE {
      var h := Decode(s[..HEADER_SIZE]);
      CallSkipsAcks(env, s[HEADER_SIZE..], 0);
      CallSkipsAcks(env, s[again..], 0);
      if |s| >= HEADER_SIZE + h.length {
        CallSkipsAcks(env, s[HEADER_SIZE + h.length..], 0);
      }
    }
  }

  lemma {:induction false} ChunksSkipAcks(env: Env, held: seq<bv8>, chunks: seq<seq<bv8>>)
    ensures NoneAcknowledge(ParseChunks(env, held, chunks))
    decreases |chunks|
  {
    hide ParseCall;
    if chunks != [] {
      var call := ParseCall(env, held + chunks[0], |held|);
      CallSkipsAcks(env, held + chunks[0], |held|);
      ChunksSkipAcks(env, call.held, chunks[1..]);
    }
  }
}
