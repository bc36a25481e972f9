/** The marshaller as the TCP server runs it (examples/tcpserver/tcp_connector.c and tcp_server.c):
    the connector sends and completes at once, the request callback runs the main function, and the
    handler answers before it returns.

    The byte scanner is compared with a parser of whole streams that looks for the first cookie and
    then reads header and payload in one piece. */
module MarshallerStream {
  import opened Options
  import opened Frame
  import opened Marshaller
  import opened MarshallerScan
  import Crc16

  ghost predicate Tcp(env: Env) {
    forall k :: env.transmit(k).Now? && env.wake(k).Answered?
  }

  /** Every buffer is back: only the one being filled is out of its pool. */
  predicate Stocked(c: Conn) {
    && c.pending == [] && c.handling == [] && c.sending == [] && c.ack != []
    && (forall b :: b in c.ack ==> b.kind.AckKind?)
    && (forall b :: b in c.rx ==> b.kind.RxKind?)
    && (forall b :: b in c.keepAlive ==> b.kind.KeepAliveKind?)
    && match c.current
       case None => c.rx != [] && c.keepAlive != []
       case Some(b) => (b.kind.RxKind? && c.keepAlive != []) || (b.kind.KeepAliveKind? && c.rx != [])
  }

  // ------------------------------------------------------ what a packet causes

  function AckOf(h: Header, state: bv8): Event {
    Sent(h.(length := 0, checksum := 0, state := state, dataType := TYPE_ACKNOWLEDGE), [])
  }

  predicate ChecksumBad(h: Header, data: seq<bv8>) {
    |data| > 0 && h.checksum != 0 && h.checksum != Crc16.Checksum(data)
  }

  /** The state of the one acknowledge a packet gets. */
  function Verdict(env: Env, id: bv32, h: Header, data: seq<bv8>): bv8 {
    if ChecksumBad(h, data) then CHECKSUM_ERROR
    else if h.dataType == TYPE_QUERYSERVER then STATE_OK
    else if IsKeepAlive(h) then
      if |data| != 4 then LENGTH_INCOMPLETE
      else if Word32(data) != 0 && Word32(data) != id then KEEP_ALIVE_ERROR
      else STATE_OK
    else if h.dataType in env.transports then STATE_OK
    else DATA_TYPE_UNKNOWN
  }

  predicate AsksNewId(env: Env, id: bv32, h: Header, data: seq<bv8>) {
    Verdict(env, id, h, data) == STATE_OK && IsKeepAlive(h) && |data| == 4 && Word32(data) == 0
  }

  function NextId(env: Env, id: bv32, ticks: nat, h: Header, data: seq<bv8>): bv32 {
    if AsksNewId(env, id, h, data) then NewKeepAliveId(id, env.tick(ticks)) else id
  }

  /** What follows the acknowledge of an accepted packet. */
  function Effects(env: Env, id: bv32, h: Header, data: seq<bv8>): seq<Event> {
    if h.dataType == TYPE_QUERYSERVER then [Sent(Stamp(h, env.serverInfo), env.serverInfo)]
    else if IsKeepAlive(h) then [Sent(Stamp(h, Long32(id)), Long32(id))]
    else [Dispatched(h, data), Sent(Stamp(h, env.answer(h, data)), env.answer(h, data))]
  }

  function Response(env: Env, id: bv32, ticks: nat, h: Header, data: seq<bv8>): seq<Event> {
    var verdict := Verdict(env, id, h, data);
    [AckOf(h, verdict)] + if verdict == STATE_OK then Effects(env, NextId(env, id, ticks, h, data), h, data) else []
  }

  /** What the outside can tell of a connector: the identifier last issued, ticks read, and the trace. */
  datatype Session = Session(id: bv32, ticks: nat, trace: seq<Event>)

  function View(c: Conn): Session { Session(c.keepAliveId, c.ticks, c.trace) }

  function Respond(env: Env, s: Session, h: Header, data: seq<bv8>): Session {
    Session(NextId(env, s.id, s.ticks, h, data),
            if AsksNewId(env, s.id, h, data) then s.ticks + 1 else s.ticks,
            s.trace + Response(env, s.id, s.ticks, h, data))
  }

  // ------------------------------------------------------- one complete packet

  predicate Idle(c: Conn) { c.scan.CookieScan? && c.raw == [] && c.elapsed == 0 }

  /** In this configuration an acknowledge buffer is back before the call returns. */
  lemma AcknowledgeTcp(env: Env, c: Conn, h: Header, state: bv8)
    requires Tcp(env) && c.ack != [] && forall b :: b in c.ack ==> b.kind.AckKind?
    ensures var d := Acknowledge(env, c, h, state);
            && d == c.(ack := c.ack[1..] + [c.ack[0]], sends := c.sends + 1, trace := c.trace + [AckOf(h, state)])
            && (Stocked(c) ==> Stocked(d))
  {
    assert env.transmit(c.sends).Now?;
  }

  lemma TransmitTcp(env: Env, c: Conn, b: Buffer, h: Header, data: seq<bv8>)
    requires Tcp(env)
    ensures TransmitOrFree(env, c, b, h, data)
         == Free(c.(sends := c.sends + 1, trace := c.trace + [Sent(Stamp(h, data), data)]), b)
  {
    hide Stamp, Free;
    assert env.transmit(c.sends).Now?;
  }

  lemma FreeTcp(c: Conn, b: Buffer)
    requires Stocked(c) && c.current == Some(b)
    ensures var d := Free(c, b).(current := None); Stocked(d) && View(d) == View(c)
    ensures Reset(c) == Reset(Free(c, b).(current := None))
  {
    ResetAfterFree(c, b);
    hide Reset;
    var d := Free(c, b).(current := None);
    if b.kind.RxKind? {
      assert d == c.(rx := c.rx + [b], current := None);
    } else {
      assert d == c.(keepAlive := c.keepAlive + [b], current := None);
    }
  }

  lemma ResetAfterFree(c: Conn, b: Buffer)
    requires c.current == Some(b)
    ensures Reset(c) == Reset(Free(c, b).(current := None))
  {
    hide Free;
  }

  lemma ResetTcp(c: Conn)
    requires Stocked(c)
    ensures Idle(Reset(c)) && Stocked(Reset(c)) && View(Reset(c)) == View(c)
  {
    hide Free;
    if c.current.Some? {
      FreeTcp(c, c.current.value);
    }
  }

  predicate Checking(c: Conn) {
    |c.raw| == HEADER_SIZE && c.current.Some? && Stocked(c) && |c.data| == Decode(c.raw).length
    && Decode(c.raw).dataType != TYPE_ACKNOWLEDGE
  }

  /** The effect of one complete packet: back to idle, all buffers back, the response in the trace. */
  lemma CheckTelegramTcp(env: Env, c: Conn)
    requires Tcp(env) && Checking(c)
    ensures var d := CheckTelegram(env, c);
            Idle(d) && Stocked(d) && View(d) == Respond(env, View(c), Decode(c.raw), c.data)
  {
    hide Decode, Acknowledge, Free, Reset, TransmitOrFree, Stamp, CheckKeepAlive, Main, Word32, Long32, Stocked, Idle;
    var h := Decode(c.raw);
    if ChecksumBad(h, c.data) {
      NackTcp(env, c, h, CHECKSUM_ERROR);
    } else if h.dataType == TYPE_QUERYSERVER {
      AnswerTcp(env, c, h, env.serverInfo);
    } else if IsKeepAlive(h) {
      KeepAliveTcp(env, c, h);
    } else if h.dataType in env.transports {
      RequestTcp(env, c, h);
    } else {
      NackTcp(env, c, h, DATA_TYPE_UNKNOWN);
    }
  }

  lemma NackTcp(env: Env, c: Conn, h: Header, state: bv8)
    requires Tcp(env) && Stocked(c) && c.current.Some?
    ensures var a := Acknowledge(env, c, h, state);
            var d := Reset(a);
            && Idle(d) && Stocked(d) && View(d) == View(c).(trace := c.trace + [AckOf(h, state)])
            && d == Reset(Free(a, c.current.value).(current := None))
  {
    hide Acknowledge, Free, Reset;
    AcknowledgeTcp(env, c, h, state);
    var a := Acknowledge(env, c, h, state);
    ResetTcp(a);
    FreeTcp(a, c.current.value);
  }

  lemma AnswerTcp(env: Env, c: Conn, h: Header, data: seq<bv8>)
    requires Tcp(env) && Stocked(c) && c.current.Some?
    ensures var d := Reset(TransmitOrFree(env, Acknowledge(env, c, h, STATE_OK), c.current.value, h, data).(current := None));
            && Idle(d) && Stocked(d)
            && View(d) == View(c).(trace := c.trace + [AckOf(h, STATE_OK), Sent(Stamp(h, data), data)])
  {
    hide Acknowledge, Free, Reset, TransmitOrFree, Stamp;
    AcknowledgeTcp(env, c, h, STATE_OK);
    var a, b := Acknowledge(env, c, h, STATE_OK), c.current.value;
    TransmitTcp(env, a, b, h, data);
    var sent := a.(sends := a.sends + 1, trace := a.trace + [Sent(Stamp(h, data), data)]);
    FreeTcp(sent, b);
    ResetTcp(Free(sent, b).(current := None));
    assert c.trace + [AckOf(h, STATE_OK)] + [Sent(Stamp(h, data), data)]
        == c.trace + [AckOf(h, STATE_OK), Sent(Stamp(h, data), data)];
  }

  lemma KeepAliveTcp(env: Env, c: Conn, h: Header)
    requires Tcp(env) && Checking(c) && IsKeepAlive(h) && h == Decode(c.raw) && !ChecksumBad(h, c.data)
    ensures var d := Reset(CheckKeepAlive(env, c, h, c.current.value));
            Idle(d) && Stocked(d) && View(d) == Respond(env, View(c), h, c.data)
  {
    hide Decode, Acknowledge, Free, Reset, TransmitOrFree, Stamp, NewKeepAliveId, Word32, Long32, ChecksumBad, Stocked, Idle, AckOf;
    if |c.data| != 4 {
      NackTcp(env, c, h, LENGTH_INCOMPLETE);
    } else if Word32(c.data) == 0 {
      NewIdTcp(env, c, h);
    } else if Word32(c.data) != c.keepAliveId {
      NackTcp(env, c, h, KEEP_ALIVE_ERROR);
    } else {
      AnswerTcp(env, c, h, Long32(c.keepAliveId));
    }
  }

  lemma NewIdTcp(env: Env, c: Conn, h: Header)
    requires Tcp(env) && Checking(c) && IsKeepAlive(h) && h == Decode(c.raw) && !ChecksumBad(h, c.data)
    requires |c.data| == 4 && Word32(c.data) == 0
    ensures var d := Reset(CheckKeepAlive(env, c, h, c.current.value));
            Idle(d) && Stocked(d) && View(d) == Respond(env, View(c), h, c.data)
  {
    hide Decode, Acknowledge, Free, Reset, TransmitOrFree, Stamp, NewKeepAliveId, Word32, Long32, ChecksumBad, Idle, AckOf;
    var id := NewKeepAliveId(c.keepAliveId, env.tick(c.ticks));
    var issued := c.(keepAliveId := id, ticks := c.ticks + 1);
    assert Stocked(issued);
    hide Stocked;
    AnswerTcp(env, issued, h, Long32(id));
  }

  lemma RequestTcp(env: Env, c: Conn, h: Header)
    requires Tcp(env) && Stocked(c) && c.current.Some? && h.dataType in env.transports
    ensures var a := Acknowledge(env, c, h, STATE_OK);
            var queued := a.(current := None, pending := a.pending + [Request(c.current.value, h, c.data)], wakes := a.wakes + 1);
            var d := Reset(Main(env, queued, env.wake(a.wakes)));
            var answer := env.answer(h, c.data);
            && Idle(d) && Stocked(d)
            && View(d) == View(c).(trace := c.trace + [AckOf(h, STATE_OK), Dispatched(h, c.data), Sent(Stamp(h, answer), answer)])
  {
    StockedFacts(c);
    hide Tcp, Acknowledge, Free, Reset, Main, Stamp, Stocked, Idle, AckOf;
    AcknowledgeTcp(env, c, h, STATE_OK);
    var a, b := Acknowledge(env, c, h, STATE_OK), c.current.value;
    var answer := env.answer(h, c.data);
    var sent := a.(wakes := a.wakes + 1, sends := a.sends + 1,
                   trace := a.trace + [Dispatched(h, c.data)] + [Sent(Stamp(h, answer), answer)]);
    QueuedMain(env, a, Request(b, h, c.data));
    StockedForgetsTrace(a, sent);
    AnswerFreed(sent, b);
    ThreeEvents(c.trace, AckOf(h, STATE_OK), Dispatched(h, c.data), Sent(Stamp(h, answer), answer));
  }

  lemma AnswerFreed(c: Conn, b: Buffer)
    requires Stocked(c) && c.current == Some(b)
    ensures var d := Reset(Free(c.(current := None), b)); Idle(d) && Stocked(d) && View(d) == View(c)
  {
    hide Free, Reset, Stocked, Idle;
    FreeTcp(c, b);
    FreeCommutes(c, b);
    ResetTcp(Free(c, b).(current := None));
  }

  lemma ThreeEvents(trace: seq<Event>, x: Event, y: Event, z: Event)
    ensures trace + [x] + [y] + [z] == trace + [x, y, z]
  {}

  lemma StockedFacts(c: Conn)
    requires Stocked(c)
    ensures c.pending == [] && c.ack != [] && forall b :: b in c.ack ==> b.kind.AckKind?
  {}

  lemma StockedForgetsTrace(c: Conn, d: Conn)
    requires Stocked(c) && d == c.(wakes := d.wakes, sends := d.sends, trace := d.trace)
    ensures Stocked(d)
  {}

  /** A request in an empty queue is dispatched and answered before the callback returns. */
  lemma QueuedMain(env: Env, a: Conn, r: Request)
    requires Tcp(env) && a.pending == [] && r.header.dataType in env.transports
    ensures var queued := a.(current := None, pending := a.pending + [r], wakes := a.wakes + 1);
            var answer := env.answer(r.header, r.data);
            var sent := a.(wakes := a.wakes + 1, sends := a.sends + 1,
                           trace := a.trace + [Dispatched(r.header, r.data)] + [Sent(Stamp(r.header, answer), answer)]);
            Main(env, queued, env.wake(a.wakes)) == Free(sent.(current := None), r.buffer)
  {
    hide Free, Stamp;
    assert env.wake(a.wakes).Answered? && env.transmit(a.sends).Now?;
    assert a.pending + [r] == [r] && [r][1..] == [];
  }

  lemma FreeCommutes(c: Conn, b: Buffer)
    ensures Free(c.(current := None), b) == Free(c, b).(current := None)
  {}

  // ------------------------------------------------------- the reference parser

  /** The place of the first cookie. */
  function FindCookie(s: seq<bv8>): (at: Option<nat>)
    ensures at.Some? ==> at.value + 4 <= |s|
  {
    if |s| < 4 then None
    else if s[..4] == COOKIE then Some(0)
    else Later(FindCookie(s[1..]))
  }

  function Later(at: Option<nat>): Option<nat> {
    match at case Some(i) => Some(i + 1) case None => None
  }

  lemma {:induction false} CookieAt(s: seq<bv8>)
    requires FindCookie(s).Some?
    ensures var i := FindCookie(s).value; s[i..i + 4] == COOKIE
    decreases |s|
  {
    if s[..4] != COOKIE {
      CookieAt(s[1..]);
      var i := FindCookie(s[1..]).value;
      assert s[i + 1..i + 5] == s[1..][i..i + 4];
    }
  }

  /** A packet received completely, or refused at its header because it is too long. */
  datatype Item = Whole(header: Header, data: seq<bv8>) | Oversized(header: Header)

  /** All packets of a stream, other than acknowledges. The last byte of a refused header may begin
      the next cookie. */
  function Parse(env: Env, stream: seq<bv8>): seq<Item>
    decreases |stream|, 1
  {
    match FindCookie(stream)
    case None => []
    case Some(i) => ParseFrom(env, stream[i..])
  }

  /** The same from a cookie on. */
  function ParseFrom(env: Env, s: seq<bv8>): seq<Item>
    decreases |s|, 0
  {
    if |s| < HEADER_SIZE then []
    else
      var h := Decode(s[..HEADER_SIZE]);
      if h.dataType == TYPE_ACKNOWLEDGE then Parse(env, s[HEADER_SIZE..])
      else if Capacity(env, h) < h.length then [Oversized(h)] + Parse(env, s[HEADER_SIZE - 1..])
      else
        var end := HEADER_SIZE + h.length;
        if |s| < end then [] else [Whole(h, s[HEADER_SIZE..end])] + Parse(env, s[end..])
  }

  function RespondAll(env: Env, s: Session, items: seq<Item>): Session
    decreases |items|
  {
    if items == [] then s else RespondAll(env, RespondItem(env, s, items[0]), items[1..])
  }

  function RespondItem(env: Env, s: Session, item: Item): Session {
    match item
    case Whole(h, data) => Respond(env, s, h, data)
    case Oversized(h) => s.(trace := s.trace + [AckOf(h, BUFFEROVERFLOW_ERROR)])
  }

  predicate AllFit(items: seq<Item>) {
    forall i :: 0 <= i < |items| ==> items[i].Whole?
  }

  // ------------------------------------------- the scanner follows the parser

  lemma RxBytesOne(env: Env, c: Conn, s: seq<bv8>)
    requires |s| > 0 && c.elapsed == 0 && !Byte(env, c, s[0]).1
    ensures RxBytes(env, c, s) == RxBytes(env, Byte(env, c, s[0]).0, s[1..])
    ensures NoRefusal(env, c, s) == NoRefusal(env, Byte(env, c, s[0]).0, s[1..])
  {
    hide Byte, RxData;
    OneByte(env, c, s[0]);
  }

  function LastThree(s: seq<bv8>): seq<bv8> {
    if |s| <= 3 then s else s[|s| - 3..]
  }

  lemma FindCookieStep(s: seq<bv8>)
    requires |s| >= 4 && s[..4] != COOKIE
    ensures FindCookie(s) == Later(FindCookie(s[1..]))
  {}

  /** One byte of cookie search: the window fills, slides by one, or is the cookie. */
  lemma CookieByte(env: Env, c: Conn, b: bv8)
    requires c.scan.CookieScan? && |c.raw| <= 3
    ensures var window := c.raw + [b];
            Byte(env, c, b) ==
            (if |window| < 4 then c.(raw := window)
             else if window == COOKIE then c.(raw := COOKIE, scan := HeaderScan, monitor := true)
             else c.(raw := window[1..]), false)
  {}

  lemma CookieFirst(s: seq<bv8>)
    requires |s| >= 4 && s[..4] == COOKIE
    ensures FindCookie(s) == Some(0)
  {}

  lemma WindowSlides(raw: seq<bv8>, s: seq<bv8>)
    requires |raw| <= 3 && |s| > 0
    ensures var window := raw + [s[0]];
            && window + s[1..] == raw + s
            && (|window| == 4 ==> (raw + s)[..4] == window && (raw + s)[1..] == window[1..] + s[1..])
  {
    if |raw| == 3 {
      assert raw[1..] + [s[0]] == (raw + [s[0]])[1..];
    }
  }

  /** Without a cookie in window and stream the scanner keeps searching. */
  lemma {:induction false} CookieMissing(env: Env, c: Conn, s: seq<bv8>)
    requires c.scan.CookieScan? && |c.raw| <= 3 && c.elapsed == 0 && FindCookie(c.raw + s).None?
    ensures RxBytes(env, c, s) == c.(raw := LastThree(c.raw + s)) && NoRefusal(env, c, s)
    decreases |s|
  {
    hide Byte, FindCookie, RxData;
    if s == [] {
      assert c.raw + s == c.raw;
    } else {
      var window := c.raw + [s[0]];
      WindowSlides(c.raw, s);
      CookieByte(env, c, s[0]);
      RxBytesOne(env, c, s);
      if |window| < 4 {
        CookieMissing(env, c.(raw := window), s[1..]);
      } else {
        if window == COOKIE {
          CookieFirst(c.raw + s);
        } else {
          FindCookieStep(c.raw + s);
          CookieMissing(env, c.(raw := window[1..]), s[1..]);
        }
      }
    }
  }

  /** The sliding window stops at the first cookie, counting the bytes it already holds. */
  lemma {:induction false} CookieFound(env: Env, c: Conn, s: seq<bv8>, n: nat)
    requires c.scan.CookieScan? && |c.raw| <= 3 && c.elapsed == 0
    requires n <= |s| && |c.raw| + n >= 4 && FindCookie(c.raw + s) == Some(|c.raw| + n - 4)
    ensures RxBytes(env, c, s[..n]) == c.(raw := COOKIE, scan := HeaderScan, monitor := true)
    ensures NoRefusal(env, c, s[..n])
    decreases n
  {
    hide Byte, FindCookie, RxData;
    var window := c.raw + [s[0]];
    WindowSlides(c.raw, s);
    assert s[..n][1..] == s[1..][..n - 1];
    CookieByte(env, c, s[0]);
    RxBytesOne(env, c, s[..n]);
    if |window| < 4 {
      CookieFound(env, c.(raw := window), s[1..], n - 1);
    } else {
      if window == COOKIE {
        CookieFirst(c.raw + s);
      } else {
        FindCookieStep(c.raw + s);
        CookieFound(env, c.(raw := window[1..]), s[1..], n - 1);
      }
    }
  }

  lemma {:induction false} HeaderBytes(env: Env, c: Conn, s: seq<bv8>)
    requires c.scan.HeaderScan? && c.elapsed == 0 && |c.raw| + |s| < HEADER_SIZE
    ensures RxBytes(env, c, s) == c.(raw := c.raw + s) && NoRefusal(env, c, s)
    decreases |s|
  {
    hide RxData, HeaderDone;
    if s == [] {
      assert c.raw + s == c.raw;
    } else {
      RxBytesOne(env, c, s);
      assert c.raw + [s[0]] + s[1..] == c.raw + s;
      HeaderBytes(env, c.(raw := c.raw + [s[0]]), s[1..]);
    }
  }

  lemma {:induction false} DataBytes(env: Env, c: Conn, s: seq<bv8>)
    requires c.scan.DataWait? && c.elapsed == 0 && |c.raw| == HEADER_SIZE && |c.data| + |s| < Decode(c.raw).length
    ensures RxBytes(env, c, s) == c.(data := c.data + s) && NoRefusal(env, c, s)
    decreases |s|
  {
    hide RxData, CheckTelegram, Decode;
    if s == [] {
      assert c.data + s == c.data;
    } else {
      RxBytesOne(env, c, s);
      assert c.data + [s[0]] + s[1..] == c.data + s;
      DataBytes(env, c.(data := c.data + [s[0]]), s[1..]);
    }
  }

  /** The header of a packet in one piece, all but its last byte. */
  lemma HeaderStart(env: Env, c: Conn, s: seq<bv8>)
    requires c.scan.HeaderScan? && c.raw == COOKIE && c.elapsed == 0 && |s| == 15
    ensures RxBytes(env, c, s) == c.(raw := COOKIE + s) && NoRefusal(env, c, s)
  {
    HeaderBytes(env, c, s);
  }

  predicate Ready(c: Conn) { Idle(c) && Stocked(c) && !c.monitor && c.data == [] && c.current.None? }

  lemma ResetReady(c: Conn)
    requires Stocked(c)
    ensures Ready(Reset(c)) && View(Reset(c)) == View(c)
  {
    ResetTcp(c);
  }

  /** The last header byte: acknowledges vanish, a header that is too long gets its negative
      acknowledge, any other packet waits for its data or is complete. */
  lemma HeaderDoneTcp(env: Env, c: Conn)
    requires Tcp(env) && Stocked(c) && c.current.None? && |c.raw| == HEADER_SIZE && c.elapsed == 0
    ensures var h := Decode(c.raw);
            var (d, refused) := HeaderDone(env, c);
            if h.dataType == TYPE_ACKNOWLEDGE then
              !refused && Ready(d) && View(d) == View(c)
            else if Capacity(env, h) < h.length then
              refused && Ready(d) && View(d) == View(c).(trace := c.trace + [AckOf(h, BUFFEROVERFLOW_ERROR)])
            else if h.length == 0 then
              !refused && Ready(d) && View(d) == Respond(env, View(c), h, [])
            else
              && !refused && d.scan.DataWait? && d.raw == c.raw && d.data == [] && d.elapsed == 0
              && d.current.Some? && Stocked(d) && View(d) == View(c)
  {
    hide Decode, CheckTelegram, Acknowledge, Free, Reset, Respond;
    var h := Decode(c.raw);
    assert c.(current := None) == c;
    ResetReady(c);
    if h.dataType != TYPE_ACKNOWLEDGE {
      var b, popped := Pool(c, h)[0], PopPool(c, h);
      var waiting := popped.(current := Some(b), scan := DataWait, data := []);
      var checked := waiting.(scan := TelegramCheck);
      assert Stocked(waiting) && Stocked(checked);
      if Capacity(env, h) < h.length {
        OverflowTcp(env, c, h);
      } else if h.length == 0 {
        CheckTelegramTcp(env, checked);
        CheckTelegramResets(env, checked);
      }
    }
  }

  lemma CheckTelegramResets(env: Env, c: Conn)
    requires |c.raw| == HEADER_SIZE && c.current.Some?
    ensures var d := CheckTelegram(env, c); !d.monitor && d.data == [] && d.current.None?
  {
    hide Decode, Acknowledge, TransmitOrFree, Free, Main, CheckKeepAlive;
  }

  /** The buffer taken for a header is only moved. */
  lemma PoppedHeld(c: Conn, h: Header)
    requires Stocked(c) && c.current.None?
    ensures Pool(c, h) != []
    ensures var held := PopPool(c, h).(current := Some(Pool(c, h)[0]));
            && Stocked(held) && View(held) == View(c)
            && held.ack == c.ack != [] && forall b :: b in c.ack ==> b.kind.AckKind?
  {}

  lemma OverflowTcp(env: Env, c: Conn, h: Header)
    requires Tcp(env) && Stocked(c) && c.current.None?
    ensures var b := Pool(c, h)[0];
            var d := Reset(Free(Acknowledge(env, PopPool(c, h), h, BUFFEROVERFLOW_ERROR), b));
            Ready(d) && View(d) == View(c).(trace := c.trace + [AckOf(h, BUFFEROVERFLOW_ERROR)])
  {
    hide Tcp, Acknowledge, Free, Reset, Stocked, Ready, Pool, PopPool, AckOf;
    PoppedHeld(c, h);
    PopCurrent(c, h);
    var b, popped := Pool(c, h)[0], PopPool(c, h);
    var held := popped.(current := Some(b));
    OverflowAck(env, popped, held, h);
    var a := Acknowledge(env, held, h, BUFFEROVERFLOW_ERROR);
    FreeTcp(a, b);
    FreeCommutes(a, b);
    ResetReady(Free(a, b).(current := None));
    assert popped.(current := None) == popped;
    FreeIdle(Acknowledge(env, popped, h, BUFFEROVERFLOW_ERROR), b);
  }

  lemma OverflowAck(env: Env, popped: Conn, held: Conn, h: Header)
    requires Tcp(env) && Stocked(held) && held.ack != [] && forall b :: b in held.ack ==> b.kind.AckKind?
    requires popped.current.None? && held == popped.(current := held.current)
    ensures var a := Acknowledge(env, held, h, BUFFEROVERFLOW_ERROR);
            && Stocked(a) && a.current == held.current
            && Acknowledge(env, popped, h, BUFFEROVERFLOW_ERROR) == a.(current := None)
            && View(a) == View(held).(trace := held.trace + [AckOf(h, BUFFEROVERFLOW_ERROR)])
  {
    hide Tcp, Acknowledge, Stocked, AckOf;
    AcknowledgeTcp(env, held, h, BUFFEROVERFLOW_ERROR);
    AcknowledgeTcp(env, popped, h, BUFFEROVERFLOW_ERROR);
  }

  lemma FreeIdle(c: Conn, b: Buffer)
    requires c.current.None?
    ensures Free(c, b).(current := None) == Free(c, b)
  {}

  lemma PopCurrent(c: Conn, h: Header)
    requires Pool(c, h) != [] && c.current.None?
    ensures PopPool(c, h).current.None?
  {}

  // ------------------------------------------------------------- whole streams

  lemma {:induction false} RunConcat(env: Env, c: Conn, a: seq<bv8>, b: seq<bv8>)
    requires Inv(env, c) && c.elapsed == 0 && NoRefusal(env, c, a)
    ensures RxBytes(env, c, a + b) == RxBytes(env, RxBytes(env, c, a), b)
    ensures NoRefusal(env, c, a + b) == NoRefusal(env, RxBytes(env, c, a), b)
    ensures Inv(env, RxBytes(env, c, a)) && RxBytes(env, c, a).elapsed == 0
    decreases |a|
  {
    hide Byte, Inv, RxData;
    if a == [] {
      assert a + b == b;
    } else {
      assert (a + b)[0] == a[0] && (a + b)[1..] == a[1..] + b;
      ByteKeepsInv(env, c, a[0]);
      RxBytesOne(env, c, a);
      RxBytesOne(env, c, a + b);
      RunConcat(env, Byte(env, c, a[0]).0, a[1..], b);
    }
  }

  /** A refused header leaves its last byte in the cookie window. */
  lemma RefusedByte(env: Env, c: Conn, s: seq<bv8>)
    requires |s| > 0 && c.elapsed == 0 && Byte(env, c, s[0]).1 && Idle(Byte(env, c, s[0]).0)
    ensures RxBytes(env, c, s) == RxBytes(env, Byte(env, c, s[0]).0, s)
    ensures !NoRefusal(env, c, s)
  {
    var d, b := Byte(env, c, s[0]).0, s[0];
    CookieByte(env, d, b);
    RxBytesOne(env, d, s);
    hide Byte;
    assert c.(elapsed := 0) == c && [] + [b] == [b] && [b][1..] == [];
    var d' := Byte(env, d, b).0;
    assert Feed(env, d', [], []) == d';
    assert Feed(env, d, [], [b]) == d';
    assert RxData(env, c, [b]) == d';
  }

  /** The scanner stands where the parser stands: same session so far, same stream left, and a
      refusal happened exactly if an item did not fit. */
  predicate Follows(env: Env, c: Conn, s: Session, stream: seq<bv8>, items: seq<Item>) {
    View(RxBytes(env, c, stream)) == RespondAll(env, s, items) && (NoRefusal(env, c, stream) <==> AllFit(items))
  }

  lemma NoItems(env: Env, c: Conn, stream: seq<bv8>)
    requires View(RxBytes(env, c, stream)) == View(c) && NoRefusal(env, c, stream)
    ensures Follows(env, c, View(c), stream, [])
  {}

  lemma NextItem(env: Env, s: Session, item: Item, items: seq<Item>)
    ensures RespondAll(env, s, [item] + items) == RespondAll(env, RespondItem(env, s, item), items)
    ensures AllFit([item] + items) <==> item.Whole? && AllFit(items)
  {
    hide Respond;
    var all := [item] + items;
    assert all[1..] == items;
    assert all[0] == item && forall i :: 0 <= i < |items| ==> all[i + 1] == items[i];
  }

  /** From idle over one run of bytes without refusal to a state that follows the parser. */
  lemma Prepend(env: Env, c: Conn, a: seq<bv8>, b: seq<bv8>, s: Session, items: seq<Item>)
    requires Inv(env, c) && c.elapsed == 0 && NoRefusal(env, c, a)
    requires Follows(env, RxBytes(env, c, a), s, b, items)
    ensures Follows(env, c, s, a + b, items)
  {
    RunConcat(env, c, a, b);
  }

  lemma ReadyInv(env: Env, c: Conn)
    requires Ready(c)
    ensures Inv(env, c)
  {}

  lemma HeaderInv(env: Env, c: Conn)
    requires c.scan.HeaderScan? && c.raw == COOKIE && c.data == [] && c.current.None? && c.monitor
    ensures Inv(env, c)
  {}

  /** One call per byte: the scanner causes exactly the responses the parser prescribes, in order; and no
      header is refused exactly if every announced length fits. */
  lemma {:induction false} ByteTrace(env: Env, c: Conn, stream: seq<bv8>)
    requires Tcp(env) && Ready(c)
    ensures Follows(env, c, View(c), stream, Parse(env, stream))
    decreases |stream|, 3
  {
    hide RxBytes, NoRefusal, Inv, FindCookie, Follows, ParseFrom, Stocked;
    ReadyInv(env, c);
    assert c.raw + stream == stream;
    match FindCookie(stream)
    case None =>
      CookieMissing(env, c, stream);
      NoItems(env, c, stream);
    case Some(i) =>
      var n := i + 4;
      CookieAt(stream);
      CookieFound(env, c, stream, n);
      var c1 := c.(raw := COOKIE, scan := HeaderScan, monitor := true);
      HeaderInv(env, c1);
      StockedInHeader(c);
      CutAtCookie(stream, i);
      HeaderBytewise(env, c1, stream[n..]);
      Prepend(env, c, stream[..n], stream[n..], View(c), Parse(env, stream));
  }

  lemma CutAtCookie(stream: seq<bv8>, i: nat)
    requires i + 4 <= |stream| && stream[i..i + 4] == COOKIE
    ensures stream == stream[..i + 4] + stream[i + 4..] && stream[i..] == COOKIE + stream[i + 4..]
  {
    assert stream[i..] == stream[i..i + 4] + stream[i + 4..];
  }

  lemma {:induction false} HeaderBytewise(env: Env, c: Conn, t: seq<bv8>)
    requires Tcp(env) && c.scan.HeaderScan? && c.raw == COOKIE && c.elapsed == 0 && Stocked(c) && Inv(env, c)
    requires c.current.None?
    ensures Follows(env, c, View(c), t, ParseFrom(env, COOKIE + t))
    decreases |t| + 4, 2
  {
    hide RxBytes, NoRefusal, Inv, Follows, Stocked, Decode, Parse;
    var rest := COOKIE + t;
    if |t| < 16 {
      HeaderBytes(env, c, t);
      NoItems(env, c, t);
    } else {
      hide ParseFrom;
      HeaderStart(env, c, t[..15]);
      assert t == t[..15] + t[15..];
      var c' := c.(raw := COOKIE + t[..15]);
      assert c'.raw == rest[..HEADER_SIZE - 1] && t[15..] == rest[HEADER_SIZE - 1..];
      RunConcat(env, c, t[..15], t[15..]);
      assert Stocked(c') by { StockedForgetsRaw(c, c'.raw); }
      LastHeaderByte(env, c', t[15..], rest);
      Prepend(env, c, t[..15], t[15..], View(c), ParseFrom(env, rest));
    }
  }

  lemma StockedInHeader(c: Conn)
    requires Stocked(c)
    ensures Stocked(c.(raw := COOKIE, scan := HeaderScan, monitor := true))
  {}

  lemma StockedForgetsRaw(c: Conn, raw: seq<bv8>)
    requires Stocked(c)
    ensures Stocked(c.(raw := raw))
  {}

  lemma {:induction false} LastHeaderByte(env: Env, c: Conn, t: seq<bv8>, rest: seq<bv8>)
    requires Tcp(env) && c.scan.HeaderScan? && c.elapsed == 0 && Stocked(c) && c.current.None? && Inv(env, c)
    requires |rest| >= HEADER_SIZE && c.raw == rest[..HEADER_SIZE - 1] && t == rest[HEADER_SIZE - 1..]
    ensures Follows(env, c, View(c), t, ParseFrom(env, rest))
    decreases |rest|, 1
  {
    hide RxBytes, NoRefusal, Inv, Decode, Respond, RespondAll, AllFit, HeaderDone, Parse, Capacity;
    var done := c.(raw := rest[..HEADER_SIZE]);
    assert c.raw + [t[0]] == rest[..HEADER_SIZE];
    assert Byte(env, c, t[0]) == HeaderDone(env, done);
    hide Byte, Stocked;
    ByteKeepsInv(env, c, t[0]);
    assert Stocked(done) by { StockedForgetsRaw(c, done.raw); }
    HeaderDoneTcp(env, done);
    var h := Decode(rest[..HEADER_SIZE]);
    var (d, refused) := Byte(env, c, t[0]);
    assert t[1..] == rest[HEADER_SIZE..];
    if h.dataType == TYPE_ACKNOWLEDGE {
      RxBytesOne(env, c, t);
      ByteTrace(env, d, t[1..]);
    } else if Capacity(env, h) < h.length {
      RefusedByte(env, c, t);
      ByteTrace(env, d, t);
      NextItem(env, View(c), Oversized(h), Parse(env, t));
    } else if h.length == 0 {
      RxBytesOne(env, c, t);
      ByteTrace(env, d, t[1..]);
      assert rest[HEADER_SIZE..HEADER_SIZE] == [];
      NextItem(env, View(c), Whole(h, []), Parse(env, t[1..]));
    } else {
      RxBytesOne(env, c, t);
      DataBytewise(env, d, t[1..], h, |rest|);
      var end := HEADER_SIZE + h.length;
      if |rest| >= end {
        assert t[1..][..h.length] == rest[HEADER_SIZE..end] && t[1..][h.length..] == rest[end..];
      }
    }
  }

  lemma {:induction false} DataBytewise(env: Env, c: Conn, u: seq<bv8>, h: Header, bound: nat)
    requires Tcp(env) && c.scan.DataWait? && c.elapsed == 0 && Stocked(c) && c.current.Some? && c.data == []
    requires |c.raw| == HEADER_SIZE && h == Decode(c.raw) && h.length > 0 && h.dataType != TYPE_ACKNOWLEDGE
    requires Inv(env, c) && |u| < bound
    ensures Follows(env, c, View(c), u,
                    if |u| < h.length then [] else [Whole(h, u[..h.length])] + Parse(env, u[h.length..]))
    decreases bound, 0
  {
    hide RxBytes, NoRefusal, Inv, Decode, Respond, RespondAll, AllFit, Parse;
    if |u| < h.length {
      DataBytes(env, c, u);
      NoItems(env, c, u);
    } else {
      var d := DataWhole(env, c, u, h);
      hide Ready, Stocked;
      ByteTrace(env, d, u[h.length..]);
      NextItem(env, View(c), Whole(h, u[..h.length]), Parse(env, u[h.length..]));
    }
  }

  /** The payload of one packet. */
  lemma DataWhole(env: Env, c: Conn, u: seq<bv8>, h: Header) returns (d: Conn)
    requires Tcp(env) && c.scan.DataWait? && c.elapsed == 0 && Stocked(c) && c.current.Some? && c.data == []
    requires |c.raw| == HEADER_SIZE && h == Decode(c.raw) && 0 < h.length <= |u| && h.dataType != TYPE_ACKNOWLEDGE
    requires Inv(env, c)
    ensures Ready(d) && View(d) == Respond(env, View(c), h, u[..h.length])
    ensures RxBytes(env, c, u) == RxBytes(env, d, u[h.length..])
    ensures NoRefusal(env, c, u) == NoRefusal(env, d, u[h.length..])
  {
    hide RxBytes, NoRefusal, Inv, Decode, Respond, CheckTelegram, Stocked;
    var p, q := u[..h.length - 1], u[h.length - 1..];
    assert u == p + q && p + [q[0]] == u[..h.length] && q[1..] == u[h.length..];
    DataBytes(env, c, p);
    RunConcat(env, c, p, q);
    var filled := c.(data := p);
    var whole := c.(data := u[..h.length], scan := TelegramCheck);
    assert c.data + p == p;
    assert Byte(env, filled, q[0]) == (CheckTelegram(env, whole), false);
    assert Stocked(whole) by { StockedForgetsData(c, whole.data); }
    CheckTelegramTcp(env, whole);
    CheckTelegramResets(env, whole);
    d := CheckTelegram(env, whole);
    hide Byte;
    RxBytesOne(env, filled, q);
  }

  lemma StockedForgetsData(c: Conn, data: seq<bv8>)
    requires Stocked(c)
    ensures Stocked(c.(data := data)) && Stocked(c.(data := data, scan := TelegramCheck))
  {}
}
