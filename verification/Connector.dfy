/** The connector as the marshaller keeps it: fields updated in place, a do-switch loop over the
    received data. Each method is proved to do what the functions of module Marshaller say. */
module MarshallerConnector {
  import opened Options
  import opened Frame
  import opened Marshaller
  import opened MarshallerScan
  import MarshallerBuffers
  import Crc16

  class Connector {
    const env: Env
    var scan: Scan
    const rxHeader: array<bv8>
    var rxOffset: nat
    var data: seq<bv8>
    var current: Option<Buffer>
    var monitor: bool
    var elapsed: nat
    var keepAliveId: bv32
    var rx: seq<Buffer>
    var tx: seq<Buffer>
    var ack: seq<Buffer>
    var keepAlive: seq<Buffer>
    var pending: seq<Request>
    var handling: seq<Request>
    var sending: seq<Buffer>
    var lost: seq<Buffer>
    var trace: seq<Event>
    var sends: nat
    var wakes: nat
    var ticks: nat

    /** The receive offset counts header bytes first, payload bytes after. */
    ghost predicate Valid()
      reads this, rxHeader
    {
      rxHeader.Length == HEADER_SIZE
      && if rxOffset < HEADER_SIZE then data == [] else rxOffset == HEADER_SIZE + |data|
    }

    ghost function Raw(): seq<bv8>
      requires Valid()
      reads this, rxHeader
    {
      if rxOffset < HEADER_SIZE then rxHeader[..rxOffset] else rxHeader[..]
    }

    ghost function State(): Conn
      requires Valid()
      reads this, rxHeader
    {
      Conn(scan, Raw(), data, current, monitor, elapsed, keepAliveId, rx, tx, ack, keepAlive,
           pending, handling, sending, lost, trace, sends, wakes, ticks)
    }

    /** HilMarshallerRegisterConnector with AllocateBuffers. */
    constructor (env: Env, rxCnt: nat, txCnt: nat)
      ensures this.env == env && Scanning() && fresh(rxHeader)
      ensures State() == MarshallerBuffers.Registered(rxCnt, txCnt) && Inv(env, State())
    {
      var rxPool := Allocate(RxKind, rxCnt);
      var txPool := Allocate(TxKind, txCnt);
      var ackPool := Allocate(AckKind, rxCnt + txCnt + 2);
      var keepAlivePool := Allocate(KeepAliveKind, 1);
      this.env := env;
      rx, tx, ack, keepAlive := rxPool, txPool, ackPool, keepAlivePool;
      rxHeader := new bv8[HEADER_SIZE];
      scan, rxOffset, data, current, monitor, elapsed, keepAliveId := CookieScan, 0, [], None, false, 0, 0;
      pending, handling, sending, lost, trace, sends, wakes, ticks := [], [], [], [], [], 0, 0, 0;
    }

    static method Allocate(kind: Kind, n: nat) returns (pool: seq<Buffer>)
      ensures pool == MarshallerBuffers.Numbered(kind, n)
    {
      pool := [];
      for i := 0 to n
        invariant pool == MarshallerBuffers.Numbered(kind, i)
      {
        pool := pool + [Buffer(kind, i)];
      }
    }

    // ------------------------------------------------------------ buffers

    /** HilMarshallerFreeBuffer */
    method FreeBuffer(b: Buffer)
      requires Valid()
      modifies this
      ensures Valid() && State() == Free(old(State()), b) && trace == old(trace)
      ensures rx == old(rx) + (if b.kind.RxKind? then [b] else []) && tx == old(tx) + (if b.kind.TxKind? then [b] else [])
      ensures ack == old(ack) + (if b.kind.AckKind? then [b] else [])
      ensures keepAlive == old(keepAlive) + (if b.kind.KeepAliveKind? then [b] else [])
    {
      match b.kind {
        case RxKind => rx := rx + [b];
        case TxKind => tx := tx + [b];
        case AckKind => ack := ack + [b];
        case KeepAliveKind => keepAlive := keepAlive + [b];
      }
    }

    /** HilMarshallerConnTxData */
    method ConnTxData(b: Buffer, h: Header, payload: seq<bv8>) returns (ok: bool)
      requires Valid()
      modifies this
      ensures Valid() && (State(), ok) == Transmit(env, old(State()), b, h, payload)
      ensures trace == if !ok then old(trace) else old(trace) + [
                Sent(h.(length := |payload|, checksum := if |payload| > 0 then Crc16.Checksum(payload) else 0), payload)]
    {
      hide Free, Crc16.Checksum;
      var stamped := Stamp(h, payload);
      var outcome := env.transmit(sends);
      sends := sends + 1;
      if outcome.Refuses? {
        return false;
      }
      trace := trace + [Sent(stamped, payload)];
      if outcome.Now? {
        FreeBuffer(b);
      } else {
        sending := sending + [b];
      }
      ok := true;
    }

    method TxDataOrFree(b: Buffer, h: Header, payload: seq<bv8>)
      requires Valid()
      modifies this
      ensures Valid() && State() == TransmitOrFree(env, old(State()), b, h, payload)
    {
      hide Transmit, Free;
      var ok := ConnTxData(b, h, payload);
      if !ok {
        FreeBuffer(b);
      }
    }

    /** SendAcknowledge */
    method SendAcknowledge(h: Header, state: bv8)
      requires Valid()
      modifies this
      ensures Valid() && State() == Acknowledge(env, old(State()), h, state)
    {
      hide TransmitOrFree;
      if ack != [] {
        var b := ack[0];
        ack := ack[1..];
        TxDataOrFree(b, h.(state := state, dataType := TYPE_ACKNOWLEDGE), []);
      }
    }

    /** ResetRxStateMachine */
    method ResetRxStateMachine()
      requires Valid()
      modifies this, rxHeader
      ensures Valid() && State() == Reset(old(State()))
      ensures scan.CookieScan? && rxOffset == 0 && current.None?
    {
      hide Free;
      if current.Some? {
        FreeBuffer(current.value);
      }
      RestartScan();
    }

    method ClearCookie()
      requires rxHeader.Length == HEADER_SIZE
      modifies rxHeader
    {
      rxHeader[0], rxHeader[1], rxHeader[2], rxHeader[3] := 0, 0, 0, 0;
    }

    method RestartScan()
      requires Valid()
      modifies this`scan, this`rxOffset, this`data, this`current, this`monitor, this`elapsed, rxHeader
      ensures Valid()
      ensures scan == CookieScan && rxOffset == 0 && Raw() == [] && data == [] && current == None && !monitor && elapsed == 0
    {
      monitor := false;
      elapsed := 0;
      ClearCookie();
      rxOffset := 0;
      data := [];
      current := None;
      scan := CookieScan;
    }

    // -------------------------------------------------- main and handlers

    /** HilMarshallerMain, with a handler that answers at once or keeps the request. */
    method RunMain(wake: Wake)
      requires Valid()
      modifies this
      ensures Valid() && State() == Main(env, old(State()), wake)
    {
      hide Reply;
      ghost var before := State();
      if wake.Ignored? || pending == [] || pending[0].header.dataType !in env.transports {
        return;
      }
      var r := pending[0];
      pending := pending[1..];
      trace := trace + [Dispatched(r.header, r.data)];
      assert State() == before.(pending := before.pending[1..], trace := before.trace + [Dispatched(r.header, r.data)]);
      if wake.Held? {
        handling := handling + [r];
      } else {
        Answer(r);
      }
    }

    /** The end of a transport handler: its answer goes out in the buffer of the request. */
    method Answer(r: Request)
      requires Valid()
      modifies this
      ensures Valid() && State() == Reply(env, old(State()), r)
    {
      hide Transmit;
      var ok := ConnTxData(r.buffer, r.header, env.answer(r.header, r.data));
      if !ok {
        lost := lost + [r.buffer];
      }
    }

    /** A handler answers the j-th request it kept. */
    method AnswerHeld(j: nat)
      requires Valid() && j < |handling|
      modifies this
      ensures Valid() && State() == ReplyHeld(env, old(State()), j)
    {
      hide Reply;
      ghost var before := State();
      var r := handling[j];
      handling := handling[..j] + handling[j + 1..];
      assert State() == before.(handling := before.handling[..j] + before.handling[j + 1..]);
      Answer(r);
    }

    /** HilMarshallerConnTxComplete for the j-th buffer the connector holds. */
    method ConnTxComplete(j: nat)
      requires Valid() && j < |sending|
      modifies this
      ensures Valid() && State() == TxComplete(old(State()), j)
    {
      hide Free;
      var b := sending[j];
      sending := sending[..j] + sending[j + 1..];
      FreeBuffer(b);
    }

    /** HilMarshallerTimer */
    method Tick()
      requires Valid()
      modifies this, rxHeader
      ensures Valid() && State() == Timer(env, old(State()))
    {
      hide Reset;
      if monitor {
        elapsed := (elapsed + 10) % 0x1_0000_0000;
        if env.timeout < elapsed {
          ResetRxStateMachine();
        }
      }
    }

    // ----------------------------------------------------------- the check

    method NackAndFree(h: Header, state: bv8, b: Buffer)
      requires Valid()
      modifies this
      ensures Valid() && State() == Free(Acknowledge(env, old(State()), h, state), b).(current := None)
    {
      hide Acknowledge, Free;
      SendAcknowledge(h, state);
      FreeBuffer(b);
      current := None;
    }

    method AckAndAnswer(h: Header, b: Buffer, payload: seq<bv8>)
      requires Valid()
      modifies this
      ensures Valid() && State() == TransmitOrFree(env, Acknowledge(env, old(State()), h, STATE_OK), b, h, payload).(current := None)
    {
      hide Acknowledge, TransmitOrFree;
      SendAcknowledge(h, STATE_OK);
      TxDataOrFree(b, h, payload);
      current := None;
    }

    method KeepAliveTelegram(h: Header, b: Buffer)
      requires Valid()
      modifies this
      ensures Valid() && State() == CheckKeepAlive(env, old(State()), h, b)
    {
      hide Acknowledge, TransmitOrFree, Free, Word32, Long32, NewKeepAliveId;
      ghost var before := State();
      if h.length != 4 || |data| != 4 {
        NackAndFree(h, LENGTH_INCOMPLETE, b);
      } else if Word32(data) == 0 {
        var id := NewKeepAliveId(keepAliveId, env.tick(ticks));
        keepAliveId := id;
        ticks := ticks + 1;
        assert State() == before.(keepAliveId := id, ticks := before.ticks + 1);
        AckAndAnswer(h, b, Long32(id));
      } else if Word32(data) != keepAliveId {
        NackAndFree(h, KEEP_ALIVE_ERROR, b);
      } else {
        AckAndAnswer(h, b, Long32(keepAliveId));
      }
    }

    /** HIL_CHECK_TELEGRAM */
    method CheckTurn()
      requires Valid() && rxOffset >= HEADER_SIZE && current.Some?
      modifies this, rxHeader
      ensures Valid() && State() == CheckTelegram(env, old(State()))
      ensures scan.CookieScan? && rxOffset == 0 && current.None?
    {
      hide Disposed, Decode, Reset;
      assert State().raw == rxHeader[..];
      Dispose(Decode(rxHeader[..]), current.value);
      ResetRxStateMachine();
    }

    method Dispose(h: Header, b: Buffer)
      requires Valid()
      modifies this
      ensures Valid() && State() == Disposed(env, old(State()), h, b)
    {
      hide Acknowledge, TransmitOrFree, Free, CheckKeepAlive, Main, Crc16.Checksum;
      var computed := Crc16.CalculateCRC16(data);
      if h.length > 0 && h.checksum != 0 && h.checksum != computed {
        SendAcknowledge(h, CHECKSUM_ERROR);
      } else if h.dataType == TYPE_ACKNOWLEDGE {
      } else if h.dataType == TYPE_QUERYSERVER {
        AckAndAnswer(h, b, env.serverInfo);
      } else if IsKeepAlive(h) {
        KeepAliveTelegram(h, b);
      } else if h.dataType !in env.transports {
        NackAndFree(h, DATA_TYPE_UNKNOWN, b);
      } else {
        Enqueue(h, b);
      }
    }

    method Enqueue(h: Header, b: Buffer)
      requires Valid()
      modifies this
      ensures var acked := Acknowledge(env, old(State()), h, STATE_OK);
              var queued := acked.(current := None, pending := acked.pending + [Request(b, h, old(data))], wakes := acked.wakes + 1);
              Valid() && State() == Main(env, queued, env.wake(acked.wakes))
    {
      hide Acknowledge, Main;
      var payload := data;
      SendAcknowledge(h, STATE_OK);
      ghost var acked := State();
      current := None;
      pending := pending + [Request(b, h, payload)];
      var wake := env.wake(wakes);
      wakes := wakes + 1;
      assert State() == acked.(current := None, pending := acked.pending + [Request(b, h, payload)], wakes := acked.wakes + 1);
      RunMain(wake);
    }

    // -------------------------------------------------------- the scan loop

    /** Where the do loop may stand at its head. */
    ghost predicate Scanning()
      reads this, rxHeader
    {
      && Valid()
      && match scan
         case CookieScan => rxOffset <= 3 && current.None?
         case HeaderScan => 4 <= rxOffset < HEADER_SIZE && current.None?
         case DataWait => rxOffset >= HEADER_SIZE && current.Some? && |data| <= Decode(rxHeader[..]).length
         case TelegramCheck => rxOffset >= HEADER_SIZE && current.Some? && |data| == Decode(rxHeader[..]).length
    }

    /** HIL_SEARCH_TELEGRAM_COOKIE */
    method CookieTurn(input: seq<bv8>, p: nat) returns (p': nat, done: bool)
      requires Scanning() && scan.CookieScan? && p <= |input|
      modifies this`scan, this`rxOffset, this`monitor, rxHeader
      ensures Scanning() && p <= p' <= |input|
      ensures if done then State() == Feed(env, old(State()), [], input[p..])
              else p < p' && scan.HeaderScan? && Feed(env, State(), [], input[p'..]) == Feed(env, old(State()), [], input[p..])
    {
      hide Feed, AfterCookieByte, Decode;
      p', done := p, true;
      assert input[p..] == input[p'..];
      while p' < |input|
        invariant p <= p' <= |input| && Scanning() && scan.CookieScan? && done
        invariant Feed(env, State(), [], input[p'..]) == Feed(env, old(State()), [], input[p..])
      {
        ghost var before := State();
        var b := input[p'];
        FeedWindowByte(env, before, b, input[p' + 1..]);
        assert input[p'..] == [b] + input[p' + 1..];
        p' := p' + 1;
        var found := CookieByteIn(b);
        if found {
          done := false;
          return;
        }
      }
      assert input[p'..] == [];
      FeedNothing(env, State());
    }

    /** One byte into the cookie window; a full window is the cookie or slides by one. */
    method CookieByteIn(b: bv8) returns (found: bool)
      requires Scanning() && scan.CookieScan?
      modifies this`scan, this`rxOffset, this`monitor, rxHeader
      ensures Scanning() && State() == AfterCookieByte(old(State()), b)
      ensures found == scan.HeaderScan? && (!found ==> scan.CookieScan?)
    {
      hide Decode;
      ghost var was := rxHeader[..rxOffset];
      WriteHeader([b]);
      rxOffset := rxOffset + 1;
      assert Raw() == was + [b];
      found := false;
      if rxOffset >= 4 {
        if rxHeader[..4] == COOKIE {
          scan := HeaderScan;
          monitor := true;
          found := true;
        } else {
          ghost var window := rxHeader[..4];
          assert rxHeader[1..4] == window[1..];
          SlideWindow();
        }
      }
    }

    /** The header is complete: drop an acknowledge, refuse, or wait for data in a buffer. */
    method HeaderComplete() returns (refused: bool)
      requires Valid() && rxOffset == HEADER_SIZE && scan.HeaderScan? && current.None?
      modifies this, rxHeader
      ensures Scanning() && (scan.CookieScan? || scan.DataWait?) && (refused ==> scan.CookieScan?)
      ensures refused == HeaderDone(env, old(State())).1
      ensures HeaderDone(env, old(State())).0
           == (if AwaitsNothing(State()) then CheckTelegram(env, State().(scan := TelegramCheck)) else State())
    {
      hide Acknowledge, Free, Decode, CheckTelegram, Reset;
      ghost var before := State();
      var h := Decode(rxHeader[..]);
      assert before.raw == rxHeader[..];
      assert before.(current := None) == before;
      refused := true;
      if h.dataType == TYPE_ACKNOWLEDGE {
        refused := false;
        ResetRxStateMachine();
      } else if (if IsKeepAlive(h) then keepAlive else rx) == [] {
        SendAcknowledge(h, RESOURCE_ERROR);
        ResetRxStateMachine();
      } else {
        var b := GetBuffer(h);
        if Capacity(env, h) < h.length {
          SendAcknowledge(h, BUFFEROVERFLOW_ERROR);
          FreeBuffer(b);
          ResetRxStateMachine();
        } else {
          ghost var popped := State();
          current := Some(b);
          scan := DataWait;
          refused := false;
          assert State() == popped.(current := Some(b), scan := DataWait, data := []);
          assert Raw() == before.raw;
          return;
        }
      }
    }

    /** HilMarshallerGetBuffer for a header's type of buffer. */
    method GetBuffer(h: Header) returns (b: Buffer)
      requires Valid() && Pool(State(), h) != []
      modifies this`rx, this`keepAlive
      ensures Valid() && b == Pool(old(State()), h)[0] && State() == PopPool(old(State()), h)
    {
      if IsKeepAlive(h) {
        b := keepAlive[0];
        keepAlive := keepAlive[1..];
      } else {
        b := rx[0];
        rx := rx[1..];
      }
    }

    method SlideWindow()
      requires rxHeader.Length == HEADER_SIZE && rxOffset == 4 && data == []
      modifies this`rxOffset, rxHeader
      ensures rxOffset == 3 && rxHeader[..3] == old(rxHeader[1..4])
    {
      rxHeader[0], rxHeader[1], rxHeader[2] := rxHeader[1], rxHeader[2], rxHeader[3];
      rxOffset := 3;
    }

    method CopyHeader(s: seq<bv8>)
      requires Valid() && rxOffset + |s| <= HEADER_SIZE && data == []
      modifies this`rxOffset, rxHeader
      ensures Valid() && rxOffset == old(rxOffset) + |s| && State() == old(State()).(raw := old(Raw()) + s)
    {
      ghost var raw := rxHeader[..rxOffset];
      WriteHeader(s);
      rxOffset := rxOffset + |s|;
      assert Raw() == raw + s by {
        if rxOffset == HEADER_SIZE {
          assert rxHeader[..] == rxHeader[..HEADER_SIZE];
        }
      }
    }

    method WriteHeader(s: seq<bv8>)
      requires rxHeader.Length == HEADER_SIZE && rxOffset + |s| <= HEADER_SIZE
      modifies rxHeader
      ensures rxHeader[..rxOffset + |s|] == old(rxHeader[..rxOffset]) + s
    {
      for i := 0 to |s|
        invariant forall k :: 0 <= k < rxOffset ==> rxHeader[k] == old(rxHeader[k])
        invariant forall k :: 0 <= k < i ==> rxHeader[rxOffset + k] == s[k]
      {
        rxHeader[rxOffset + i] := s[i];
      }
    }

    /** HIL_SEARCH_TELEGRAM_HEADER: a refused header does not move the read position. */
    method HeaderTurn(input: seq<bv8>, p: nat) returns (p': nat, done: bool)
      requires Scanning() && scan.HeaderScan? && p <= |input|
      modifies this, rxHeader
      ensures Scanning() && p <= p' <= |input|
      ensures if done then State() == Feed(env, old(State()), [], input[p..])
              else (p < p' || scan.CookieScan?) && Resume(env, State(), input[p'..]) == Feed(env, old(State()), [], input[p..])
    {
      hide Feed, Decode, HeaderDone, CheckTelegram;
      p', done := p, true;
      ghost var before := State();
      if p == |input| {
        assert input[p..] == [];
        FeedNothing(env, before);
        return;
      }
      var copy := if |input| - p < HEADER_SIZE - rxOffset then |input| - p else HEADER_SIZE - rxOffset;
      var s := input[p..p + copy];
      ghost var more := input[p + copy..];
      assert input[p..] == s + more;
      CopyHeader(s);
      if rxOffset < HEADER_SIZE {
        assert more == [];
        FeedHeaderBytes(env, before, [], s, more);
        FeedNothingSeen(env, State(), [] + s);
        return;
      }
      FeedHeaderLast(env, before, [], s, more);
      assert [] + s + more == input[p..];
      var refused := HeaderComplete();
      if !refused {
        p' := p + copy;
      }
      done := false;
      if scan.CookieScan? && !refused && p' == |input| {
        done := true;
        assert more == [];
        FeedNothing(env, State());
      }
    }

    method AppendData(s: seq<bv8>)
      requires Valid() && rxOffset >= HEADER_SIZE
      modifies this`rxOffset, this`data
      ensures Valid() && rxOffset == old(rxOffset) + |s| && State() == old(State()).(data := old(data) + s)
    {
      data := data + s;
      rxOffset := rxOffset + |s|;
    }

    /** HIL_WAIT_TELEGRAM_DATA */
    method DataTurn(input: seq<bv8>, p: nat) returns (p': nat, done: bool)
      requires Scanning() && scan.DataWait? && p <= |input|
      modifies this`scan, this`rxOffset, this`data
      ensures Scanning() && p <= p' <= |input|
      ensures if done then State() == Resume(env, old(State()), input[p..])
              else scan.TelegramCheck? && Resume(env, State(), input[p'..]) == Resume(env, old(State()), input[p..])
    {
      hide Resume, Decode;
      p', done := p, true;
      ghost var before := State();
      var length := Decode(rxHeader[..]).length;
      assert before.raw == rxHeader[..];
      var copy := 0;
      if |data| < length && p < |input| {
        copy := if (|input| - p) + |data| > length then length - |data| else |input| - p;
      }
      ghost var s := input[p..p + copy];
      assert input[p..] == s + input[p + copy..];
      AppendData(input[p..p + copy]);
      if rxOffset < HEADER_SIZE + length {
        assert input[p + copy..] == [];
        ResumePartial(env, before, s);
      } else {
        ResumeWhole(env, before, s, input[p + copy..]);
        p' := p + copy;
        scan := TelegramCheck;
        done := false;
      }
    }

    /** HilMarshallerConnRxData: the loop ends on every input, and does what the function says. */
    method ConnRxData(input: seq<bv8>)
      requires Scanning() && Inv(env, State())
      modifies this, rxHeader
      ensures Scanning() && Inv(env, State())
      ensures State() == RxData(env, old(State()), input)
    {
      hide Feed, Decode, CheckTelegram, Inv;
      elapsed := 0;
      ghost var start := State();
      assert start == old(State()).(elapsed := 0);
      InvForgetsElapsed(env, old(State()));
      FeedKeepsInv(env, start, [], input);
      var p, done := 0, false;
      assert input[0..] == input;
      assert Resume(env, start, input) == Feed(env, start, [], input) by { InvAwaits(env, start); }
      while !done
        invariant Scanning() && p <= |input|
        invariant if done then State() == Feed(env, start, [], input)
                  else Resume(env, State(), input[p..]) == Feed(env, start, [], input)
        decreases !done, |input| - p, Rank(scan)
      {
        match scan {
          case CookieScan => p, done := CookieTurn(input, p);
          case HeaderScan => p, done := HeaderTurn(input, p);
          case DataWait => p, done := DataTurn(input, p);
          case TelegramCheck =>
            CheckTurn();
            if p == |input| {
              done := true;
              assert input[p..] == [];
              FeedNothing(env, State());
            }
        }
      }
    }
  }

  /** What is left to do at the head of the loop: a complete packet is checked first. */
  function Resume(env: Env, c: Conn, rest: seq<bv8>): Conn {
    if |c.raw| == HEADER_SIZE && c.current.Some? && (c.scan.TelegramCheck? || AwaitsNothing(c))
    then Feed(env, CheckTelegram(env, c.(scan := TelegramCheck)), [], rest)
    else Feed(env, c, [], rest)
  }

  lemma ResumePartial(env: Env, c: Conn, s: seq<bv8>)
    requires c.scan.DataWait? && |c.raw| == HEADER_SIZE && c.current.Some? && |c.data| + |s| < Decode(c.raw).length
    ensures Resume(env, c, s + []) == c.(data := c.data + s)
  {
    hide Feed, Decode, CheckTelegram;
    FeedDataBytes(env, c, s, []);
    FeedNothing(env, c.(data := c.data + s));
  }

  lemma ResumeWhole(env: Env, c: Conn, s: seq<bv8>, more: seq<bv8>)
    requires c.scan.DataWait? && |c.raw| == HEADER_SIZE && c.current.Some? && |c.data| + |s| == Decode(c.raw).length
    ensures Resume(env, c, s + more) == Resume(env, c.(data := c.data + s, scan := TelegramCheck), more)
  {
    hide Feed, Decode, CheckTelegram;
    if s == [] {
      assert s + more == more && c.data + s == c.data;
    } else {
      FeedDataLast(env, c, s, more);
    }
  }

  /** Turns that take no input go down in rank. */
  function Rank(scan: Scan): nat {
    match scan
    case CookieScan => 0
    case TelegramCheck => 1
    case DataWait => 2
    case HeaderScan => 3
  }

  lemma InvForgetsElapsed(env: Env, c: Conn)
    requires Inv(env, c)
    ensures Inv(env, c.(elapsed := 0))
  {}

  lemma InvAwaits(env: Env, c: Conn)
    requires Inv(env, c)
    ensures !c.scan.TelegramCheck? && !AwaitsNothing(c)
  {}

  lemma FeedNothingSeen(env: Env, c: Conn, seen: seq<bv8>)
    ensures Feed(env, c, seen, []) == c
  {}

  /** A packet without payload is complete with its header. */
  predicate AwaitsNothing(c: Conn) {
    c.scan.DataWait? && |c.raw| == HEADER_SIZE && c.current.Some? && |c.data| == Decode(c.raw).length
  }

  function AfterCookieByte(c: Conn, b: bv8): Conn {
    var window := c.raw + [b];
    if |window| < 4 then c.(raw := window)
    else if window == COOKIE then c.(raw := window, scan := HeaderScan, monitor := true)
    else c.(raw := window[1..])
  }

  lemma FeedNothing(env: Env, c: Conn)
    ensures Feed(env, c, [], []) == c
  {}

  lemma FeedWindowByte(env: Env, c: Conn, b: bv8, more: seq<bv8>)
    requires c.scan.CookieScan? && |c.raw| <= 3
    ensures Feed(env, c, [], [b] + more) == Feed(env, AfterCookieByte(c, b), [], more)
  {
    hide HeaderDone, CheckTelegram;
    assert ([b] + more)[1..] == more;
  }
}
