/** What becomes of requests: over every run, each request given to a handler is still with it, was
    answered on the line, or had its answer refused by the connector, and then its buffer is lost. Nothing
    else loses a buffer: refused acknowledges, keep-alive answers and query answers do not. */
module MarshallerAnswers {
  import opened Options
  import opened Frame
  import opened Marshaller
  import opened MarshallerScan
  import opened MarshallerBuffers

  /** A packet that belongs to a transport, not to the marshaller itself. */
  predicate OfTransport(h: Header) {
    h.dataType != TYPE_ACKNOWLEDGE && h.dataType != TYPE_QUERYSERVER && h.dataType != TYPE_KEEP_ALIVE
  }

  /** Requests given to handlers. */
  function Dispatches(trace: seq<Event>): nat {
    if trace == [] then 0
    else Dispatches(trace[..|trace| - 1]) + if trace[|trace| - 1].Dispatched? then 1 else 0
  }

  /** Answers of handlers that the connector took. */
  function Answers(trace: seq<Event>): nat {
    if trace == [] then 0
    else
      var last := trace[|trace| - 1];
      Answers(trace[..|trace| - 1]) + if last.Sent? && OfTransport(last.header) then 1 else 0
  }

  /** Requests dispatched that are neither held, nor answered, nor lost. */
  function Account(c: Conn): int {
    Dispatches(c.trace) - |c.handling| - Answers(c.trace) - |c.lost|
  }

  predicate Typed(c: Conn) {
    (forall r :: r in c.pending ==> OfTransport(r.header)) && (forall r :: r in c.handling ==> OfTransport(r.header))
  }

  /** A step that loses track of no request. */
  predicate Even(c: Conn, d: Conn) { Account(d) == Account(c) && (Typed(c) ==> Typed(d)) }

  lemma NextEvent(trace: seq<Event>, e: Event)
    ensures Dispatches(trace + [e]) == Dispatches(trace) + if e.Dispatched? then 1 else 0
    ensures Answers(trace + [e]) == Answers(trace) + if e.Sent? && OfTransport(e.header) then 1 else 0
  {
    assert (trace + [e])[..|trace|] == trace;
  }

  lemma FreeEven(c: Conn, b: Buffer)
    ensures Even(c, Free(c, b)) && Free(c, b).trace == c.trace && Free(c, b).lost == c.lost
  {
    hide Dispatches, Answers;
  }

  lemma TransmitCounts(env: Env, c: Conn, b: Buffer, h: Header, data: seq<bv8>)
    ensures var (d, ok) := Transmit(env, c, b, h, data);
            && Account(d) == Account(c) - (if ok && OfTransport(h) then 1 else 0)
            && d.pending == c.pending && d.handling == c.handling && d.lost == c.lost
  {
    hide Dispatches, Answers, Free;
    var event := Sent(Stamp(h, data), data);
    NextEvent(c.trace, event);
    StampKeepsType(h, data);
    hide Stamp, OfTransport;
    var sent := c.(sends := c.sends + 1, trace := c.trace + [event]);
    FreeEven(sent, b);
    FreeQueues(sent, b);
  }

  lemma StampKeepsType(h: Header, data: seq<bv8>)
    ensures OfTransport(Stamp(h, data)) == OfTransport(h)
  {}

  lemma FreeQueues(c: Conn, b: Buffer)
    ensures Free(c, b).pending == c.pending && Free(c, b).handling == c.handling && Free(c, b).lost == c.lost
  {}

  lemma TransmitOrFreeEven(env: Env, c: Conn, b: Buffer, h: Header, data: seq<bv8>)
    requires !OfTransport(h)
    ensures Even(c, TransmitOrFree(env, c, b, h, data))
  {
    hide Transmit, Free, OfTransport, Account;
    TransmitCounts(env, c, b, h, data);
    FreeEven(Transmit(env, c, b, h, data).0, b);
  }

  lemma AcknowledgeEven(env: Env, c: Conn, h: Header, state: bv8)
    ensures Even(c, Acknowledge(env, c, h, state))
  {
    hide TransmitOrFree, Dispatches, Answers;
    if c.ack != [] {
      TransmitOrFreeEven(env, c.(ack := c.ack[1..]), c.ack[0], h.(state := state, dataType := TYPE_ACKNOWLEDGE), []);
    }
  }

  lemma ResetEven(c: Conn)
    ensures Even(c, Reset(c))
  {
    hide Free, Dispatches, Answers;
    if c.current.Some? {
      FreeEven(c, c.current.value);
      FreeQueues(c, c.current.value);
    }
  }

  /** A handler's answer is taken, or its buffer is lost. */
  lemma ReplyCounts(env: Env, c: Conn, r: Request)
    requires OfTransport(r.header)
    ensures var d := Reply(env, c, r);
            Account(d) == Account(c) - 1 && d.pending == c.pending && d.handling == c.handling
  {
    hide Transmit, OfTransport, Dispatches, Answers;
    TransmitCounts(env, c, r.buffer, r.header, env.answer(r.header, r.data));
  }

  lemma MainEven(env: Env, c: Conn, wake: Wake)
    requires Typed(c)
    ensures Even(c, Main(env, c, wake))
  {
    hide Reply, OfTransport, Dispatches, Answers;
    if !(wake.Ignored? || c.pending == [] || c.pending[0].header.dataType !in env.transports) {
      var r := c.pending[0];
      assert r in c.pending;
      NextEvent(c.trace, Dispatched(r.header, r.data));
      ReplyCounts(env, c.(pending := c.pending[1..], trace := c.trace + [Dispatched(r.header, r.data)]), r);
    }
  }

  lemma ReplyHeldEven(env: Env, c: Conn, j: nat)
    requires Typed(c)
    ensures Even(c, ReplyHeld(env, c, j))
  {
    hide Reply, OfTransport, Dispatches, Answers;
    if j < |c.handling| {
      assert c.handling[j] in c.handling;
      ReplyCounts(env, c.(handling := c.handling[..j] + c.handling[j + 1..]), c.handling[j]);
    }
  }

  lemma TxCompleteEven(c: Conn, j: nat)
    ensures Even(c, TxComplete(c, j))
  {
    hide Free, Dispatches, Answers;
    if j < |c.sending| {
      FreeEven(c.(sending := c.sending[..j] + c.sending[j + 1..]), c.sending[j]);
    }
  }

  // ---------------------------------------------------------------- the scanner

  lemma SlotEven(c: Conn, d: Conn)
    requires Even(c, d)
    ensures Even(c, d.(current := None))
  {}

  lemma AnswerEven(env: Env, c: Conn, b: Buffer, h: Header, state: bv8, data: seq<bv8>)
    ensures var a := Acknowledge(env, c, h, state);
            && (!OfTransport(h) ==> Even(c, TransmitOrFree(env, a, b, h, data).(current := None)))
            && Even(c, Free(a, b).(current := None))
  {
    hide Acknowledge, TransmitOrFree, Free, OfTransport, Account, Typed;
    var a := Acknowledge(env, c, h, state);
    AcknowledgeEven(env, c, h, state);
    FreeEven(a, b);
    SlotEven(c, Free(a, b));
    if !OfTransport(h) {
      TransmitOrFreeEven(env, a, b, h, data);
      SlotEven(c, TransmitOrFree(env, a, b, h, data));
    }
  }

  lemma CheckKeepAliveEven(env: Env, c: Conn, h: Header, b: Buffer)
    requires !OfTransport(h)
    ensures Even(c, CheckKeepAlive(env, c, h, b))
  {
    hide Acknowledge, TransmitOrFree, Free, NewKeepAliveId, Word32, Long32, Dispatches, Answers, OfTransport;
    AnswerEven(env, c, b, h, LENGTH_INCOMPLETE, []);
    AnswerEven(env, c, b, h, KEEP_ALIVE_ERROR, []);
    AnswerEven(env, c, b, h, STATE_OK, Long32(c.keepAliveId));
    var id := NewKeepAliveId(c.keepAliveId, env.tick(c.ticks));
    var issued := c.(keepAliveId := id, ticks := c.ticks + 1);
    AnswerEven(env, issued, b, h, STATE_OK, Long32(id));
  }

  lemma EnqueueEven(env: Env, c: Conn, b: Buffer, h: Header, data: seq<bv8>)
    requires OfTransport(h) && Typed(c)
    ensures var a := Acknowledge(env, c, h, STATE_OK);
            var queued := a.(current := None, pending := a.pending + [Request(b, h, data)], wakes := a.wakes + 1);
            Even(c, Main(env, queued, env.wake(a.wakes)))
  {
    hide Acknowledge, Main, Dispatches, Answers, OfTransport;
    var a := Acknowledge(env, c, h, STATE_OK);
    AcknowledgeEven(env, c, h, STATE_OK);
    var queued := a.(current := None, pending := a.pending + [Request(b, h, data)], wakes := a.wakes + 1);
    assert Even(c, queued);
    MainEven(env, queued, env.wake(a.wakes));
  }

  lemma CheckTelegramEven(env: Env, c: Conn)
    requires |c.raw| == HEADER_SIZE && c.current.Some? && Typed(c)
    ensures Even(c, CheckTelegram(env, c))
  {
    hide Acknowledge, TransmitOrFree, Free, Main, CheckKeepAlive, Decode, Reset, Account, Typed;
    var h, b := Decode(c.raw), c.current.value;
    AcknowledgeEven(env, c, h, CHECKSUM_ERROR);
    AnswerEven(env, c, b, h, STATE_OK, env.serverInfo);
    AnswerEven(env, c, b, h, DATA_TYPE_UNKNOWN, []);
    if !OfTransport(h) {
      CheckKeepAliveEven(env, c, h, b);
    } else {
      EnqueueEven(env, c, b, h, c.data);
    }
    forall d ensures Even(d, Reset(d)) {
      ResetEven(d);
    }
  }

  lemma HeaderDoneEven(env: Env, c: Conn)
    requires |c.raw| == HEADER_SIZE && c.current.None? && Typed(c)
    ensures Even(c, HeaderDone(env, c).0)
  {
    hide Acknowledge, Free, CheckTelegram, Decode, Reset, Capacity, Dispatches, Answers, OfTransport;
    var h := Decode(c.raw);
    ResetEven(c);
    assert c.(current := None) == c;
    if h.dataType != TYPE_ACKNOWLEDGE {
      if Pool(c, h) == [] {
        AcknowledgeEven(env, c, h, RESOURCE_ERROR);
        ResetEven(Acknowledge(env, c, h, RESOURCE_ERROR));
      } else {
        var b, popped := Pool(c, h)[0], PopPool(c, h);
        if Capacity(env, h) < h.length {
          var a := Acknowledge(env, popped, h, BUFFEROVERFLOW_ERROR);
          AcknowledgeEven(env, popped, h, BUFFEROVERFLOW_ERROR);
          FreeEven(a, b);
          ResetEven(Free(a, b));
        } else {
          CheckTelegramEven(env, popped.(current := Some(b), data := [], scan := TelegramCheck));
        }
      }
    }
  }

  lemma ByteEven(env: Env, c: Conn, b: bv8)
    requires Inv(env, c) && Typed(c)
    ensures Even(c, Byte(env, c, b).0)
  {
    hide HeaderDone, CheckTelegram, Decode, Dispatches, Answers, OfTransport;
    if c.scan.HeaderScan? && |c.raw| == HEADER_SIZE - 1 {
      HeaderDoneEven(env, c.(raw := c.raw + [b]));
    } else if c.scan.DataWait? {
      CheckTelegramEven(env, c.(data := c.data + [b], scan := TelegramCheck));
    }
  }

  lemma {:induction false} FeedEven(env: Env, c: Conn, seen: seq<bv8>, chunk: seq<bv8>)
    requires Inv(env, c) && Typed(c)
    ensures Even(c, Feed(env, c, seen, chunk))
    decreases |seen| + |chunk|, if c.scan.HeaderScan? then 1 else 0, |chunk|
  {
    hide Byte, Inv, Account, Typed;
    if chunk != [] {
      var (c', refused) := Byte(env, c, chunk[0]);
      ByteKeepsInv(env, c, chunk[0]);
      ByteEven(env, c, chunk[0]);
      if refused {
        FeedEven(env, c', [], seen + chunk);
      } else if c.scan.HeaderScan? && c'.scan.HeaderScan? {
        FeedEven(env, c', seen + [chunk[0]], chunk[1..]);
      } else {
        FeedEven(env, c', [], chunk[1..]);
      }
    }
  }

  // --------------------------------------------------------------------- runs

  lemma ApplyEven(env: Env, c: Conn, s: Step)
    requires Inv(env, c) && Typed(c)
    ensures Even(c, Apply(env, c, s))
  {
    hide Main, Feed, TxComplete, ReplyHeld, Reset, Dispatches, Answers, OfTransport;
    match s
    case Receive(chunk) => FeedEven(env, c.(elapsed := 0), [], chunk);
    case Tick => ResetEven(c.(elapsed := (c.elapsed + 10) % 0x1_0000_0000));
    case RunMain(wake) => MainEven(env, c, wake);
    case Complete(j) => TxCompleteEven(c, j);
    case Answer(j) => ReplyHeldEven(env, c, j);
  }

  lemma {:induction false} RunEven(env: Env, c: Conn, steps: seq<Step>)
    requires Inv(env, c) && Typed(c)
    ensures Even(c, Run(env, c, steps))
    decreases |steps|
  {
    hide Apply, Inv, Account, Typed;
    if steps != [] {
      ApplyKeepsInv(env, c, steps[0]);
      ApplyEven(env, c, steps[0]);
      RunEven(env, Apply(env, c, steps[0]), steps[1..]);
    }
  }

  /** From registration on, after any run with any connector: exactly as many buffers are lost as
      dispatched requests are neither held by a handler nor answered on the line. */
  lemma LostExactly(env: Env, rxCnt: nat, txCnt: nat, steps: seq<Step>)
    ensures var c := Run(env, Registered(rxCnt, txCnt), steps);
            |c.lost| == Dispatches(c.trace) - |c.handling| - Answers(c.trace)
  {
    RunEven(env, Registered(rxCnt, txCnt), steps);
  }
}
