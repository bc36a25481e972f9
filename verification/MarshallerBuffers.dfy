/** Buffer conservation: every buffer allocated for a connector is at all times in exactly one
    place, on every path through the marshaller, over whole runs. */
module MarshallerBuffers {
  import opened Options
  import opened Frame
  import opened Marshaller
  import opened MarshallerScan

  // ------------------------------------------------------------------- places

  /** How often buffer x occurs in a list. */
  function Occurs(s: seq<Buffer>, x: Buffer): nat { multiset(s)[x] }

  function OccursIn(rs: seq<Request>, x: Buffer): nat {
    Occurs(seq(|rs|, i requires 0 <= i < |rs| => rs[i].buffer), x)
  }

  function One(b: Buffer, x: Buffer): nat { if b == x then 1 else 0 }

  function InSlot(slot: Option<Buffer>, x: Buffer): nat {
    match slot case Some(b) => One(b, x) case None => 0
  }

  /** How often x is anywhere: free pools, receive slot, pending queue, handlers, connector, and
      what a handler lost. */
  function Places(c: Conn, x: Buffer): nat {
    Occurs(c.rx, x) + Occurs(c.tx, x) + Occurs(c.ack, x) + Occurs(c.keepAlive, x) + InSlot(c.current, x)
    + OccursIn(c.pending, x) + OccursIn(c.handling, x) + Occurs(c.sending, x) + Occurs(c.lost, x)
  }

  /** If x is free, it is in the pool of its own kind. */
  predicate Filed(c: Conn, x: Buffer) {
    && (Occurs(c.rx, x) > 0 ==> x.kind.RxKind?)
    && (Occurs(c.tx, x) > 0 ==> x.kind.TxKind?)
    && (Occurs(c.ack, x) > 0 ==> x.kind.AckKind?)
    && (Occurs(c.keepAlive, x) > 0 ==> x.kind.KeepAliveKind?)
  }

  ghost predicate NeverRefuses(env: Env) {
    forall k :: !env.transmit(k).Refuses?
  }

  /** x is n times more in d than in c, still filed, and nothing is lost to a connector that never
      refuses. */
  ghost predicate Gains(env: Env, c: Conn, d: Conn, x: Buffer, n: nat) {
    Places(d, x) == Places(c, x) + n && (Filed(c, x) ==> Filed(d, x)) && (NeverRefuses(env) ==> d.lost == c.lost)
  }

  ghost predicate Keeps(env: Env, c: Conn, d: Conn, x: Buffer) { Gains(env, c, d, x, 0) }

  lemma OccursAppend(s: seq<Buffer>, b: Buffer, x: Buffer)
    ensures Occurs(s + [b], x) == Occurs(s, x) + One(b, x)
  {}

  lemma OccursWithout(s: seq<Buffer>, j: nat, x: Buffer)
    requires j < |s|
    ensures Occurs(s, x) == Occurs(s[..j] + s[j + 1..], x) + One(s[j], x)
  {
    assert s == s[..j] + [s[j]] + s[j + 1..];
  }

  lemma OccursTail(s: seq<Buffer>, x: Buffer)
    requires s != []
    ensures Occurs(s, x) == Occurs(s[1..], x) + One(s[0], x)
  {
    assert s == [s[0]] + s[1..];
  }

  lemma OccursInAppend(rs: seq<Request>, r: Request, x: Buffer)
    ensures OccursIn(rs + [r], x) == OccursIn(rs, x) + One(r.buffer, x)
  {
    var s := seq(|rs|, i requires 0 <= i < |rs| => rs[i].buffer);
    assert seq(|rs + [r]|, i requires 0 <= i < |rs + [r]| => (rs + [r])[i].buffer) == s + [r.buffer];
    OccursAppend(s, r.buffer, x);
  }

  lemma OccursInWithout(rs: seq<Request>, j: nat, x: Buffer)
    requires j < |rs|
    ensures OccursIn(rs, x) == OccursIn(rs[..j] + rs[j + 1..], x) + One(rs[j].buffer, x)
  {
    var s := seq(|rs|, i requires 0 <= i < |rs| => rs[i].buffer);
    var rs' := rs[..j] + rs[j + 1..];
    assert seq(|rs'|, i requires 0 <= i < |rs'| => rs'[i].buffer) == s[..j] + s[j + 1..];
    OccursWithout(s, j, x);
  }

  // --------------------------------------------------------------- operations

  lemma FreeGains(env: Env, c: Conn, b: Buffer, x: Buffer)
    ensures Gains(env, c, Free(c, b), x, One(b, x)) && Free(c, b).current == c.current
  {
    hide Occurs, OccursIn;
    OccursAppend(c.rx, b, x);
    OccursAppend(c.tx, b, x);
    OccursAppend(c.ack, b, x);
    OccursAppend(c.keepAlive, b, x);
  }

  lemma TransmitGains(env: Env, c: Conn, b: Buffer, h: Header, data: seq<bv8>, x: Buffer)
    ensures var (d, ok) := Transmit(env, c, b, h, data);
            Gains(env, c, d, x, if ok then One(b, x) else 0) && d.current == c.current
  {
    hide Stamp, Free, Occurs, OccursIn;
    var sent := c.(sends := c.sends + 1, trace := c.trace + [Sent(Stamp(h, data), data)]);
    match env.transmit(c.sends)
    case Now => SentSame(env, c, sent, x);
      hide Places, Filed;
      FreeGains(env, sent, b, x);
    case Later => OccursAppend(c.sending, b, x);
    case Refuses =>
  }

  lemma SentSame(env: Env, c: Conn, d: Conn, x: Buffer)
    requires d == c.(sends := d.sends, trace := d.trace)
    ensures Gains(env, c, d, x, 0)
  {
    hide Occurs, OccursIn;
  }

  lemma TransmitOrFreeGains(env: Env, c: Conn, b: Buffer, h: Header, data: seq<bv8>, x: Buffer)
    ensures var d := TransmitOrFree(env, c, b, h, data); Gains(env, c, d, x, One(b, x)) && d.current == c.current
  {
    hide Transmit, Free, Places, Filed, Occurs;
    TransmitGains(env, c, b, h, data, x);
    FreeGains(env, Transmit(env, c, b, h, data).0, b, x);
  }

  lemma AcknowledgeKeeps(env: Env, c: Conn, h: Header, state: bv8, x: Buffer)
    ensures var d := Acknowledge(env, c, h, state); Keeps(env, c, d, x) && d.current == c.current
  {
    hide TransmitOrFree, Occurs, OccursIn;
    if c.ack != [] {
      OccursTail(c.ack, x);
      TransmitOrFreeGains(env, c.(ack := c.ack[1..]), c.ack[0], h.(state := state, dataType := TYPE_ACKNOWLEDGE), [], x);
    }
  }

  lemma ResetKeeps(env: Env, c: Conn, x: Buffer)
    ensures Keeps(env, c, Reset(c), x)
  {
    hide Free, Occurs, OccursIn;
    if c.current.Some? {
      FreeGains(env, c, c.current.value, x);
    }
  }

  /** A handler's answer passes its buffer on; the buffer is lost exactly if the connector refuses it. */
  lemma ReplyGains(env: Env, c: Conn, r: Request, x: Buffer)
    ensures var d := Reply(env, c, r); Gains(env, c, d, x, One(r.buffer, x)) && d.current == c.current
    ensures Reply(env, c, r).lost == if env.transmit(c.sends).Refuses? then c.lost + [r.buffer] else c.lost
  {
    hide Stamp, Occurs, OccursIn;
    TransmitGains(env, c, r.buffer, r.header, env.answer(r.header, r.data), x);
    OccursAppend(c.lost, r.buffer, x);
  }

  lemma MainKeeps(env: Env, c: Conn, wake: Wake, x: Buffer)
    ensures var d := Main(env, c, wake); Keeps(env, c, d, x) && d.current == c.current
  {
    hide Reply, Occurs, OccursIn;
    if !(wake.Ignored? || c.pending == [] || c.pending[0].header.dataType !in env.transports) {
      var r := c.pending[0];
      var d := c.(pending := c.pending[1..], trace := c.trace + [Dispatched(r.header, r.data)]);
      OccursInWithout(c.pending, 0, x);
      assert c.pending[..0] + c.pending[1..] == c.pending[1..];
      OccursInAppend(d.handling, r, x);
      ReplyGains(env, d, r, x);
    }
  }

  lemma ReplyHeldKeeps(env: Env, c: Conn, j: nat, x: Buffer)
    ensures Keeps(env, c, ReplyHeld(env, c, j), x)
  {
    hide Reply, Occurs, OccursIn;
    if j < |c.handling| {
      OccursInWithout(c.handling, j, x);
      ReplyGains(env, c.(handling := c.handling[..j] + c.handling[j + 1..]), c.handling[j], x);
    }
  }

  lemma TxCompleteKeeps(env: Env, c: Conn, j: nat, x: Buffer)
    ensures Keeps(env, c, TxComplete(c, j), x)
  {
    hide Free, Occurs, OccursIn;
    if j < |c.sending| {
      OccursWithout(c.sending, j, x);
      FreeGains(env, c.(sending := c.sending[..j] + c.sending[j + 1..]), c.sending[j], x);
    }
  }

  // ---------------------------------------------------------------- the scanner

  /** An answer or a free on top of an acknowledge, and the slot empty: nothing changes hands. */
  lemma AnswerKeeps(env: Env, c: Conn, b: Buffer, h: Header, state: bv8, data: seq<bv8>, x: Buffer)
    requires c.current == Some(b)
    ensures var a := Acknowledge(env, c, h, state);
            && Keeps(env, c, TransmitOrFree(env, a, b, h, data).(current := None), x)
            && Keeps(env, c, Free(a, b).(current := None), x)
  {
    hide Acknowledge, TransmitOrFree, Free, Occurs, OccursIn;
    var a := Acknowledge(env, c, h, state);
    AcknowledgeKeeps(env, c, h, state, x);
    TransmitOrFreeGains(env, a, b, h, data, x);
    FreeGains(env, a, b, x);
  }

  lemma CheckKeepAliveKeeps(env: Env, c: Conn, h: Header, b: Buffer, x: Buffer)
    requires c.current == Some(b)
    ensures Keeps(env, c, CheckKeepAlive(env, c, h, b), x)
  {
    hide Acknowledge, TransmitOrFree, Free, NewKeepAliveId, Word32, Long32, Occurs, OccursIn;
    AnswerKeeps(env, c, b, h, LENGTH_INCOMPLETE, [], x);
    AnswerKeeps(env, c, b, h, KEEP_ALIVE_ERROR, [], x);
    AnswerKeeps(env, c, b, h, STATE_OK, Long32(c.keepAliveId), x);
    var id := NewKeepAliveId(c.keepAliveId, env.tick(c.ticks));
    var issued := c.(keepAliveId := id, ticks := c.ticks + 1);
    AnswerKeeps(env, issued, b, h, STATE_OK, Long32(id), x);
    assert Keeps(env, c, issued, x);
  }

  lemma EnqueueKeeps(env: Env, c: Conn, b: Buffer, h: Header, data: seq<bv8>, x: Buffer)
    requires c.current == Some(b)
    ensures var a := Acknowledge(env, c, h, STATE_OK);
            var queued := a.(current := None, pending := a.pending + [Request(b, h, data)], wakes := a.wakes + 1);
            Keeps(env, c, Main(env, queued, env.wake(a.wakes)), x)
  {
    hide Acknowledge, Main, Occurs, OccursIn;
    var a := Acknowledge(env, c, h, STATE_OK);
    var queued := a.(current := None, pending := a.pending + [Request(b, h, data)], wakes := a.wakes + 1);
    AcknowledgeKeeps(env, c, h, STATE_OK, x);
    OccursInAppend(a.pending, Request(b, h, data), x);
    assert Keeps(env, a, queued, x);
    MainKeeps(env, queued, env.wake(a.wakes), x);
  }

  lemma CheckTelegramKeeps(env: Env, c: Conn, x: Buffer)
    requires |c.raw| == HEADER_SIZE && c.current.Some?
    ensures Keeps(env, c, CheckTelegram(env, c), x)
  {
    hide Acknowledge, TransmitOrFree, Free, Main, CheckKeepAlive, Decode, Reset, Places, Filed, Occurs;
    var h, b := Decode(c.raw), c.current.value;
    AcknowledgeKeeps(env, c, h, CHECKSUM_ERROR, x);
    AnswerKeeps(env, c, b, h, STATE_OK, env.serverInfo, x);
    AnswerKeeps(env, c, b, h, DATA_TYPE_UNKNOWN, [], x);
    CheckKeepAliveKeeps(env, c, h, b, x);
    EnqueueKeeps(env, c, b, h, c.data, x);
    forall d ensures Keeps(env, d, Reset(d), x) {
      ResetKeeps(env, d, x);
    }
  }

  lemma PopKeeps(c: Conn, h: Header, x: Buffer)
    requires Pool(c, h) != []
    ensures Places(c, x) == Places(PopPool(c, h), x) + One(Pool(c, h)[0], x)
    ensures Filed(c, x) ==> Filed(PopPool(c, h), x)
    ensures PopPool(c, h).current == c.current && PopPool(c, h).raw == c.raw && PopPool(c, h).lost == c.lost
  {
    hide Occurs, OccursIn;
    OccursTail(Pool(c, h), x);
  }

  lemma HeaderDoneKeeps(env: Env, c: Conn, x: Buffer)
    requires |c.raw| == HEADER_SIZE && c.current.None?
    ensures Keeps(env, c, HeaderDone(env, c).0, x)
  {
    hide Acknowledge, Free, CheckTelegram, Decode, Reset, Pool, PopPool, Capacity, Occurs, OccursIn;
    var h := Decode(c.raw);
    ResetKeeps(env, c, x);
    assert c.(current := None) == c;
    if h.dataType != TYPE_ACKNOWLEDGE {
      if Pool(c, h) == [] {
        AcknowledgeKeeps(env, c, h, RESOURCE_ERROR, x);
        ResetKeeps(env, Acknowledge(env, c, h, RESOURCE_ERROR), x);
      } else {
        var b, popped := Pool(c, h)[0], PopPool(c, h);
        PopKeeps(c, h, x);
        if Capacity(env, h) < h.length {
          var a := Acknowledge(env, popped, h, BUFFEROVERFLOW_ERROR);
          AcknowledgeKeeps(env, popped, h, BUFFEROVERFLOW_ERROR, x);
          FreeGains(env, a, b, x);
          ResetKeeps(env, Free(a, b), x);
        } else {
          var waiting := popped.(current := Some(b), scan := DataWait, data := []);
          var checked := waiting.(scan := TelegramCheck);
          assert Keeps(env, c, waiting, x) && Keeps(env, c, checked, x);
          CheckTelegramKeeps(env, checked, x);
        }
      }
    }
  }

  lemma ByteKeeps(env: Env, c: Conn, b: bv8, x: Buffer)
    requires Inv(env, c)
    ensures Keeps(env, c, Byte(env, c, b).0, x)
  {
    hide HeaderDone, CheckTelegram, Decode, Occurs, OccursIn;
    var headed := c.(raw := c.raw + [b]);
    var fed := c.(data := c.data + [b]);
    assert Keeps(env, c, headed, x) && Keeps(env, c, fed, x);
    if c.scan.HeaderScan? && |headed.raw| == HEADER_SIZE {
      HeaderDoneKeeps(env, headed, x);
    } else if c.scan.DataWait? {
      var checked := fed.(scan := TelegramCheck);
      assert Keeps(env, c, checked, x);
      CheckTelegramKeeps(env, checked, x);
    }
  }

  lemma {:induction false} FeedKeeps(env: Env, c: Conn, seen: seq<bv8>, chunk: seq<bv8>, x: Buffer)
    requires Inv(env, c)
    ensures Keeps(env, c, Feed(env, c, seen, chunk), x)
    decreases |seen| + |chunk|, if c.scan.HeaderScan? then 1 else 0, |chunk|
  {
    hide Byte, Inv, Places, Filed, Occurs;
    if chunk != [] {
      var (c', refused) := Byte(env, c, chunk[0]);
      ByteKeepsInv(env, c, chunk[0]);
      ByteKeeps(env, c, chunk[0], x);
      if refused {
        FeedKeeps(env, c', [], seen + chunk, x);
      } else if c.scan.HeaderScan? && c'.scan.HeaderScan? {
        FeedKeeps(env, c', seen + [chunk[0]], chunk[1..], x);
      } else {
        FeedKeeps(env, c', [], chunk[1..], x);
      }
    }
  }

  // --------------------------------------------------------------------- runs

  datatype Step =
    | Receive(chunk: seq<bv8>)
    | Tick
    | RunMain(wake: Wake)
    | Complete(sent: nat)
    | Answer(held: nat)

  function Apply(env: Env, c: Conn, s: Step): Conn {
    match s
    case Receive(chunk) => RxData(env, c, chunk)
    case Tick => Timer(env, c)
    case RunMain(wake) => Main(env, c, wake)
    case Complete(j) => TxComplete(c, j)
    case Answer(j) => ReplyHeld(env, c, j)
  }

  function Run(env: Env, c: Conn, steps: seq<Step>): Conn
    decreases |steps|
  {
    if steps == [] then c else Run(env, Apply(env, c, steps[0]), steps[1..])
  }

  predicate SameScan(c: Conn, d: Conn) {
    c.scan == d.scan && c.raw == d.raw && c.data == d.data && c.current == d.current && c.monitor == d.monitor
    && c.elapsed == d.elapsed
  }

  lemma FreeSameScan(c: Conn, b: Buffer)
    ensures SameScan(c, Free(c, b))
  {}

  lemma ReplySameScan(env: Env, c: Conn, r: Request)
    ensures SameScan(c, Reply(env, c, r))
  {
    hide Stamp, Free;
    var data := env.answer(r.header, r.data);
    FreeSameScan(c.(sends := c.sends + 1, trace := c.trace + [Sent(Stamp(r.header, data), data)]), r.buffer);
  }

  /** What is neither a receive call nor a tick does not touch the scanner. */
  lemma ApplySameScan(env: Env, c: Conn, s: Step)
    requires !s.Receive? && !s.Tick?
    ensures SameScan(c, Apply(env, c, s))
  {
    hide Decode, Reply, Free;
    match s
    case RunMain(wake) =>
      if c.pending != [] {
        var r := c.pending[0];
        ReplySameScan(env, c.(pending := c.pending[1..], trace := c.trace + [Dispatched(r.header, r.data)]), r);
      }
    case Complete(j) =>
      if j < |c.sending| {
        FreeSameScan(c.(sending := c.sending[..j] + c.sending[j + 1..]), c.sending[j]);
      }
    case Answer(j) =>
      if j < |c.handling| {
        ReplySameScan(env, c.(handling := c.handling[..j] + c.handling[j + 1..]), c.handling[j]);
      }
  }

  lemma ApplyKeepsInv(env: Env, c: Conn, s: Step)
    requires Inv(env, c)
    ensures Inv(env, Apply(env, c, s))
  {
    hide Feed, Decode, Free;
    match s
    case Receive(chunk) => FeedKeepsInv(env, c.(elapsed := 0), [], chunk);
    case Tick =>
    case _ => ApplySameScan(env, c, s);
  }

  lemma ApplyKeeps(env: Env, c: Conn, s: Step, x: Buffer)
    requires Inv(env, c)
    ensures Keeps(env, c, Apply(env, c, s), x)
  {
    hide Feed, Reset, Occurs, OccursIn, Main, TxComplete, ReplyHeld;
    match s
    case Receive(chunk) =>
      var d := c.(elapsed := 0);
      assert Inv(env, d) && Keeps(env, c, d, x);
      FeedKeeps(env, d, [], chunk, x);
    case Tick =>
      var d := c.(elapsed := (c.elapsed + 10) % 0x1_0000_0000);
      assert Keeps(env, c, d, x);
      ResetKeeps(env, d, x);
    case RunMain(wake) => MainKeeps(env, c, wake, x);
    case Complete(j) => TxCompleteKeeps(env, c, j, x);
    case Answer(j) => ReplyHeldKeeps(env, c, j, x);
  }

  /** Over every run of receives, ticks, main calls, completions and late answers a buffer is in
      as many places as before and in the pool of its kind when free. */
  lemma {:induction false} RunKeeps(env: Env, c: Conn, steps: seq<Step>, x: Buffer)
    requires Inv(env, c)
    ensures Inv(env, Run(env, c, steps)) && Keeps(env, c, Run(env, c, steps), x)
    decreases |steps|
  {
    hide Apply, Inv, Places, Filed, Occurs;
    if steps != [] {
      ApplyKeepsInv(env, c, steps[0]);
      ApplyKeeps(env, c, steps[0], x);
      RunKeeps(env, Apply(env, c, steps[0]), steps[1..], x);
    }
  }

  // --------------------------------------------------------------- allocation

  function Numbered(kind: Kind, n: nat): seq<Buffer> {
    seq(n, i requires 0 <= i < n => Buffer(kind, i))
  }

  /** A connector after AllocateBuffers and ResetRxStateMachine: rxCnt receive buffers, txCnt
      transmit buffers, two more acknowledge buffers than both together, one for keep-alive. */
  function Registered(rxCnt: nat, txCnt: nat): Conn {
    Conn(CookieScan, [], [], None, false, 0, 0,
         Numbered(RxKind, rxCnt), Numbered(TxKind, txCnt), Numbered(AckKind, rxCnt + txCnt + 2),
         Numbered(KeepAliveKind, 1), [], [], [], [], [], 0, 0, 0)
  }

  function PoolSize(kind: Kind, rxCnt: nat, txCnt: nat): nat {
    match kind
    case RxKind => rxCnt
    case TxKind => txCnt
    case AckKind => rxCnt + txCnt + 2
    case KeepAliveKind => 1
  }

  lemma {:induction false} NumberedOnce(kind: Kind, n: nat, x: Buffer)
    ensures Occurs(Numbered(kind, n), x) == if x.kind == kind && x.id < n then 1 else 0
  {
    if n == 0 {
      assert Numbered(kind, n) == [];
    } else {
      assert Numbered(kind, n) == Numbered(kind, n - 1) + [Buffer(kind, n - 1)];
      OccursAppend(Numbered(kind, n - 1), Buffer(kind, n - 1), x);
      NumberedOnce(kind, n - 1, x);
    }
  }

  /** From registration on, after any run, each allocated buffer is in exactly one place, once, and
      there is no other buffer; with a connector that never refuses, that place is a free pool, the
      receive slot, the pending queue, a handler or the connector. */
  lemma Conservation(env: Env, rxCnt: nat, txCnt: nat, steps: seq<Step>, x: Buffer)
    ensures var c := Run(env, Registered(rxCnt, txCnt), steps);
            && Places(c, x) == (if x.id < PoolSize(x.kind, rxCnt, txCnt) then 1 else 0)
            && Filed(c, x)
            && (NeverRefuses(env) ==> c.lost == [])
  {
    hide Run, Occurs, Numbered;
    var c := Registered(rxCnt, txCnt);
    NumberedOnce(RxKind, rxCnt, x);
    NumberedOnce(TxKind, txCnt, x);
    NumberedOnce(AckKind, rxCnt + txCnt + 2, x);
    NumberedOnce(KeepAliveKind, 1, x);
    NothingOccurs(x);
    RunKeeps(env, c, steps, x);
  }

  lemma NothingOccurs(x: Buffer)
    ensures Occurs([], x) == 0 && OccursIn([], x) == 0
  {
    var none: seq<Request> := [];
    assert seq(|none|, i requires 0 <= i < |none| => none[i].buffer) == [];
  }

  // ------------------------------------------------------- the timeout over runs

  function TickCount(steps: seq<Step>): nat {
    if steps == [] then 0 else (if steps[0].Tick? then 1 else 0) + TickCount(steps[1..])
  }

  lemma TimerSameScan(env: Env, c: Conn, d: Conn)
    requires SameScan(c, d)
    ensures SameScan(Timer(env, c), Timer(env, d))
  {
    hide Free;
    if c.current.Some? {
      FreeSameScan(c, c.current.value);
      FreeSameScan(d, d.current.value);
    }
  }

  lemma {:induction false} TicksSameScan(env: Env, c: Conn, d: Conn, n: nat)
    requires SameScan(c, d)
    ensures SameScan(Ticks(env, c, n), Ticks(env, d, n))
  {
    hide Timer, SameScan;
    if n > 0 {
      TicksSameScan(env, c, d, n - 1);
      TimerSameScan(env, Ticks(env, c, n - 1), Ticks(env, d, n - 1));
    }
  }

  lemma {:induction false} FirstTick(env: Env, c: Conn, n: nat)
    ensures Ticks(env, Timer(env, c), n) == Ticks(env, c, n + 1)
  {
    hide Timer;
    if n > 0 {
      FirstTick(env, c, n - 1);
    } else {
      assert Ticks(env, c, 1) == Timer(env, Ticks(env, c, 0));
    }
  }

  /** Between two receive calls the scanner sees only the ticks. */
  lemma {:induction false} QuietRun(env: Env, c: Conn, steps: seq<Step>)
    requires forall i :: 0 <= i < |steps| ==> !steps[i].Receive?
    ensures SameScan(Ticks(env, c, TickCount(steps)), Run(env, c, steps))
    decreases |steps|
  {
    hide Apply, Timer;
    if steps != [] {
      var d := Apply(env, c, steps[0]);
      QuietRun(env, d, steps[1..]);
      if steps[0].Tick? {
        assert d == Timer(env, c) by { TickStep(env, c); }
        FirstTick(env, c, TickCount(steps[1..]));
      } else {
        ApplySameScan(env, c, steps[0]);
        TicksSameScan(env, c, d, TickCount(steps[1..]));
      }
    }
  }

  lemma TickStep(env: Env, c: Conn)
    ensures Apply(env, c, Tick) == Timer(env, c)
  {}

  lemma {:induction false} RunJoined(env: Env, c: Conn, a: seq<Step>, b: seq<Step>)
    ensures Run(env, c, a + b) == Run(env, Run(env, c, a), b)
    decreases |a|
  {
    hide Apply;
    if a == [] {
      assert a + b == b;
    } else {
      assert (a + b)[1..] == a[1..] + b;
      RunJoined(env, Apply(env, c, a[0]), a[1..], b);
    }
  }

  /** The timeout in every run: after a receive call that leaves the scanner inside a frame, and whatever
      else happens before the next call, the scanner stays where it is until the tick ResetTick names,
      counted from that call, and searches from that tick on. */
  lemma TimeoutOverRuns(env: Env, rxCnt: nat, txCnt: nat, before: seq<Step>, chunk: seq<bv8>, quiet: seq<Step>)
    requires env.timeout < 0x1_0000_0000 && forall i :: 0 <= i < |quiet| ==> !quiet[i].Receive?
    ensures var d := Run(env, Registered(rxCnt, txCnt), before + [Receive(chunk)]);
            var e := Run(env, Registered(rxCnt, txCnt), before + [Receive(chunk)] + quiet);
            var reset := ResetTick(env.timeout);
            d.scan.CookieScan? ||
            if reset.None? || TickCount(quiet) < reset.value then SameScan(d.(elapsed := Elapsed(TickCount(quiet))), e)
            else e.scan.CookieScan? && e.raw == [] && e.current.None? && !e.monitor
  {
    hide Run, Registered, Elapsed, ResetTick, TickCount, Ticks, Inv, RxData, Reset;
    var start := Registered(rxCnt, txCnt);
    StartInv(env, rxCnt, txCnt);
    var c := Run(env, start, before);
    RunInv(env, start, before);
    RunJoined(env, start, before, [Receive(chunk)]);
    RunJoined(env, start, before + [Receive(chunk)], quiet);
    RunReceive(env, c, chunk);
    QuietRun(env, RxData(env, c, chunk), quiet);
    TimeoutSinceReceive(env, c, chunk, TickCount(quiet));
    ResetClears(RxData(env, c, chunk));
  }

  lemma StartInv(env: Env, rxCnt: nat, txCnt: nat)
    ensures Inv(env, Registered(rxCnt, txCnt))
  {}

  lemma {:induction false} RunInv(env: Env, c: Conn, steps: seq<Step>)
    requires Inv(env, c)
    ensures Inv(env, Run(env, c, steps))
    decreases |steps|
  {
    hide Apply, Inv;
    if steps != [] {
      ApplyKeepsInv(env, c, steps[0]);
      RunInv(env, Apply(env, c, steps[0]), steps[1..]);
    }
  }

  lemma RunReceive(env: Env, c: Conn, chunk: seq<bv8>)
    ensures Run(env, c, [Receive(chunk)]) == RxData(env, c, chunk)
  {
    hide RxData;
    assert [Receive(chunk)][1..] == [];
    assert Run(env, Apply(env, c, Receive(chunk)), []) == Apply(env, c, Receive(chunk));
  }

  lemma ResetClears(c: Conn)
    ensures var d := Reset(c); d.scan.CookieScan? && d.raw == [] && d.current.None? && !d.monitor
  {
    hide Free;
  }
}
