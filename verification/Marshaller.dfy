/** The state of one connector of the netXtransport marshaller and what each of its operations
    does to it (examples/tcpserver/Marshaller/HilMarshaller.c).

    Everything outside the marshaller is a parameter: what the connector does with a buffer it is
    asked to transmit, whether the request callback runs the main function at once, what a
    transport handler answers, and the tick counter. */
module Marshaller {
  import opened Options
  import opened Frame
  import Crc16

  datatype Kind = RxKind | TxKind | AckKind | KeepAliveKind

  /** A buffer of one of the four pools, known by its number. */
  datatype Buffer = Buffer(kind: Kind, id: nat)

  datatype Request = Request(buffer: Buffer, header: Header, data: seq<bv8>)

  datatype Scan = CookieScan | HeaderScan | DataWait | TelegramCheck

  /** What the outside sees: a packet given to the connector, a request given to its handler. */
  datatype Event = Sent(header: Header, data: seq<bv8>) | Dispatched(header: Header, data: seq<bv8>)

  /** The connector sends at once, keeps the buffer and completes later, or refuses it. */
  datatype Outcome = Now | Later | Refuses

  /** The request callback does nothing yet, or runs the main function with a handler that
      answers at once or keeps the buffer. */
  datatype Wake = Ignored | Answered | Held

  datatype Env = Env(
    rxSize: nat,
    timeout: nat,
    transports: seq<bv16>,
    serverInfo: seq<bv8>,
    answer: (Header, seq<bv8>) -> seq<bv8>,
    transmit: nat -> Outcome,
    wake: nat -> Wake,
    tick: nat -> bv32)

  datatype Conn = Conn(
    scan: Scan,
    raw: seq<bv8>,            // cookie window, then header bytes
    data: seq<bv8>,           // payload bytes in the current buffer
    current: Option<Buffer>,
    monitor: bool,
    elapsed: nat,
    keepAliveId: bv32,
    rx: seq<Buffer>,
    tx: seq<Buffer>,
    ack: seq<Buffer>,
    keepAlive: seq<Buffer>,
    pending: seq<Request>,
    handling: seq<Request>,   // with a transport handler
    sending: seq<Buffer>,     // with the connector
    lost: seq<Buffer>,        // refused by the connector when a handler answered
    trace: seq<Event>,
    sends: nat,               // calls of the connector, of the request callback and of the tick counter
    wakes: nat,
    ticks: nat)

  // -------------------------------------------------------------- buffers

  /** HilMarshallerFreeBuffer */
  function Free(c: Conn, b: Buffer): Conn {
    match b.kind
    case RxKind => c.(rx := c.rx + [b])
    case TxKind => c.(tx := c.tx + [b])
    case AckKind => c.(ack := c.ack + [b])
    case KeepAliveKind => c.(keepAlive := c.keepAlive + [b])
  }

  /** HilMarshallerConnTxData with the connector's answer: the buffer is back in its pool, with
      the connector, or still with the caller. */
  function Transmit(env: Env, c: Conn, b: Buffer, h: Header, data: seq<bv8>): (Conn, bool) {
    var called := c.(sends := c.sends + 1);
    var sent := called.(trace := c.trace + [Sent(Stamp(h, data), data)]);
    match env.transmit(c.sends)
    case Now => (Free(sent, b), true)
    case Later => (sent.(sending := c.sending + [b]), true)
    case Refuses => (called, false)
  }

  /** Transmit, and free the buffer if the connector refuses it. */
  function TransmitOrFree(env: Env, c: Conn, b: Buffer, h: Header, data: seq<bv8>): Conn {
    var (c', ok) := Transmit(env, c, b, h, data);
    if ok then c' else Free(c', b)
  }

  /** SendAcknowledge: dropped when no acknowledge buffer is free. */
  function Acknowledge(env: Env, c: Conn, h: Header, state: bv8): Conn {
    if c.ack == [] then c
    else TransmitOrFree(env, c.(ack := c.ack[1..]), c.ack[0], h.(state := state, dataType := TYPE_ACKNOWLEDGE), [])
  }

  /** ResetRxStateMachine */
  function Reset(c: Conn): Conn {
    var freed := match c.current case Some(b) => Free(c, b) case None => c;
    freed.(scan := CookieScan, raw := [], data := [], current := None, monitor := false, elapsed := 0)
  }

  // ------------------------------------------------------- main and handlers

  /** HilMarshallerMain: the first pending request goes to its handler. */
  function Main(env: Env, c: Conn, wake: Wake): Conn {
    if wake.Ignored? || c.pending == [] || c.pending[0].header.dataType !in env.transports then c
    else
      var r := c.pending[0];
      var d := c.(pending := c.pending[1..], trace := c.trace + [Dispatched(r.header, r.data)]);
      if wake.Held? then d.(handling := d.handling + [r]) else Reply(env, d, r)
  }

  /** A handler answers in the buffer of its request. It ignores a refusal by the connector. */
  function Reply(env: Env, c: Conn, r: Request): Conn {
    var (c', ok) := Transmit(env, c, r.buffer, r.header, env.answer(r.header, r.data));
    if ok then c' else c'.(lost := c'.lost + [r.buffer])
  }

  /** The j-th request held by a handler is answered. */
  function ReplyHeld(env: Env, c: Conn, j: nat): Conn {
    if j < |c.handling|
    then Reply(env, c.(handling := c.handling[..j] + c.handling[j + 1..]), c.handling[j])
    else c
  }

  /** HilMarshallerConnTxComplete for the j-th buffer the connector holds. */
  function TxComplete(c: Conn, j: nat): Conn {
    if j < |c.sending|
    then Free(c.(sending := c.sending[..j] + c.sending[j + 1..]), c.sending[j])
    else c
  }

  // ---------------------------------------------------------------- the scanner

  predicate IsKeepAlive(h: Header) { h.dataType == TYPE_KEEP_ALIVE }

  function Capacity(env: Env, h: Header): nat {
    if IsKeepAlive(h) then 4 else env.rxSize
  }

  function Pool(c: Conn, h: Header): seq<Buffer> {
    if IsKeepAlive(h) then c.keepAlive else c.rx
  }

  function PopPool(c: Conn, h: Header): Conn
    requires Pool(c, h) != []
  {
    if IsKeepAlive(h) then c.(keepAlive := c.keepAlive[1..]) else c.(rx := c.rx[1..])
  }

  /** The header is complete. The flag says that it was refused: the code then has not consumed
      the bytes it took in this call. */
  function HeaderDone(env: Env, c: Conn): (Conn, bool)
    requires |c.raw| == HEADER_SIZE
  {
    var h := Decode(c.raw);
    if h.dataType == TYPE_ACKNOWLEDGE then
      (Reset(c.(current := None)), false)
    else if Pool(c, h) == [] then
      (Reset(Acknowledge(env, c, h, RESOURCE_ERROR)), true)
    else
      var b := Pool(c, h)[0];
      var popped := PopPool(c, h);
      if Capacity(env, h) < h.length then
        (Reset(Free(Acknowledge(env, popped, h, BUFFEROVERFLOW_ERROR), b)), true)
      else
        var waiting := popped.(current := Some(b), scan := DataWait, data := []);
        (if h.length == 0 then CheckTelegram(env, waiting.(scan := TelegramCheck)) else waiting, false)
  }

  /** HIL_CHECK_TELEGRAM: acknowledge, answer or enqueue, and start over. */
  function CheckTelegram(env: Env, c: Conn): Conn
    requires |c.raw| == HEADER_SIZE && c.current.Some?
  {
    Reset(Disposed(env, c, Decode(c.raw), c.current.value))
  }

  function Disposed(env: Env, c: Conn, h: Header, b: Buffer): Conn {
    if h.length > 0 && h.checksum != 0 && h.checksum != Crc16.Checksum(c.data) then
      Acknowledge(env, c, h, CHECKSUM_ERROR)
    else if h.dataType == TYPE_ACKNOWLEDGE then
      c
    else if h.dataType == TYPE_QUERYSERVER then
      TransmitOrFree(env, Acknowledge(env, c, h, STATE_OK), b, h, env.serverInfo).(current := None)
    else if IsKeepAlive(h) then
      CheckKeepAlive(env, c, h, b)
    else if h.dataType !in env.transports then
      Free(Acknowledge(env, c, h, DATA_TYPE_UNKNOWN), b).(current := None)
    else
      var acked := Acknowledge(env, c, h, STATE_OK);
      var queued := acked.(current := None, pending := acked.pending + [Request(b, h, c.data)], wakes := acked.wakes + 1);
      Main(env, queued, env.wake(acked.wakes))
  }

  /** A keep-alive packet: a new identifier, the last one echoed, or a negative acknowledge. */
  function CheckKeepAlive(env: Env, c: Conn, h: Header, b: Buffer): Conn {
    if h.length != 4 || |c.data| != 4 then
      Free(Acknowledge(env, c, h, LENGTH_INCOMPLETE), b).(current := None)
    else if Word32(c.data) == 0 then
      var id := NewKeepAliveId(c.keepAliveId, env.tick(c.ticks));
      var issued := c.(keepAliveId := id, ticks := c.ticks + 1);
      TransmitOrFree(env, Acknowledge(env, issued, h, STATE_OK), b, h, Long32(id)).(current := None)
    else if Word32(c.data) != c.keepAliveId then
      Free(Acknowledge(env, c, h, KEEP_ALIVE_ERROR), b).(current := None)
    else
      TransmitOrFree(env, Acknowledge(env, c, h, STATE_OK), b, h, Long32(c.keepAliveId)).(current := None)
  }

  function NewKeepAliveId(last: bv32, tick: bv32): bv32 {
    var last' := if tick == 0 then last + 1 else last;
    if tick == last' then !tick else tick
  }

  /** One received byte. The flag says that it completed a header that was refused. */
  function Byte(env: Env, c: Conn, b: bv8): (Conn, bool) {
    match c.scan
    case CookieScan =>
      var window := c.raw + [b];
      if |window| < 4 then (c.(raw := window), false)
      else if window == COOKIE then (c.(raw := window, scan := HeaderScan, monitor := true), false)
      else (c.(raw := window[1..]), false)
    case HeaderScan =>
      var c' := c.(raw := c.raw + [b]);
      if |c'.raw| == HEADER_SIZE then HeaderDone(env, c') else (c', false)
    case DataWait =>
      var c' := c.(data := c.data + [b]);
      if |c.raw| == HEADER_SIZE && c.current.Some? && |c'.data| >= Decode(c.raw).length
      then (CheckTelegram(env, c'.(scan := TelegramCheck)), false) else (c', false)
    case TelegramCheck => (c, false)
  }

  /** The scan of one chunk. seen holds the bytes of the current header that came in this chunk:
      a refused header is scanned again from there. */
  function Feed(env: Env, c: Conn, seen: seq<bv8>, chunk: seq<bv8>): Conn
    decreases |seen| + |chunk|, if c.scan.HeaderScan? then 1 else 0, |chunk|
  {
    if chunk == [] then c
    else
      var (c', refused) := Byte(env, c, chunk[0]);
      if refused then Feed(env, c', [], seen + chunk)
      else if c.scan.HeaderScan? && c'.scan.HeaderScan? then Feed(env, c', seen + [chunk[0]], chunk[1..])
      else Feed(env, c', [], chunk[1..])
  }

  /** HilMarshallerConnRxData on a registered, enabled connector. */
  function RxData(env: Env, c: Conn, chunk: seq<bv8>): Conn {
    Feed(env, c.(elapsed := 0), [], chunk)
  }

  /** HilMarshallerTimer */
  function Timer(env: Env, c: Conn): Conn {
    if !c.monitor then c
    else
      var elapsed := (c.elapsed + 10) % 0x1_0000_0000;
      if env.timeout < elapsed then Reset(c.(elapsed := elapsed)) else c.(elapsed := elapsed)
  }
}
