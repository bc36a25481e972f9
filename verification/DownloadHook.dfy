/** The download hook of the TCP server (examples/tcpserver/cifx_download_hook.c): it watches the packets
    between a host and its device, puts downloaded files together and hands each to a storage callback.
    Firmware for a device without a file system never reaches the device; the hook confirms it itself. */
module DownloadHook {
  import opened Options

  // ---------------------------------------------------------------- packets

  const SEQ_NONE: nat := 0x00
  const SEQ_LAST: nat := 0x40
  const SEQ_FIRST: nat := 0x80
  const SEQ_MIDDLE: nat := 0xC0

  const PACKET_OUT_OF_SEQ: nat := 0xC000_000F

  /** tag stands for the addressing fields of the header, which a confirmation copies. */
  datatype Packet = Packet(tag: nat, body: Body)

  datatype Body =
    | DownloadReq(maxBlock: nat, fileLength: nat, channel: nat, name: string)
    | DataReq(ext: nat, blockNo: nat, checksum: nat, data: seq<bv8>)
    | AbortReq
    | DownloadCnf(status: nat, maxBlock: nat)
    | DataCnf(status: nat, crc: nat)
    | AbortCnf(status: nat)
    | OtherBody(command: nat)

  predicate IsDownload(p: Packet) {
    p.body.DownloadReq? || p.body.DataReq? || p.body.AbortReq?
  }

  datatype Kind = Firmware | Configuration | Modules | PlainFile

  function UpperCase(s: string): string {
    if s == [] then []
    else [if 'a' <= s[0] <= 'z' then s[0] - 'a' + 'A' else s[0]] + UpperCase(s[1..])
  }

  /** GetDownloadModeFromFileName. */
  function KindOf(name: string): Kind {
    if |name| < 5 then PlainFile
    else
      var extension := UpperCase(name[|name| - 4..]);
      if extension == ".NXF" then Firmware
      else if extension == ".NXM" then Modules
      else if extension == ".NXD" || extension == ".XML" then Configuration
      else PlainFile
  }

  // ------------------------------------------------------------ transactions

  datatype Phase = Request | DataTransfer | Finished | Failed

  datatype Txn = Txn(
    handle: nat,
    board: nat,
    phase: Phase,
    channel: nat,
    maxBlock: nat,
    error: nat,
    capture: bool,
    filename: string,
    kind: Kind,
    size: nat,
    buf: seq<bv8>,
    pos: nat,
    conf: Option<Packet>)

  /** What the storage callback is called with. */
  datatype File = File(handle: nat, board: nat, filename: string, size: nat, bytes: seq<bv8>, channel: nat, kind: Kind)

  datatype Delivery = Delivery(handle: nat, packet: Packet)

  /** The list of transactions, newest first; every call of the callback; every packet passed on to
      the device and to the host. */
  datatype Hook = Hook(txns: seq<Txn>, stored: seq<File>, toDevice: seq<Delivery>, toHost: seq<Delivery>)

  /** What the queries sent ahead of a new transaction yield: whether the device keeps files itself
      (no value: the query failed), the board, and memory for the file. */
  datatype Probe = Probe(fileSystem: Option<bool>, board: Option<nat>, memory: Option<nat -> bv8>)

  /** GetTxnRsrc: the newest transaction of a handle. */
  function Lookup(txns: seq<Txn>, h: nat): Option<Txn> {
    if txns == [] then None
    else if txns[0].handle == h then Some(txns[0])
    else Lookup(txns[1..], h)
  }

  /** The list with the newest transaction of a handle changed. */
  function Replace(txns: seq<Txn>, h: nat, t: Txn): seq<Txn> {
    if txns == [] then []
    else if txns[0].handle == h then [t] + txns[1..]
    else [txns[0]] + Replace(txns[1..], h, t)
  }

  /** RemoveTxnRsrc. */
  function Remove(txns: seq<Txn>, h: nat): seq<Txn> {
    if txns == [] then []
    else if txns[0].handle == h then txns[1..]
    else [txns[0]] + Remove(txns[1..], h)
  }

  // -------------------------------------------------------------------- puts

  /** A request opens a transaction if the file is one to keep and every query succeeds. */
  predicate Opens(p: Packet, probe: Probe) {
    Wanted(p, probe) && probe.memory.Some?
  }

  predicate Wanted(p: Packet, probe: Probe) {
    p.body.DownloadReq? && KindOf(p.body.name) != PlainFile && probe.fileSystem.Some? && probe.board.Some?
  }

  /** The file name field has sixteen characters. */
  function Shortened(name: string): string { if |name| <= 16 then name else name[..16] }

  /** CreateTxnRsrc. */
  function NewTxn(h: nat, p: Packet, probe: Probe): Txn
    requires Opens(p, probe)
  {
    Txn(h, probe.board.value, Request, p.body.channel, p.body.maxBlock, 0, !probe.fileSystem.value,
        Shortened(p.body.name), KindOf(p.body.name), p.body.fileLength,
        seq(p.body.fileLength, probe.memory.value), 0, None)
  }

  /** The copy into the file buffer. The source does not check that the block fits; a block that does
      not is outside Orderly. */
  function Copied(t: Txn, data: seq<bv8>): Txn {
    if t.pos + |data| <= |t.buf| then t.(buf := t.buf[..t.pos] + data + t.buf[t.pos + |data|..])
    else t
  }

  /** A request during the data transfer. */
  function Received(t: Txn, p: Packet): Txn {
    match p.body
    case DataReq(ext, _, _, data) =>
      if ext == SEQ_FIRST || ext == SEQ_MIDDLE then
        Copied(t, if t.maxBlock <= |data| then data[..t.maxBlock] else data).(pos := t.pos + t.maxBlock)
      else if ext == SEQ_LAST || ext == SEQ_NONE then
        Copied(t, data).(phase := Finished)
      else t
    case AbortReq => t.(phase := Failed)
    case _ => t.(phase := Failed, error := PACKET_OUT_OF_SEQ)
  }

  /** CreateTxnCnf. */
  function Confirmation(t: Txn, p: Packet): Packet {
    Packet(p.tag,
           match p.body
           case DownloadReq(maxBlock, _, _, _) => DownloadCnf(t.error, maxBlock)
           case DataReq(_, _, checksum, _) => DataCnf(t.error, checksum)
           case _ => AbortCnf(t.error))
  }

  predicate Intercepted(t: Txn) { t.capture && t.kind == Firmware }

  /** The end of a put: confirmed by the hook, or passed on to the device. */
  function Forward(s: Hook, h: nat, p: Packet, t: Option<Txn>): Hook {
    if t.Some? && Intercepted(t.value)
    then s.(txns := Replace(s.txns, h, t.value.(conf := Some(Confirmation(t.value, p)))))
    else s.(toDevice := s.toDevice + [Delivery(h, p)])
  }

  /** Outside a data transfer only a download request has an effect; one whose memory cannot be had
      leaves no transaction in hand. */
  function Begin(s: Hook, h: nat, p: Packet, probe: Probe): Hook {
    if Opens(p, probe) then
      var t := NewTxn(h, p, probe);
      Forward(s.(txns := [t] + s.txns), h, p, Some(t))
    else Forward(s, h, p, if Wanted(p, probe) then None else Lookup(s.txns, h))
  }

  /** xDownloadHook_PutPacket. */
  function Put(s: Hook, h: nat, p: Packet, probe: Probe): Hook {
    if !IsDownload(p) then s.(toDevice := s.toDevice + [Delivery(h, p)])
    else
      match Lookup(s.txns, h)
      case None => Begin(s, h, p, probe)
      case Some(t) =>
        match t.phase
        case Request => Begin(s, h, p, probe)
        case DataTransfer =>
          var t' := Received(t, p);
          Forward(s.(txns := Replace(s.txns, h, t')), h, p, Some(t'))
        case _ => Begin(s.(txns := Remove(s.txns, h)), h, p, probe)
  }

  // -------------------------------------------------------------------- gets

  function FileOf(t: Txn): File { File(t.handle, t.board, t.filename, t.size, t.buf, t.channel, t.kind) }

  predicate HoldsConfirmation(t: Option<Txn>) { t.Some? && t.value.capture && t.value.conf.Some? }

  /** The packet a get returns: the hook's own confirmation, or what the device has. */
  function Fetched(t: Option<Txn>, fromDevice: Packet): Packet {
    if HoldsConfirmation(t) then t.value.conf.value else fromDevice
  }

  /** A transaction after its packet was fetched. */
  function Confirmed(t: Txn, got: Packet): Txn {
    var t := if t.capture then t.(conf := None) else t;
    if t.phase == Request && got.body.DownloadCnf? && got.body.status == 0 then
      t.(phase := DataTransfer, maxBlock := if got.body.maxBlock < t.maxBlock then got.body.maxBlock else t.maxBlock)
    else t
  }

  /** xDownloadHook_GetPacket; fromDevice is what the driver leaves in the receive buffer. */
  function Get(s: Hook, h: nat, fromDevice: Packet): Hook {
    var current := Lookup(s.txns, h);
    var got := Fetched(current, fromDevice);
    var s := s.(toHost := s.toHost + [Delivery(h, got)]);
    match current
    case None => s
    case Some(t) =>
      match t.phase
      case Finished => s.(stored := s.stored + [FileOf(t)], txns := Remove(s.txns, h))
      case Failed => s.(txns := Remove(s.txns, h))
      case _ => s.(txns := Replace(s.txns, h, Confirmed(t, got)))
  }

  /** A data block that fits the announced file. */
  ghost predicate Fits(t: Txn, p: Packet) {
    p.body.DataReq? ==>
      if p.body.ext == SEQ_FIRST || p.body.ext == SEQ_MIDDLE
      then t.maxBlock <= |p.body.data| && t.pos + t.maxBlock <= |t.buf|
      else p.body.ext == SEQ_LAST || p.body.ext == SEQ_NONE ==> t.pos + |p.body.data| <= |t.buf|
  }

  /** What the source demands of the host without checking it: data blocks fit, and a transaction that
      has ended is fetched, or followed by a request that opens a new one. */
  ghost predicate Orderly(s: Hook, h: nat, p: Packet, probe: Probe) {
    var current := Lookup(s.txns, h);
    current.Some? && IsDownload(p) ==>
      && (current.value.phase == Finished || current.value.phase == Failed ==> Opens(p, probe))
      && (current.value.phase == DataTransfer ==> Fits(current.value, p))
  }

  // -------------------------------------------------------------------- runs

  datatype Op = PutOp(packet: Packet, probe: Probe) | GetOp(fromDevice: Packet)

  datatype Call = Call(handle: nat, op: Op)

  function Apply(s: Hook, c: Call): Hook {
    match c.op
    case PutOp(p, probe) => Put(s, c.handle, p, probe)
    case GetOp(fromDevice) => Get(s, c.handle, fromDevice)
  }

  function Run(s: Hook, calls: seq<Call>): Hook
    decreases |calls|
  {
    if calls == [] then s else Run(Apply(s, calls[0]), calls[1..])
  }

  /** A run in which the host keeps to what the source demands of it. */
  ghost predicate OrderlyRun(s: Hook, calls: seq<Call>)
    decreases |calls|
  {
    calls != [] ==>
      && (calls[0].op.PutOp? ==> Orderly(s, calls[0].handle, calls[0].op.packet, calls[0].op.probe))
      && OrderlyRun(Apply(s, calls[0]), calls[1..])
  }
}
