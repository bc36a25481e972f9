/** Which files the hook keeps and which way their packets go, by the name alone and with every packet
    written out. */
module DownloadNames {
  import opened Options
  import opened DownloadHook
  import opened DownloadLaws

  // -------------------------------------------------------------------- kinds

  /** Each character is the one of either spelling. */
  predicate Spells(s: string, lower: string, upper: string) {
    |s| == |lower| == |upper| && forall i :: 0 <= i < |s| ==> s[i] == lower[i] || s[i] == upper[i]
  }

  /** A name of at least one character and the four of an extension, in any mixture of cases. */
  predicate EndsIn(name: string, lower: string, upper: string) {
    |name| >= 5 && Spells(name[|name| - 4..], lower, upper)
  }

  predicate IsFirmware(name: string) { EndsIn(name, ".nxf", ".NXF") }

  predicate IsModule(name: string) { EndsIn(name, ".nxm", ".NXM") }

  predicate IsConfiguration(name: string) { EndsIn(name, ".nxd", ".NXD") || EndsIn(name, ".xml", ".XML") }

  lemma {:induction false} UpperCaseAt(s: string, i: nat)
    requires i < |s|
    ensures |UpperCase(s)| == |s|
    ensures UpperCase(s)[i] == if 'a' <= s[i] <= 'z' then s[i] - 'a' + 'A' else s[i]
    decreases |s|
  {
    if |s| > 1 {
      UpperCaseAt(s[1..], if i > 0 then i - 1 else 0);
    }
  }

  lemma Turned(s: string)
    requires |s| == 4
    ensures |UpperCase(s)| == 4
    ensures forall i :: 0 <= i < 4 ==> UpperCase(s)[i] == if 'a' <= s[i] <= 'z' then s[i] - 'a' + 'A' else s[i]
  {
    forall i | 0 <= i < 4
      ensures |UpperCase(s)| == 4 && UpperCase(s)[i] == if 'a' <= s[i] <= 'z' then s[i] - 'a' + 'A' else s[i]
    {
      UpperCaseAt(s, i);
    }
    UpperCaseAt(s, 0);
  }

  lemma FourLetters(s: string, t: string)
    requires |s| == |t| == 4
    ensures s == t <==> s[0] == t[0] && s[1] == t[1] && s[2] == t[2] && s[3] == t[3]
  {}

  lemma SpellsFirmware(s: string)
    requires |s| == 4
    ensures UpperCase(s) == ".NXF" <==> Spells(s, ".nxf", ".NXF")
  {
    Turned(s);
    FourLetters(UpperCase(s), ".NXF");
    hide UpperCase;
  }

  lemma SpellsModule(s: string)
    requires |s| == 4
    ensures UpperCase(s) == ".NXM" <==> Spells(s, ".nxm", ".NXM")
  {
    Turned(s);
    FourLetters(UpperCase(s), ".NXM");
    hide UpperCase;
  }

  lemma SpellsDatabase(s: string)
    requires |s| == 4
    ensures UpperCase(s) == ".NXD" <==> Spells(s, ".nxd", ".NXD")
  {
    Turned(s);
    FourLetters(UpperCase(s), ".NXD");
    hide UpperCase;
  }

  lemma SpellsXml(s: string)
    requires |s| == 4
    ensures UpperCase(s) == ".XML" <==> Spells(s, ".xml", ".XML")
  {
    Turned(s);
    FourLetters(UpperCase(s), ".XML");
    hide UpperCase;
  }

  /** The kind of every name: .nxf, .nxm, .nxd and .xml in every spelling behind at least one character,
      and nothing else, is kept. */
  lemma KindExactly(name: string)
    ensures KindOf(name) == Firmware <==> IsFirmware(name)
    ensures KindOf(name) == Modules <==> IsModule(name)
    ensures KindOf(name) == Configuration <==> IsConfiguration(name)
    ensures KindOf(name) == PlainFile <==> !IsFirmware(name) && !IsModule(name) && !IsConfiguration(name)
  {
    if |name| >= 5 {
      var ending := name[|name| - 4..];
      SpellsFirmware(ending);
      SpellsModule(ending);
      SpellsDatabase(ending);
      SpellsXml(ending);
      Distinct();
      hide UpperCase, Spells;
    }
  }

  lemma Distinct()
    ensures ".NXF" != ".NXM" && ".NXF" != ".NXD" && ".NXF" != ".XML" && ".NXM" != ".NXD" && ".NXM" != ".XML"
  {
    assert ".NXF"[3] == 'F' && ".NXM"[3] == 'M' && ".NXD"[3] == 'D' && ".XML"[3] == 'L';
  }

  // ---------------------------------------------------------------- downloads

  /** The device answers every query: it has a file system or not, its board, and memory for the file. */
  predicate Answers(probe: Probe, keepsFiles: bool, board: nat) {
    probe.fileSystem == Some(keepsFiles) && probe.board == Some(board) && probe.memory.Some?
  }

  predicate Requests(request: Packet, file: seq<bv8>) {
    request.body.DownloadReq? && request.body.maxBlock > 0 && request.body.fileLength == |file|
  }

  /** The hook's own confirmations of data blocks: each with the tag of its block and the checksum it
      came with. */
  function Echoes(h: nat, blocks: seq<Packet>): seq<Delivery> {
    if blocks == [] then []
    else [Delivery(h, Packet(blocks[0].tag, DataCnf(0, if blocks[0].body.DataReq? then blocks[0].body.checksum else 0)))]
         + Echoes(h, blocks[1..])
  }

  /** What the device sends in n answers. */
  function FromDevice(h: nat, device: nat -> Packet, k: nat, n: nat): seq<Delivery>
    decreases n
  {
    if n == 0 then [] else [Delivery(h, device(k))] + FromDevice(h, device, k + 1, n - 1)
  }

  predicate AllData(ps: seq<Packet>) { forall i :: 0 <= i < |ps| ==> ps[i].body.DataReq? }

  lemma {:induction false} BlocksAreData(host: Host, file: seq<bv8>, size: nat, at: nat, k: nat)
    requires at <= |file| && size > 0
    ensures AllData(Blocks(host, file, size, at, k))
    decreases |file| - at
  {
    if |file| - at > size {
      BlocksAreData(host, file, size, at + size, k + 1);
    }
  }

  lemma {:induction false} AnsweredEchoes(t: Txn, ps: seq<Packet>, device: nat -> Packet, k: nat)
    requires Intercepted(t) && t.error == 0 && AllData(ps)
    ensures Answered(t, ps, device, k) == Echoes(t.handle, ps)
    decreases |ps|
  {
    if ps != [] {
      AnsweredEchoes(t, ps[1..], device, k + 1);
    }
  }

  lemma {:induction false} AnsweredDevice(t: Txn, ps: seq<Packet>, device: nat -> Packet, k: nat)
    requires !Intercepted(t)
    ensures Answered(t, ps, device, k) == FromDevice(t.handle, device, k, |ps|)
    decreases |ps|
  {
    if ps != [] {
      AnsweredDevice(t, ps[1..], device, k + 1);
    }
  }

  /** Firmware for a device without a file system: the device sees nothing of it, the host sees the
      request confirmed with its own block size and every block with its own checksum, and the file is
      stored as firmware. */
  lemma FirmwareCaptured(s: Hook, h: nat, request: Packet, probe: Probe, board: nat, host: Host, file: seq<bv8>, device: nat -> Packet)
    requires Idle(s, h) && Requests(request, file) && IsFirmware(request.body.name) && Answers(probe, false, board)
    ensures var blocks := Blocks(host, file, request.body.maxBlock, 0, 1);
            Run(s, Alternate(h, probe, [request] + blocks, device, 0)) == Hook(
              s.txns,
              s.stored + [File(h, board, Shortened(request.body.name), |file|, file, request.body.channel, Firmware)],
              s.toDevice,
              s.toHost + ([Delivery(h, Packet(request.tag, DownloadCnf(0, request.body.maxBlock)))] + Echoes(h, blocks)))
  {
    KindExactly(request.body.name);
    hide KindOf, IsFirmware;
    hide Run, Alternate, Blocks, Idle, Shortened, Echoes, Answered, Passed;
    Reassembled(s, h, request, probe, host, file, device);
    var t := Started(h, request, probe, device(0));
    var blocks := Blocks(host, file, request.body.maxBlock, 0, 1);
    BlocksAreData(host, file, request.body.maxBlock, 0, 1);
    AnsweredFirst(t, request, blocks, device, 0);
    AnsweredEchoes(t, blocks, device, 1);
    assert s.toDevice + [] == s.toDevice;
  }

  /** Every other file that is kept, and firmware for a device with a file system: each packet goes to the
      device, the host sees what the device answers, and the file is stored with its kind. */
  lemma OthersPassed(s: Hook, h: nat, request: Packet, probe: Probe, keepsFiles: bool, board: nat, host: Host, file: seq<bv8>, device: nat -> Packet)
    requires Idle(s, h) && Requests(request, file) && Answers(probe, keepsFiles, board)
    requires var name := request.body.name;
             IsConfiguration(name) || IsModule(name) || (IsFirmware(name) && keepsFiles)
    requires device(0).body.DownloadCnf? && device(0).body.status == 0 && device(0).body.maxBlock > 0
    ensures var name := request.body.name;
            var size := if device(0).body.maxBlock < request.body.maxBlock then device(0).body.maxBlock else request.body.maxBlock;
            var ps := [request] + Blocks(host, file, size, 0, 1);
            var kind := if IsConfiguration(name) then Configuration else if IsModule(name) then Modules else Firmware;
            Run(s, Alternate(h, probe, ps, device, 0)) == Hook(
              s.txns,
              s.stored + [File(h, board, Shortened(name), |file|, file, request.body.channel, kind)],
              s.toDevice + Passed(h, ps),
              s.toHost + FromDevice(h, device, 0, |ps|))
  {
    KindExactly(request.body.name);
    hide KindOf, IsFirmware, IsModule, IsConfiguration;
    hide Run, Alternate, Blocks, Idle, Shortened, Answered, Passed, FromDevice;
    Reassembled(s, h, request, probe, host, file, device);
    var t := Started(h, request, probe, device(0));
    AnsweredDevice(t, Download(request, probe, host, file, device(0)), device, 0);
  }

  /** A file of no such name leaves no trace in the hook: its request and its blocks go to the device, and
      its answers to the host. */
  lemma PlainFilesPass(s: Hook, h: nat, p: Packet, probe: Probe, fromDevice: Packet)
    requires Lookup(s.txns, h) == None
    requires !IsDownload(p) || !p.body.DownloadReq?
             || (var name := p.body.name; !IsFirmware(name) && !IsModule(name) && !IsConfiguration(name))
    ensures Put(s, h, p, probe) == s.(toDevice := s.toDevice + [Delivery(h, p)])
    ensures Get(s, h, fromDevice) == s.(toHost := s.toHost + [Delivery(h, fromDevice)])
  {
    if p.body.DownloadReq? {
      KindExactly(p.body.name);
    }
    hide KindOf, IsFirmware, IsModule, IsConfiguration;
  }

  /** A new request during a captured transfer: the host is told that it is out of sequence, the
      transaction ends, and nothing is stored or passed on. */
  lemma OutOfSequence(s: Hook, t: Txn, rest: seq<Txn>, p: Packet, probe: Probe, fromDevice: Packet)
    requires s.txns == [t] + rest && t.phase == DataTransfer && t.conf == None && t.capture && t.kind == Firmware
    requires p.body.DownloadReq?
    ensures Get(Put(s, t.handle, p, probe), t.handle, fromDevice) ==
            s.(txns := rest, toHost := s.toHost + [Delivery(t.handle, Packet(p.tag, DownloadCnf(0xC000_000F, p.body.maxBlock)))])
  {
    var t' := Received(t, p);
    var held := t'.(conf := Some(Confirmation(t', p)));
    Head(t, rest, t');
    Head(t', rest, held);
    Head(held, rest, held);
    hide Lookup, Replace, Remove;
    assert Put(s, t.handle, p, probe) == s.(txns := [held] + rest);
  }

  /** The name the callback gets: the first sixteen characters of the host's. */
  lemma ShortenedName(name: string)
    ensures Shortened(name) <= name && |Shortened(name)| == if |name| < 16 then |name| else 16
  {}

  /** An abort of a captured transfer is confirmed without an error, and the transaction is gone. */
  lemma AbortCaptured(s: Hook, t: Txn, rest: seq<Txn>, p: Packet, probe: Probe, fromDevice: Packet)
    requires s.txns == [t] + rest && t.phase == DataTransfer && t.conf == None && t.capture && t.kind == Firmware && t.error == 0
    requires p.body.AbortReq?
    ensures Get(Put(s, t.handle, p, probe), t.handle, fromDevice) ==
            s.(txns := rest, toHost := s.toHost + [Delivery(t.handle, Packet(p.tag, AbortCnf(0)))])
  {
    var t' := Received(t, p);
    var held := t'.(conf := Some(Confirmation(t', p)));
    Head(t, rest, t');
    Head(t', rest, held);
    Head(held, rest, held);
    hide Lookup, Replace, Remove;
    assert Put(s, t.handle, p, probe) == s.(txns := [held] + rest);
  }

  /** A request that opens a new transaction on a handle whose last one has ended, but was not fetched:
      the ended one is gone, without being stored, and the new one stands in front. */
  lemma RestartReplaces(s: Hook, t: Txn, rest: seq<Txn>, p: Packet, probe: Probe)
    requires s.txns == [t] + rest && (t.phase == Finished || t.phase == Failed) && Opens(p, probe)
    ensures var u := Put(s, t.handle, p, probe);
            && |u.txns| == 1 + |rest| && u.txns[1..] == rest && u.txns[0].handle == t.handle && u.txns[0].phase == Request
            && u.txns[0].size == p.body.fileLength && u.txns[0].pos == 0 && u.stored == s.stored
  {
    var n := NewTxn(t.handle, p, probe);
    Head(t, rest, t);
    Head(n, rest, n.(conf := Some(Confirmation(n, p))));
    hide Lookup, Replace, Remove, KindOf;
  }

  /** The sequence codes: 0x80 and 0xC0 take one block of the negotiated size, 0x40 and 0x00 take the data
      as they are and end the transfer, any other code is ignored. */
  lemma SequenceCodes(t: Txn, tag: nat, ext: nat, blockNo: nat, checksum: nat, data: seq<bv8>)
    requires t.phase == DataTransfer && t.pos + |data| <= |t.buf| && t.maxBlock <= |data|
    ensures var u := Received(t, Packet(tag, DataReq(ext, blockNo, checksum, data)));
            if ext == 0x80 || ext == 0xC0 then
              u == t.(buf := t.buf[..t.pos] + data[..t.maxBlock] + t.buf[t.pos + t.maxBlock..], pos := t.pos + t.maxBlock)
            else if ext == 0x40 || ext == 0x00 then
              u == t.(buf := t.buf[..t.pos] + data + t.buf[t.pos + |data|..], phase := Finished)
            else u == t
  {}
}
