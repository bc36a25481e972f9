/** What the download hook guarantees: handles do not affect each other in any interleaving, every file
    that is sent in blocks of the negotiated size is stored exactly once and byte for byte, and an aborted
    transfer is never stored. */
module DownloadLaws {
  import opened Options
  import opened DownloadHook

  // ------------------------------------------------------ one handle's share

  function TxnsOf(txns: seq<Txn>, h: nat): seq<Txn> {
    if txns == [] then []
    else (if txns[0].handle == h then [txns[0]] else []) + TxnsOf(txns[1..], h)
  }

  function FilesOf(files: seq<File>, h: nat): seq<File> {
    if files == [] then []
    else FilesOf(files[..|files| - 1], h) + if files[|files| - 1].handle == h then [files[|files| - 1]] else []
  }

  function PacketsOf(ds: seq<Delivery>, h: nat): seq<Delivery> {
    if ds == [] then []
    else PacketsOf(ds[..|ds| - 1], h) + if ds[|ds| - 1].handle == h then [ds[|ds| - 1]] else []
  }

  /** The hook as if a handle were the only one. */
  function View(s: Hook, h: nat): Hook {
    Hook(TxnsOf(s.txns, h), FilesOf(s.stored, h), PacketsOf(s.toDevice, h), PacketsOf(s.toHost, h))
  }

  lemma {:induction false} LookupShare(txns: seq<Txn>, h: nat)
    ensures Lookup(TxnsOf(txns, h), h) == Lookup(txns, h)
    ensures Lookup(txns, h).Some? ==> Lookup(txns, h).value.handle == h
  {
    if txns != [] {
      LookupShare(txns[1..], h);
      var rest := TxnsOf(txns[1..], h);
      if txns[0].handle == h {
        assert TxnsOf(txns, h)[0] == txns[0];
      } else {
        assert [] + rest == rest;
      }
    }
  }

  lemma {:induction false} ReplaceShare(txns: seq<Txn>, g: nat, t: Txn, h: nat)
    requires t.handle == g
    ensures TxnsOf(Replace(txns, g, t), h) == if g == h then Replace(TxnsOf(txns, h), h, t) else TxnsOf(txns, h)
  {
    if txns != [] {
      ReplaceShare(txns[1..], g, t, h);
      var rest := if txns[0].handle == g then txns[1..] else Replace(txns[1..], g, t);
      var head := if txns[0].handle == g then t else txns[0];
      assert ([head] + rest)[1..] == rest;
      if txns[0].handle == h {
        assert ([txns[0]] + TxnsOf(txns[1..], h))[1..] == TxnsOf(txns[1..], h);
      } else {
        assert [] + TxnsOf(txns[1..], h) == TxnsOf(txns[1..], h);
        assert [] + TxnsOf(rest, h) == TxnsOf(rest, h);
      }
    }
  }

  lemma {:induction false} RemoveShare(txns: seq<Txn>, g: nat, h: nat)
    ensures TxnsOf(Remove(txns, g), h) == if g == h then Remove(TxnsOf(txns, h), h) else TxnsOf(txns, h)
  {
    if txns != [] {
      RemoveShare(txns[1..], g, h);
      var rest := Remove(txns[1..], g);
      assert ([txns[0]] + rest)[1..] == rest;
      if txns[0].handle == h {
        assert ([txns[0]] + TxnsOf(txns[1..], h))[1..] == TxnsOf(txns[1..], h);
      } else {
        assert [] + TxnsOf(txns[1..], h) == TxnsOf(txns[1..], h);
        assert [] + TxnsOf(rest, h) == TxnsOf(rest, h);
      }
    }
  }

  lemma AddShare(txns: seq<Txn>, t: Txn, h: nat)
    ensures TxnsOf([t] + txns, h) == (if t.handle == h then [t] else []) + TxnsOf(txns, h)
  {
    assert ([t] + txns)[1..] == txns;
  }

  lemma FileShare(files: seq<File>, f: File, h: nat)
    ensures FilesOf(files + [f], h) == FilesOf(files, h) + if f.handle == h then [f] else []
  {
    assert (files + [f])[..|files|] == files;
  }

  lemma PacketShare(ds: seq<Delivery>, d: Delivery, h: nat)
    ensures PacketsOf(ds + [d], h) == PacketsOf(ds, h) + if d.handle == h then [d] else []
  {
    assert (ds + [d])[..|ds|] == ds;
  }

  // --------------------------------------------------------- independence

  lemma ForwardShare(s: Hook, g: nat, p: Packet, t: Option<Txn>, h: nat)
    requires t.Some? ==> t.value.handle == g
    ensures View(Forward(s, g, p, t), h) == if g == h then Forward(View(s, h), h, p, t) else View(s, h)
  {
    hide TxnsOf, FilesOf, PacketsOf, Replace;
    PacketShare(s.toDevice, Delivery(g, p), h);
    if t.Some? {
      ReplaceShare(s.txns, g, t.value.(conf := Some(Confirmation(t.value, p))), h);
    }
  }

  lemma BeginShare(s: Hook, g: nat, p: Packet, probe: Probe, h: nat)
    ensures View(Begin(s, g, p, probe), h) == if g == h then Begin(View(s, h), h, p, probe) else View(s, h)
  {
    hide TxnsOf, FilesOf, PacketsOf, Forward, KindOf, Lookup, Wanted;
    LookupShare(s.txns, g);
    if Opens(p, probe) {
      var t := NewTxn(g, p, probe);
      AddShare(s.txns, t, h);
      ForwardShare(s.(txns := [t] + s.txns), g, p, Some(t), h);
    } else {
      ForwardShare(s, g, p, if Wanted(p, probe) then None else Lookup(s.txns, g), h);
    }
  }

  lemma ReceivedHandle(t: Txn, p: Packet)
    ensures Received(t, p).handle == t.handle
  {}

  lemma PutShare(s: Hook, g: nat, p: Packet, probe: Probe, h: nat)
    ensures View(Put(s, g, p, probe), h) == if g == h then Put(View(s, h), h, p, probe) else View(s, h)
  {
    hide TxnsOf, FilesOf, PacketsOf, Forward, Begin, Received, Lookup, Replace, Remove;
    LookupShare(s.txns, g);
    PacketShare(s.toDevice, Delivery(g, p), h);
    BeginShare(s, g, p, probe, h);
    RemoveShare(s.txns, g, h);
    BeginShare(s.(txns := Remove(s.txns, g)), g, p, probe, h);
    if Lookup(s.txns, g).Some? {
      var t' := Received(Lookup(s.txns, g).value, p);
      ReceivedHandle(Lookup(s.txns, g).value, p);
      ReplaceShare(s.txns, g, t', h);
      ForwardShare(s.(txns := Replace(s.txns, g, t')), g, p, Some(t'), h);
    }
  }

  lemma GetShare(s: Hook, g: nat, fromDevice: Packet, h: nat)
    ensures View(Get(s, g, fromDevice), h) == if g == h then Get(View(s, h), h, fromDevice) else View(s, h)
  {
    hide TxnsOf, FilesOf, PacketsOf, Lookup, Replace, Remove;
    LookupShare(s.txns, g);
    var got := Fetched(Lookup(s.txns, g), fromDevice);
    PacketShare(s.toHost, Delivery(g, got), h);
    RemoveShare(s.txns, g, h);
    if Lookup(s.txns, g).Some? {
      var t := Lookup(s.txns, g).value;
      FileShare(s.stored, FileOf(t), h);
      ReplaceShare(s.txns, g, Confirmed(t, got), h);
    }
  }

  function CallsOf(calls: seq<Call>, h: nat): seq<Call> {
    if calls == [] then []
    else (if calls[0].handle == h then [calls[0]] else []) + CallsOf(calls[1..], h)
  }

  /** Handles are independent: in every interleaving of calls on any handles, what a handle's
      transactions, files and packets become is what its own calls alone make of them. */
  lemma {:induction false} Independent(s: Hook, calls: seq<Call>, h: nat)
    ensures View(Run(s, calls), h) == Run(View(s, h), CallsOf(calls, h))
    decreases |calls|
  {
    if calls != [] {
      var c := calls[0];
      Independent(Apply(s, c), calls[1..], h);
      ApplyShare(s, c, h);
      FirstCall(View(s, h), calls, h);
    }
  }

  lemma ApplyShare(s: Hook, c: Call, h: nat)
    ensures View(Apply(s, c), h) == if c.handle == h then Apply(View(s, h), c) else View(s, h)
  {
    hide View, Put, Get;
    match c.op
    case PutOp(p, probe) => PutShare(s, c.handle, p, probe, h);
    case GetOp(d) => GetShare(s, c.handle, d, h);
  }

  lemma FirstCall(v: Hook, calls: seq<Call>, h: nat)
    requires calls != []
    ensures Run(v, CallsOf(calls, h)) ==
            Run(if calls[0].handle == h then Apply(v, calls[0]) else v, CallsOf(calls[1..], h))
  {
    hide Apply;
    var rest := CallsOf(calls[1..], h);
    if calls[0].handle == h {
      assert ([calls[0]] + rest)[1..] == rest;
    } else {
      assert [] + rest == rest;
    }
  }

  // ------------------------------------------------------------ the disciplined host

  /** What a host may put into the headers and checksums of its packets. */
  datatype Host = Host(tag: nat -> nat, checksum: nat -> nat)

  function BlockAt(host: Host, file: seq<bv8>, size: nat, at: nat, k: nat): Packet
    requires at <= |file|
  {
    var left := |file| - at;
    var ext := if left <= size then (if at == 0 then SEQ_NONE else SEQ_LAST)
               else (if at == 0 then SEQ_FIRST else SEQ_MIDDLE);
    Packet(host.tag(k), DataReq(ext, k, host.checksum(k), file[at..if left <= size then |file| else at + size]))
  }

  /** The rest of a file from position at on, cut into blocks: all of the same size but the last, which
      may be shorter. */
  function Blocks(host: Host, file: seq<bv8>, size: nat, at: nat, k: nat): (ps: seq<Packet>)
    requires at <= |file| && size > 0
    ensures |ps| > 0
    decreases |file| - at
  {
    [BlockAt(host, file, size, at, k)]
    + if |file| - at <= size then [] else Blocks(host, file, size, at + size, k + 1)
  }

  /** Each packet is put, then its answer is fetched. */
  function Alternate(h: nat, probe: Probe, ps: seq<Packet>, device: nat -> Packet, k: nat): seq<Call>
    decreases |ps|
  {
    if ps == [] then []
    else [Call(h, PutOp(ps[0], probe)), Call(h, GetOp(device(k)))] + Alternate(h, probe, ps[1..], device, k + 1)
  }

  /** The packets a device sees. */
  function Passed(h: nat, ps: seq<Packet>): seq<Delivery>
    decreases |ps|
  {
    if ps == [] then [] else [Delivery(h, ps[0])] + Passed(h, ps[1..])
  }

  /** The packets a host sees: its requests confirmed by the hook, or what the device answers. */
  function Answered(t: Txn, ps: seq<Packet>, device: nat -> Packet, k: nat): seq<Delivery>
    decreases |ps|
  {
    if ps == [] then []
    else [Delivery(t.handle, if Intercepted(t) then Confirmation(t, ps[0]) else device(k))]
         + Answered(t, ps[1..], device, k + 1)
  }

  /** A transaction that holds the first bytes of a file. */
  ghost predicate Loading(t: Txn, h: nat, file: seq<bv8>, size: nat, at: nat) {
    && t.handle == h && t.phase == DataTransfer && t.maxBlock == size && t.conf == None && t.error == 0
    && t.pos == at <= |file| == |t.buf| && t.buf[..at] == file[..at]
  }

  lemma Head(t: Txn, rest: seq<Txn>, x: Txn)
    ensures Lookup([t] + rest, t.handle) == Some(t)
    ensures Replace([t] + rest, t.handle, x) == [x] + rest
    ensures Remove([t] + rest, t.handle) == rest
  {
    assert ([t] + rest)[1..] == rest;
  }

  /** The hook with its newest transaction replaced and one packet exchanged. */
  function Moved(s: Hook, txns: seq<Txn>, t: Txn, p: Packet, fromDevice: Packet): Hook {
    s.(txns := txns,
       toDevice := s.toDevice + if Intercepted(t) then [] else [Delivery(t.handle, p)],
       toHost := s.toHost + [Delivery(t.handle, if Intercepted(t) then Confirmation(t, p) else fromDevice)])
  }

  /** One request of the data transfer and the fetching of its answer. */
  lemma Exchanged(s: Hook, t: Txn, rest: seq<Txn>, p: Packet, probe: Probe, fromDevice: Packet)
    requires s.txns == [t] + rest && t.phase == DataTransfer && t.conf == None && IsDownload(p)
    requires var t' := Received(t, p); Confirmation(t', p) == Confirmation(t, p)
    ensures var t' := Received(t, p);
            Get(Put(s, t.handle, p, probe), t.handle, fromDevice) ==
            (match t'.phase
             case Finished => Moved(s, rest, t, p, fromDevice).(stored := s.stored + [FileOf(t')])
             case Failed => Moved(s, rest, t, p, fromDevice)
             case _ => Moved(s, [t'] + rest, t, p, fromDevice))
  {
    var t' := Received(t, p);
    var held := t'.(conf := Some(Confirmation(t', p)));
    var put := Put(s, t.handle, p, probe);
    ReceivedKeeps(t, p);
    hide Received, Confirmation, Lookup, Replace, Remove;
    Head(t, rest, t');
    Head(t', rest, held);
    if Intercepted(t) {
      assert put == s.(txns := [held] + rest);
      Head(held, rest, Confirmed(held, Confirmation(t', p)));
    } else {
      assert put == s.(txns := [t'] + rest, toDevice := s.toDevice + [Delivery(t.handle, p)]);
      Head(t', rest, Confirmed(t', fromDevice));
    }
  }

  lemma ReceivedKeeps(t: Txn, p: Packet)
    requires t.phase == DataTransfer
    ensures var t' := Received(t, p);
            t' == t.(buf := t'.buf, pos := t'.pos, phase := t'.phase, error := t'.error) && t'.phase != Request
  {}

  /** A block that is not the last. */
  lemma BlockLoads(t: Txn, h: nat, host: Host, file: seq<bv8>, size: nat, at: nat, k: nat)
    requires Loading(t, h, file, size, at) && size < |file| - at
    ensures var p := BlockAt(host, file, size, at, k); var t' := Received(t, p);
            && Loading(t', h, file, size, at + size) && Confirmation(t', p) == Confirmation(t, p)
            && FileOf(t') == FileOf(t).(bytes := t'.buf)
  {
    var p := BlockAt(host, file, size, at, k);
    assert p.body.data == file[at..at + size] && p.body.data[..size] == p.body.data;
    var t' := Received(t, p);
    assert t'.buf == t.buf[..at] + file[at..at + size] + t.buf[at + size..];
    assert file[..at + size] == file[..at] + file[at..at + size];
    assert t'.buf[..at + size] == file[..at + size];
  }

  /** The last block. */
  lemma BlockFinishes(t: Txn, h: nat, host: Host, file: seq<bv8>, size: nat, at: nat, k: nat)
    requires Loading(t, h, file, size, at) && |file| - at <= size
    ensures var p := BlockAt(host, file, size, at, k); var t' := Received(t, p);
            && t'.phase == Finished && Confirmation(t', p) == Confirmation(t, p)
            && FileOf(t') == FileOf(t).(bytes := file)
  {
    var p := BlockAt(host, file, size, at, k);
    assert p.body.data == file[at..];
    var t' := Received(t, p);
    assert t'.buf == t.buf[..at] + file[at..] + t.buf[|file|..];
    assert file == file[..at] + file[at..];
    assert t.buf[|file|..] == [];
  }

  // ------------------------------------------------------------- whole transfers

  lemma Pair(s: Hook, h: nat, probe: Probe, p: Packet, ps: seq<Packet>, device: nat -> Packet, k: nat)
    ensures Run(s, Alternate(h, probe, [p] + ps, device, k)) ==
            Run(Get(Put(s, h, p, probe), h, device(k)), Alternate(h, probe, ps, device, k + 1))
  {
    hide Put, Get, Run, Alternate;
    var put, get, rest := Call(h, PutOp(p, probe)), Call(h, GetOp(device(k))), Alternate(h, probe, ps, device, k + 1);
    AlternateFirst(h, probe, p, ps, device, k);
    RunFirst(s, put, [get] + rest);
    RunFirst(Put(s, h, p, probe), get, rest);
  }

  lemma RunFirst(s: Hook, c: Call, rest: seq<Call>)
    ensures Run(s, [c] + rest) == Run(Apply(s, c), rest)
  {
    hide Apply;
    assert ([c] + rest)[1..] == rest;
  }

  lemma AlternateFirst(h: nat, probe: Probe, p: Packet, ps: seq<Packet>, device: nat -> Packet, k: nat)
    ensures Alternate(h, probe, [p] + ps, device, k) ==
            [Call(h, PutOp(p, probe))] + ([Call(h, GetOp(device(k)))] + Alternate(h, probe, ps, device, k + 1))
  {
    assert ([p] + ps)[1..] == ps;
  }

  /** The hook after all packets of a list were exchanged in one transaction. */
  function After(s: Hook, t: Txn, rest: seq<Txn>, stored: seq<File>, ps: seq<Packet>, device: nat -> Packet, k: nat): Hook {
    Hook(rest, s.stored + stored,
         s.toDevice + (if Intercepted(t) then [] else Passed(t.handle, ps)),
         s.toHost + Answered(t, ps, device, k))
  }

  lemma AfterFirst(s: Hook, t: Txn, t': Txn, txns: seq<Txn>, rest: seq<Txn>, stored: seq<File>, p: Packet, ps: seq<Packet>, device: nat -> Packet, k: nat)
    requires t'.handle == t.handle && t'.error == t.error && Intercepted(t') == Intercepted(t)
    ensures After(Moved(s, txns, t, p, device(k)), t', rest, stored, ps, device, k + 1)
         == After(s, t, rest, stored, [p] + ps, device, k)
  {
    hide Passed, Answered, Intercepted, Confirmation;
    AnsweredSame(t, t', ps, device, k + 1);
    PassedFirst(t.handle, p, ps);
    AnsweredFirst(t, p, ps, device, k);
    var passed := if Intercepted(t) then [] else Passed(t.handle, ps);
    Regroup(s.toDevice, if Intercepted(t) then [] else [Delivery(t.handle, p)], passed);
    Regroup(s.toHost, [Delivery(t.handle, if Intercepted(t) then Confirmation(t, p) else device(k))], Answered(t, ps, device, k + 1));
  }

  lemma Regroup(a: seq<Delivery>, b: seq<Delivery>, c: seq<Delivery>)
    ensures a + b + c == a + (b + c)
  {}

  lemma PassedFirst(h: nat, p: Packet, ps: seq<Packet>)
    ensures Passed(h, [p] + ps) == [Delivery(h, p)] + Passed(h, ps)
  {
    assert ([p] + ps)[1..] == ps;
  }

  lemma AnsweredFirst(t: Txn, p: Packet, ps: seq<Packet>, device: nat -> Packet, k: nat)
    ensures Answered(t, [p] + ps, device, k) ==
            [Delivery(t.handle, if Intercepted(t) then Confirmation(t, p) else device(k))] + Answered(t, ps, device, k + 1)
  {
    assert ([p] + ps)[1..] == ps;
  }

  lemma {:induction false} AnsweredSame(t: Txn, t': Txn, ps: seq<Packet>, device: nat -> Packet, k: nat)
    requires t'.handle == t.handle && t'.error == t.error && Intercepted(t') == Intercepted(t)
    ensures Answered(t', ps, device, k) == Answered(t, ps, device, k)
    decreases |ps|
  {
    if ps != [] {
      AnsweredSame(t, t', ps[1..], device, k + 1);
    }
  }

  /** From the first block, or any later one, to the end. */
  lemma {:induction false} TransferCompletes(s: Hook, t: Txn, rest: seq<Txn>, h: nat, probe: Probe, host: Host, device: nat -> Packet,
                                             file: seq<bv8>, size: nat, at: nat, k: nat)
    requires s.txns == [t] + rest && size > 0 && Loading(t, h, file, size, at)
    ensures var ps := Blocks(host, file, size, at, k);
            Run(s, Alternate(h, probe, ps, device, k)) == After(s, t, rest, [FileOf(t).(bytes := file)], ps, device, k)
    decreases |file| - at
  {
    hide Put, Get, Received, Confirmation, Moved, After, Intercepted;
    var p := BlockAt(host, file, size, at, k);
    var t' := Received(t, p);
    ReceivedKeeps(t, p);
    if |file| - at <= size {
      BlockFinishes(t, h, host, file, size, at, k);
      Exchanged(s, t, rest, p, probe, device(k));
      Pair(s, h, probe, p, [], device, k);
      assert Blocks(host, file, size, at, k) == [p] + [] && [p] + [] == [p];
      AfterLast(s, t, rest, FileOf(t'), p, device, k);
      MovedTxns(s, rest, t, p, device(k));
      NoMore(Get(Put(s, h, p, probe), h, device(k)), h, probe, device, k + 1);
    } else {
      BlockLoads(t, h, host, file, size, at, k);
      Exchanged(s, t, rest, p, probe, device(k));
      var ps := Blocks(host, file, size, at + size, k + 1);
      Pair(s, h, probe, p, ps, device, k);
      var next := Moved(s, [t'] + rest, t, p, device(k));
      MovedTxns(s, [t'] + rest, t, p, device(k));
      TransferCompletes(next, t', rest, h, probe, host, device, file, size, at + size, k + 1);
      SameRoute(t, t');
      AfterFirst(s, t, t', [t'] + rest, rest, [FileOf(t).(bytes := file)], p, ps, device, k);
    }
  }

  lemma MovedTxns(s: Hook, txns: seq<Txn>, t: Txn, p: Packet, fromDevice: Packet)
    ensures Moved(s, txns, t, p, fromDevice).txns == txns && Moved(s, txns, t, p, fromDevice).stored == s.stored
  {}

  lemma SameRoute(t: Txn, t': Txn)
    requires t'.capture == t.capture && t'.kind == t.kind
    ensures Intercepted(t') == Intercepted(t)
  {}

  lemma AfterLast(s: Hook, t: Txn, rest: seq<Txn>, f: File, p: Packet, device: nat -> Packet, k: nat)
    ensures Moved(s, rest, t, p, device(k)).(stored := s.stored + [f]) == After(s, t, rest, [f], [p], device, k)
  {
    assert [p][1..] == [];
    assert Passed(t.handle, [p]) == [Delivery(t.handle, p)];
    assert Answered(t, [p], device, k) == [Delivery(t.handle, if Intercepted(t) then Confirmation(t, p) else device(k))];
  }

  // ----------------------------------------------------------------- the request

  /** No transfer is under way on a handle: it has no transaction, or one whose request was never
      confirmed. */
  ghost predicate Idle(s: Hook, h: nat) {
    Lookup(s.txns, h).Some? ==> Lookup(s.txns, h).value.phase == Request
  }

  /** A request for a file worth keeping, on a device that answers every query. */
  ghost predicate Keeps(request: Packet, probe: Probe, file: seq<bv8>) {
    Opens(request, probe) && request.body.maxBlock > 0 && request.body.fileLength == |file|
  }

  /** The block size both sides can handle. */
  function Negotiated(request: Packet, probe: Probe, answer: Packet): nat
    requires Opens(request, probe)
  {
    if Intercepted(NewTxn(0, request, probe)) then request.body.maxBlock
    else if answer.body.DownloadCnf? && answer.body.maxBlock < request.body.maxBlock then answer.body.maxBlock
    else request.body.maxBlock
  }

  /** The device, if it is asked at all, accepts the request with a usable block size. */
  ghost predicate Accepts(request: Packet, probe: Probe, answer: Packet)
    requires Opens(request, probe)
  {
    Intercepted(NewTxn(0, request, probe)) || (answer.body.DownloadCnf? && answer.body.status == 0 && answer.body.maxBlock > 0)
  }

  /** The transaction once the request is confirmed. */
  function Started(h: nat, request: Packet, probe: Probe, answer: Packet): Txn
    requires Opens(request, probe)
  {
    NewTxn(h, request, probe).(phase := DataTransfer, maxBlock := Negotiated(request, probe, answer))
  }

  lemma RequestStarts(s: Hook, h: nat, request: Packet, probe: Probe, file: seq<bv8>, answer: Packet)
    requires Idle(s, h) && Keeps(request, probe, file) && Accepts(request, probe, answer)
    ensures var t := Started(h, request, probe, answer);
            && Loading(t, h, file, t.maxBlock, 0)
            && Get(Put(s, h, request, probe), h, answer) == Moved(s, [t] + s.txns, t, request, answer)
  {
    hide KindOf, Lookup, Replace, Remove, Shortened;
    var t := NewTxn(h, request, probe);
    var held := t.(conf := Some(Confirmation(t, request)));
    var put := Put(s, h, request, probe);
    Head(t, s.txns, held);
    if Intercepted(t) {
      assert put == s.(txns := [held] + s.txns);
      Head(held, s.txns, Confirmed(held, Confirmation(t, request)));
    } else {
      assert put == s.(txns := [t] + s.txns, toDevice := s.toDevice + [Delivery(h, request)]);
      Head(t, s.txns, Confirmed(t, answer));
    }
  }

  /** All packets of a download, in order. */
  function Download(request: Packet, probe: Probe, host: Host, file: seq<bv8>, answer: Packet): seq<Packet>
    requires Opens(request, probe) && Negotiated(request, probe, answer) > 0
  {
    [request] + Blocks(host, file, Negotiated(request, probe, answer), 0, 1)
  }

  /** What the callback must receive for a download. */
  function Expected(h: nat, request: Packet, probe: Probe, file: seq<bv8>): File
    requires Opens(request, probe)
  {
    File(h, probe.board.value, Shortened(request.body.name), |file|, file, request.body.channel, KindOf(request.body.name))
  }

  /** A complete download, for every file, block size of the host and block size of the device: the
      callback is called exactly once and with exactly the file's bytes, every transaction there was
      before is still there and no other, and the packets went to the device in order, or, if the hook
      took them, none did and every one was confirmed. */
  lemma Reassembled(s: Hook, h: nat, request: Packet, probe: Probe, host: Host, file: seq<bv8>, device: nat -> Packet)
    requires Idle(s, h) && Keeps(request, probe, file) && Accepts(request, probe, device(0))
    ensures Negotiated(request, probe, device(0)) > 0
    ensures var ps := Download(request, probe, host, file, device(0));
            var t := Started(h, request, probe, device(0));
            Run(s, Alternate(h, probe, ps, device, 0)) == Hook(
              s.txns,
              s.stored + [Expected(h, request, probe, file)],
              s.toDevice + (if Intercepted(t) then [] else Passed(h, ps)),
              s.toHost + Answered(t, ps, device, 0))
  {
    hide KindOf, Run, Alternate, Passed, Answered, After, Intercepted, Blocks, Started, Expected, NewTxn;
    StartedIs(h, request, probe, file, device(0));
    var t := Started(h, request, probe, device(0));
    RequestThenBlocks(s, t, h, request, probe, host, file, device);
    AfterIs(s, t, s.txns, [FileOf(t).(bytes := file)], [request] + Blocks(host, file, t.maxBlock, 0, 1), device, 0);
  }

  lemma RequestThenBlocks(s: Hook, t: Txn, h: nat, request: Packet, probe: Probe, host: Host, file: seq<bv8>, device: nat -> Packet)
    requires Idle(s, h) && Keeps(request, probe, file) && Accepts(request, probe, device(0))
    requires t == Started(h, request, probe, device(0)) && t.maxBlock > 0
    ensures var ps := [request] + Blocks(host, file, t.maxBlock, 0, 1);
            Run(s, Alternate(h, probe, ps, device, 0)) == After(s, t, s.txns, [FileOf(t).(bytes := file)], ps, device, 0)
  {
    hide Put, Get, Loading, Run, Alternate, After, Moved, Started, Intercepted, Blocks, FileOf, KindOf;
    RequestStarts(s, h, request, probe, file, device(0));
    var blocks := Blocks(host, file, t.maxBlock, 0, 1);
    var next := Moved(s, [t] + s.txns, t, request, device(0));
    MovedTxns(s, [t] + s.txns, t, request, device(0));
    Pair(s, h, probe, request, blocks, device, 0);
    TransferCompletes(next, t, s.txns, h, probe, host, device, file, t.maxBlock, 0, 1);
    AfterFirst(s, t, t, [t] + s.txns, s.txns, [FileOf(t).(bytes := file)], request, blocks, device, 0);
  }

  lemma StartedIs(h: nat, request: Packet, probe: Probe, file: seq<bv8>, answer: Packet)
    requires Keeps(request, probe, file) && Accepts(request, probe, answer)
    ensures var t := Started(h, request, probe, answer);
            t.handle == h && t.maxBlock == Negotiated(request, probe, answer) > 0 && FileOf(t).(bytes := file) == Expected(h, request, probe, file)
  {
    hide KindOf, Shortened;
  }

  lemma AfterIs(s: Hook, t: Txn, rest: seq<Txn>, stored: seq<File>, ps: seq<Packet>, device: nat -> Packet, k: nat)
    ensures After(s, t, rest, stored, ps, device, k) ==
            Hook(rest, s.stored + stored,
                 s.toDevice + (if Intercepted(t) then [] else Passed(t.handle, ps)),
                 s.toHost + Answered(t, ps, device, k))
  {}

  /** The same when other hosts use other handles at the same time, in any interleaving. */
  lemma ReassembledAmongOthers(s: Hook, calls: seq<Call>, h: nat, request: Packet, probe: Probe, host: Host, file: seq<bv8>, device: nat -> Packet)
    requires Idle(s, h) && Keeps(request, probe, file) && Accepts(request, probe, device(0))
    requires Negotiated(request, probe, device(0)) > 0
    requires CallsOf(calls, h) == Alternate(h, probe, Download(request, probe, host, file, device(0)), device, 0)
    ensures FilesOf(Run(s, calls).stored, h) == FilesOf(s.stored, h) + [Expected(h, request, probe, file)]
    ensures TxnsOf(Run(s, calls).txns, h) == TxnsOf(s.txns, h)
  {
    Independent(s, calls, h);
    LookupShare(s.txns, h);
    Reassembled(View(s, h), h, request, probe, host, file, device);
  }

  // ------------------------------------------------------------- an orderly host

  lemma OrderlyPair(s: Hook, h: nat, probe: Probe, p: Packet, ps: seq<Packet>, device: nat -> Packet, k: nat)
    requires Orderly(s, h, p, probe)
    requires OrderlyRun(Get(Put(s, h, p, probe), h, device(k)), Alternate(h, probe, ps, device, k + 1))
    ensures OrderlyRun(s, Alternate(h, probe, [p] + ps, device, k))
  {
    hide Put, Get, Orderly, OrderlyRun, Alternate;
    var put, get, rest := Call(h, PutOp(p, probe)), Call(h, GetOp(device(k))), Alternate(h, probe, ps, device, k + 1);
    AlternateFirst(h, probe, p, ps, device, k);
    OrderlyCall(Put(s, h, p, probe), get, rest);
    OrderlyCall(s, put, [get] + rest);
  }

  lemma OrderlyCall(s: Hook, c: Call, rest: seq<Call>)
    requires c.op.PutOp? ==> Orderly(s, c.handle, c.op.packet, c.op.probe)
    requires OrderlyRun(Apply(s, c), rest)
    ensures OrderlyRun(s, [c] + rest)
  {
    hide Apply, Orderly;
    assert ([c] + rest)[1..] == rest;
  }

  lemma BlockFits(s: Hook, t: Txn, rest: seq<Txn>, h: nat, probe: Probe, host: Host, file: seq<bv8>, size: nat, at: nat, k: nat)
    requires s.txns == [t] + rest && Loading(t, h, file, size, at)
    ensures Orderly(s, h, BlockAt(host, file, size, at, k), probe)
  {
    Head(t, rest, t);
  }

  lemma {:induction false} BlocksOrderly(s: Hook, t: Txn, rest: seq<Txn>, h: nat, probe: Probe, host: Host, device: nat -> Packet,
                                         file: seq<bv8>, size: nat, at: nat, k: nat)
    requires s.txns == [t] + rest && size > 0 && Loading(t, h, file, size, at)
    ensures OrderlyRun(s, Alternate(h, probe, Blocks(host, file, size, at, k), device, k))
    decreases |file| - at
  {
    hide Put, Get, Received, Confirmation, Moved, Orderly;
    var p := BlockAt(host, file, size, at, k);
    var t' := Received(t, p);
    BlockFits(s, t, rest, h, probe, host, file, size, at, k);
    if |file| - at <= size {
      assert Blocks(host, file, size, at, k) == [p] + [] && [p] + [] == [p];
      OrderlyPair(s, h, probe, p, [], device, k);
    } else {
      BlockLoads(t, h, host, file, size, at, k);
      Exchanged(s, t, rest, p, probe, device(k));
      var next := Moved(s, [t'] + rest, t, p, device(k));
      MovedTxns(s, [t'] + rest, t, p, device(k));
      BlocksOrderly(next, t', rest, h, probe, host, device, file, size, at + size, k + 1);
      OrderlyPair(s, h, probe, p, Blocks(host, file, size, at + size, k + 1), device, k);
    }
  }

  /** The host of Reassembled is one the source can serve: every block it puts fits the file buffer,
      and it never puts on an ended transaction. */
  lemma DownloadOrderly(s: Hook, h: nat, request: Packet, probe: Probe, host: Host, file: seq<bv8>, device: nat -> Packet)
    requires Idle(s, h) && Keeps(request, probe, file) && Accepts(request, probe, device(0))
    requires Negotiated(request, probe, device(0)) > 0
    ensures OrderlyRun(s, Alternate(h, probe, Download(request, probe, host, file, device(0)), device, 0))
  {
    hide KindOf, Started, OrderlyRun, Alternate, Blocks;
    StartedIs(h, request, probe, file, device(0));
    StartOrderly(s, Started(h, request, probe, device(0)), h, request, probe, host, file, device);
  }

  lemma StartOrderly(s: Hook, t: Txn, h: nat, request: Packet, probe: Probe, host: Host, file: seq<bv8>, device: nat -> Packet)
    requires Idle(s, h) && Keeps(request, probe, file) && Accepts(request, probe, device(0))
    requires t == Started(h, request, probe, device(0)) && t.maxBlock > 0
    ensures OrderlyRun(s, Alternate(h, probe, [request] + Blocks(host, file, t.maxBlock, 0, 1), device, 0))
  {
    hide Put, Get, Moved, Loading, OrderlyRun, Alternate, KindOf, Blocks, Started;
    RequestStarts(s, h, request, probe, file, device(0));
    var next := Moved(s, [t] + s.txns, t, request, device(0));
    MovedTxns(s, [t] + s.txns, t, request, device(0));
    BlocksOrderly(next, t, s.txns, h, probe, host, device, file, t.maxBlock, 0, 1);
    OrderlyPair(s, h, probe, request, Blocks(host, file, t.maxBlock, 0, 1), device, 0);
  }

  // ------------------------------------------------------------------- refusals

  /** A request the device refuses leaves its transaction in the list. The handle stays idle, so later
      downloads on it are stored all the same. */
  lemma RefusedLingers(s: Hook, h: nat, request: Packet, probe: Probe, file: seq<bv8>, answer: Packet)
    requires Idle(s, h) && Keeps(request, probe, file) && !Accepts(request, probe, answer)
    requires answer.body.DownloadCnf? ==> answer.body.status != 0
    ensures var t := NewTxn(h, request, probe); var after := Get(Put(s, h, request, probe), h, answer);
            after.txns == [t] + s.txns && after.stored == s.stored && Idle(after, h)
  {
    hide KindOf, Lookup, Replace, Remove, Shortened;
    var t := NewTxn(h, request, probe);
    Head(t, s.txns, Confirmed(t, answer));
    assert Put(s, h, request, probe) == s.(txns := [t] + s.txns, toDevice := s.toDevice + [Delivery(h, request)]);
  }

  // ------------------------------------------------------------------- aborting

  lemma AbortEnds(s: Hook, t: Txn, rest: seq<Txn>, probe: Probe, abort: Packet, fromDevice: Packet)
    requires s.txns == [t] + rest && t.phase == DataTransfer && t.conf == None && abort.body.AbortReq?
    ensures var after := Get(Put(s, t.handle, abort, probe), t.handle, fromDevice);
            after.txns == rest && after.stored == s.stored
  {
    Exchanged(s, t, rest, abort, probe, fromDevice);
  }

  lemma {:induction false} TransferAborts(s: Hook, t: Txn, rest: seq<Txn>, h: nat, probe: Probe, host: Host, device: nat -> Packet,
                                          file: seq<bv8>, size: nat, at: nat, k: nat, n: nat, abort: Packet)
    requires s.txns == [t] + rest && size > 0 && Loading(t, h, file, size, at) && abort.body.AbortReq?
    requires n < |Blocks(host, file, size, at, k)|
    ensures var after := Run(s, Alternate(h, probe, Blocks(host, file, size, at, k)[..n] + [abort], device, k));
            after.txns == rest && after.stored == s.stored
    decreases n
  {
    hide Put, Get, Received, Confirmation, Moved;
    var all := Blocks(host, file, size, at, k);
    if n == 0 {
      AbortEnds(s, t, rest, probe, abort, device(k));
      Pair(s, h, probe, abort, [], device, k);
      assert all[..0] + [abort] == [abort] + [];
      NoMore(Get(Put(s, h, abort, probe), h, device(k)), h, probe, device, k + 1);
    } else {
      var p := BlockAt(host, file, size, at, k);
      var t' := Received(t, p);
      assert |file| - at > size;
      var ps := Blocks(host, file, size, at + size, k + 1);
      assert all == [p] + ps;
      assert all[..n] + [abort] == [p] + (ps[..n - 1] + [abort]);
      BlockLoads(t, h, host, file, size, at, k);
      Exchanged(s, t, rest, p, probe, device(k));
      Pair(s, h, probe, p, ps[..n - 1] + [abort], device, k);
      var next := Moved(s, [t'] + rest, t, p, device(k));
      MovedTxns(s, [t'] + rest, t, p, device(k));
      TransferAborts(next, t', rest, h, probe, host, device, file, size, at + size, k + 1, n - 1, abort);
    }
  }

  lemma NoMore(s: Hook, h: nat, probe: Probe, device: nat -> Packet, k: nat)
    ensures Run(s, Alternate(h, probe, [], device, k)) == s
  {}

  /** A download aborted before its last block, after however many blocks: the callback is not called
      and no transaction is left over. */
  lemma AbortedNeverStored(s: Hook, h: nat, request: Packet, probe: Probe, host: Host, file: seq<bv8>, device: nat -> Packet, n: nat, abort: Packet)
    requires Idle(s, h) && Keeps(request, probe, file) && Accepts(request, probe, device(0)) && abort.body.AbortReq?
    ensures Negotiated(request, probe, device(0)) > 0
    ensures var blocks := Blocks(host, file, Negotiated(request, probe, device(0)), 0, 1);
            n < |blocks| ==>
              var after := Run(s, Alternate(h, probe, [request] + (blocks[..n] + [abort]), device, 0));
              after.txns == s.txns && after.stored == s.stored
  {
    var t := Started(h, request, probe, device(0));
    var blocks := Blocks(host, file, t.maxBlock, 0, 1);
    if n < |blocks| {
      RequestStarts(s, h, request, probe, file, device(0));
      hide Put, Get, Received, Confirmation, KindOf, Shortened, Intercepted;
      var next := Moved(s, [t] + s.txns, t, request, device(0));
      Pair(s, h, probe, request, blocks[..n] + [abort], device, 0);
      TransferAborts(next, t, s.txns, h, probe, host, device, file, t.maxBlock, 0, 1, n, abort);
    }
  }

  // ------------------------------------------------------------- any host at all

  /** The copy of a data block writes past the end of the file buffer; the source does not check. */
  predicate LeavesBuffer(t: Txn, p: Packet) {
    p.body.DataReq? &&
    if p.body.ext == SEQ_FIRST || p.body.ext == SEQ_MIDDLE then t.pos + t.maxBlock > |t.buf|
    else (p.body.ext == SEQ_LAST || p.body.ext == SEQ_NONE) && t.pos + |p.body.data| > |t.buf|
  }

  /** A first or middle block of a handle. */
  predicate IsFullBlock(c: Call, h: nat) {
    c.handle == h && c.op.PutOp? && c.op.packet.body.DataReq?
    && (c.op.packet.body.ext == SEQ_FIRST || c.op.packet.body.ext == SEQ_MIDDLE)
  }

  function FullBlocks(calls: seq<Call>, h: nat): nat {
    if calls == [] then 0 else (if IsFullBlock(calls[0], h) then 1 else 0) + FullBlocks(calls[1..], h)
  }

  /** A call that does not end the transfer of a handle: any call on another one, any get, any packet
      that is no download request, any data block but a last or only one. */
  predicate Continues(c: Call, h: nat) {
    c.handle == h && c.op.PutOp? && IsDownload(c.op.packet) ==>
      c.op.packet.body.DataReq? && c.op.packet.body.ext != SEQ_LAST && c.op.packet.body.ext != SEQ_NONE
  }

  /** The transfer has gone on by n full blocks. */
  predicate Advanced(t: Txn, u: Txn, n: nat) {
    && u.phase == DataTransfer && u.maxBlock == t.maxBlock && |u.buf| == |t.buf| && u.size == t.size
    && u.pos == t.pos + n * t.maxBlock
  }

  lemma {:induction false} LookupReplace(txns: seq<Txn>, h: nat, t: Txn)
    requires Lookup(txns, h).Some? && t.handle == h
    ensures Lookup(Replace(txns, h, t), h) == Some(t)
  {
    if txns[0].handle != h {
      LookupReplace(txns[1..], h, t);
      assert ([txns[0]] + Replace(txns[1..], h, t))[1..] == Replace(txns[1..], h, t);
    }
  }

  lemma ForwardLookup(s: Hook, h: nat, p: Packet, t: Txn)
    requires Lookup(s.txns, h) == Some(t) && t.handle == h
    ensures var u := Lookup(Forward(s, h, p, Some(t)).txns, h); u.Some? && u.value == t.(conf := u.value.conf)
  {
    hide Lookup, Replace;
    LookupReplace(s.txns, h, t.(conf := Some(Confirmation(t, p))));
  }

  lemma BlockAdvances(t: Txn, p: Packet)
    requires t.phase == DataTransfer && p.body.DataReq? && p.body.ext != SEQ_LAST && p.body.ext != SEQ_NONE
    ensures Advanced(t, Received(t, p), if p.body.ext == SEQ_FIRST || p.body.ext == SEQ_MIDDLE then 1 else 0)
  {}

  lemma CallAdvances(s: Hook, c: Call, h: nat, t: Txn)
    requires Lookup(s.txns, h) == Some(t) && t.phase == DataTransfer && Continues(c, h)
    ensures var u := Lookup(Apply(s, c).txns, h);
            u.Some? && Advanced(t, u.value, if IsFullBlock(c, h) then 1 else 0)
  {
    LookupShare(s.txns, h);
    hide Lookup, Replace, Forward, Received, Begin;
    if c.handle != h {
      ApplyShare(s, c, h);
      LookupShare(Apply(s, c).txns, h);
    } else if c.op.GetOp? {
      LookupReplace(s.txns, h, Confirmed(t, Fetched(Some(t), c.op.fromDevice)));
    } else if IsDownload(c.op.packet) {
      var p := c.op.packet;
      var t' := Received(t, p);
      BlockAdvances(t, p);
      ReceivedHandle(t, p);
      LookupReplace(s.txns, h, t');
      ForwardLookup(s.(txns := Replace(s.txns, h, t')), h, p, t');
    }
  }

  lemma {:induction false} RunAdvances(s: Hook, calls: seq<Call>, h: nat, t: Txn)
    requires Lookup(s.txns, h) == Some(t) && t.phase == DataTransfer
    requires forall i :: 0 <= i < |calls| ==> Continues(calls[i], h)
    ensures var u := Lookup(Run(s, calls).txns, h); u.Some? && Advanced(t, u.value, FullBlocks(calls, h))
    decreases |calls|
  {
    hide Lookup, Apply, Continues, IsFullBlock;
    if calls != [] {
      CallAdvances(s, calls[0], h, t);
      var m := Lookup(Apply(s, calls[0]).txns, h).value;
      RunAdvances(Apply(s, calls[0]), calls[1..], h, m);
    }
  }

  /** For every host, in any interleaving with calls on other handles: a data block is copied past the
      end of the file buffer exactly if the blocks before it, each counted with the negotiated size
      whatever it holds, and the block itself, come to more than the announced length. */
  lemma OverrunExactly(s: Hook, calls: seq<Call>, h: nat, t: Txn, p: Packet)
    requires Lookup(s.txns, h) == Some(t) && t.phase == DataTransfer && t.pos == 0 && |t.buf| == t.size
    requires forall i :: 0 <= i < |calls| ==> Continues(calls[i], h)
    ensures var u := Lookup(Run(s, calls).txns, h);
            var sent := FullBlocks(calls, h) * t.maxBlock;
            u.Some? && (LeavesBuffer(u.value, p) <==>
                        p.body.DataReq? &&
                        if p.body.ext == SEQ_FIRST || p.body.ext == SEQ_MIDDLE then sent + t.maxBlock > t.size
                        else (p.body.ext == SEQ_LAST || p.body.ext == SEQ_NONE) && sent + |p.body.data| > t.size)
  {
    hide Lookup, Run, Continues;
    RunAdvances(s, calls, h, t);
  }

  /** Where transfers start: a buffer of the announced length, and nothing in it yet. */
  predicate Sized(txns: seq<Txn>) {
    forall i :: 0 <= i < |txns| ==> |txns[i].buf| == txns[i].size && (txns[i].phase == Request ==> txns[i].pos == 0)
  }

  lemma {:induction false} ReplaceSized(txns: seq<Txn>, h: nat, t: Txn)
    requires Sized(txns) && Sized([t])
    ensures Sized(Replace(txns, h, t))
  {
    assert |[t][0].buf| == [t][0].size;
    if txns != [] && txns[0].handle != h {
      ReplaceSized(txns[1..], h, t);
    }
  }

  lemma {:induction false} RemoveSized(txns: seq<Txn>, h: nat)
    requires Sized(txns)
    ensures Sized(Remove(txns, h))
  {
    if txns != [] && txns[0].handle != h {
      RemoveSized(txns[1..], h);
    }
  }

  lemma {:induction false} LookupSized(txns: seq<Txn>, h: nat)
    requires Sized(txns)
    ensures Lookup(txns, h).Some? ==> Sized([Lookup(txns, h).value])
  {
    if txns != [] && txns[0].handle != h {
      LookupSized(txns[1..], h);
    }
  }

  lemma ForwardSized(s: Hook, h: nat, p: Packet, t: Option<Txn>)
    requires Sized(s.txns) && (t.Some? ==> Sized([t.value]))
    ensures Sized(Forward(s, h, p, t).txns)
  {
    hide Replace;
    if t.Some? {
      var held := t.value.(conf := Some(Confirmation(t.value, p)));
      assert [t.value][0] == t.value && Sized([held]);
      ReplaceSized(s.txns, h, held);
    }
  }

  lemma BeginSized(s: Hook, h: nat, p: Packet, probe: Probe)
    requires Sized(s.txns)
    ensures Sized(Begin(s, h, p, probe).txns)
  {
    hide Forward, Lookup, KindOf;
    LookupSized(s.txns, h);
    if Opens(p, probe) {
      var t := NewTxn(h, p, probe);
      assert Sized([t]) && Sized([t] + s.txns);
      ForwardSized(s.(txns := [t] + s.txns), h, p, Some(t));
    } else {
      ForwardSized(s, h, p, if Wanted(p, probe) then None else Lookup(s.txns, h));
    }
  }

  lemma ReceivedSized(t: Txn, p: Packet)
    requires Sized([t]) && t.phase == DataTransfer
    ensures Sized([Received(t, p)])
  {
    assert [t][0] == t;
  }

  lemma ApplySized(s: Hook, c: Call)
    requires Sized(s.txns)
    ensures Sized(Apply(s, c).txns)
  {
    var h := c.handle;
    LookupSized(s.txns, h);
    RemoveSized(s.txns, h);
    hide Lookup, Replace, Remove, Begin, Forward, Received;
    match c.op
    case PutOp(p, probe) =>
      BeginSized(s, h, p, probe);
      BeginSized(s.(txns := Remove(s.txns, h)), h, p, probe);
      if Lookup(s.txns, h).Some? && Lookup(s.txns, h).value.phase == DataTransfer {
        var t' := Received(Lookup(s.txns, h).value, p);
        ReceivedSized(Lookup(s.txns, h).value, p);
        ReplaceSized(s.txns, h, t');
        ForwardSized(s.(txns := Replace(s.txns, h, t')), h, p, Some(t'));
      }
    case GetOp(fromDevice) =>
      if Lookup(s.txns, h).Some? {
        var t := Lookup(s.txns, h).value;
        var t' := Confirmed(t, Fetched(Some(t), fromDevice));
        assert [t][0] == t && Sized([t']);
        ReplaceSized(s.txns, h, t');
      }
  }

  /** From an empty list on, for every host: a transaction whose request is not yet confirmed has a
      buffer of the announced length and nothing in it. */
  lemma {:induction false} RunSized(s: Hook, calls: seq<Call>)
    requires Sized(s.txns)
    ensures Sized(Run(s, calls).txns)
    decreases |calls|
  {
    hide Apply, Sized;
    if calls != [] {
      ApplySized(s, calls[0]);
      RunSized(Apply(s, calls[0]), calls[1..]);
    }
  }
}
