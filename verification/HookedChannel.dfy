/** The download hook as the source runs it: a list of transactions that the two packet functions
    search, change and shorten in place. */
module HookedChannel {
  import opened Options
  import opened DownloadHook

  /** The position of a handle's newest transaction, or the length of the list if there is none. */
  ghost predicate FirstOf(txns: seq<Txn>, h: nat, i: nat) {
    && i <= |txns|
    && (forall j :: 0 <= j < i ==> txns[j].handle != h)
    && (i < |txns| ==> txns[i].handle == h)
  }

  lemma {:induction false} FoundReplace(txns: seq<Txn>, h: nat, i: nat, t: Txn)
    requires FirstOf(txns, h, i) && i < |txns|
    ensures Replace(txns, h, t) == txns[i := t]
    decreases |txns|
  {
    if i > 0 {
      FoundReplace(txns[1..], h, i - 1, t);
      assert txns[i := t] == [txns[0]] + txns[1..][i - 1 := t];
    } else {
      assert txns[0 := t] == [t] + txns[1..];
    }
  }

  lemma {:induction false} FoundRemove(txns: seq<Txn>, h: nat, i: nat)
    requires FirstOf(txns, h, i) && i < |txns|
    ensures Lookup(txns, h) == Some(txns[i]) && Remove(txns, h) == txns[..i] + txns[i + 1..]
    decreases |txns|
  {
    if i > 0 {
      FoundRemove(txns[1..], h, i - 1);
      assert txns[..i] + txns[i + 1..] == [txns[0]] + (txns[1..][..i - 1] + txns[1..][i..]);
    } else {
      assert txns[..0] + txns[1..] == txns[1..];
    }
  }

  lemma Found(txns: seq<Txn>, h: nat, i: nat, t: Txn)
    requires FirstOf(txns, h, i) && i < |txns|
    ensures Lookup(txns, h) == Some(txns[i])
    ensures Replace(txns, h, t) == txns[i := t] && Remove(txns, h) == txns[..i] + txns[i + 1..]
  {
    FoundReplace(txns, h, i, t);
    FoundRemove(txns, h, i);
  }

  lemma {:induction false} Absent(txns: seq<Txn>, h: nat)
    requires FirstOf(txns, h, |txns|)
    ensures Lookup(txns, h) == None && Remove(txns, h) == txns
  {
    if txns != [] {
      Absent(txns[1..], h);
    }
  }

  class Channel {
    var txns: seq<Txn>
    var stored: seq<File>
    var toDevice: seq<Delivery>
    var toHost: seq<Delivery>

    ghost function State(): Hook
      reads this
    {
      Hook(txns, stored, toDevice, toHost)
    }

    constructor ()
      ensures State() == Hook([], [], [], [])
    {
      txns, stored, toDevice, toHost := [], [], [], [];
    }

    method GetTxnRsrc(h: nat) returns (i: nat)
      ensures FirstOf(txns, h, i)
    {
      i := 0;
      while i < |txns|
        invariant i <= |txns| && forall j :: 0 <= j < i ==> txns[j].handle != h
      {
        if txns[i].handle == h {
          break;
        }
        i := i + 1;
      }
    }

    method RemoveTxnRsrc(h: nat)
      modifies this`txns
      ensures txns == Remove(old(txns), h)
    {
      var i := GetTxnRsrc(h);
      if i < |txns| {
        Found(txns, h, i, txns[i]);
        txns := txns[..i] + txns[i + 1..];
      } else {
        Absent(txns, h);
      }
    }

    method CreateTxnRsrc(h: nat, p: Packet, probe: Probe)
      requires Opens(p, probe)
      modifies this`txns
      ensures txns == [NewTxn(h, p, probe)] + old(txns)
    {
      var buf := seq(p.body.fileLength, probe.memory.value);
      var t := Txn(h, probe.board.value, Request, p.body.channel, p.body.maxBlock, 0, !probe.fileSystem.value,
                   Shortened(p.body.name), KindOf(p.body.name), p.body.fileLength, buf, 0, None);
      txns := [t] + txns;
    }

    /** A request during the data transfer: the block is copied and the position moved on, or the
        transaction ends. */
    method Receive(i: nat, p: Packet)
      requires i < |txns| && Fits(txns[i], p)
      modifies this`txns
      ensures txns == old(txns)[i := Received(old(txns)[i], p)]
    {
      var t := txns[i];
      if p.body.DataReq? {
        if p.body.ext == SEQ_FIRST || p.body.ext == SEQ_MIDDLE {
          var block := p.body.data[..t.maxBlock];
          t := t.(buf := t.buf[..t.pos] + block + t.buf[t.pos + |block|..]);
          t := t.(pos := t.pos + t.maxBlock);
        } else if p.body.ext == SEQ_LAST || p.body.ext == SEQ_NONE {
          t := t.(buf := t.buf[..t.pos] + p.body.data + t.buf[t.pos + |p.body.data|..]);
          t := t.(phase := Finished);
        }
      } else if p.body.AbortReq? {
        t := t.(phase := Failed);
      } else {
        t := t.(error := PACKET_OUT_OF_SEQ, phase := Failed);
      }
      txns := txns[i := t];
    }
  
    method Begin(h: nat, p: Packet, probe: Probe) returns (i: nat)
      modifies this`txns
      ensures txns == if Opens(p, probe) then [NewTxn(h, p, probe)] + old(txns) else old(txns)
      ensures i <= |txns|
      ensures Opens(p, probe) ==> i == 0
      ensures !Opens(p, probe) ==> if Wanted(p, probe) then i == |txns| else FirstOf(txns, h, i)
    {
      hide KindOf;
      i := GetTxnRsrc(h);
      if p.body.DownloadReq? {
        var kind := KindOf(p.body.name);
        if kind == Firmware || kind == Configuration || kind == Modules {
          if probe.fileSystem.None? {
          } else if probe.board.None? {
          } else if probe.memory.None? {
            i := |txns|;
          } else {
            CreateTxnRsrc(h, p, probe);
            i := 0;
          }
        }
      }
    }

    /** The end of xDownloadHook_PutPacket; i is the transaction in hand, if any. */
    method Pass(h: nat, p: Packet, i: nat, deviceResult: int) returns (result: int)
      requires i < |txns| ==> FirstOf(txns, h, i)
      modifies this`txns, this`toDevice
      ensures State() == Forward(old(State()), h, p, if i < |old(txns)| then Some(old(txns)[i]) else None)
      ensures result == if i < |old(txns)| && Intercepted(old(txns)[i]) then 0 else deviceResult
    {
      if i < |txns| && txns[i].capture && txns[i].kind == Firmware {
        var t := txns[i].(conf := Some(Confirmation(txns[i], p)));
        Found(txns, h, i, t);
        txns := txns[i := t];
        result := 0;
      } else {
        toDevice := toDevice + [Delivery(h, p)];
        result := deviceResult;
      }
    }

    method BeginAndPass(h: nat, p: Packet, probe: Probe, deviceResult: int) returns (result: int)
      modifies this`txns, this`toDevice
      ensures State() == DownloadHook.Begin(old(State()), h, p, probe)
      ensures result == if |toDevice| > |old(toDevice)| then deviceResult else 0
    {
      hide KindOf, Lookup, Replace, Remove, Wanted, Confirmation, Shortened;
      var i := Begin(h, p, probe);
      if i < |txns| {
        assert FirstOf(txns, h, i);
        Found(txns, h, i, txns[i]);
      } else if !Wanted(p, probe) {
        Absent(txns, h);
      }
      result := Pass(h, p, i, deviceResult);
    }

    method ReceiveAndPass(h: nat, p: Packet, i: nat, deviceResult: int) returns (result: int)
      requires FirstOf(txns, h, i) && i < |txns| && Fits(txns[i], p)
      modifies this`txns, this`toDevice
      ensures var t' := Received(old(txns)[i], p);
              State() == Forward(old(State()).(txns := Replace(old(txns), h, t')), h, p, Some(t'))
      ensures result == if |toDevice| > |old(toDevice)| then deviceResult else 0
    {
      hide Lookup, Replace, Remove, Confirmation, Fits;
      Found(txns, h, i, Received(txns[i], p));
      assert Received(txns[i], p).handle == h;
      hide Received;
      Receive(i, p);
      result := Pass(h, p, i, deviceResult);
    }

    /** xDownloadHook_PutPacket. */
    method PutPacket(h: nat, p: Packet, probe: Probe, deviceResult: int) returns (result: int)
      requires Orderly(State(), h, p, probe)
      modifies this`txns, this`toDevice
      ensures State() == Put(old(State()), h, p, probe)
      ensures result == if |toDevice| > |old(toDevice)| then deviceResult else 0
    {
      hide Received, Lookup, Replace, Remove, Opens, Fits, Forward, DownloadHook.Begin;
      if !IsDownload(p) {
        toDevice := toDevice + [Delivery(h, p)];
        return deviceResult;
      }
      var i := GetTxnRsrc(h);
      if i < |txns| {
        Found(txns, h, i, txns[i]);
        match txns[i].phase {
          case DataTransfer =>
            result := ReceiveAndPass(h, p, i, deviceResult);
          case Request =>
            result := BeginAndPass(h, p, probe, deviceResult);
          case _ =>
            RemoveTxnRsrc(h);
            result := BeginAndPass(h, p, probe, deviceResult);
        }
      } else {
        Absent(txns, h);
        result := BeginAndPass(h, p, probe, deviceResult);
      }
    }

    /** xDownloadHook_GetPacket. */
    method GetPacket(h: nat, fromDevice: Packet, deviceResult: int, callbackResult: int) returns (got: Packet, result: int)
      modifies this`txns, this`stored, this`toHost
      ensures State() == Get(old(State()), h, fromDevice)
      ensures toHost == old(toHost) + [Delivery(h, got)]
      ensures result == if |stored| > |old(stored)| then callbackResult
                        else if HoldsConfirmation(Lookup(old(txns), h)) then 0 else deviceResult
    {
      hide Lookup, Replace, Remove;
      got, result := fromDevice, deviceResult;
      var i := GetTxnRsrc(h);
      if i == |txns| {
        Absent(txns, h);
        toHost := toHost + [Delivery(h, got)];
        return;
      }
      var t := txns[i];
      if t.capture && t.conf.Some? {
        got, result := t.conf.value, 0;
        t := t.(conf := None);
      }
      toHost := toHost + [Delivery(h, got)];
      Found(txns, h, i, Confirmed(txns[i], got));
      match t.phase {
        case Request =>
          if got.body.DownloadCnf? && got.body.status == 0 {
            if got.body.maxBlock < t.maxBlock {
              t := t.(maxBlock := got.body.maxBlock);
            }
            t := t.(phase := DataTransfer);
          }
          txns := txns[i := t];
        case DataTransfer =>
          txns := txns[i := t];
        case Finished =>
          stored := stored + [FileOf(t)];
          result := callbackResult;
          RemoveTxnRsrc(h);
        case Failed =>
          RemoveTxnRsrc(h);
      }
    }
  }
}
