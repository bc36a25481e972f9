/** The interrupt-driven SPI transfer of the AX99100 driver (cifx_m2/ax99100-pci-spi.c): a transfer of
    any length goes through eight data registers, one burst per interrupt. */
module SpiFifo {
  import opened Options
  import opened Bytes

  const FIFO: nat := 8

  /** What a device answers, byte by byte, to data sent after history; an answer may depend on
      everything that went over the wire before it. */
  function Answers(device: seq<bv8> -> bv8, history: seq<bv8>, data: seq<bv8>): (r: seq<bv8>)
    ensures |r| == |data|
  {
    if data == [] then []
    else Answers(device, history, data[..|data| - 1]) + [device(history + data[..|data| - 1])]
  }

  lemma {:induction false} AnswersSplit(device: seq<bv8> -> bv8, history: seq<bv8>, a: seq<bv8>, b: seq<bv8>)
    ensures Answers(device, history, a + b) == Answers(device, history, a) + Answers(device, history + a, b)
    decreases |b|
  {
    if b == [] {
      assert a + b == a;
    } else {
      var b' := b[..|b| - 1];
      assert (a + b)[..|a + b| - 1] == a + b';
      assert history + (a + b') == history + a + b';
      AnswersSplit(device, history, a, b');
    }
  }

  function Burst(left: nat): nat { if left < FIFO then left else FIFO }

  /** Interrupts until a transfer of n bytes is over. */
  function Interrupts(n: nat): nat { (n + FIFO - 1) / FIFO }

  lemma NextInterrupt(n: nat)
    requires n > 0
    ensures Interrupts(n) == 1 + Interrupts(n - Burst(n))
  {}

  // --------------------------------------------------- buffers as the driver holds them

  ghost function Contents(a: array?<bv8>): Option<seq<bv8>>
    reads a
  {
    if a == null then None else Some(a[..])
  }

  /** The bytes not yet loaded still stand in the transmit buffer; without one they are zeros. */
  ghost predicate Unsent(buf: Option<seq<bv8>>, pos: nat, left: nat, data: seq<bv8>) {
    && left <= |data|
    && match buf
       case None => forall k :: 0 <= k < |data| ==> data[k] == 0
       case Some(s) => |s| == |data| && pos == |data| - left && s[pos..] == data[pos..]
  }

  /** The receive buffer, if there is one, holds the answers to the bytes collected so far. */
  ghost predicate Collected(device: seq<bv8> -> bv8, history: seq<bv8>, buf: Option<seq<bv8>>, pos: nat, left: nat, data: seq<bv8>) {
    && left <= |data|
    && (buf.Some? ==>
          && |buf.value| == |data| && pos == |data| - left
          && buf.value[..pos] == Answers(device, history, data[..pos]))
  }

  function Overwritten(s: seq<bv8>, i: nat, part: seq<bv8>): seq<bv8>
    requires i + |part| <= |s|
  {
    s[..i] + part + s[i + |part|..]
  }

  /** Writing answers behind the bytes already loaded leaves the others alone: the two buffers may be
      one and the same. */
  lemma UnsentKept(s: seq<bv8>, i: nat, part: seq<bv8>, pos: nat, left: nat, data: seq<bv8>)
    requires Unsent(Some(s), pos, left, data) && i + |part| <= pos
    ensures Unsent(Some(Overwritten(s, i, part)), pos, left, data)
  {
    assert Overwritten(s, i, part)[pos..] == s[pos..];
  }

  lemma CollectedMore(device: seq<bv8> -> bv8, history: seq<bv8>, s: seq<bv8>, pos: nat, left: nat, data: seq<bv8>, b: nat)
    requires Collected(device, history, Some(s), pos, left, data) && b <= left
    ensures pos + b <= |data| == |s|
    ensures var part := Answers(device, history + data[..pos], data[pos..pos + b]);
            Collected(device, history, Some(Overwritten(s, pos, part)), pos + b, left - b, data)
  {
    var part := Answers(device, history + data[..pos], data[pos..pos + b]);
    AnswersSplit(device, history, data[..pos], data[pos..pos + b]);
    assert data[..pos] + data[pos..pos + b] == data[..pos + b];
    assert Overwritten(s, pos, part)[..pos + b] == s[..pos] + part;
  }

  lemma NoBuffer(device: seq<bv8> -> bv8, history: seq<bv8>, pos: nat, left: nat, pos': nat, left': nat, data: seq<bv8>)
    requires Collected(device, history, None, pos, left, data) && left' <= left
    ensures Collected(device, history, None, pos', left', data)
  {}

  lemma UnsentNext(buf: Option<seq<bv8>>, pos: nat, left: nat, data: seq<bv8>)
    requires Unsent(buf, pos, left, data) && left > 0
    ensures buf.Some? ==> pos < |buf.value| && buf.value[pos] == data[|data| - left] && Unsent(buf, pos + 1, left - 1, data)
    ensures buf.None? ==> left <= |data| && data[|data| - left] == 0 && Unsent(buf, pos, left - 1, data)
  {
    if buf.Some? {
      assert buf.value[pos] == buf.value[pos..][0];
      assert buf.value[pos + 1..] == buf.value[pos..][1..] && data[pos + 1..] == data[pos..][1..];
    }
  }

  lemma Bounds(device: seq<bv8> -> bv8, history: seq<bv8>, rx: Option<seq<bv8>>, rxPos: nat, rxLen: nat,
               tx: Option<seq<bv8>>, txPos: nat, txLen: nat, data: seq<bv8>)
    requires Unsent(tx, txPos, txLen, data) && Collected(device, history, rx, rxPos, rxLen, data)
    ensures txLen <= |data| && rxLen <= |data|
    ensures tx.Some? ==> |tx.value| == |data| && txPos == |data| - txLen
    ensures rx.Some? ==> |rx.value| == |data| && rxPos == |data| - rxLen
  {}

  class Controller {
    const device: seq<bv8> -> bv8
    const stof: array<bv8>
    var stol: nat
    var go: bool
    var interrupts: bool
    var stc: bool            // the completion bit of the status register
    var wire: seq<bv8>

    var useOpcf: bool
    var txBuf: array?<bv8>
    var rxBuf: array?<bv8>
    var txPos: nat
    var rxPos: nat
    var txLen: nat
    var rxLen: nat
    var finalised: nat

    ghost var data: seq<bv8>
    ghost var history: seq<bv8>

    constructor (device: seq<bv8> -> bv8)
      ensures Separate() && !useOpcf && !go && !stc && finalised == 0 && wire == [] && fresh(stof)
    {
      this.device, stof := device, new bv8[8];
      stol, go, interrupts, stc, wire, useOpcf := 0, false, false, false, [], false;
      txBuf, rxBuf, txPos, rxPos, txLen, rxLen, finalised := null, null, 0, 0, 0, 0, 0;
    }

    ghost predicate Separate()
      reads this
    {
      stof.Length == FIFO && txBuf != stof && rxBuf != stof
    }

    ghost predicate TxReady()
      reads this, txBuf
    {
      Unsent(Contents(txBuf), txPos, txLen, data)
    }

    ghost predicate RxDone()
      reads this, rxBuf
    {
      Collected(device, history, Contents(rxBuf), rxPos, rxLen, data)
    }

    ghost predicate Buffers()
      reads this, txBuf, rxBuf
    {
      Separate() && TxReady() && RxDone() && txLen <= rxLen <= |data|
    }

    /** Between bursts: everything loaded has been collected. */
    ghost predicate Between()
      reads this, txBuf, rxBuf
    {
      Buffers() && rxLen == txLen && !go && wire == history + data[..|data| - txLen]
    }

    /** A burst of rxLen - txLen bytes, at most eight, is loaded and started. */
    ghost predicate InFlight()
      reads this, txBuf, rxBuf, stof
    {
      && Buffers() && useOpcf && interrupts && go
      && rxLen > 0 && rxLen - txLen == Burst(rxLen) && stol == rxLen - txLen - 1
      && stof[..rxLen - txLen] == data[|data| - rxLen..|data| - txLen]
      && wire == history + data[..|data| - rxLen]
    }

    /** The burst has gone over the wire and the registers hold the answers. */
    ghost predicate Exchanged()
      reads this, txBuf, rxBuf, stof
    {
      && Buffers() && useOpcf && interrupts && !go
      && rxLen > 0 && rxLen - txLen == Burst(rxLen)
      && stof[..rxLen - txLen] == Answers(device, history + data[..|data| - rxLen], data[|data| - rxLen..|data| - txLen])
      && wire == history + data[..|data| - txLen]
    }

    ghost predicate Complete()
      reads this, txBuf, rxBuf
    {
      Between() && txLen == 0 && !useOpcf && !interrupts
    }

    /** The chip: the loaded registers go over the wire, each exchanged for the device's answer. */
    method Shift()
      requires stol < stof.Length
      modifies this`go, this`wire, stof
      ensures var sent := old(stof[..stol + 1]);
              wire == old(wire) + sent && stof[..stol + 1] == Answers(device, old(wire), sent) && !go
    {
      hide Answers;
      ghost var n, sent, before := stol + 1, stof[..stol + 1], wire;
      ghost var answers := Answers(device, before, sent);
      for i := 0 to stol + 1
        invariant wire == before + sent[..i]
        invariant forall k :: 0 <= k < i ==> stof[k] == answers[k]
        invariant forall k :: i <= k < n ==> stof[k] == sent[k]
      {
        var byte := stof[i];
        AnswerAt(device, before, sent, i);
        stof[i] := device(wire);
        Extended(before, sent, i);
        wire := wire + [byte];
      }
      assert sent[..n] == sent;
      go := false;
    }

    /** A burst completes, and the status register says so. */
    method Exchange()
      requires InFlight()
      modifies this`go, this`wire, this`stc, stof
      ensures Exchanged() && stc
    {
      hide Answers, Burst, Unsent, Collected, Contents;
      ghost var n := |data|;
      BurstFits(rxLen);
      Adjacent(history, data, n - rxLen, n - txLen);
      Shift();
      stc := true;
    }

    /** Copies registers to the receive buffer and counts them off. */
    method Drain(nbytes: nat)
      requires Separate() && nbytes <= FIFO && nbytes <= rxLen && (rxBuf != null ==> rxPos + nbytes <= rxBuf.Length)
      modifies this`rxLen, this`rxPos, rxBuf
      ensures rxLen == old(rxLen) - nbytes
      ensures rxBuf != null ==>
                rxPos == old(rxPos) + nbytes
                && rxBuf[..] == Overwritten(old(rxBuf[..]), old(rxPos), stof[..nbytes])
    {
      ghost var p, r := rxPos, rxLen;
      for i := 0 to nbytes
        invariant rxLen == r - i
        invariant rxBuf != null ==>
                    rxPos == p + i && rxBuf[..] == Overwritten(old(rxBuf[..]), p, stof[..i])
      {
        rxLen := rxLen - 1;
        var byte := stof[i];
        assert stof[..i + 1] == stof[..i] + [byte];
        if rxBuf != null {
          OverwriteNext(old(rxBuf[..]), p, stof[..i], byte);
          rxBuf[rxPos] := byte;
          rxPos := rxPos + 1;
        }
      }
    }

    /** ax99100_pci_spi_read_fifo after a burst. */
    method ReadFifo()
      requires Exchanged()
      modifies this`rxLen, this`rxPos, rxBuf
      ensures Between() && useOpcf && txLen == old(txLen)
    {
      hide Answers, Burst, Unsent, Collected, Overwritten;
      var nbytes := Burst(rxLen);
      BurstFits(rxLen);
      ghost var n, p, r := |data|, rxPos, rxLen;
      ghost var tx, rx := Contents(txBuf), Contents(rxBuf);
      Bounds(device, history, rx, rxPos, rxLen, tx, txPos, txLen, data);
      if rx.Some? {
        CollectedMore(device, history, rx.value, p, r, data, nbytes);
        if tx.Some? {
          assert stof[..nbytes] == stof[..rxLen - txLen];
          UnsentKept(tx.value, p, stof[..nbytes], txPos, txLen, data);
        }
      }
      Drain(nbytes);
      if rx.None? {
        NoBuffer(device, history, p, r, rxPos, rxLen, data);
      }
      assert Contents(rxBuf) == if rx.None? then None else Some(Overwritten(rx.value, p, stof[..nbytes]));
      assert Contents(txBuf) == if tx.Some? && txBuf == rxBuf then Some(Overwritten(tx.value, p, stof[..nbytes])) else tx;
      assert RxDone();
      assert TxReady();
    }

    /** Loads registers from the transmit buffer, or with zeros, and counts them off. */
    method Fill(nbytes: nat)
      requires Separate() && TxReady() && nbytes <= FIFO && nbytes <= txLen <= |data|
      modifies this`txLen, this`txPos, stof
      ensures txLen == old(txLen) - nbytes && TxReady()
      ensures stof[..nbytes] == data[|data| - old(txLen)..|data| - txLen]
    {
      hide Unsent;
      ghost var n, t := |data|, txLen;
      for i := 0 to nbytes
        invariant txLen == t - i && TxReady()
        invariant forall k :: 0 <= k < i ==> stof[k] == data[n - t + k]
      {
        UnsentNext(Contents(txBuf), txPos, txLen, data);
        var byte: bv8 := 0;
        if txBuf != null {
          byte := txBuf[txPos];
          txPos := txPos + 1;
        }
        txLen := txLen - 1;
        stof[i] := byte;
      }
    }

    /** ax99100_pci_spi_write_fifo: starts the next burst, or finishes the transfer if nothing is left. */
    method WriteFifo()
      requires Between()
      modifies this`txLen, this`txPos, this`useOpcf, this`interrupts, this`go, this`stol, this`finalised, stof
      ensures if old(txLen) == 0 then Complete() && finalised == old(finalised) + 1
              else InFlight() && rxLen == old(txLen) && finalised == old(finalised)
    {
      hide Answers, Burst, Unsent, Collected, Contents;
      var nbytes := Burst(txLen);
      BurstFits(txLen);
      if nbytes == 0 {
        useOpcf := false;
        interrupts := false;
        finalised := finalised + 1;
        return;
      }
      useOpcf := true;
      Launch(nbytes);
    }

    method Launch(nbytes: nat)
      requires Between() && useOpcf && txLen > 0 && nbytes == Burst(txLen)
      modifies this`txLen, this`txPos, this`interrupts, this`go, this`stol, stof
      ensures InFlight() && rxLen == old(txLen)
    {
      hide Answers, Burst, Unsent, Collected, Contents;
      BurstFits(txLen);
      stol := nbytes - 1;
      Fill(nbytes);
      interrupts := true;
      go := true;
    }

    lemma Opened()
      requires Separate() && !go && rxLen == txLen == |data| && wire == history && rxPos == txPos == 0
      requires if txBuf == null then data == Zeros(|data|) else data == txBuf[..]
      requires rxBuf != null ==> rxBuf.Length == |data|
      ensures Between()
    {
      assert data[..0] == [] && history + [] == wire;
    }

    /** The FIFO branch of ax99100_pci_spi_transfer_one; the two buffers may be one. */
    method TransferOne(tx: array?<bv8>, rx: array?<bv8>, len: nat)
      requires stof.Length == FIFO && tx != stof && rx != stof && !go
      requires (tx != null ==> tx.Length == len) && (rx != null ==> rx.Length == len)
      modifies this, stof
      ensures stc == old(stc)
      ensures data == (if tx == null then Zeros(len) else tx[..]) && history == old(wire)
      ensures txBuf == tx && rxBuf == rx
      ensures if len == 0 then Complete() && finalised == old(finalised) + 1
              else InFlight() && rxLen == len && finalised == old(finalised)
    {
      hide Zeros, InFlight, Complete, Between;
      data := if tx == null then Zeros(len) else tx[..];
      history := wire;
      rxBuf, txBuf, rxPos, txPos := rx, tx, 0, 0;
      rxLen, txLen := len, len;
      Opened();
      WriteFifo();
    }

    /** The interrupt. The status is read first and written back, which clears what it reported, last;
        early says that the burst started in between is already over by then. */
    method Isr(early: bool)
      requires stc && useOpcf ==> Exchanged()
      requires early ==> stc && useOpcf && txLen > 0
      modifies this, rxBuf, stof
      ensures data == old(data) && history == old(history) && txBuf == old(txBuf) && rxBuf == old(rxBuf) && !stc
      ensures if !old(stc) || !old(useOpcf) then
                finalised == old(finalised) && useOpcf == old(useOpcf) && go == old(go) && wire == old(wire)
                && stof[..] == old(stof[..]) && (rxBuf != null ==> rxBuf[..] == old(rxBuf[..]))
                && txLen == old(txLen) && rxLen == old(rxLen)
              else if old(txLen) == 0 then Complete() && finalised == old(finalised) + 1
              else rxLen == old(txLen) && finalised == old(finalised) && if early then Exchanged() else InFlight()
    {
      hide Answers, Burst, Unsent, Collected, Contents, InFlight, Exchanged, Complete, Between;
      var status := stc;
      if status {
        if useOpcf {
          ReadFifo();
          WriteFifo();
        }
      }
      if early {
        Exchange();
      }
      WriteBack(status);
    }

    /** A one written to the status register clears the bit. */
    method WriteBack(status: bool)
      modifies this`stc
      ensures stc == (old(stc) && !status)
      ensures old(InFlight()) ==> InFlight()
      ensures old(Exchanged()) ==> Exchanged()
      ensures old(Complete()) ==> Complete()
    {
      hide Answers, Burst, Unsent, Collected, Contents;
      if status {
        stc := false;
      }
    }

    /** A transfer of any length from its start to its end. early(j) says that the burst started by
        interrupt j is over before that interrupt writes the status back, which then wipes out the
        completion. If that never happens, then after exactly ceil(n / 8) interrupts the wire has
        carried the transmit buffer or zeros, the receive buffer holds the device's answers in order,
        and the transfer was finalised once. If it happens, no further interrupt comes and the transfer
        is never finalised. */
    method Transfer(tx: array?<bv8>, rx: array?<bv8>, len: nat, early: nat -> bool) returns (count: nat)
      requires stof.Length == FIFO && tx != stof && rx != stof && !go && !stc
      requires (tx != null ==> tx.Length == len) && (rx != null ==> rx.Length == len)
      modifies this, stof, rx
      ensures var sent := if tx == null then Zeros(len) else old(tx[..]);
              if Seen(early, Interrupts(len)) then
                && wire == old(wire) + sent && (rx != null ==> rx[..] == Answers(device, old(wire), sent))
                && finalised == old(finalised) + 1 && !useOpcf && !interrupts && !go && count == Interrupts(len)
              else
                && finalised == old(finalised) && useOpcf && !go && !stc
                && 0 < count < Interrupts(len) && early(count - 1) && Seen(early, count)
    {
      hide Answers, Interrupts, Burst, InFlight, Exchanged, Complete, Between, Buffers, Separate, Zeros;
      ghost var sent := if tx == null then Zeros(len) else tx[..];
      ghost var before, done := wire, finalised;
      TransferOne(tx, rx, len);
      count := 0;
      NoInterrupt(0);
      NoInterrupt(len);
      Flags();
      while useOpcf && go
        invariant data == sent && history == before && txBuf == tx && rxBuf == rx && !stc
        invariant Seen(early, count)
        invariant if !useOpcf then Complete() && finalised == done + 1 && count == Interrupts(len)
                  else if go then
                    InFlight() && finalised == done && count + Interrupts(rxLen) == Interrupts(len)
                    && (count > 0 ==> !early(count - 1))
                  else finalised == done && 0 < count < Interrupts(len) && early(count - 1)
        decreases if useOpcf then rxLen + 1 else 0, if go then 1 else 0
      {
        Flags();
        NextInterrupt(rxLen);
        NoInterrupt(txLen);
        BurstFits(rxLen);
        Exchange();
        Isr(early(count) && txLen > 0);
        count := count + 1;
        Flags();
      }
      if !useOpcf {
        Outcome();
      }
    }

    lemma Flags()
      ensures InFlight() ==> useOpcf && go && rxLen > 0 && txLen == rxLen - Burst(rxLen)
      ensures Exchanged() ==> useOpcf && !go
      ensures Complete() ==> !useOpcf
    {
      hide Answers, Burst, Unsent, Collected, Contents;
    }

    lemma Outcome()
      requires Complete()
      ensures !interrupts && !go && wire == history + data
      ensures rxBuf != null ==> rxBuf[..] == Answers(device, history, data)
    {
      hide Answers, Burst;
      assert data[..|data|] == data;
      if rxBuf != null {
        assert rxBuf[..][..|data|] == rxBuf[..];
      }
    }
  }

  lemma NoInterrupt(n: nat)
    ensures Interrupts(n) == 0 <==> n == 0
  {}

  /** Of the first n interrupts, no completion before the last one's is wiped out. */
  ghost predicate Seen(early: nat -> bool, n: nat) {
    forall j: nat :: j + 1 < n ==> !early(j)
  }

  lemma BurstFits(left: nat)
    ensures Burst(left) <= FIFO && Burst(left) <= left && (Burst(left) == 0 <==> left == 0)
  {}

  lemma {:induction false} AnswerAt(device: seq<bv8> -> bv8, history: seq<bv8>, data: seq<bv8>, i: nat)
    requires i < |data|
    ensures Answers(device, history, data)[i] == device(history + data[..i])
  {
    var n := |data| - 1;
    if i < n {
      AnswerAt(device, history, data[..n], i);
      assert data[..n][..i] == data[..i];
    }
  }

  lemma Extended(before: seq<bv8>, sent: seq<bv8>, i: nat)
    requires i < |sent|
    ensures before + sent[..i] + [sent[i]] == before + sent[..i + 1]
  {}

  lemma Adjacent(history: seq<bv8>, data: seq<bv8>, i: nat, j: nat)
    requires i <= j <= |data|
    ensures history + data[..i] + data[i..j] == history + data[..j]
  {}

  lemma OverwriteNext(s: seq<bv8>, i: nat, part: seq<bv8>, byte: bv8)
    requires i + |part| < |s|
    ensures Overwritten(s, i, part)[i + |part| := byte] == Overwritten(s, i, part + [byte])
  {}
}
