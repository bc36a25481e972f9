/** Access to the dual-port memory of a netX over SPI (libcifx/Toolkit/SerialDPM/SerialDPMInterface.c).

    The slave at the other end of the wire is modelled byte by byte: three command bytes, then for a
    read any number of filler bytes, the marker 0xA5 and the memory; for a write the bytes to store.
    The access functions are proved to read and write plain memory. */
module SerialDpm {
  import opened Bytes

  // -------------------------------------------------------------- the slave

  datatype Command = ReadCommand(at: nat, len: nat) | WriteCommand(at: nat, len: nat)

  datatype Phase =
    | Deselected
    | Addressed(got: seq<bv8>)
    | Preparing(at: nat, len: nat, filler: seq<bv8>)
    | Reading(at: nat, left: nat)
    | Writing(at: nat)

  /** Clocked on past the length a command announced, a slave that streams sends the memory behind it;
      another one sends zeros. */
  datatype Slave = Slave(streams: bool, mem: seq<bv8>, phase: Phase, served: nat, log: seq<Command>)

  /** The bytes the slave sends ahead of the marker in its n-th read. */
  type Filler = nat -> seq<bv8>

  const MARKER: bv8 := 0xA5

  ghost predicate NoMarker(filler: Filler) {
    forall n :: MARKER !in filler(n)
  }

  function Selected(s: Slave): Slave { s.(phase := Addressed([])) }

  function ByteAt(mem: seq<bv8>, at: nat): bv8 {
    if at < |mem| then mem[at] else 0
  }

  function Stored(mem: seq<bv8>, at: nat, b: bv8): seq<bv8> {
    if at < |mem| then mem[at := b] else mem
  }

  function CommandOf(got: seq<bv8>): Command
    requires |got| == 3
  {
    var at := 256 * Value(got[0]) + Value(got[1]);
    if got[2] & 0x80 != 0 then ReadCommand(at, Value(got[2] & 0x7F)) else WriteCommand(at, Value(got[2]))
  }

  function Minus(a: nat, b: nat): nat { if a < b then 0 else a - b }

  /** One byte each way. */
  function Exchange(filler: Filler, s: Slave, b: bv8): (Slave, bv8) {
    match s.phase
    case Deselected => (s, 0)
    case Addressed(got) =>
      var got' := got + [b];
      if |got'| != 3 then (s.(phase := Addressed(got')), 0)
      else
        var c := CommandOf(got');
        var logged := s.(log := s.log + [c]);
        if c.ReadCommand? then (logged.(phase := Preparing(c.at, c.len, filler(s.served)), served := s.served + 1), 0)
        else (logged.(phase := Writing(c.at)), 0)
    case Preparing(at, len, f) =>
      if f == [] then (s.(phase := Reading(at, len)), MARKER) else (s.(phase := Preparing(at, len, f[1..])), f[0])
    case Reading(at, left) =>
      (s.(phase := Reading(at + 1, Minus(left, 1))), if s.streams || left > 0 then ByteAt(s.mem, at) else 0)
    case Writing(at) => (s.(mem := Stored(s.mem, at, b), phase := Writing(at + 1)), 0)
  }

  /** The SPI bus with the slave on it. */
  class Bus {
    const filler: Filler
    var slave: Slave
    var locked: bool

    constructor (filler: Filler, streams: bool, mem: seq<bv8>)
      ensures this.filler == filler && !locked && slave == Slave(streams, mem, Deselected, 0, [])
    {
      this.filler := filler;
      slave, locked := Slave(streams, mem, Deselected, 0, []), false;
    }

    method Transfer(b: bv8) returns (r: bv8)
      modifies this`slave
      ensures (slave, r) == Exchange(filler, old(slave), b)
    {
      var (s, answer) := Exchange(filler, slave, b);
      slave, r := s, answer;
    }

    /** A command of three bytes: address high, address low, direction and length. */
    method SendCommand(at: nat, code: bv8)
      requires at < 0x1_0000
      modifies this`slave
      ensures var c := CommandOf([LowByte(at / 256), LowByte(at), code]);
              slave == old(slave).(
                log := old(slave).log + [c],
                served := old(slave).served + if c.ReadCommand? then 1 else 0,
                phase := if c.ReadCommand? then Preparing(c.at, c.len, filler(old(slave).served)) else Writing(c.at))
    {
      hide CommandOf, Value, LowByte;
      slave := Selected(slave);
      var _ := Transfer(LowByte(at / 256));
      var _ := Transfer(LowByte(at));
      assert slave.phase.got == [LowByte(at / 256), LowByte(at)];
      assert slave.phase.got + [code] == [LowByte(at / 256), LowByte(at), code];
      var _ := Transfer(code);
    }
  }

  lemma ReadCode(at: nat, len: nat)
    requires at < 0x1_0000 && len < 128
    ensures CommandOf([LowByte(at / 256), LowByte(at), 0x80 | LowByte(len)]) == ReadCommand(at, len)
  {
    hide Value, LowByte;
    AddressBytes(at);
    LengthByte(len);
  }

  lemma WriteCode(at: nat, len: nat)
    requires at < 0x1_0000 && len < 128
    ensures CommandOf([LowByte(at / 256), LowByte(at), LowByte(len)]) == WriteCommand(at, len)
  {
    hide Value, LowByte;
    AddressBytes(at);
    LengthByte(len);
  }

  lemma AddressBytes(at: nat)
    requires at < 0x1_0000
    ensures 256 * Value(LowByte(at / 256)) + Value(LowByte(at)) == at
  {
    hide Value, LowByte;
    LowByteValue(at / 256);
    LowByteValue(at);
  }

  lemma LengthByte(len: nat)
    requires len < 128
    ensures (0x80 | LowByte(len)) & 0x80 != 0 && (0x80 | LowByte(len)) & 0x7F == LowByte(len)
    ensures LowByte(len) & 0x80 == 0
    ensures Value(LowByte(len)) == len
  {
    hide Value, LowByte;
    LowByteValue(len);
    SmallByte(LowByte(len));
  }

  lemma SmallByte(b: bv8)
    requires Value(b) < 128
    ensures (0x80 | b) & 0x80 != 0 && (0x80 | b) & 0x7F == b && b & 0x80 == 0
  {}

  // -------------------------------------------------------------------- memory

  /** Memory with data written at an address. */
  function Patched(mem: seq<bv8>, at: nat, data: seq<bv8>): (m: seq<bv8>)
    requires at + |data| <= |mem|
    ensures |m| == |mem|
  {
    mem[..at] + data + mem[at + |data|..]
  }

  lemma PatchNothing(mem: seq<bv8>, at: nat, data: seq<bv8>)
    requires at <= |mem|
    ensures Patched(mem, at, data[..0]) == mem
  {}

  lemma StoreNext(mem: seq<bv8>, at: nat, data: seq<bv8>, i: nat)
    requires i < |data| && at + |data| <= |mem|
    ensures Stored(Patched(mem, at, data[..i]), at + i, data[i]) == Patched(mem, at, data[..i + 1])
  {
    assert data[..i + 1] == data[..i] + [data[i]];
  }

  // ------------------------------------------------------------------- reading

  const MAX_TRANSFER_LEN := 124
  const BYTE_TIMEOUT := 100

  /** Transfers until the marker, if the budget of waiting bytes lasts. */
  method AwaitMarker(bus: Bus, budget: nat) returns (left: nat, ok: bool)
    requires bus.slave.phase.Preparing? && MARKER !in bus.slave.phase.filler
    modifies bus`slave
    ensures var wait := |old(bus.slave).phase.filler| + 1;
            && ok == (wait <= budget)
            && (ok ==> left == budget - wait && bus.slave == old(bus.slave).(phase := Reading(old(bus.slave).phase.at, old(bus.slave).phase.len)))
            && bus.slave == old(bus.slave).(phase := bus.slave.phase)
  {
    left := budget;
    ghost var f := bus.slave.phase.filler;
    ghost var at, len := bus.slave.phase.at, bus.slave.phase.len;
    while true
      invariant left <= budget && budget - left <= |f|
      invariant bus.slave == old(bus.slave).(phase := Preparing(at, len, f[budget - left..]))
      decreases left
    {
      if left == 0 {
        return left, false;
      }
      var r := bus.Transfer(0);
      if budget - left < |f| {
        assert f[budget - left..][1..] == f[budget - left + 1..];
        assert r == f[budget - left] && r in f;
      }
      left := left - 1;
      if r == 0xA5 {
        return left, true;
      }
    }
  }

  /** The next n bytes of a slave in a read that still owes left bytes. */
  function Sent(streams: bool, mem: seq<bv8>, at: nat, left: nat, n: nat): (r: seq<bv8>)
    requires at + n <= |mem|
    ensures |r| == n
  {
    seq(n, i requires 0 <= i < n => if streams || i < left then mem[at + i] else 0)
  }

  lemma SentMemory(streams: bool, mem: seq<bv8>, at: nat, left: nat, n: nat)
    requires at + n <= |mem| && (streams || n <= left)
    ensures Sent(streams, mem, at, left, n) == mem[at..at + n]
  {}

  method ReadBytes(bus: Bus, buf: array<bv8>, off: nat, n: nat)
    requires bus.slave.phase.Reading? && bus.slave.phase.at + n <= |bus.slave.mem| && off + n <= buf.Length
    modifies bus`slave, buf
    ensures bus.slave == old(bus.slave).(phase := Reading(old(bus.slave.phase.at) + n, Minus(old(bus.slave.phase.left), n)))
    ensures var was := old(bus.slave);
            buf[..] == Patched(old(buf[..]), off, Sent(was.streams, was.mem, was.phase.at, was.phase.left, n))
  {
    hide Patched;
    ghost var at, left := bus.slave.phase.at, bus.slave.phase.left;
    ghost var data := Sent(bus.slave.streams, bus.slave.mem, at, left, n);
    PatchNothing(buf[..], off, data);
    for i := 0 to n
      invariant bus.slave == old(bus.slave).(phase := Reading(at + i, Minus(left, i)))
      invariant buf[..] == Patched(old(buf[..]), off, data[..i])
    {
      var r := bus.Transfer(0);
      StoreNext(old(buf[..]), off, data, i);
      ghost var now := buf[..];
      buf[off + i] := r;
      assert buf[..] == now[off + i := r];
    }
    assert data[..n] == data;
  }

  /** How many commands of at most 124 bytes a transfer takes. */
  function Chunks(len: nat): nat {
    (len + MAX_TRANSFER_LEN - 1) / MAX_TRANSFER_LEN
  }

  /** The waiting bytes and markers of n reads, from read number k on. */
  function Waiting(filler: Filler, k: nat, n: nat): nat
    decreases n
  {
    if n == 0 then 0 else |filler(k)| + 1 + Waiting(filler, k + 1, n - 1)
  }

  lemma {:induction false} WaitingAtLeast(filler: Filler, k: nat, n: nat)
    ensures Waiting(filler, k, n) >= n
    decreases n
  {
    if n > 0 {
      WaitingAtLeast(filler, k + 1, n - 1);
    }
  }

  function ChunkOf(left: nat): nat {
    if left < MAX_TRANSFER_LEN then left else MAX_TRANSFER_LEN
  }

  lemma WaitingStep(filler: Filler, k: nat, left: nat)
    requires left > 0
    ensures Chunks(left) == 1 + Chunks(left - ChunkOf(left))
    ensures Waiting(filler, k, Chunks(left)) == |filler(k)| + 1 + Waiting(filler, k + 1, Chunks(left - ChunkOf(left)))
  {}

  lemma WaitingNone(filler: Filler, k: nat)
    ensures Chunks(0) == 0 && Waiting(filler, k, Chunks(0)) == 0
  {}

  /** One command of Read_NX50: select, wait for the marker, read, deselect. */
  method ReadChunk(bus: Bus, at: nat, buf: array<bv8>, off: nat, len: nat, budget: nat) returns (left: nat, ok: bool)
    requires NoMarker(bus.filler) && bus.slave.phase.Deselected?
    requires len < 128 && at < 0x1_0000 && at + len <= |bus.slave.mem| && off + len <= buf.Length
    modifies bus`slave, buf
    ensures bus.slave == old(bus.slave).(served := old(bus.slave.served) + 1, log := old(bus.slave.log) + [ReadCommand(at, len)])
    ensures var wait := |bus.filler(old(bus.slave.served))| + 1;
            ok == (wait <= budget) && (ok ==> left == budget - wait)
    ensures buf[..] == if ok then Patched(old(buf[..]), off, bus.slave.mem[at..at + len]) else old(buf[..])
  {
    hide CommandOf, Value, LowByte, Patched, Sent;
    ReadCode(at, len);
    bus.SendCommand(at, 0x80 | LowByte(len));
    left, ok := AwaitMarker(bus, budget);
    if ok {
      SentMemory(bus.slave.streams, bus.slave.mem, at, len, len);
      ReadBytes(bus, buf, off, len);
    }
    bus.slave := bus.slave.(phase := Deselected);
  }

  /** Read_NX50: the buffer receives exactly the memory and the lock is released if and only if the
      waiting bytes of all its chunks stay within the budget of 100; otherwise the lock stays held. */
  method ReadNX50(bus: Bus, addr: nat, buf: array<bv8>, len: nat)
    requires NoMarker(bus.filler) && bus.slave.phase.Deselected? && !bus.locked
    requires addr + len <= |bus.slave.mem| <= 0x1_0000 && len <= buf.Length
    modifies bus, buf
    ensures bus.slave.mem == old(bus.slave.mem) && bus.slave.phase.Deselected?
    ensures Writes(bus.slave.log) == Writes(old(bus.slave.log))
    ensures !bus.locked <==> Waiting(bus.filler, old(bus.slave.served), Chunks(len)) <= 100
    ensures !bus.locked ==> buf[..] == Filled(bus.slave.mem, addr, len, old(buf[..]))
    ensures !bus.locked ==> bus.slave.served == old(bus.slave.served) + Chunks(len)
  {
    hide Chunks, Waiting, Filled, Writes, ChunkOf, NoMarker, Patched;
    var budget: nat := BYTE_TIMEOUT;
    var at, off: nat, left: nat := addr, 0, len;
    bus.locked := true;
    ghost var mem, k := bus.slave.mem, bus.slave.served;
    ghost var total := Waiting(bus.filler, k, Chunks(len));
    FilledNone(mem, addr, buf[..]);
    while left > 0
      invariant off + left == len && bus.locked && bus.slave.mem == mem && bus.slave.phase.Deselected?
      invariant left > 0 ==> at == addr + off
      invariant total - BYTE_TIMEOUT == Waiting(bus.filler, bus.slave.served, Chunks(left)) - budget
      invariant bus.slave.served + Chunks(left) == k + Chunks(len)
      invariant buf[..] == Filled(mem, addr, off, old(buf[..]))
      invariant Writes(bus.slave.log) == Writes(old(bus.slave.log))
    {
      var chunk := ChunkOf(left);
      ChunkFits(left);
      WaitingStep(bus.filler, bus.slave.served, left);
      left := left - chunk;
      WritesOfRead(bus.slave.log, at, chunk);
      var ok;
      budget, ok := ReadChunk(bus, at, buf, off, chunk, budget);
      if !ok {
        WaitingAtLeast(bus.filler, bus.slave.served, Chunks(left));
        return;
      }
      Extend(mem, addr, off, chunk, old(buf[..]));
      off := off + chunk;
      at := at + MAX_TRANSFER_LEN;
    }
    WaitingNone(bus.filler, bus.slave.served);
    bus.locked := false;
  }

  /** A buffer whose first bytes were replaced by memory. */
  function Filled(mem: seq<bv8>, addr: nat, off: nat, was: seq<bv8>): (now: seq<bv8>)
    requires addr + off <= |mem| && off <= |was|
    ensures |now| == |was|
  {
    mem[addr..addr + off] + was[off..]
  }

  lemma FilledNone(mem: seq<bv8>, addr: nat, was: seq<bv8>)
    requires addr <= |mem|
    ensures Filled(mem, addr, 0, was) == was
  {}

  lemma Extend(mem: seq<bv8>, addr: nat, off: nat, chunk: nat, was: seq<bv8>)
    requires addr + off + chunk <= |mem| && off + chunk <= |was|
    ensures Patched(Filled(mem, addr, off, was), off, mem[addr + off..addr + off + chunk]) == Filled(mem, addr, off + chunk, was)
  {
    assert mem[addr..addr + off + chunk] == mem[addr..addr + off] + mem[addr + off..addr + off + chunk];
  }

  /** The write commands of a log. */
  function Writes(log: seq<Command>): seq<Command> {
    if log == [] then []
    else Writes(log[..|log| - 1]) + if log[|log| - 1].WriteCommand? then [log[|log| - 1]] else []
  }

  lemma WritesOfRead(log: seq<Command>, at: nat, len: nat)
    ensures Writes(log + [ReadCommand(at, len)]) == Writes(log)
  {
    assert (log + [ReadCommand(at, len)])[..|log|] == log;
  }

  lemma WritesOfWrite(log: seq<Command>, at: nat, len: nat)
    ensures Writes(log + [WriteCommand(at, len)]) == Writes(log) + [WriteCommand(at, len)]
  {
    assert (log + [WriteCommand(at, len)])[..|log|] == log;
  }

  /** One command for every 124 bytes begun. */
  lemma ChunkCount(len: nat)
    ensures 124 * Chunks(len) >= len && (len > 0 ==> 124 * (Chunks(len) - 1) < len) && (len == 0 ==> Chunks(len) == 0)
  {}

  /** Hence no single call ever reads more than 12400 bytes. */
  lemma ReadLimit(filler: Filler, k: nat, len: nat)
    requires len > 12400
    ensures Waiting(filler, k, Chunks(len)) > 100
  {
    ChunkCount(len);
    WaitingAtLeast(filler, k, Chunks(len));
  }

  // -------------------------------------------- reading whole words (Read_NX500)

  function Down(n: nat): (r: nat)
    ensures r <= n < r + 4 && r % 4 == 0
  {
    n - n % 4
  }

  function Up(n: nat): (r: nat)
    ensures n <= r < n + 4 && r % 4 == 0
  {
    (n + 3) / 4 * 4
  }

  method Discard(bus: Bus, n: nat)
    requires bus.slave.phase.Reading?
    modifies bus`slave
    ensures bus.slave == old(bus.slave).(phase := Reading(old(bus.slave.phase.at) + n, Minus(old(bus.slave.phase.left), n)))
  {
    for i := 0 to n
      invariant bus.slave == old(bus.slave).(phase := Reading(old(bus.slave.phase.at) + i, Minus(old(bus.slave.phase.left), i)))
    {
      var _ := bus.Transfer(0);
    }
  }

  /** One command of Read_NX500: whole words are requested, the surplus at either end is dropped. */
  method ReadWords(bus: Bus, at: nat, skip: nat, buf: array<bv8>, off: nat, len: nat, budget: nat) returns (left: nat, ok: bool)
    requires NoMarker(bus.filler) && bus.slave.phase.Deselected?
    requires len <= MAX_TRANSFER_LEN && at < 0x1_0000 && at + skip + len <= |bus.slave.mem| && off + len <= buf.Length
    modifies bus`slave, buf
    ensures bus.slave == old(bus.slave).(served := old(bus.slave.served) + 1, log := old(bus.slave.log) + [ReadCommand(at, Up(len))])
    ensures var wait := |bus.filler(old(bus.slave.served))| + 1;
            ok == (wait <= budget) && (ok ==> left == budget - wait)
    ensures buf[..] == if ok then Patched(old(buf[..]), off, Sent(bus.slave.streams, bus.slave.mem, at + skip, Minus(Up(len), skip), len))
                       else old(buf[..])
  {
    hide CommandOf, Value, LowByte, Patched, Sent;
    var aligned := Up(len);
    ReadCode(at, aligned);
    bus.SendCommand(at, 0x80 | LowByte(aligned));
    left, ok := AwaitMarker(bus, budget);
    if ok {
      Discard(bus, skip);
      ReadBytes(bus, buf, off, len);
      Discard(bus, aligned - len);
    }
    bus.slave := bus.slave.(phase := Deselected);
  }

  /** What one command of Read_NX500 brings: only the first makes up for an address inside a word, and
      it announces no more for that. */
  function Part(streams: bool, mem: seq<bv8>, addr: nat, off: nat, n: nat): (r: seq<bv8>)
    requires addr + off + n <= |mem|
    ensures |r| == n
  {
    if off == 0 then Sent(streams, mem, addr, Minus(Up(n), addr % 4), n) else mem[Down(addr) + off..Down(addr) + off + n]
  }

  /** What Read_NX500 receives. */
  function Received(streams: bool, mem: seq<bv8>, addr: nat, len: nat): (r: seq<bv8>)
    requires addr + len <= |mem|
    ensures |r| == len
  {
    Part(streams, mem, addr, 0, ChunkOf(len)) + mem[Down(addr) + ChunkOf(len)..Down(addr) + len]
  }

  function Taken(streams: bool, mem: seq<bv8>, addr: nat, len: nat, off: nat, was: seq<bv8>): (now: seq<bv8>)
    requires addr + len <= |mem| && off <= len <= |was|
    ensures |now| == |was|
  {
    Received(streams, mem, addr, len)[..off] + was[off..]
  }

  lemma ReceivedPart(streams: bool, mem: seq<bv8>, addr: nat, len: nat, off: nat, chunk: nat)
    requires addr + len <= |mem| && off + chunk <= len && (off >= MAX_TRANSFER_LEN || (off == 0 && chunk == ChunkOf(len)))
    ensures Received(streams, mem, addr, len)[off..off + chunk] == Part(streams, mem, addr, off, chunk)
  {
    hide Down, Sent, Minus, Up;
    var c := ChunkOf(len);
    var first, second := Part(streams, mem, addr, 0, c), mem[Down(addr) + c..Down(addr) + len];
    if off == 0 {
      assert (first + second)[0..c] == first;
    } else {
      SliceOfSecond(first, second, off, off + chunk);
      SliceOfSlice(mem, Down(addr) + c, Down(addr) + len, off - c, off - c + chunk);
    }
  }

  lemma SliceOfSecond(a: seq<bv8>, b: seq<bv8>, i: nat, j: nat)
    requires |a| <= i <= j <= |a| + |b|
    ensures (a + b)[i..j] == b[i - |a|..j - |a|]
  {
    var x, y := (a + b)[i..j], b[i - |a|..j - |a|];
    assert |x| == |y| && forall k :: 0 <= k < |x| ==> x[k] == y[k];
  }

  lemma SliceOfSlice(s: seq<bv8>, lo: nat, hi: nat, i: nat, j: nat)
    requires lo <= hi <= |s| && i <= j <= hi - lo
    ensures s[lo..hi][i..j] == s[lo + i..lo + j]
  {
    var x, y := s[lo..hi][i..j], s[lo + i..lo + j];
    assert |x| == |y| && forall k :: 0 <= k < |x| ==> x[k] == y[k];
  }

  lemma TakeNext(streams: bool, mem: seq<bv8>, addr: nat, len: nat, off: nat, was: seq<bv8>)
    requires addr + len <= |mem| && off < len <= |was| && (off == 0 || off >= MAX_TRANSFER_LEN)
    ensures var chunk := ChunkOf(len - off);
            Patched(Taken(streams, mem, addr, len, off, was), off, Part(streams, mem, addr, off, chunk))
            == Taken(streams, mem, addr, len, off + chunk, was)
  {
    ReceivedPart(streams, mem, addr, len, off, ChunkOf(len - off));
    ChunkFits(len - off);
    hide Down, Received, ChunkOf, Part;
    Splice(Received(streams, mem, addr, len), was, off, ChunkOf(len - off));
  }

  lemma Splice(r: seq<bv8>, was: seq<bv8>, off: nat, chunk: nat)
    requires off + chunk <= |r| <= |was|
    ensures Patched(r[..off] + was[off..], off, r[off..off + chunk]) == r[..off + chunk] + was[off + chunk..]
  {
    var now := r[..off] + was[off..];
    assert now[..off] == r[..off] && now[off + chunk..] == was[off + chunk..];
    assert r[..off] + r[off..off + chunk] == r[..off + chunk];
  }

  lemma TakeNone(streams: bool, mem: seq<bv8>, addr: nat, len: nat, was: seq<bv8>)
    requires addr + len <= |mem| && len <= |was|
    ensures Taken(streams, mem, addr, len, 0, was) == was
  {
    hide Received;
  }

  lemma PartSent(streams: bool, mem: seq<bv8>, addr: nat, off: nat, at: nat, skip: nat, n: nat)
    requires addr + off + n <= |mem| && at == Down(addr) + off && skip == (if off == 0 then addr % 4 else 0)
    ensures at + skip + n <= |mem|
    ensures Sent(streams, mem, at + skip, Minus(Up(n), skip), n) == Part(streams, mem, addr, off, n)
  {
    if off != 0 {
      SentMemory(streams, mem, at, Up(n), n);
    }
  }

  /** Where Read_NX500 stands between two commands. */
  ghost predicate Stands(addr: nat, len: nat, off: nat, left: nat, at: nat, skip: nat) {
    && off + left == len && (left > 0 ==> off == 0 || off >= MAX_TRANSFER_LEN)
    && at == Down(addr) + off && skip == (if off == 0 then addr % 4 else 0)
  }

  lemma StandsNext(addr: nat, len: nat, off: nat, left: nat, at: nat, skip: nat)
    requires Stands(addr, len, off, left, at, skip) && left > 0
    ensures var chunk := ChunkOf(left);
            && Stands(addr, len, off + chunk, left - chunk, at + chunk, 0)
            && 0 < chunk <= MAX_TRANSFER_LEN && chunk <= left == len - off && (off == 0 || off >= MAX_TRANSFER_LEN)
            && at == Down(addr) + off && skip == (if off == 0 then addr % 4 else 0) && at + skip + chunk <= addr + len
  {}

  lemma StandsLast(addr: nat, len: nat, off: nat, left: nat, at: nat, skip: nat)
    requires Stands(addr, len, off, left, at, skip) && left == 0
    ensures off == len
  {}

  lemma ChunkFits(left: nat)
    requires left > 0
    ensures 0 < ChunkOf(left) <= MAX_TRANSFER_LEN && ChunkOf(left) <= left
    ensures ChunkOf(left) < left ==> ChunkOf(left) == MAX_TRANSFER_LEN
  {}

  /** One turn of the loop of Read_NX500. */
  method TakeChunk(bus: Bus, addr: nat, buf: array<bv8>, len: nat, off: nat, left: nat, at: nat, skip: nat, budget: nat, ghost was: seq<bv8>)
    returns (rest: nat, ok: bool)
    requires NoMarker(bus.filler) && bus.slave.phase.Deselected? && Stands(addr, len, off, left, at, skip) && 0 < left
    requires addr + len <= |bus.slave.mem| <= 0x1_0000 && off <= len <= buf.Length == |was|
    requires buf[..] == Taken(bus.slave.streams, bus.slave.mem, addr, len, off, was)
    modifies bus`slave, buf
    ensures off + ChunkOf(left) <= len
    ensures bus.slave == old(bus.slave).(served := old(bus.slave.served) + 1, log := old(bus.slave.log) + [ReadCommand(at, Up(ChunkOf(left)))])
    ensures var wait := |bus.filler(old(bus.slave.served))| + 1;
            ok == (wait <= budget) && (ok ==> rest == budget - wait)
    ensures ok ==> buf[..] == Taken(bus.slave.streams, bus.slave.mem, addr, len, off + ChunkOf(left), was)
  {
    hide Taken, Received, ChunkOf, NoMarker, Down, Up, Stands, Patched, Sent, Part, Minus;
    StandsNext(addr, len, off, left, at, skip);
    PartSent(bus.slave.streams, bus.slave.mem, addr, off, at, skip, ChunkOf(left));
    TakeNext(bus.slave.streams, bus.slave.mem, addr, len, off, was);
    rest, ok := ReadWords(bus, at, skip, buf, off, ChunkOf(left), budget);
  }

  /** Read_NX500: the same budget as Read_NX50; ReceivedIsMemory says when what it receives is the memory. */
  method ReadNX500(bus: Bus, addr: nat, buf: array<bv8>, len: nat)
    requires NoMarker(bus.filler) && bus.slave.phase.Deselected? && !bus.locked
    requires addr + len <= |bus.slave.mem| <= 0x1_0000 && len <= buf.Length
    modifies bus, buf
    ensures bus.slave.mem == old(bus.slave.mem) && bus.slave.phase.Deselected?
    ensures Writes(bus.slave.log) == Writes(old(bus.slave.log))
    ensures !bus.locked <==> Waiting(bus.filler, old(bus.slave.served), Chunks(len)) <= BYTE_TIMEOUT
    ensures !bus.locked ==> buf[..] == Received(bus.slave.streams, bus.slave.mem, addr, len) + old(buf[len..])
  {
    hide Chunks, Waiting, Taken, Received, Writes, ChunkOf, NoMarker;
    var budget: nat := BYTE_TIMEOUT;
    var skip: nat, at: nat, off: nat, left: nat := addr % 4, Down(addr), 0, len;
    bus.locked := true;
    ghost var streams, mem, k, was := bus.slave.streams, bus.slave.mem, bus.slave.served, buf[..];
    ghost var total := Waiting(bus.filler, k, Chunks(len));
    assert Stands(addr, len, off, left, at, skip);
    hide Down, Up, Stands;
    TakeNone(streams, mem, addr, len, was);
    while left > 0
      invariant Stands(addr, len, off, left, at, skip)
      invariant bus.locked && bus.slave.streams == streams && bus.slave.mem == mem && bus.slave.phase.Deselected?
      invariant total - BYTE_TIMEOUT == Waiting(bus.filler, bus.slave.served, Chunks(left)) - budget
      invariant off <= len && buf[..] == Taken(streams, mem, addr, len, off, was)
      invariant Writes(bus.slave.log) == Writes(old(bus.slave.log))
    {
      var chunk := ChunkOf(left);
      StandsNext(addr, len, off, left, at, skip);
      WaitingStep(bus.filler, bus.slave.served, left);
      left := left - chunk;
      WritesOfRead(bus.slave.log, at, Up(chunk));
      var ok;
      budget, ok := TakeChunk(bus, addr, buf, len, off, left + chunk, at, skip, budget, was);
      if !ok {
        WaitingAtLeast(bus.filler, bus.slave.served, Chunks(left));
        return;
      }
      skip := 0;
      off := off + chunk;
      at := at + chunk;
    }
    StandsLast(addr, len, off, left, at, skip);
    WaitingNone(bus.filler, bus.slave.served);
    TakeAll(streams, mem, addr, len, was);
    bus.locked := false;
  }

  lemma TakeAll(streams: bool, mem: seq<bv8>, addr: nat, len: nat, was: seq<bv8>)
    requires addr + len <= |mem| && len <= |was|
    ensures Taken(streams, mem, addr, len, len, was) == Received(streams, mem, addr, len) + was[len..]
  {
    hide Received;
  }

  /** When Read_NX500 reads plain memory: from a word boundary always; from inside a word only if one
      command is enough, and, unless the slave streams, if the command announces the bytes skipped as
      well. */
  predicate ReadsMemory(streams: bool, addr: nat, len: nat) {
    || addr % 4 == 0
    || len == 0
    || (len <= MAX_TRANSFER_LEN && (streams || addr % 4 + len <= Up(len)))
  }

  lemma ReceivedWhole(streams: bool, mem: seq<bv8>, addr: nat, len: nat)
    requires addr + len <= |mem| && ReadsMemory(streams, addr, len)
    ensures Received(streams, mem, addr, len) == mem[addr..addr + len]
  {
    var c := ChunkOf(len);
    SentMemory(streams, mem, addr, Minus(Up(c), addr % 4), c);
    assert mem[addr..addr + len] == mem[addr..addr + c] + mem[addr + c..addr + len];
  }

  /** Read_NX500 reads plain memory, whatever it holds, exactly then. */
  lemma ReceivedIsMemory(streams: bool, addr: nat, len: nat, size: nat)
    requires addr + len <= size
    ensures (forall mem: seq<bv8> | |mem| == size :: Received(streams, mem, addr, len) == mem[addr..addr + len])
       <==> ReadsMemory(streams, addr, len)
  {
    if ReadsMemory(streams, addr, len) {
      forall mem: seq<bv8> | |mem| == size
        ensures Received(streams, mem, addr, len) == mem[addr..addr + len]
      {
        ReceivedWhole(streams, mem, addr, len);
      }
    } else if len > MAX_TRANSFER_LEN {
      var c := MAX_TRANSFER_LEN;
      var mem: seq<bv8> := seq(size, i => if i == addr + c then 1 else 0);
      assert Received(streams, mem, addr, len)[c] == mem[Down(addr) + c] == 0;
      assert mem[addr..addr + len][c] == mem[addr + c] == 1;
    } else {
      var k := Up(len) - addr % 4;
      var mem: seq<bv8> := seq(size, i => 1);
      assert Received(streams, mem, addr, len)[k] == 0;
      assert mem[addr..addr + len][k] == mem[addr + k] == 1;
    }
  }

  // ------------------------------------------------------------------- writing

  method WriteBytes(bus: Bus, data: seq<bv8>)
    requires bus.slave.phase.Writing? && bus.slave.phase.at + |data| <= |bus.slave.mem|
    modifies bus`slave
    ensures bus.slave == old(bus.slave).(
              mem := Patched(old(bus.slave.mem), old(bus.slave.phase.at), data),
              phase := Writing(old(bus.slave.phase.at) + |data|))
  {
    hide Patched, Stored;
    ghost var mem, at := bus.slave.mem, bus.slave.phase.at;
    PatchNothing(mem, at, data);
    for i := 0 to |data|
      invariant bus.slave == old(bus.slave).(mem := Patched(mem, at, data[..i]), phase := Writing(at + i))
    {
      var _ := bus.Transfer(data[i]);
      StoreNext(mem, at, data, i);
    }
    assert data[..|data|] == data;
  }

  method WriteChunk(bus: Bus, at: nat, data: seq<bv8>)
    requires bus.slave.phase.Deselected? && |data| < 128 && at < 0x1_0000 && at + |data| <= |bus.slave.mem|
    modifies bus`slave
    ensures bus.slave == old(bus.slave).(
              mem := Patched(old(bus.slave.mem), at, data),
              log := old(bus.slave.log) + [WriteCommand(at, |data|)])
  {
    hide CommandOf, Patched, Value, LowByte;
    WriteCode(at, |data|);
    bus.SendCommand(at, LowByte(|data|));
    WriteBytes(bus, data);
    bus.slave := bus.slave.(phase := Deselected);
  }

  /** The commands of one write, in order. */
  function WriteList(at: nat, len: nat): seq<Command>
    decreases len
  {
    if len == 0 then [] else [WriteCommand(at, ChunkOf(len))] + WriteList(at + ChunkOf(len), len - ChunkOf(len))
  }

  lemma PatchTwice(mem: seq<bv8>, at: nat, a: seq<bv8>, b: seq<bv8>)
    requires at + |a| + |b| <= |mem|
    ensures Patched(Patched(mem, at, a), at + |a|, b) == Patched(mem, at, a + b)
  {}

  lemma PatchNext(mem: seq<bv8>, at: nat, data: seq<bv8>, i: nat, j: nat)
    requires i <= j <= |data| && at + |data| <= |mem|
    ensures Patched(Patched(mem, at, data[..i]), at + i, data[i..j]) == Patched(mem, at, data[..j])
  {
    assert data[..j] == data[..i] + data[i..j];
    PatchTwice(mem, at, data[..i], data[i..j]);
  }

  lemma NextWrite(log: seq<Command>, at: nat, len: nat)
    requires len > 0
    ensures Writes(log + [WriteCommand(at, ChunkOf(len))]) + WriteList(at + ChunkOf(len), len - ChunkOf(len))
         == Writes(log) + WriteList(at, len)
  {
    hide Writes, ChunkOf;
    WritesOfWrite(log, at, ChunkOf(len));
  }

  /** Write_NX50: exactly the addressed bytes change, and the lock is released. */
  method WriteNX50(bus: Bus, addr: nat, data: seq<bv8>)
    requires bus.slave.phase.Deselected? && !bus.locked && addr + |data| <= |bus.slave.mem| <= 0x1_0000
    modifies bus
    ensures bus.slave.mem == Patched(old(bus.slave.mem), addr, data)
    ensures bus.slave.phase.Deselected? && !bus.locked && bus.slave.served == old(bus.slave.served)
    ensures Writes(bus.slave.log) == Writes(old(bus.slave.log)) + WriteList(addr, |data|)
  {
    hide Patched, Writes, WriteList;
    var at, off: nat := addr, 0;
    bus.locked := true;
    ghost var mem, log := bus.slave.mem, bus.slave.log;
    PatchNothing(mem, addr, data);
    while off < |data|
      invariant off <= |data| && at == addr + off && bus.locked && bus.slave.phase.Deselected?
      invariant bus.slave.mem == Patched(mem, addr, data[..off]) && bus.slave.served == old(bus.slave.served)
      invariant Writes(bus.slave.log) + WriteList(at, |data| - off) == Writes(log) + WriteList(addr, |data|)
    {
      var chunk := ChunkOf(|data| - off);
      PatchNext(mem, addr, data, off, off + chunk);
      NextWrite(bus.slave.log, at, |data| - off);
      WriteChunk(bus, at, data[off..off + chunk]);
      at := at + chunk;
      off := off + chunk;
    }
    assert data[..off] == data;
    NoWrites(at);
    bus.locked := false;
  }

  lemma NoWrites(at: nat)
    ensures WriteList(at, 0) == []
  {}

  /** What was written is what a read that succeeds gives back. */
  method WriteThenRead(bus: Bus, addr: nat, data: seq<bv8>, buf: array<bv8>)
    requires NoMarker(bus.filler) && bus.slave.phase.Deselected? && !bus.locked
    requires addr + |data| <= |bus.slave.mem| <= 0x1_0000 && |data| == buf.Length
    modifies bus, buf
    ensures !bus.locked <==> Waiting(bus.filler, old(bus.slave.served), Chunks(|data|)) <= BYTE_TIMEOUT
    ensures !bus.locked ==> buf[..] == data
  {
    WriteNX50(bus, addr, data);
    ReadNX50(bus, addr, buf, |data|);
  }

  // ---------------------------------------------------------- read, modify, write

  predicate WordAligned(c: Command) { c.at % 4 == 0 && c.len % 4 == 0 }

  predicate AllAligned(cs: seq<Command>) {
    forall i :: 0 <= i < |cs| ==> WordAligned(cs[i])
  }

  lemma {:induction false} AlignedList(at: nat, len: nat)
    requires at % 4 == 0 && len % 4 == 0
    ensures AllAligned(WriteList(at, len))
    decreases len
  {
    if len > 0 {
      AlignedList(at + ChunkOf(len), len - ChunkOf(len));
    }
  }

  /** The marker of read number k does not come within the budget. */
  predicate Slow(filler: Filler, k: nat) { |filler(k)| >= BYTE_TIMEOUT }

  lemma SlowRead(filler: Filler, k: nat)
    ensures Chunks(4) == 1 && (Waiting(filler, k, Chunks(4)) <= BYTE_TIMEOUT <==> !Slow(filler, k))
  {
    assert Waiting(filler, k + 1, 0) == 0;
  }

  /** The bytes of a buffer replaced from position off on. */
  method Overwrite(word: array<bv8>, off: nat, data: seq<bv8>)
    requires off + |data| <= word.Length
    modifies word
    ensures word[..] == Patched(old(word[..]), off, data)
  {
    for i := 0 to |data|
      invariant word[..] == Patched(old(word[..]), off, data[..i])
    {
      StoreNext(old(word[..]), off, data, i);
      word[off + i] := data[i];
    }
    assert data[..|data|] == data;
  }

  lemma WordPatch(mem: seq<bv8>, at: nat, off: nat, data: seq<bv8>)
    requires at + 4 <= |mem| && off + |data| <= 4
    ensures Patched(mem, at, Patched(mem[at..at + 4], off, data)) == Patched(mem, at + off, data)
  {
    var word := Patched(mem[at..at + 4], off, data);
    assert word == mem[at..at + off] + data + mem[at + off + |data|..at + 4];
    assert mem[..at] + mem[at..at + off] == mem[..at + off];
    assert mem[at + off + |data|..at + 4] + mem[at + 4..] == mem[at + off + |data|..];
  }

  lemma FilledAll(mem: seq<bv8>, addr: nat, was: seq<bv8>)
    requires addr + |was| <= |mem|
    ensures Filled(mem, addr, |was|, was) == mem[addr..addr + |was|]
  {}

  /** The bytes of one word replaced from position off on, and the word written back. If the word
      cannot be read the lock stays held, and the write waits for it for good. */
  method ModifyWord(bus: Bus, at: nat, off: nat, data: seq<bv8>) returns (blocked: bool)
    requires NoMarker(bus.filler) && bus.slave.phase.Deselected? && !bus.locked
    requires at % 4 == 0 && at + 4 <= |bus.slave.mem| <= 0x1_0000 && off + |data| <= 4
    modifies bus
    ensures bus.slave.phase.Deselected? && bus.locked == blocked == Slow(bus.filler, old(bus.slave.served))
    ensures !blocked ==>
              && bus.slave.mem == Patched(old(bus.slave.mem), at + off, data)
              && Writes(bus.slave.log) == Writes(old(bus.slave.log)) + [WriteCommand(at, 4)]
              && bus.slave.served == old(bus.slave.served) + 1
    ensures blocked ==> bus.slave.mem == old(bus.slave.mem) && Writes(bus.slave.log) == Writes(old(bus.slave.log))
  {
    hide Waiting, Chunks, Writes, Filled, Patched, WriteList, Slow, NoMarker;
    ghost var mem := bus.slave.mem;
    var word := new bv8[4];
    SlowRead(bus.filler, bus.slave.served);
    FilledAll(mem, at, word[..]);
    ReadNX50(bus, at, word, 4);
    Overwrite(word, off, data);
    blocked := bus.locked;
    if !blocked {
      WriteNX50(bus, at, word[..]);
      WordPatch(mem, at, off, data);
      OneWord(at);
    }
  }

  lemma OneWord(at: nat)
    ensures WriteList(at, 4) == [WriteCommand(at, 4)]
  {
    NoWrites(at + 4);
  }

  /** What a run of the read-modify-write has done so far: the first p bytes stand in memory, and the
      write commands it sent are aligned. */
  ghost predicate Progress(slave: Slave, mem: seq<bv8>, log: seq<Command>, addr: nat, data: seq<bv8>, p: nat)
    requires p <= |data| && addr + |data| <= |mem|
  {
    && slave.phase.Deselected?
    && slave.mem == Patched(mem, addr, data[..p])
    && exists cs :: Writes(slave.log) == Writes(log) + cs && AllAligned(cs)
  }

  lemma Progresses(s: Slave, s': Slave, mem: seq<bv8>, log: seq<Command>, addr: nat, data: seq<bv8>, p: nat, q: nat, more: seq<Command>)
    requires p <= q <= |data| && addr + |data| <= |mem|
    requires Progress(s, mem, log, addr, data, p)
    requires s'.phase.Deselected? && s'.mem == Patched(s.mem, addr + p, data[p..q])
    requires Writes(s'.log) == Writes(s.log) + more && AllAligned(more)
    ensures Progress(s', mem, log, addr, data, q)
  {
    hide Patched, Writes;
    PatchNext(mem, addr, data, p, q);
    var cs :| Writes(s.log) == Writes(log) + cs && AllAligned(cs);
    assert Writes(s'.log) == Writes(log) + (cs + more);
    assert AllAligned(cs + more);
  }

  lemma ProgressNone(s: Slave, addr: nat, data: seq<bv8>)
    requires addr + |data| <= |s.mem| && s.phase.Deselected?
    ensures Progress(s, s.mem, s.log, addr, data, 0)
  {
    PatchNothing(s.mem, addr, data);
    var none: seq<Command> := [];
    assert Writes(s.log) == Writes(s.log) + none && AllAligned(none);
  }

  /** The bytes before the first word boundary. */
  function HeadLength(addr: nat, len: nat): (n: nat)
    ensures n <= len && (n < len ==> (addr + n) % 4 == 0)
  {
    if addr % 4 == 0 then 0 else if len < 4 - addr % 4 then len else 4 - addr % 4
  }

  /** The bytes behind the last word boundary. */
  function TailLength(addr: nat, len: nat): (n: nat)
    ensures n <= len - HeadLength(addr, len) && n < 4
  {
    (len - HeadLength(addr, len)) % 4
  }

  method WriteHead(bus: Bus, addr: nat, data: seq<bv8>) returns (p: nat, blocked: bool)
    requires NoMarker(bus.filler) && bus.slave.phase.Deselected? && !bus.locked
    requires addr + |data| <= |bus.slave.mem| <= 0x1_0000 && |bus.slave.mem| % 4 == 0
    modifies bus
    ensures bus.locked == blocked == (addr % 4 != 0 && Slow(bus.filler, old(bus.slave.served)))
    ensures p == if blocked then 0 else HeadLength(addr, |data|)
    ensures !blocked ==> bus.slave.served == old(bus.slave.served) + if addr % 4 != 0 then 1 else 0
    ensures Progress(bus.slave, old(bus.slave.mem), old(bus.slave.log), addr, data, p)
  {
    hide Patched, Writes, NoMarker, Slow, Progress, WriteList, AllAligned;
    ghost var s := bus.slave;
    ProgressNone(s, addr, data);
    p, blocked := 0, false;
    if addr % 4 != 0 {
      var part := if |data| < 4 - addr % 4 then |data| else 4 - addr % 4;
      var at := addr - addr % 4;
      RoomForWord(at, |s.mem|);
      blocked := ModifyWord(bus, at, addr % 4, data[..part]);
      if blocked {
        ProgressStays(s, bus.slave, addr, data);
      } else {
        p := part;
        assert data[0..p] == data[..p];
        AlignedWord(at);
        Progresses(s, bus.slave, s.mem, s.log, addr, data, 0, p, [WriteCommand(at, 4)]);
      }
    }
  }

  /** The whole words. */
  method WriteWords(bus: Bus, ghost mem: seq<bv8>, ghost log: seq<Command>, addr: nat, data: seq<bv8>, p: nat) returns (q: nat)
    requires p == HeadLength(addr, |data|) && !bus.locked && addr + |data| <= |mem| <= 0x1_0000
    requires Progress(bus.slave, mem, log, addr, data, p)
    modifies bus
    ensures q == |data| - TailLength(addr, |data|) && !bus.locked && bus.slave.served == old(bus.slave.served)
    ensures q < |data| ==> (addr + q) % 4 == 0
    ensures Progress(bus.slave, mem, log, addr, data, q)
  {
    hide Patched, Writes, Progress, WriteList, AllAligned;
    q := p;
    if |data| - p >= 4 {
      var aligned := (|data| - p) / 4 * 4;
      q := p + aligned;
      ghost var s := bus.slave;
      ProgressMemory(s, mem, log, addr, data, p);
      AlignedList(addr + p, aligned);
      WriteNX50(bus, addr + p, data[p..q]);
      Progresses(s, bus.slave, mem, log, addr, data, p, q, WriteList(addr + p, aligned));
    }
  }

  method WriteTail(bus: Bus, ghost mem: seq<bv8>, ghost log: seq<Command>, addr: nat, data: seq<bv8>, p: nat) returns (blocked: bool)
    requires NoMarker(bus.filler) && !bus.locked && p <= |data| && |data| - p < 4 && (p < |data| ==> (addr + p) % 4 == 0)
    requires addr + |data| <= |mem| <= 0x1_0000 && |mem| % 4 == 0
    requires Progress(bus.slave, mem, log, addr, data, p)
    modifies bus
    ensures bus.locked == blocked == (p < |data| && Slow(bus.filler, old(bus.slave.served)))
    ensures Progress(bus.slave, mem, log, addr, data, if blocked then p else |data|)
  {
    hide Patched, Writes, NoMarker, Slow, Progress, WriteList, AllAligned;
    blocked := false;
    if p < |data| {
      ghost var s := bus.slave;
      ProgressMemory(s, mem, log, addr, data, p);
      RoomForWord(addr + p, |mem|);
      blocked := ModifyWord(bus, addr + p, 0, data[p..]);
      if blocked {
        ProgressHolds(s, bus.slave, mem, log, addr, data, p);
      } else {
        assert data[p..|data|] == data[p..];
        AlignedWord(addr + p);
        Progresses(s, bus.slave, mem, log, addr, data, p, |data|, [WriteCommand(addr + p, 4)]);
      }
    }
  }

  lemma ProgressHolds(s: Slave, s': Slave, mem: seq<bv8>, log: seq<Command>, addr: nat, data: seq<bv8>, p: nat)
    requires p <= |data| && addr + |data| <= |mem| && Progress(s, mem, log, addr, data, p)
    requires s'.phase.Deselected? && s'.mem == s.mem && Writes(s'.log) == Writes(s.log)
    ensures Progress(s', mem, log, addr, data, p)
  {}

  lemma ProgressStays(s: Slave, s': Slave, addr: nat, data: seq<bv8>)
    requires addr + |data| <= |s.mem| && Progress(s, s.mem, s.log, addr, data, 0)
    requires s'.phase.Deselected? && s'.mem == s.mem && Writes(s'.log) == Writes(s.log)
    ensures Progress(s', s.mem, s.log, addr, data, 0)
  {
    ProgressHolds(s, s', s.mem, s.log, addr, data, 0);
  }

  /** ReadModifyWrite_NX500 is a plain write, for every address and length inside the memory: exactly
      those bytes change, although every write command is word aligned and a multiple of a word; if and
      only if every word it must read comes in time. A word that does not leaves the lock held, and the
      function waits for it for good, with the bytes before that word written. */
  method ReadModifyWriteNX500(bus: Bus, addr: nat, data: seq<bv8>) returns (blocked: bool)
    requires NoMarker(bus.filler) && bus.slave.phase.Deselected? && !bus.locked
    requires addr + |data| <= |bus.slave.mem| <= 0x1_0000 && |bus.slave.mem| % 4 == 0
    modifies bus
    ensures var head, tail := addr % 4 != 0, TailLength(addr, |data|) > 0;
            var k := old(bus.slave.served);
            var headSlow := head && Slow(bus.filler, k);
            var tailSlow := tail && Slow(bus.filler, if head then k + 1 else k);
            && blocked == (headSlow || tailSlow)
            && bus.slave.mem == Patched(old(bus.slave.mem), addr,
                                        data[..if headSlow then 0 else if tailSlow then |data| - TailLength(addr, |data|) else |data|])
    ensures !blocked ==> bus.slave.mem == Patched(old(bus.slave.mem), addr, data)
    ensures bus.slave.phase.Deselected? && bus.locked == blocked
    ensures exists cs :: Writes(bus.slave.log) == Writes(old(bus.slave.log)) + cs && AllAligned(cs)
  {
    hide Patched, Writes, NoMarker, Slow, Progress, AllAligned, HeadLength, TailLength;
    ghost var mem, log := bus.slave.mem, bus.slave.log;
    var p;
    p, blocked := WriteHead(bus, addr, data);
    if !blocked {
      p := WriteWords(bus, mem, log, addr, data, p);
      blocked := WriteTail(bus, mem, log, addr, data, p);
      if !blocked {
        p := |data|;
      }
    }
    ProgressAll(bus.slave, mem, log, addr, data, p);
    assert data[..|data|] == data;
  }

  lemma RoomForWord(at: nat, size: nat)
    requires at < size && at % 4 == 0 && size % 4 == 0
    ensures at + 4 <= size
  {}

  lemma AlignedWord(at: nat)
    requires at % 4 == 0
    ensures AllAligned([WriteCommand(at, 4)])
  {}

  lemma ProgressMemory(s: Slave, mem: seq<bv8>, log: seq<Command>, addr: nat, data: seq<bv8>, p: nat := 0)
    requires p <= |data| && addr + |data| <= |mem| && Progress(s, mem, log, addr, data, p)
    ensures s.phase.Deselected? && |s.mem| == |mem|
  {}

  lemma ProgressAll(s: Slave, mem: seq<bv8>, log: seq<Command>, addr: nat, data: seq<bv8>, p: nat)
    requires p <= |data| && addr + |data| <= |mem| && Progress(s, mem, log, addr, data, p)
    ensures s.phase.Deselected? && s.mem == Patched(mem, addr, data[..p])
    ensures exists cs :: Writes(s.log) == Writes(log) + cs && AllAligned(cs)
  {}
}
