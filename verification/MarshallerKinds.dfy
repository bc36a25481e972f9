/** What becomes of a complete header, told with the numbers of the protocol: which pool its buffer comes
    from, how long its packet may be, and which acknowledge a refusal sends. */
module MarshallerKinds {
  import opened Options
  import opened Bytes
  import opened Frame
  import opened Marshaller
  import opened MarshallerScan
  import opened MarshallerBuffers
  import opened MarshallerStream
  import Crc16

  // --------------------------------------------------------------- on the wire

  lemma ShortBytes()
    ensures Short16(0x8000) == [0x00, 0x80] && Short16(0) == [0x00, 0x00] && Length32(0) == [0, 0, 0, 0]
  {}

  /** An acknowledge, byte for byte: cookie, no length, no checksum, type 0x8000, then the fields of the
      packet it belongs to and the state. */
  lemma AckBytes(h: Header, state: bv8)
    ensures AckOf(h, state).Sent? && AckOf(h, state).data == []
    ensures Encode(AckOf(h, state).header) ==
            [0xA5, 0x5A, 0x5A, 0xA5, 0, 0, 0, 0, 0, 0, 0x00, 0x80, h.device, h.channel, h.sequence, state]
            + Short16(h.transaction) + Short16(h.reserved)
  {
    ShortBytes();
    hide Short16, Length32;
    assert COOKIE + [0, 0, 0, 0] + [0x00, 0x00] + [0x00, 0x80] + [h.device, h.channel, h.sequence, state]
        == [0xA5, 0x5A, 0x5A, 0xA5, 0, 0, 0, 0, 0, 0, 0x00, 0x80, h.device, h.channel, h.sequence, state];
  }

  // ---------------------------------------------------------- a complete header

  /** The acknowledge of a refused header. */
  function Nack(h: Header, state: bv8): Event {
    Sent(h.(length := 0, checksum := 0, dataType := 0x8000, state := state), [])
  }

  /** No buffer is free for it: keep-alive packets, of type 0xFFFF, have a pool of their own. */
  predicate NoBuffer(c: Conn, h: Header) {
    if h.dataType == 0xFFFF then c.keepAlive == [] else c.rx == []
  }

  predicate DoesNotFit(env: Env, h: Header) {
    if h.dataType == 0xFFFF then h.length > 4 else h.length > env.rxSize
  }

  lemma AcknowledgeNow(env: Env, c: Conn, h: Header, state: bv8)
    requires env.transmit(c.sends).Now? && c.ack != []
    ensures var d := Acknowledge(env, c, h, state);
            d.trace == c.trace + [Nack(h, state)] && d.current == c.current
  {}

  /** Without a free acknowledge buffer a refusal is silent. */
  lemma RefusedSilently(env: Env, c: Conn)
    requires |c.raw| == HEADER_SIZE && c.current.None? && c.ack == [] && Decode(c.raw).dataType != 0x8000
    requires NoBuffer(c, Decode(c.raw)) || DoesNotFit(env, Decode(c.raw))
    ensures HeaderDone(env, c).1 && HeaderDone(env, c).0.trace == c.trace
  {
    hide Decode, CheckTelegram, Free, Reset;
    var h := Decode(c.raw);
    ResetKeepsTrace(c);
    if Pool(c, h) != [] {
      FreeKeepsTrace(PopPool(c, h), Pool(c, h)[0]);
      ResetKeepsTrace(Free(PopPool(c, h), Pool(c, h)[0]));
    }
  }

  lemma ResetKeepsTrace(c: Conn)
    ensures Reset(c).trace == c.trace && Reset(c).scan.CookieScan? && Reset(c).current.None?
  {}

  lemma FreeKeepsTrace(c: Conn, b: Buffer)
    ensures Free(c, b).trace == c.trace
  {}

  /** A complete header, with a connector that takes the acknowledge: an acknowledge is ignored; one for
      which no buffer is free is refused with state 0x17, and one that is too long with 0x16; any other is
      accepted, and takes the first buffer of its own pool if it has a payload to wait for. */
  lemma HeaderOutcome(env: Env, c: Conn)
    requires |c.raw| == HEADER_SIZE && c.current.None? && c.ack != [] && env.transmit(c.sends).Now?
    ensures var h := Decode(c.raw);
            var (d, refused) := HeaderDone(env, c);
            if h.dataType == 0x8000 then !refused && d.trace == c.trace && d.scan.CookieScan?
            else if NoBuffer(c, h) then refused && d.trace == c.trace + [Nack(h, 0x17)] && d.scan.CookieScan?
            else if DoesNotFit(env, h) then refused && d.trace == c.trace + [Nack(h, 0x16)] && d.scan.CookieScan?
            else !refused && (h.length > 0 ==>
                   && d.scan.DataWait? && d.trace == c.trace
                   && (if h.dataType == 0xFFFF then d.current == Some(c.keepAlive[0]) && d.keepAlive == c.keepAlive[1..] && d.rx == c.rx
                       else d.current == Some(c.rx[0]) && d.rx == c.rx[1..] && d.keepAlive == c.keepAlive))
  {
    hide Decode, CheckTelegram, Acknowledge, Free, Reset, Nack;
    var h := Decode(c.raw);
    ResetKeepsTrace(c.(current := None));
    AcknowledgeNow(env, c, h, 0x17);
    ResetKeepsTrace(Acknowledge(env, c, h, 0x17));
    if h.dataType != 0x8000 && Pool(c, h) != [] {
      var b, popped := Pool(c, h)[0], PopPool(c, h);
      AcknowledgeNow(env, popped, h, 0x16);
      var a := Acknowledge(env, popped, h, 0x16);
      FreeKeepsTrace(a, b);
      ResetKeepsTrace(Free(a, b));
    }
  }

  /** The state of the acknowledge for a complete packet, by its type. */
  lemma VerdictCodes(env: Env, id: bv32, h: Header, data: seq<bv8>)
    ensures Verdict(env, id, h, data) ==
            if |data| > 0 && h.checksum != 0 && h.checksum != Crc16.Checksum(data) then 0x10
            else if h.dataType == 0x0000 then 0x00
            else if h.dataType == 0xFFFF then
              (if |data| != 4 then 0x11 else if Word32(data) == 0 || Word32(data) == id then 0x00 else 0x20)
            else if h.dataType in env.transports then 0x00
            else 0x12
  {
    hide Word32, Crc16.Checksum;
  }

  // ------------------------------------------------------------- kinds over runs

  /** While a payload is awaited, the buffer is a keep-alive buffer exactly for a keep-alive packet, and a
      receive buffer for any other. */
  predicate RightBuffer(c: Conn) {
    c.scan.DataWait? && |c.raw| == HEADER_SIZE && c.current.Some? ==>
      c.current.value.kind == if Decode(c.raw).dataType == 0xFFFF then KeepAliveKind else RxKind
  }

  ghost predicate AllFiled(c: Conn) { forall x :: Filed(c, x) }

  lemma PoolKinds(c: Conn)
    requires AllFiled(c)
    ensures c.rx != [] ==> c.rx[0].kind.RxKind?
    ensures c.keepAlive != [] ==> c.keepAlive[0].kind.KeepAliveKind?
  {
    if c.rx != [] {
      assert Filed(c, c.rx[0]) && c.rx[0] in multiset(c.rx);
    }
    if c.keepAlive != [] {
      assert Filed(c, c.keepAlive[0]) && c.keepAlive[0] in multiset(c.keepAlive);
    }
  }

  lemma HeaderRight(env: Env, c: Conn)
    requires |c.raw| == HEADER_SIZE && c.current.None? && AllFiled(c)
    ensures RightBuffer(HeaderDone(env, c).0)
  {
    PoolKinds(c);
    hide Decode, CheckTelegram, Acknowledge, Free, AllFiled;
    var h := Decode(c.raw);
    if h.dataType != TYPE_ACKNOWLEDGE && Pool(c, h) != [] && h.length == 0 {
      CheckLeaves(env, PopPool(c, h).(current := Some(Pool(c, h)[0]), data := [], scan := TelegramCheck));
    }
  }

  lemma ByteRight(env: Env, c: Conn, b: bv8)
    requires Inv(env, c) && AllFiled(c) && RightBuffer(c)
    ensures RightBuffer(Byte(env, c, b).0) && AllFiled(Byte(env, c, b).0)
  {
    forall x ensures Filed(Byte(env, c, b).0, x) {
      ByteKeeps(env, c, b, x);
    }
    hide Decode, HeaderDone, CheckTelegram;
    if c.scan.HeaderScan? && |c.raw| == HEADER_SIZE - 1 {
      FiledForgetsRaw(c, c.raw + [b]);
      HeaderRight(env, c.(raw := c.raw + [b]));
    } else if c.scan.DataWait? {
      CheckLeaves(env, c.(data := c.data + [b], scan := TelegramCheck));
    }
  }

  lemma FiledForgetsRaw(c: Conn, raw: seq<bv8>)
    requires AllFiled(c)
    ensures AllFiled(c.(raw := raw))
  {
    forall x ensures Filed(c.(raw := raw), x) {
      assert Filed(c, x);
    }
  }

  lemma {:induction false} FeedRight(env: Env, c: Conn, seen: seq<bv8>, chunk: seq<bv8>)
    requires Inv(env, c) && AllFiled(c) && RightBuffer(c)
    ensures RightBuffer(Feed(env, c, seen, chunk))
    decreases |seen| + |chunk|, if c.scan.HeaderScan? then 1 else 0, |chunk|
  {
    hide Byte, Inv, AllFiled, RightBuffer;
    if chunk != [] {
      var (c', refused) := Byte(env, c, chunk[0]);
      ByteKeepsInv(env, c, chunk[0]);
      ByteRight(env, c, chunk[0]);
      if refused {
        FeedRight(env, c', [], seen + chunk);
      } else if c.scan.HeaderScan? && c'.scan.HeaderScan? {
        FeedRight(env, c', seen + [chunk[0]], chunk[1..]);
      } else {
        FeedRight(env, c', [], chunk[1..]);
      }
    }
  }

  lemma ApplyRight(env: Env, c: Conn, s: Step)
    requires Inv(env, c) && AllFiled(c) && RightBuffer(c)
    ensures RightBuffer(Apply(env, c, s)) && AllFiled(Apply(env, c, s))
  {
    forall x ensures Filed(Apply(env, c, s), x) {
      ApplyKeeps(env, c, s, x);
    }
    match s
    case Receive(chunk) => ReceiveRight(env, c, chunk);
    case Tick => hide Free, Decode;
    case _ => OthersRight(env, c, s);
  }

  lemma ReceiveRight(env: Env, c: Conn, chunk: seq<bv8>)
    requires Inv(env, c) && AllFiled(c) && RightBuffer(c)
    ensures RightBuffer(RxData(env, c, chunk))
  {
    forall x ensures Filed(c.(elapsed := 0), x) {
      assert Filed(c, x);
    }
    InvAnyTime(env, c, 0);
    hide Inv, Feed, Decode, AllFiled;
    FeedRight(env, c.(elapsed := 0), [], chunk);
  }

  lemma OthersRight(env: Env, c: Conn, s: Step)
    requires RightBuffer(c) && !s.Receive? && !s.Tick?
    ensures RightBuffer(Apply(env, c, s))
  {
    ApplySameScan(env, c, s);
  }

  lemma {:induction false} RunRight(env: Env, c: Conn, steps: seq<Step>)
    requires Inv(env, c) && AllFiled(c) && RightBuffer(c)
    ensures RightBuffer(Run(env, c, steps))
    decreases |steps|
  {
    hide Apply, Inv, AllFiled, RightBuffer;
    if steps != [] {
      ApplyKeepsInv(env, c, steps[0]);
      ApplyRight(env, c, steps[0]);
      RunRight(env, Apply(env, c, steps[0]), steps[1..]);
    }
  }

  /** In every run from registration on a payload is received into a buffer of the right pool. */
  lemma BuffersRight(env: Env, rxCnt: nat, txCnt: nat, steps: seq<Step>)
    ensures RightBuffer(Run(env, Registered(rxCnt, txCnt), steps))
  {
    var c := Registered(rxCnt, txCnt);
    forall x ensures Filed(c, x) {
      Conservation(env, rxCnt, txCnt, [], x);
    }
    RunRight(env, c, steps);
  }
}
