/** What the netXtransport protocol promises, for every stream, every cut into receive calls and
    every run of the TCP server configuration. */
module MarshallerLaws {
  import opened Options
  import opened Bytes
  import opened Frame
  import opened Marshaller
  import opened MarshallerScan
  import opened MarshallerBuffers
  import opened MarshallerStream
  import opened MarshallerCalls
  import Crc16

  // ---------------------------------------------- one acknowledge per packet

  predicate IsAck(e: Event) { e.Sent? && e.header.dataType == TYPE_ACKNOWLEDGE }

  /** The acknowledges of a trace, in order. */
  function Acks(trace: seq<Event>): seq<Event> {
    if trace == [] then []
    else Acks(trace[..|trace| - 1]) + if IsAck(trace[|trace| - 1]) then [trace[|trace| - 1]] else []
  }

  lemma {:induction false} AcksConcat(a: seq<Event>, b: seq<Event>)
    ensures Acks(a + b) == Acks(a) + Acks(b)
  {
    if b == [] {
      assert a + b == a;
    } else {
      var n := |b| - 1;
      assert (a + b)[..|a + b| - 1] == a + b[..n];
      AcksConcat(a, b[..n]);
    }
  }

  /** Every response starts with its one acknowledge: no data, no checksum, the packet's own header. */
  lemma ResponseOneAck(env: Env, id: bv32, ticks: nat, h: Header, data: seq<bv8>)
    requires h.dataType != TYPE_ACKNOWLEDGE
    ensures Response(env, id, ticks, h, data)[0] == AckOf(h, Verdict(env, id, h, data))
    ensures Acks(Response(env, id, ticks, h, data)) == [AckOf(h, Verdict(env, id, h, data))]
  {
    hide Verdict, NextId, AsksNewId, Stamp, Long32;
    var ack := AckOf(h, Verdict(env, id, h, data));
    var effects := Effects(env, NextId(env, id, ticks, h, data), h, data);
    AcksConcat([ack], effects);
    assert Acks([ack]) == [ack] by {
      assert [ack][..0] == [];
    }
    assert Acks(effects) == [] by {
      StampType(h, env.serverInfo);
      StampType(h, Long32(NextId(env, id, ticks, h, data)));
      StampType(h, env.answer(h, data));
      assert effects[..|effects| - 1][..0] == [] || |effects| == 1;
      NoAcks(effects);
    }
    assert [ack] + [] == [ack];
  }

  lemma StampType(h: Header, data: seq<bv8>)
    ensures Stamp(h, data).dataType == h.dataType
  {}

  lemma {:induction false} NoAcks(t: seq<Event>)
    requires forall i :: 0 <= i < |t| ==> !IsAck(t[i])
    ensures Acks(t) == []
  {
    if t != [] {
      NoAcks(t[..|t| - 1]);
    }
  }

  function AckFor(env: Env, s: Session, item: Item): Event {
    match item
    case Whole(h, data) => AckOf(h, Verdict(env, s.id, h, data))
    case Oversized(h) => AckOf(h, BUFFEROVERFLOW_ERROR)
  }

  function AcksFor(env: Env, s: Session, items: seq<Item>): (acks: seq<Event>)
    ensures |acks| == |items|
    decreases |items|
  {
    if items == [] then []
    else [AckFor(env, s, items[0])] + AcksFor(env, RespondItem(env, s, items[0]), items[1..])
  }

  lemma ItemOneAck(env: Env, s: Session, item: Item)
    requires item.header.dataType != TYPE_ACKNOWLEDGE
    ensures Acks(RespondItem(env, s, item).trace) == Acks(s.trace) + [AckFor(env, s, item)]
  {
    hide Acks, Response, Verdict, NextId, AsksNewId;
    match item
    case Whole(h, data) =>
      AcksConcat(s.trace, Response(env, s.id, s.ticks, h, data));
      ResponseOneAck(env, s.id, s.ticks, h, data);
    case Oversized(h) =>
      var ack := AckOf(h, BUFFEROVERFLOW_ERROR);
      AcksConcat(s.trace, [ack]);
      AckAlone(ack);
  }

  lemma AckAlone(ack: Event)
    requires IsAck(ack)
    ensures Acks([ack]) == [ack]
  {
    assert [ack][..0] == [];
  }

  lemma {:induction false} ItemsOneAck(env: Env, s: Session, items: seq<Item>)
    requires forall i :: 0 <= i < |items| ==> items[i].header.dataType != TYPE_ACKNOWLEDGE
    ensures Acks(RespondAll(env, s, items).trace) == Acks(s.trace) + AcksFor(env, s, items)
    decreases |items|
  {
    hide Acks, RespondItem, AckFor;
    if items != [] {
      ItemOneAck(env, s, items[0]);
      ItemsOneAck(env, RespondItem(env, s, items[0]), items[1..]);
    }
  }

  /** Exactly one acknowledge per packet that is received completely or refused at its header, with
      its verdict, in the order of the packets, for every stream and every cutting of it into receive
      calls; incoming acknowledges cause none. */
  lemma OneAckPerPacket(env: Env, c: Conn, chunks: seq<seq<bv8>>)
    requires Tcp(env) && Ready(c)
    ensures Acks(RxChunks(env, c, chunks).trace) == Acks(c.trace) + AcksFor(env, View(c), ParseChunks(env, [], chunks))
  {
    hide RxChunks, ParseChunks, RespondAll, Acks, AcksFor;
    StreamTrace(env, c, chunks);
    ChunksSkipAcks(env, [], chunks);
    ItemsOneAck(env, View(c), ParseChunks(env, [], chunks));
  }

  // -------------------------------------------------------------- round trip

  datatype Message = Message(header: Header, data: seq<bv8>)

  /** A message a sender may frame: it fits the receive buffer and its type has a transport. */
  predicate Sendable(env: Env, m: Message) {
    && |m.data| <= env.rxSize && |m.data| < 0x1_0000_0000
    && m.header.dataType in env.transports
    && m.header.dataType != TYPE_ACKNOWLEDGE && m.header.dataType != TYPE_QUERYSERVER && !IsKeepAlive(m.header)
  }

  function Packets(ms: seq<Message>): seq<bv8> {
    if ms == [] then [] else Packet(ms[0].header, ms[0].data) + Packets(ms[1..])
  }

  function Items(ms: seq<Message>): (items: seq<Item>)
    ensures |items| == |ms|
  {
    if ms == [] then [] else [Whole(Stamp(ms[0].header, ms[0].data), ms[0].data)] + Items(ms[1..])
  }

  /** What the receiver does with a message: acknowledge, hand over exactly the payload, answer. */
  function Delivery(env: Env, m: Message): seq<Event> {
    var h := Stamp(m.header, m.data);
    var answer := env.answer(h, m.data);
    [AckOf(h, STATE_OK), Dispatched(h, m.data), Sent(Stamp(h, answer), answer)]
  }

  function Deliveries(env: Env, ms: seq<Message>): seq<Event> {
    if ms == [] then [] else Delivery(env, ms[0]) + Deliveries(env, ms[1..])
  }

  /** A cookie that comes first stays first whatever follows it. */
  lemma {:induction false} FirstStaysFirst(g: seq<bv8>, more: seq<bv8>)
    requires FindCookie(g + COOKIE) == Some(|g|)
    ensures FindCookie(g + COOKIE + more) == Some(|g|)
    decreases |g|
  {
    var s, t := g + COOKIE, g + COOKIE + more;
    assert t[..4] == s[..4];
    if g == [] {
      CookieFirst(t);
    } else {
      assert s[1..] == g[1..] + COOKIE && t[1..] == g[1..] + COOKIE + more;
      if s[..4] == COOKIE {
        CookieFirst(s);
      }
      FindCookieStep(s);
      FindCookieStep(t);
      FirstStaysFirst(g[1..], more);
    }
  }

  lemma {:induction false} NoneBefore(g: seq<bv8>)
    requires FindCookie(g + COOKIE) == Some(|g|)
    ensures FindCookie(g).None?
    decreases |g|
  {
    if |g| >= 4 {
      var s := g + COOKIE;
      assert s[..4] == g[..4] && s[1..] == g[1..] + COOKIE;
      if s[..4] == COOKIE {
        CookieFirst(s);
      }
      FindCookieStep(s);
      FindCookieStep(g);
      NoneBefore(g[1..]);
    }
  }

  lemma ParseOne(env: Env, g: seq<bv8>, e: seq<bv8>, data: seq<bv8>, tail: seq<bv8>)
    requires FindCookie(g + COOKIE) == Some(|g|) && |e| == HEADER_SIZE && e[..4] == COOKIE
    requires Decode(e).length == |data| <= Capacity(env, Decode(e)) && Decode(e).dataType != TYPE_ACKNOWLEDGE
    ensures Parse(env, g + (e + data + tail)) == [Whole(Decode(e), data)] + Parse(env, tail)
  {
    hide FindCookie, Decode, Capacity, Parse;
    var rest := e + data + tail;
    assert rest == e + (data + tail);
    Regroup(g, e, data + tail);
    FirstStaysFirst(g, e[4..] + (data + tail));
    Pieces(e, data, tail);
    assert (g + rest)[|g|..] == rest;
    ParseWhole(env, g + rest, |g|, rest);
  }

  lemma Regroup(g: seq<bv8>, e: seq<bv8>, more: seq<bv8>)
    requires |e| >= 4 && e[..4] == COOKIE
    ensures g + (e + more) == g + COOKIE + (e[4..] + more)
  {
    assert e == COOKIE + e[4..];
  }

  lemma Pieces(e: seq<bv8>, data: seq<bv8>, tail: seq<bv8>)
    ensures var rest := e + data + tail;
            var end := |e| + |data|;
            rest[..|e|] == e && rest[|e|..end] == data && rest[end..] == tail
  {}

  lemma ParseWhole(env: Env, stream: seq<bv8>, i: nat, rest: seq<bv8>)
    requires FindCookie(stream) == Some(i) && rest == stream[i..] && |rest| >= HEADER_SIZE
    requires var h := Decode(rest[..HEADER_SIZE]);
             h.length <= Capacity(env, h) && h.dataType != TYPE_ACKNOWLEDGE && |rest| >= HEADER_SIZE + h.length
    ensures var h := Decode(rest[..HEADER_SIZE]);
            var end := HEADER_SIZE + h.length;
            Parse(env, stream) == [Whole(h, rest[HEADER_SIZE..end])] + Parse(env, rest[end..])
  {
    hide FindCookie, Decode, Capacity;
  }

  /** Framed messages are read back exactly, also after garbage whose first cookie is the real one. */
  lemma {:induction false} ParsePackets(env: Env, g: seq<bv8>, ms: seq<Message>)
    requires FindCookie(g + COOKIE) == Some(|g|) && forall i :: 0 <= i < |ms| ==> Sendable(env, ms[i])
    ensures Parse(env, g + Packets(ms)) == Items(ms)
    decreases |ms|
  {
    hide FindCookie, Decode, Stamp, Parse;
    if ms == [] {
      assert g + Packets(ms) == g;
      NoneBefore(g);
      ParseNothing(env, g);
    } else {
      var m := ms[0];
      var h := Stamp(m.header, m.data);
      StampFields(m.header, m.data);
      DecodeEncode(h);
      var tail := Packets(ms[1..]);
      hide Encode;
      ParseOne(env, g, Encode(h), m.data, tail);
      assert [] + COOKIE == COOKIE && [] + tail == tail;
      CookieFirst(COOKIE);
      ParsePackets(env, [], ms[1..]);
    }
  }

  lemma ParseNothing(env: Env, g: seq<bv8>)
    requires FindCookie(g).None?
    ensures Parse(env, g) == []
  {}

  lemma StampFields(h: Header, data: seq<bv8>)
    ensures var s := Stamp(h, data);
            && s.length == |data| && s.dataType == h.dataType
            && (|data| > 0 ==> s.checksum == Crc16.Checksum(data))
  {}

  lemma {:induction false} DeliverAll(env: Env, s: Session, ms: seq<Message>)
    requires forall i :: 0 <= i < |ms| ==> Sendable(env, ms[i])
    ensures RespondAll(env, s, Items(ms)) == s.(trace := s.trace + Deliveries(env, ms))
    decreases |ms|
  {
    hide Stamp, RespondItem, Delivery, Sendable;
    if ms == [] {
      assert s.trace + Deliveries(env, ms) == s.trace;
    } else {
      var m := ms[0];
      DeliverOne(env, s, m);
      var item := Whole(Stamp(m.header, m.data), m.data);
      assert Items(ms) == [item] + Items(ms[1..]) && Deliveries(env, ms) == Delivery(env, m) + Deliveries(env, ms[1..]);
      NextItem(env, s, item, Items(ms[1..]));
      DeliverAll(env, s.(trace := s.trace + Delivery(env, m)), ms[1..]);
      hide Items, Deliveries, RespondAll;
      assert s.trace + Delivery(env, m) + Deliveries(env, ms[1..]) == s.trace + (Delivery(env, m) + Deliveries(env, ms[1..]));
    }
  }

  lemma DeliverOne(env: Env, s: Session, m: Message)
    requires Sendable(env, m)
    ensures RespondItem(env, s, Whole(Stamp(m.header, m.data), m.data)) == s.(trace := s.trace + Delivery(env, m))
  {
    hide Stamp;
    StampFields(m.header, m.data);
  }

  lemma ItemsFit(ms: seq<Message>)
    ensures AllFit(Items(ms))
  {}

  /** Frame round trip: every list of messages, framed as the transmit side does and received in any
      chunks after any such garbage, is acknowledged, delivered byte for byte and answered in order,
      with no checksum rejection. */
  lemma RoundTrip(env: Env, c: Conn, g: seq<bv8>, ms: seq<Message>, chunks: seq<seq<bv8>>)
    requires Tcp(env) && Ready(c) && forall i :: 0 <= i < |ms| ==> Sendable(env, ms[i])
    requires FindCookie(g + COOKIE) == Some(|g|) && Flatten(chunks) == g + Packets(ms)
    ensures RxChunks(env, c, chunks).trace == c.trace + Deliveries(env, ms)
  {
    hide RxChunks, Parse, ParseChunks, RespondAll, Sendable, FindCookie;
    ParsePackets(env, g, ms);
    ItemsFit(ms);
    FittingParse(env, chunks);
    StreamTrace(env, c, chunks);
    DeliverAll(env, View(c), ms);
  }

  /** A packet altered inside two adjacent payload bytes is only nacked, exactly if its checksum is not
      zero: a zero stands for "not checked", even when it is the CRC of the payload. */
  lemma AlteredPacketNacked(env: Env, id: bv32, ticks: nat, h: Header,
                            before: seq<bv8>, u: seq<bv8>, v: seq<bv8>, after: seq<bv8>)
    requires |u| == |v| <= 2 && u != v
    requires h.checksum == Crc16.Checksum(before + u + after)
    ensures Response(env, id, ticks, h, before + v + after) == [AckOf(h, CHECKSUM_ERROR)] <==> h.checksum != 0
  {
    Crc16.AdjacentBytesDetected(before, u, v, after);
    var response := Response(env, id, ticks, h, before + v + after);
    assert response[0].header.state == Verdict(env, id, h, before + v + after);
  }

  /** The same on the line: a frame with a nonzero checksum whose payload was altered inside two
      adjacent bytes, received in any chunks and followed by any intact frames, causes one negative
      acknowledge and nothing else; what follows is delivered as if it were not there. */
  lemma AlteredFrameRejected(env: Env, c: Conn, m: Message, before: seq<bv8>, u: seq<bv8>, v: seq<bv8>, after: seq<bv8>,
                             ms: seq<Message>, chunks: seq<seq<bv8>>)
    requires Tcp(env) && Ready(c) && Sendable(env, m) && forall i :: 0 <= i < |ms| ==> Sendable(env, ms[i])
    requires m.data == before + u + after && |u| == |v| <= 2 && u != v && Crc16.Checksum(m.data) != 0
    requires Flatten(chunks) == Encode(Stamp(m.header, m.data)) + (before + v + after) + Packets(ms)
    ensures RxChunks(env, c, chunks).trace ==
            c.trace + [AckOf(Stamp(m.header, m.data), CHECKSUM_ERROR)] + Deliveries(env, ms)
  {
    hide RxChunks, Parse, RespondAll, Encode, Decode, Stamp, Response, AckOf, Deliveries, Packets;
    var h, altered := Stamp(m.header, m.data), before + v + after;
    StampFields(m.header, m.data);
    FrameThenMessages(env, c, m, altered, ms, chunks);
    AlteredPacketNacked(env, View(c).id, View(c).ticks, h, before, u, v, after);
    AlteredRespond(env, View(c), h, altered);
  }

  /** The header of one message with the payload of another, then intact frames. */
  lemma FrameThenMessages(env: Env, c: Conn, m: Message, data: seq<bv8>, ms: seq<Message>, chunks: seq<seq<bv8>>)
    requires Tcp(env) && Ready(c) && Sendable(env, m) && forall i :: 0 <= i < |ms| ==> Sendable(env, ms[i])
    requires |data| == |m.data| && Flatten(chunks) == Encode(Stamp(m.header, m.data)) + data + Packets(ms)
    ensures RxChunks(env, c, chunks).trace ==
            RespondItem(env, View(c), Whole(Stamp(m.header, m.data), data)).trace + Deliveries(env, ms)
  {
    hide RxChunks, Parse, ParseChunks, RespondAll, FindCookie, Encode, Decode, Stamp, RespondItem;
    var h := Stamp(m.header, m.data);
    var item := Whole(h, data);
    StampFields(m.header, m.data);
    DecodeEncode(h);
    CookieFirst(COOKIE);
    assert [] + COOKIE == COOKIE && [] + Packets(ms) == Packets(ms) && [] + Flatten(chunks) == Flatten(chunks);
    ParsePackets(env, [], ms);
    ParseOne(env, [], Encode(h), data, Packets(ms));
    FramesTrace(env, c, item, ms, chunks);
    NextItem(env, View(c), item, Items(ms));
    DeliverAll(env, RespondItem(env, View(c), item), ms);
  }

  lemma FramesTrace(env: Env, c: Conn, item: Item, ms: seq<Message>, chunks: seq<seq<bv8>>)
    requires Tcp(env) && Ready(c) && item.Whole? && Parse(env, Flatten(chunks)) == [item] + Items(ms)
    ensures View(RxChunks(env, c, chunks)) == RespondAll(env, View(c), [item] + Items(ms))
  {
    hide RxChunks, Parse, ParseChunks, RespondAll;
    ItemsFit(ms);
    FittingParse(env, chunks);
    StreamTrace(env, c, chunks);
  }

  /** There are payloads whose checksum is zero; of two bytes exactly one. */
  lemma ZeroChecksum(u: seq<bv8>)
    requires |u| == 2
    ensures Crc16.Checksum(u) == 0 <==> u == [0x7B, 0x30]
  {
    var zero: seq<bv8> := [0x7B, 0x30];
    Crc16.ZeroWitness();
    if u != zero {
      assert [] + u + [] == u && [] + zero + [] == zero;
      Crc16.AdjacentBytesDetected([], u, zero, []);
    }
  }

  /** A frame with such a payload is not protected: whatever arrives in place of the payload is
      acknowledged OK, dispatched as it arrived and answered. */
  lemma UncheckedFrameDelivered(env: Env, c: Conn, m: Message, altered: seq<bv8>, ms: seq<Message>, chunks: seq<seq<bv8>>)
    requires Tcp(env) && Ready(c) && Sendable(env, m) && forall i :: 0 <= i < |ms| ==> Sendable(env, ms[i])
    requires Crc16.Checksum(m.data) == 0 && |altered| == |m.data|
    requires Flatten(chunks) == Encode(Stamp(m.header, m.data)) + altered + Packets(ms)
    ensures var h := Stamp(m.header, m.data);
            var answer := env.answer(h, altered);
            RxChunks(env, c, chunks).trace ==
            c.trace + [AckOf(h, STATE_OK), Dispatched(h, altered), Sent(Stamp(h, answer), answer)] + Deliveries(env, ms)
  {
    hide RxChunks, Parse, RespondAll, Encode, Decode, Stamp, Deliveries, Packets, Crc16.Checksum;
    var h := Stamp(m.header, m.data);
    StampChecksum(m.header, m.data);
    StampFields(m.header, m.data);
    FrameThenMessages(env, c, m, altered, ms, chunks);
    UncheckedResponse(env, View(c), h, altered);
    AlteredRespond(env, View(c), h, altered);
  }

  lemma StampChecksum(h: Header, data: seq<bv8>)
    requires Crc16.Checksum(data) == 0
    ensures Stamp(h, data).checksum == 0
  {}

  lemma UncheckedResponse(env: Env, s: Session, h: Header, data: seq<bv8>)
    requires h.checksum == 0 && h.dataType in env.transports && h.dataType != TYPE_QUERYSERVER && !IsKeepAlive(h)
    ensures var answer := env.answer(h, data);
            Response(env, s.id, s.ticks, h, data) == [AckOf(h, STATE_OK), Dispatched(h, data), Sent(Stamp(h, answer), answer)]
  {
    hide Stamp;
  }

  lemma AlteredRespond(env: Env, s: Session, h: Header, data: seq<bv8>)
    ensures RespondItem(env, s, Whole(h, data)).trace == s.trace + Response(env, s.id, s.ticks, h, data)
  {}

  // --------------------------------------------- what a packet's answers carry

  /** A packet sent for a packet with header h: addressing, sequence and transaction are those of h; an
      acknowledge is empty; an answer keeps state and type, and has its own length and CRC, or zero for
      the CRC if it has no data. */
  predicate AnswersTo(e: Event, h: Header) {
    && e.Sent?
    && e.header.device == h.device && e.header.channel == h.channel && e.header.sequence == h.sequence
    && e.header.transaction == h.transaction && e.header.reserved == h.reserved
    && e.header.length == |e.data|
    && e.header.checksum == (if e.data == [] then 0 else Crc16.Checksum(e.data))
    && if e.header.dataType == TYPE_ACKNOWLEDGE then e.data == []
       else e.header.dataType == h.dataType && e.header.state == h.state
  }

  /** Every packet among new events answers to a header. */
  predicate AllAnswerTo(events: seq<Event>, h: Header) {
    forall i :: 0 <= i < |events| && events[i].Sent? ==> AnswersTo(events[i], h)
  }

  lemma StampAnswers(h: Header, data: seq<bv8>)
    requires h.dataType != TYPE_ACKNOWLEDGE
    ensures AnswersTo(Sent(Stamp(h, data), data), h)
  {
    hide Crc16.Checksum;
  }

  lemma ResponseAnswers(env: Env, id: bv32, ticks: nat, h: Header, data: seq<bv8>)
    requires h.dataType != TYPE_ACKNOWLEDGE
    ensures AllAnswerTo(Response(env, id, ticks, h, data), h)
  {
    hide Stamp, Long32, Verdict, NextId, AnswersTo;
    var next := NextId(env, id, ticks, h, data);
    AckAnswers(h, Verdict(env, id, h, data));
    StampAnswers(h, env.serverInfo);
    StampAnswers(h, Long32(next));
    StampAnswers(h, env.answer(h, data));
  }

  lemma AckAnswers(h: Header, state: bv8)
    ensures AnswersTo(AckOf(h, state), h)
  {}

  lemma ItemAnswers(env: Env, s: Session, item: Item) returns (events: seq<Event>)
    requires item.header.dataType != TYPE_ACKNOWLEDGE
    ensures RespondItem(env, s, item).trace == s.trace + events && AllAnswerTo(events, item.header)
  {
    hide Response, AnswersTo, AckOf;
    match item
    case Whole(h, data) =>
      ResponseAnswers(env, s.id, s.ticks, h, data);
      events := Response(env, s.id, s.ticks, h, data);
    case Oversized(h) =>
      AckAnswers(h, BUFFEROVERFLOW_ERROR);
      events := [AckOf(h, BUFFEROVERFLOW_ERROR)];
  }

  function Joined(groups: seq<seq<Event>>): seq<Event> {
    if groups == [] then [] else groups[0] + Joined(groups[1..])
  }

  /** One group of events for each packet, and in it everything sent answers to that packet. */
  predicate AnswerEach(groups: seq<seq<Event>>, items: seq<Item>) {
    |groups| == |items| && forall k :: 0 <= k < |items| ==> AllAnswerTo(groups[k], items[k].header)
  }

  lemma {:induction false} ItemsAnswer(env: Env, s: Session, items: seq<Item>) returns (groups: seq<seq<Event>>)
    requires NoneAcknowledge(items)
    ensures RespondAll(env, s, items).trace == s.trace + Joined(groups) && AnswerEach(groups, items)
    decreases |items|
  {
    hide RespondItem, AllAnswerTo;
    if items == [] {
      groups := [];
    } else {
      var first := ItemAnswers(env, s, items[0]);
      var rest := ItemsAnswer(env, RespondItem(env, s, items[0]), items[1..]);
      groups := [first] + rest;
      assert groups[1..] == rest;
      assert s.trace + first + Joined(rest) == s.trace + (first + Joined(rest));
    }
  }

  /** For every stream and every cutting of it: what a connector does falls into one group of events for
      each packet received, in order, and every packet sent in a group answers to that packet. */
  lemma SentAnswers(env: Env, c: Conn, chunks: seq<seq<bv8>>) returns (groups: seq<seq<Event>>)
    requires Tcp(env) && Ready(c)
    ensures RxChunks(env, c, chunks).trace == c.trace + Joined(groups)
    ensures AnswerEach(groups, ParseChunks(env, [], chunks))
  {
    hide RxChunks, ParseChunks, RespondAll, AllAnswerTo, Ready;
    StreamTrace(env, c, chunks);
    ChunksSkipAcks(env, [], chunks);
    groups := ItemsAnswer(env, View(c), ParseChunks(env, [], chunks));
  }

  // ------------------------------------------------- no RESOURCE_ERROR, ever

  predicate NoResourceError(trace: seq<Event>) {
    forall i :: 0 <= i < |trace| ==> !(IsAck(trace[i]) && trace[i].header.state == RESOURCE_ERROR)
  }

  /** Between calls all buffers are back but the one being filled. */
  predicate Steady(env: Env, c: Conn) {
    Inv(env, c) && Stocked(c) && NoResourceError(c.trace)
  }

  lemma ResponseNoResourceError(env: Env, s: Session, h: Header, data: seq<bv8>)
    requires h.dataType != TYPE_ACKNOWLEDGE && NoResourceError(s.trace)
    ensures NoResourceError(Respond(env, s, h, data).trace)
  {
    hide NextId, AsksNewId, Stamp, Long32, Word32, ChecksumBad;
    var verdict := Verdict(env, s.id, h, data);
    var effects := Effects(env, NextId(env, s.id, s.ticks, h, data), h, data);
    StampType(h, env.serverInfo);
    StampType(h, Long32(NextId(env, s.id, s.ticks, h, data)));
    StampType(h, env.answer(h, data));
    assert verdict != RESOURCE_ERROR;
    assert forall i :: 0 <= i < |effects| ==> !IsAck(effects[i]);
  }

  lemma ByteSteady(env: Env, c: Conn, b: bv8)
    requires Tcp(env) && Steady(env, c) && c.elapsed == 0
    ensures Steady(env, Byte(env, c, b).0)
  {
    hide Decode, HeaderDone, CheckTelegram, NoResourceError, Respond, FindCookie;
    ByteKeepsInv(env, c, b);
    if c.scan.HeaderScan? {
      var done := c.(raw := c.raw + [b]);
      if |done.raw| == HEADER_SIZE {
        assert Stocked(done);
        var h := Decode(done.raw);
        HeaderDoneTcp(env, done);
        if h.dataType != TYPE_ACKNOWLEDGE {
          ResponseNoResourceError(env, View(done), h, []);
          OverflowNoResourceError(c.trace, h);
        }
      }
    } else if c.scan.DataWait? {
      var fed := c.(data := c.data + [b], scan := TelegramCheck);
      var h := Decode(c.raw);
      if |fed.data| >= h.length {
        assert Checking(fed);
        CheckTelegramTcp(env, fed);
        ResponseNoResourceError(env, View(fed), h, fed.data);
      }
    }
  }

  lemma OverflowNoResourceError(trace: seq<Event>, h: Header)
    requires NoResourceError(trace)
    ensures NoResourceError(trace + [AckOf(h, BUFFEROVERFLOW_ERROR)])
  {}

  lemma {:induction false} FeedSteady(env: Env, c: Conn, seen: seq<bv8>, chunk: seq<bv8>)
    requires Tcp(env) && Steady(env, c) && c.elapsed == 0
    ensures Steady(env, Feed(env, c, seen, chunk))
    decreases |seen| + |chunk|, if c.scan.HeaderScan? then 1 else 0, |chunk|
  {
    hide Byte, Inv, Stocked, NoResourceError;
    if chunk != [] {
      var (c', refused) := Byte(env, c, chunk[0]);
      ByteKeepsInv(env, c, chunk[0]);
      ByteSteady(env, c, chunk[0]);
      if refused {
        FeedSteady(env, c', [], seen + chunk);
      } else if c.scan.HeaderScan? && c'.scan.HeaderScan? {
        FeedSteady(env, c', seen + [chunk[0]], chunk[1..]);
      } else {
        FeedSteady(env, c', [], chunk[1..]);
      }
    }
  }

  lemma ApplySteady(env: Env, c: Conn, s: Step)
    requires Tcp(env) && Steady(env, c)
    ensures Steady(env, Apply(env, c, s))
  {
    hide Feed, Reset, Decode, NoResourceError;
    match s
    case Receive(chunk) =>
      assert Steady(env, c.(elapsed := 0));
      FeedSteady(env, c.(elapsed := 0), [], chunk);
    case Tick =>
      var d := c.(elapsed := (c.elapsed + 10) % 0x1_0000_0000);
      assert Stocked(d);
      ResetReady(d);
      ReadyInv(env, Reset(d));
    case RunMain(wake) =>
    case Complete(j) =>
    case Answer(j) =>
  }

  lemma {:induction false} RunSteady(env: Env, c: Conn, steps: seq<Step>)
    requires Tcp(env) && Steady(env, c)
    ensures Steady(env, Run(env, c, steps))
    decreases |steps|
  {
    hide Apply, Steady;
    if steps != [] {
      ApplySteady(env, c, steps[0]);
      RunSteady(env, Apply(env, c, steps[0]), steps[1..]);
    }
  }

  predicate InPool(c: Conn, x: Buffer) {
    match x.kind
    case RxKind => x in c.rx
    case TxKind => x in c.tx
    case AckKind => x in c.ack
    case KeepAliveKind => x in c.keepAlive
  }

  lemma RegisteredSteady(env: Env, rxCnt: nat, txCnt: nat)
    requires rxCnt >= 1
    ensures Steady(env, Registered(rxCnt, txCnt))
  {
    var c := Registered(rxCnt, txCnt);
    assert |c.rx| == rxCnt && |c.ack| == rxCnt + txCnt + 2 && |c.keepAlive| == 1;
  }

  /** The laws above hold of a connector as it is registered. */
  lemma RegisteredReady(rxCnt: nat, txCnt: nat)
    requires rxCnt >= 1
    ensures Ready(Registered(rxCnt, txCnt))
  {
    var c := Registered(rxCnt, txCnt);
    assert |c.rx| == rxCnt && |c.ack| == rxCnt + txCnt + 2 && |c.keepAlive| == 1;
  }

  /** The TCP server, from registration with at least one receive buffer on: no run of receives in
      any chunks, ticks, main calls and completions ever sends RESOURCE_ERROR; whenever no payload is
      under way, as when a header is judged, every allocated buffer is back in its pool. */
  lemma NeverOutOfBuffers(env: Env, rxCnt: nat, txCnt: nat, steps: seq<Step>)
    requires Tcp(env) && rxCnt >= 1
    ensures var c := Run(env, Registered(rxCnt, txCnt), steps);
            && NoResourceError(c.trace)
            && (!c.scan.DataWait? ==> forall x: Buffer :: x.id < PoolSize(x.kind, rxCnt, txCnt) ==> InPool(c, x))
  {
    hide Run, Registered;
    RegisteredSteady(env, rxCnt, txCnt);
    RunSteady(env, Registered(rxCnt, txCnt), steps);
    var c := Run(env, Registered(rxCnt, txCnt), steps);
    if !c.scan.DataWait? {
      forall x: Buffer | x.id < PoolSize(x.kind, rxCnt, txCnt) ensures InPool(c, x) {
        Conservation(env, rxCnt, txCnt, steps, x);
        assert NeverRefuses(env);
        NothingOccurs(x);
        assert c.current.None?;
      }
    }
  }

  // ------------------------------------------- where the cut into calls matters

  /** The exact condition, told from the stream alone: at no moment does the cutting into calls show,
      if and only if every length announced in the stream fits its buffer. */
  lemma CutsShowExactly(env: Env, c: Conn, stream: seq<bv8>)
    requires Tcp(env) && Ready(c)
    ensures AlwaysCutFree(env, c, stream) <==> AllFit(Parse(env, stream))
  {
    hide RxBytes, NoRefusal, Parse, AlwaysCutFree;
    ReadyInv(env, c);
    ByteTrace(env, c, stream);
    ChunkIndependenceExactly(env, c, stream);
  }

  /** A header, cookie included, that is too long for its buffer. */
  predicate TooLong(env: Env, e: seq<bv8>) {
    |e| == HEADER_SIZE && e[..4] == COOKIE
    && Capacity(env, Decode(e)) < Decode(e).length && Decode(e).dataType != TYPE_ACKNOWLEDGE
  }

  function InHeader(c: Conn, raw: seq<bv8>): Conn {
    c.(raw := raw, scan := HeaderScan, monitor := true)
  }

  lemma LastByteRefused(env: Env, c: Conn, e: seq<bv8>)
    requires Tcp(env) && Ready(c) && TooLong(env, e)
    ensures var (d, refused) := Byte(env, InHeader(c, e[..19]), e[19]);
            refused && Ready(d) && d == HeaderDone(env, InHeader(c, e)).0
  {
    hide Decode, HeaderDone;
    assert e[..19] + [e[19]] == e;
    HeaderDoneTcp(env, InHeader(c, e));
  }

  /** A refused header in one call: all its bytes after the cookie are scanned again. */
  lemma RefusedWhole(env: Env, c: Conn, e: seq<bv8>)
    requires Tcp(env) && Ready(c) && TooLong(env, e)
    ensures var d := HeaderDone(env, InHeader(c, e)).0;
            Ready(d) && RxData(env, c, e) == Feed(env, d, [], e[4..])
  {
    LastByteRefused(env, c, e);
    hide Decode, HeaderDone, Byte, TooLong, Feed, Stocked;
    assert c.(elapsed := 0) == c;
    LongHeaderPieces(e);
    FeedToLastByte(env, c, e);
    FeedRefused(env, InHeader(c, e[..19]), e[4..19], e[19]);
  }

  lemma FeedToLastByte(env: Env, c: Conn, e: seq<bv8>)
    requires Ready(c) && |e| == HEADER_SIZE && e[..4] == COOKIE
    ensures Feed(env, c, [], e) == Feed(env, InHeader(c, e[..19]), e[4..19], [e[19]])
  {
    hide Feed, Stocked, FindCookie;
    var t := e[4..19];
    assert c.raw + e == e && e[4..] == t + e[19..];
    LongHeaderPieces(e);
    CookieFirst(e);
    FeedCookie(env, c, e, 4);
    FeedHeaderBytes(env, InHeader(c, COOKIE), [], t, e[19..]);
    assert [] + t == t;
  }

  lemma LongHeaderPieces(e: seq<bv8>)
    requires |e| == HEADER_SIZE && e[..4] == COOKIE
    ensures e == COOKIE + (e[4..19] + e[19..]) && COOKIE + e[4..19] == e[..19]
    ensures e[19..] == [e[19]] && e[4..19] + [e[19]] == e[4..]
  {}

  lemma FeedRefused(env: Env, c: Conn, seen: seq<bv8>, b: bv8)
    requires Byte(env, c, b).1
    ensures Feed(env, c, seen, [b]) == Feed(env, Byte(env, c, b).0, [], seen + [b])
  {
    hide Byte;
  }

  /** The same header byte by byte: only its last byte is scanned again. */
  lemma RefusedBytes(env: Env, c: Conn, e: seq<bv8>)
    requires Tcp(env) && Ready(c) && TooLong(env, e)
    ensures RxBytes(env, c, e).scan.CookieScan? && RxBytes(env, c, e).raw == [e[19]]
  {
    hide Decode, HeaderDone, RxBytes, NoRefusal, FindCookie, TooLong, Byte, Stocked;
    LastByteRefused(env, c, e);
    TooLongHeader(env, e);
    UpToLastByte(env, c, e);
    assert e[19..] == [e[19]];
    RefusedLast(env, InHeader(c, e[..19]), e[19]);
  }

  lemma TooLongHeader(env: Env, e: seq<bv8>)
    requires TooLong(env, e)
    ensures |e| == HEADER_SIZE && e[..4] == COOKIE
  {}

  lemma RefusedLast(env: Env, c: Conn, b: bv8)
    requires c.elapsed == 0 && Byte(env, c, b).1 && Idle(Byte(env, c, b).0)
    ensures RxBytes(env, c, [b]).scan.CookieScan? && RxBytes(env, c, [b]).raw == [b]
  {
    hide RxBytes, NoRefusal, Byte;
    var d := Byte(env, c, b).0;
    CookieByte(env, d, b);
    RefusedByte(env, c, [b]);
    RxBytesOne(env, d, [b]);
    NoBytes(env, Byte(env, d, b).0);
    assert [b][1..] == [];
  }

  lemma UpToLastByte(env: Env, c: Conn, e: seq<bv8>)
    requires Ready(c) && |e| == HEADER_SIZE && e[..4] == COOKIE
    ensures RxBytes(env, c, e) == RxBytes(env, InHeader(c, e[..19]), e[19..])
  {
    hide RxBytes, NoRefusal, FindCookie, Inv, Stocked;
    var t := e[4..19];
    var c1 := InHeader(c, COOKIE);
    LongHeaderPieces(e);
    assert c.raw + e == e;
    CookieFirst(e);
    ReadyInv(env, c);
    HeaderInv(env, c1);
    CookieFound(env, c, e, 4);
    RunConcat(env, c, COOKIE, t + e[19..]);
    HeaderStart(env, c1, t);
    RunConcat(env, c1, t, e[19..]);
  }

  /** Every header that is too long shows the difference: whole, its bytes behind the cookie are scanned
      again and at least three of them stay; byte by byte, only the last one does. */
  lemma ChunkingMattersAfterRefusal(env: Env, c: Conn, e: seq<bv8>)
    requires Tcp(env) && Ready(c) && TooLong(env, e)
    ensures RxData(env, c, e) != RxBytes(env, c, e)
  {
    RefusedWhole(env, c, e);
    RefusedBytes(env, c, e);
    var d := HeaderDone(env, InHeader(c, e)).0;
    hide TooLong, HeaderDone, RxBytes, Feed, InHeader, Ready, Ends;
    FreshTrace(env, d, e[4..]);
    RestLong(env, Feed(env, d, [], e[4..]), d, e[4..]);
  }

  lemma RestLong(env: Env, c: Conn, d: Conn, s: seq<bv8>)
    requires 3 <= |s| < HEADER_SIZE && Ends(env, d, c, ParseCall(env, s, 0))
    ensures |c.raw| >= 3
  {
    hide FindCookie, Stocked, Decode, RespondAll;
  }

  /** Such headers exist for every receive buffer size a header can exceed. */
  lemma ChunkingMatters(env: Env, c: Conn)
    requires Tcp(env) && Ready(c) && env.rxSize < 0xFFFF_FFFF
    ensures exists e :: RxData(env, c, e) != RxBytes(env, c, e)
  {
    var g: seq<bv8> := [0xFF, 0xFF, 0xFF, 0xFF, 0, 0, 0, 1, 0, 0, 0, 0];
    var e := COOKIE + g + COOKIE;
    assert Decode(e).length == 0xFFFF_FFFF && Decode(e).dataType == 0x0100 by {
      assert e[4..8] == g[..4] && e[10..12] == g[6..8];
      assert Value(0xFF) == 255;
    }
    ChunkingMattersAfterRefusal(env, c, e);
  }
}
