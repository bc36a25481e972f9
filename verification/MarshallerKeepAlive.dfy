/** Keep-alive: an identifier that was issued is echoed until the next one is asked for, and any other is
    answered with a negative acknowledge. An issued identifier of zero is the exception, because a zero
    asks for a new one. */
module MarshallerKeepAlive {
  import opened Frame
  import opened Marshaller
  import opened MarshallerScan
  import opened MarshallerStream
  import opened MarshallerCalls

  // -------------------------------------------------------------- identifiers

  lemma LongOfWord(a: bv8, b: bv8, c: bv8, d: bv8)
    ensures Long32((a as bv32) | ((b as bv32) << 8) | ((c as bv32) << 16) | ((d as bv32) << 24)) == [a, b, c, d]
  {}

  /** The four bytes of an identifier and the identifier determine each other. */
  lemma LongWord(s: seq<bv8>)
    requires |s| == 4
    ensures Long32(Word32(s)) == s
  {
    LongOfWord(s[0], s[1], s[2], s[3]);
    hide Long32;
    assert s == [s[0], s[1], s[2], s[3]];
  }

  lemma WordOfLong(w: bv32)
    ensures Word32([(w & 0xFF) as bv8, ((w >> 8) & 0xFF) as bv8, ((w >> 16) & 0xFF) as bv8, (w >> 24) as bv8]) == w
  {}

  lemma WordLong(w: bv32)
    ensures Word32(Long32(w)) == w
  {
    WordOfLong(w);
    hide Word32;
  }

  /** When the identifier issued is zero: the tick counter is zero, unless the last identifier was all
      ones; or both are all ones. */
  lemma IssuedZero(last: bv32, tick: bv32)
    ensures NewKeepAliveId(last, tick) == 0 <==>
            (tick == 0 && last != 0xFFFF_FFFF) || (tick == 0xFFFF_FFFF && last == 0xFFFF_FFFF)
  {}

  /** A new identifier differs from the last one, exactly unless the tick counter is zero and the last one
      was zero or all ones. */
  lemma IssuedDiffers(last: bv32, tick: bv32)
    ensures NewKeepAliveId(last, tick) != last <==> tick != 0 || (last != 0 && last != 0xFFFF_FFFF)
  {}

  // ------------------------------------------------------------------ packets

  /** A keep-alive packet that gets past checksum and length. */
  predicate IsProbe(item: Item) {
    item.Whole? && IsKeepAlive(item.header) && |item.data| == 4 && !ChecksumBad(item.header, item.data)
  }

  /** One that asks for a new identifier. */
  predicate Asks(item: Item) { IsProbe(item) && Word32(item.data) == 0 }

  function Accepting(h: Header, id: bv32): seq<Event> {
    [AckOf(h, STATE_OK), Sent(Stamp(h, Long32(id)), Long32(id))]
  }

  /** What a probe causes while issued is the identifier, and next the one to be issued: its bytes sent
      back, a negative acknowledge, or a new identifier. */
  function ProbeAnswer(h: Header, data: seq<bv8>, issued: bv32, next: bv32): seq<Event>
    requires |data| == 4
  {
    if Word32(data) == 0 then Accepting(h, next)
    else if Word32(data) == issued then [AckOf(h, STATE_OK), Sent(Stamp(h, data), data)]
    else [AckOf(h, KEEP_ALIVE_ERROR)]
  }

  lemma ProbeResponse(env: Env, s: Session, item: Item)
    requires IsProbe(item)
    ensures var next := NewKeepAliveId(s.id, env.tick(s.ticks));
            var t := RespondItem(env, s, item);
            && t.trace == s.trace + ProbeAnswer(item.header, item.data, s.id, next)
            && (Word32(item.data) == 0 ==> t.id == next && t.ticks == s.ticks + 1)
            && (Word32(item.data) != 0 ==> t.id == s.id && t.ticks == s.ticks)
  {
    var h, x := item.header, Word32(item.data);
    EchoBytes(h, item.data);
    hide NewKeepAliveId, Word32, Long32, Stamp, ChecksumBad, AckOf;
    var verdict := Verdict(env, s.id, h, item.data);
    assert verdict == if x != 0 && x != s.id then KEEP_ALIVE_ERROR else STATE_OK;
    assert [AckOf(h, verdict)] + [] == [AckOf(h, verdict)];
  }

  lemma EchoBytes(h: Header, data: seq<bv8>)
    requires |data| == 4
    ensures Accepting(h, Word32(data)) == [AckOf(h, STATE_OK), Sent(Stamp(h, data), data)]
  {
    hide Long32, Word32, Stamp, AckOf;
    LongWord(data);
  }

  /** No other packet changes the identifier. */
  lemma OthersKeepId(env: Env, s: Session, item: Item)
    requires !Asks(item)
    ensures RespondItem(env, s, item).id == s.id && RespondItem(env, s, item).ticks == s.ticks
  {
    hide NewKeepAliveId, Word32, Long32, Stamp, Response;
  }

  lemma {:induction false} IdKept(env: Env, s: Session, items: seq<Item>)
    requires forall i :: 0 <= i < |items| ==> !Asks(items[i])
    ensures RespondAll(env, s, items).id == s.id && RespondAll(env, s, items).ticks == s.ticks
    decreases |items|
  {
    hide RespondItem, Asks;
    if items != [] {
      OthersKeepId(env, s, items[0]);
      IdKept(env, RespondItem(env, s, items[0]), items[1..]);
    }
  }

  // ------------------------------------------------------------------ streams

  /** What a connector does with a probe after an identifier was asked for, and not asked for again. */
  lemma AfterIssue(env: Env, s: Session, ask: Item, between: seq<Item>, probe: Item)
    requires Asks(ask) && IsProbe(probe) && forall i :: 0 <= i < |between| ==> !Asks(between[i])
    ensures var issued := NewKeepAliveId(s.id, env.tick(s.ticks));
            var next := NewKeepAliveId(issued, env.tick(s.ticks + 1));
            var asked := RespondItem(env, s, ask);
            var idle := RespondAll(env, asked, between);
            && asked.trace == s.trace + Accepting(ask.header, issued)
            && RespondItem(env, idle, probe).trace == idle.trace + ProbeAnswer(probe.header, probe.data, issued, next)
  {
    hide NewKeepAliveId, Word32, RespondItem, RespondAll, Accepting, AckOf, ChecksumBad;
    ProbeResponse(env, s, ask);
    var asked := RespondItem(env, s, ask);
    IdKept(env, asked, between);
    hide ProbeAnswer;
    ProbeResponse(env, RespondAll(env, asked, between), probe);
  }

  lemma Splits(env: Env, s: Session, before: seq<Item>, ask: Item, between: seq<Item>, probe: Item)
    ensures RespondAll(env, s, before + [ask] + between + [probe]) ==
            RespondItem(env, RespondAll(env, RespondItem(env, RespondAll(env, s, before), ask), between), probe)
  {
    hide RespondItem;
    RespondConcat(env, s, before + [ask] + between, [probe]);
    RespondConcat(env, s, before + [ask], between);
    RespondConcat(env, s, before, [ask]);
    RespondOne(env, RespondAll(env, s, before), ask);
    RespondOne(env, RespondAll(env, s, before + [ask] + between), probe);
  }

  lemma RespondOne(env: Env, s: Session, item: Item)
    ensures RespondAll(env, s, [item]) == RespondItem(env, s, item)
  {
    hide RespondItem;
    assert [item][1..] == [];
  }

  /** The echo law, for every stream in any chunks: after an identifier was issued, and until another one
      is asked for, a packet with that identifier is acknowledged and sent back byte for byte, and one
      with any other identifier but zero gets a negative acknowledge; a zero is answered with a new
      identifier. */
  lemma KeepAliveEcho(env: Env, c: Conn, chunks: seq<seq<bv8>>, before: seq<Item>, ask: Item, between: seq<Item>, probe: Item)
    requires Tcp(env) && Ready(c) && ParseChunks(env, [], chunks) == before + [ask] + between + [probe]
    requires Asks(ask) && IsProbe(probe) && forall i :: 0 <= i < |between| ==> !Asks(between[i])
    ensures var s := RespondAll(env, View(c), before);
            var issued := NewKeepAliveId(s.id, env.tick(s.ticks));
            var next := NewKeepAliveId(issued, env.tick(s.ticks + 1));
            var asked := RespondItem(env, s, ask);
            && asked.trace == s.trace + Accepting(ask.header, issued)
            && RxChunks(env, c, chunks).trace ==
               RespondAll(env, asked, between).trace + ProbeAnswer(probe.header, probe.data, issued, next)
  {
    hide NewKeepAliveId, RespondItem, RespondAll, Accepting, ProbeAnswer, Asks, RxChunks, ParseChunks, Ready, Tcp, ChecksumBad;
    StreamTrace(env, c, chunks);
    Splits(env, View(c), before, ask, between, probe);
    AfterIssue(env, RespondAll(env, View(c), before), ask, between, probe);
  }

  /** An issued identifier is echoed exactly if it is not zero, or zero is issued again. */
  lemma EchoExactly(env: Env, s: Session, ask: Item, between: seq<Item>, probe: Item)
    requires Asks(ask) && IsProbe(probe) && forall i :: 0 <= i < |between| ==> !Asks(between[i])
    requires Word32(probe.data) == NewKeepAliveId(s.id, env.tick(s.ticks))
    ensures var idle := RespondAll(env, RespondItem(env, s, ask), between);
            RespondItem(env, idle, probe).trace == idle.trace + [AckOf(probe.header, STATE_OK), Sent(Stamp(probe.header, probe.data), probe.data)]
            <==> NewKeepAliveId(s.id, env.tick(s.ticks)) != 0 || env.tick(s.ticks + 1) == 0
  {
    hide NewKeepAliveId, Word32, RespondItem, RespondAll, AckOf, Stamp, Asks, ChecksumBad, ProbeAnswer;
    AfterIssue(env, s, ask, between, probe);
    var issued := NewKeepAliveId(s.id, env.tick(s.ticks));
    EchoedAnswer(probe.header, probe.data, NewKeepAliveId(issued, env.tick(s.ticks + 1)));
    if issued == 0 {
      IssuedZero(0, env.tick(s.ticks + 1));
    }
    SameTail(RespondAll(env, RespondItem(env, s, ask), between).trace,
             ProbeAnswer(probe.header, probe.data, issued, NewKeepAliveId(issued, env.tick(s.ticks + 1))),
             Echo(probe.header, probe.data));
  }

  function Echo(h: Header, data: seq<bv8>): seq<Event> { [AckOf(h, STATE_OK), Sent(Stamp(h, data), data)] }

  lemma EchoedAnswer(h: Header, data: seq<bv8>, next: bv32)
    requires |data| == 4
    ensures |ProbeAnswer(h, data, Word32(data), next)| == 2
    ensures ProbeAnswer(h, data, Word32(data), next) == Echo(h, data) <==> Word32(data) != 0 || next == 0
  {
    WordLong(next);
    LongWord(data);
    hide Word32, Long32, AckOf, Stamp;
    if Word32(data) == 0 {
      assert Accepting(h, next)[1].data == Long32(next);
    }
  }

  lemma SameTail(trace: seq<Event>, a: seq<Event>, b: seq<Event>)
    requires |a| == |b| == 2
    ensures trace + a == trace + b <==> a == b
    ensures a == b ==> a[1] == b[1]
  {
    if trace + a == trace + b {
      assert a == (trace + a)[|trace|..] && b == (trace + b)[|trace|..];
    }
  }
}
