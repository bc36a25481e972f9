/** The send window of the virtual Ethernet device (libcifx/netx_tap/netx_tap.c).

    A sender thread hands frames to the device and counts them up; the receiver thread counts the
    confirmations down, polls the link, and starts and joins the sender. The two interleave at every
    access to a shared field. The counter is a uint32_t and may wrap for a moment, because a frame can
    be confirmed before the sender has counted it. */
module SendWindow {
  import opened Options

  const WIDTH: nat := 0x1_0000_0000

  /** NETX_TAP_MAX_ACTIVE_SENDS and NETX_TAP_SEND_RETRIES are set when compiling. */
  datatype Config = Config(max: nat, retries: nat)

  ghost predicate Sound(cfg: Config) { cfg.max + 1 < WIDTH }

  /** Where a sender thread stands in eth_to_cifx_thread. */
  datatype Pc =
    | Head                          // at the top of the loop, about to look at the link state
    | LinkWait                      // woken from waiting for the link, about to look at the stop flag
    | Select                        // about to wait for a frame
    | Guard(frame: bool)            // about to compare the counter with the window
    | GuardWait(frame: bool)        // woken from waiting for room, about to look at the stop flag
    | Recheck(frame: bool, full: bool)  // left the wait loop, about to look at the stop flag
    | Put(retry: nat)               // about to hand the frame to the device
    | Count(retry: nat)             // the device took it, about to count it
    | Judge(retry: nat, result: Answer)  // about to decide on another attempt
    | Tail                          // at the bottom of the loop, about to look at the stop flag
    | Exited

  datatype Answer = Accepted | MailboxFull | Failed

  /** Where the receiver thread stands: serving packets, or inside cifxeth_update_link_state. */
  datatype Receiver = Serving | ClearStop | Create | RaiseStop | Join

  datatype State = State(
    activeSends: nat,
    accepted: nat,
    confirmed: nat,
    stop: bool,
    linkUp: bool,
    handle: Option<nat>,
    senders: seq<Pc>,
    receiver: Receiver)

  const INITIAL := State(0, 0, 0, false, false, None, [], Serving)

  // ------------------------------------------------------------------ steps

  /** What the world decides: the outcome of select and of handing over a packet. */
  datatype Outcome = Idle | Exception | Readable(frame: bool) | Handed(answer: Answer)

  datatype Step =
    | Sender(id: nat, outcome: Outcome)
    | Confirmation
    | Poll(up: bool)
    | Receiver(created: bool)

  /** Where a sender goes next. */
  function Next(cfg: Config, s: State, pc: Pc, o: Outcome): Pc {
    match pc
    case Head => if s.linkUp then Select else LinkWait
    case LinkWait => if s.stop then Select else Head
    case Select =>
      (match o
       case Readable(frame) => Guard(frame)
       case Idle => Tail
       case _ => Exited)
    case Guard(frame) => if s.activeSends > cfg.max then GuardWait(frame) else Recheck(frame, false)
    case GuardWait(frame) => if s.stop then Recheck(frame, true) else Guard(frame)
    case Recheck(frame, _) => if s.stop then Exited else if frame then Put(cfg.retries + 1) else Tail
    case Put(retry) =>
      if o.Handed? then (if o.answer == Accepted then Count(retry) else Judge(retry, o.answer))
      else Judge(retry, Failed)
    case Count(retry) => Judge(retry, Accepted)
    case Judge(retry, result) => if retry > 1 && result == MailboxFull then Put(retry - 1) else Tail
    case Tail => if s.stop then Exited else Head
    case Exited => Exited
  }

  function Counted(s: State, pc: Pc, pc': Pc): State {
    if pc.Put? && pc'.Count? then s.(accepted := s.accepted + 1)
    else if pc.Count? then s.(activeSends := (s.activeSends + 1) % WIDTH)
    else s
  }

  predicate Enabled(s: State, step: Step) {
    match step
    case Sender(id, _) => id < |s.senders| && s.senders[id] != Exited
    case Confirmation => s.receiver == Serving && s.confirmed < s.accepted
    case Poll(_) => s.receiver == Serving
    case Receiver(_) =>
      s.receiver != Serving && (s.receiver == Join && s.handle.Some? && s.handle.value < |s.senders|
                                ==> s.senders[s.handle.value] == Exited)
  }

  function Apply(cfg: Config, s: State, step: Step): State
    requires Enabled(s, step)
  {
    match step
    case Sender(id, o) =>
      var pc' := Next(cfg, s, s.senders[id], o);
      Counted(s, s.senders[id], pc').(senders := s.senders[id := pc'])
    case Confirmation =>
      s.(confirmed := s.confirmed + 1, activeSends := (s.activeSends + WIDTH - 1) % WIDTH)
    case Poll(up) =>
      if up == s.linkUp then s
      else if up then s.(linkUp := true, receiver := ClearStop)
      else s.(linkUp := false, receiver := RaiseStop)
    case Receiver(created) =>
      (match s.receiver
       case ClearStop => s.(stop := false, receiver := Create)
       case Create =>
         if created then s.(senders := s.senders + [Head], handle := Some(|s.senders|), receiver := Serving)
         else s.(receiver := Serving)
       case RaiseStop => s.(stop := true, receiver := Join)
       case _ => s.(handle := None, receiver := Serving))
  }

  // ------------------------------------------------------------- the invariant

  predicate Alive(s: State, i: nat) { i < |s.senders| && s.senders[i] != Exited }

  /** Only the thread in the handle may be alive, and there is one only between its creation and its
      join; with the flag raised the link is down and the receiver is at the join or past it. */
  ghost predicate OneThread(s: State) {
    && (forall i: nat :: Alive(s, i) ==> s.handle == Some(i))
    && (s.handle.Some? ==> s.handle.value < |s.senders|)
    && (s.handle.Some? ==> s.receiver == RaiseStop || s.receiver == Join || (s.receiver == Serving && s.linkUp))
    && (s.receiver == Serving && s.linkUp ==> !s.stop)
    && (s.receiver == Create ==> !s.stop)
    && (s.receiver == RaiseStop ==> !s.stop && !s.linkUp)
    && (s.receiver == Join ==> s.stop && !s.linkUp)
    && (s.receiver == ClearStop || s.receiver == Create ==> s.linkUp)
  }

  function Outstanding(s: State): int { s.accepted - s.confirmed }

  /** The frames the device took and the counter does not show yet. */
  function Uncounted(s: State): nat {
    if s.handle.Some? && s.handle.value < |s.senders| && s.senders[s.handle.value].Count? then 1 else 0
  }

  predicate WindowAt(cfg: Config, s: State, pc: Pc) {
    match pc
    case Recheck(_, full) => if full then s.stop else Outstanding(s) <= cfg.max
    case Put(retry) => Outstanding(s) <= cfg.max && 1 <= retry <= cfg.retries + 1
    case Count(retry) => 1 <= retry <= cfg.retries + 1
    case Judge(retry, result) => (result != Accepted ==> Outstanding(s) <= cfg.max) && 1 <= retry <= cfg.retries + 1
    case _ => true
  }

  ghost predicate Window(cfg: Config, s: State) {
    && 0 <= Outstanding(s) <= cfg.max + 1
    && s.activeSends == (Outstanding(s) - Uncounted(s)) % WIDTH
    && (s.handle.Some? && s.handle.value < |s.senders| ==> WindowAt(cfg, s, s.senders[s.handle.value]))
  }

  ghost predicate Inv(cfg: Config, s: State) { OneThread(s) && Window(cfg, s) }

  lemma InitialThread()
    ensures OneThread(INITIAL)
  {}

  lemma InitialWindow(cfg: Config)
    ensures Window(cfg, INITIAL)
  {
    assert 0 % WIDTH == 0;
  }

  lemma InitialInv(cfg: Config)
    ensures Inv(cfg, INITIAL)
  {
    hide OneThread, Window;
    InitialThread();
    InitialWindow(cfg);
  }

  lemma SenderKeepsThread(cfg: Config, s: State, id: nat, o: Outcome)
    requires OneThread(s) && Enabled(s, Sender(id, o))
    ensures OneThread(Apply(cfg, s, Sender(id, o)))
  {
    hide Next;
    var t := Apply(cfg, s, Sender(id, o));
    assert Alive(s, id);
    forall i: nat | Alive(t, i)
      ensures t.handle == Some(i)
    {
      assert Alive(s, i);
    }
  }

  lemma ReceiverKeepsThread(cfg: Config, s: State, step: Step)
    requires OneThread(s) && Enabled(s, step) && !step.Sender?
    ensures OneThread(Apply(cfg, s, step))
  {
    hide Next;
    var t := Apply(cfg, s, step);
    forall i: nat | Alive(t, i)
      ensures t.handle == Some(i)
    {
      if i < |s.senders| {
        assert Alive(s, i);
      }
    }
  }

  lemma SenderKeepsWindow(cfg: Config, s: State, id: nat, o: Outcome)
    requires Sound(cfg) && Inv(cfg, s) && Enabled(s, Sender(id, o))
    ensures Window(cfg, Apply(cfg, s, Sender(id, o)))
  {
    assert Alive(s, id);
    assert s.handle == Some(id);
    hide OneThread, WindowAt;
    var pc := s.senders[id];
    var pc' := Next(cfg, s, pc, o);
    NextCounts(cfg, s, pc, o);
    hide Next;
    var t := Apply(cfg, s, Sender(id, o));
    assert t.senders[id] == pc';
    if pc.Count? {
      CountedUp(s.activeSends, Outstanding(s));
    }
  }

  lemma CountedUp(active: nat, outstanding: nat)
    requires active == (outstanding - 1) % WIDTH && outstanding < WIDTH
    ensures (active + 1) % WIDTH == outstanding % WIDTH
  {}

  /** One step of the sender, seen from the window. */
  lemma NextCounts(cfg: Config, s: State, pc: Pc, o: Outcome)
    requires Sound(cfg) && pc != Exited && WindowAt(cfg, s, pc) && 0 <= Outstanding(s) <= cfg.max + 1
    requires s.activeSends == (Outstanding(s) - if pc.Count? then 1 else 0) % WIDTH
    ensures var pc' := Next(cfg, s, pc, o);
            var t := Counted(s, pc, pc');
            && WindowAt(cfg, t.(senders := []), pc')
            && (pc'.Count? <==> pc.Put? && Outstanding(t) == Outstanding(s) + 1)
            && (!pc'.Count? ==> Outstanding(t) == Outstanding(s))
            && Outstanding(t) <= cfg.max + 1
  {
    match pc
    case Guard(_) => assert s.activeSends == Outstanding(s);
    case _ =>
  }

  lemma ReceiverKeepsWindow(cfg: Config, s: State, step: Step)
    requires Sound(cfg) && Inv(cfg, s) && Enabled(s, step) && !step.Sender?
    ensures Window(cfg, Apply(cfg, s, step))
  {
    hide Next;
    if step.Receiver? && s.receiver == Create && step.created {
      forall i: nat | i < |s.senders|
        ensures s.senders[i] == Exited
      {
        assert !Alive(s, i);
      }
    }
  }

  lemma StepKeepsInv(cfg: Config, s: State, step: Step)
    requires Sound(cfg) && Inv(cfg, s) && Enabled(s, step)
    ensures Inv(cfg, Apply(cfg, s, step))
  {
    hide OneThread, Window, Apply, Enabled;
    match step
    case Sender(id, o) =>
      SenderKeepsThread(cfg, s, id, o);
      SenderKeepsWindow(cfg, s, id, o);
    case _ =>
      ReceiverKeepsThread(cfg, s, step);
      ReceiverKeepsWindow(cfg, s, step);
  }

  // ------------------------------------------------------------------- runs

  ghost predicate Leads(cfg: Config, s: State, steps: seq<Step>, t: State)
    decreases |steps|
  {
    if steps == [] then s == t
    else Enabled(s, steps[0]) && Leads(cfg, Apply(cfg, s, steps[0]), steps[1..], t)
  }

  lemma {:induction false} RunKeepsInv(cfg: Config, s: State, steps: seq<Step>, t: State)
    requires Sound(cfg) && Inv(cfg, s) && Leads(cfg, s, steps, t)
    ensures Inv(cfg, t)
    decreases |steps|
  {
    if steps != [] {
      StepKeepsInv(cfg, s, steps[0]);
      RunKeepsInv(cfg, Apply(cfg, s, steps[0]), steps[1..], t);
    }
  }

  /** In every interleaving there is at most one live sender, and while one is alive the stop flag is
      never cleared under it: it is raised only on the way to the join. */
  lemma OneSender(cfg: Config, steps: seq<Step>, t: State, i: nat, j: nat)
    requires Sound(cfg) && Leads(cfg, INITIAL, steps, t) && Alive(t, i) && Alive(t, j)
    ensures i == j
    ensures t.stop <==> t.receiver == Join
  {
    InitialInv(cfg);
    RunKeepsInv(cfg, INITIAL, steps, t);
  }

  /** Whenever the guard is evaluated the counter is exactly the frames taken and not confirmed. */
  lemma GuardSeesOutstanding(cfg: Config, steps: seq<Step>, t: State, i: nat)
    requires Sound(cfg) && Leads(cfg, INITIAL, steps, t) && Alive(t, i) && !t.senders[i].Count?
    ensures t.activeSends == Outstanding(t)
  {
    InitialInv(cfg);
    RunKeepsInv(cfg, INITIAL, steps, t);
  }

  /** The device never holds more than one frame above the configured window, in any interleaving. */
  lemma WindowHolds(cfg: Config, steps: seq<Step>, t: State)
    requires Sound(cfg) && Leads(cfg, INITIAL, steps, t)
    ensures 0 <= Outstanding(t) <= cfg.max + 1
  {
    InitialInv(cfg);
    RunKeepsInv(cfg, INITIAL, steps, t);
  }

  /** A frame that is put is put into a window with room: before it, at most max are outstanding. */
  lemma PutHasRoom(cfg: Config, steps: seq<Step>, t: State, i: nat)
    requires Sound(cfg) && Leads(cfg, INITIAL, steps, t) && Alive(t, i) && t.senders[i].Put?
    ensures Outstanding(t) <= cfg.max && 1 <= t.senders[i].retry <= cfg.retries + 1
  {
    InitialInv(cfg);
    RunKeepsInv(cfg, INITIAL, steps, t);
  }

  // -------------------------------------------------------- the bounds are reached

  lemma {:induction false} Joined(cfg: Config, s: State, a: seq<Step>, m: State, b: seq<Step>, t: State)
    requires Leads(cfg, s, a, m) && Leads(cfg, m, b, t)
    ensures Leads(cfg, s, a + b, t)
    decreases |a|
  {
    if a == [] {
      assert a + b == b;
    } else {
      assert (a + b)[1..] == a[1..] + b;
      Joined(cfg, Apply(cfg, s, a[0]), a[1..], m, b, t);
    }
  }

  lemma One(cfg: Config, s: State, step: Step)
    requires Enabled(s, step)
    ensures Leads(cfg, s, [step], Apply(cfg, s, step))
  {
    assert [step][1..] == [];
  }

  lemma Then(cfg: Config, s: State, a: seq<Step>, m: State, step: Step) returns (b: seq<Step>)
    requires Leads(cfg, s, a, m) && Enabled(m, step)
    ensures Leads(cfg, s, b, Apply(cfg, m, step))
  {
    One(cfg, m, step);
    Joined(cfg, s, a, m, [step], Apply(cfg, m, step));
    b := a + [step];
  }

  /** A step of the only sender. */
  lemma Moved(cfg: Config, s: State, a: seq<Step>, m: State, o: Outcome, t: State) returns (b: seq<Step>)
    requires Leads(cfg, s, a, m) && |m.senders| == 1 && m.senders[0] != Exited
    requires var pc' := Next(cfg, m, m.senders[0], o); t == Counted(m, m.senders[0], pc').(senders := [pc'])
    ensures Leads(cfg, s, b, t)
  {
    hide Next, Leads;
    assert m.senders[0 := t.senders[0]] == t.senders;
    b := Then(cfg, s, a, m, Sender(0, o));
  }

  /** The only sender at pc, the link up, n frames outstanding. */
  function At(n: nat, pc: Pc): State {
    State(n, n, 0, false, true, Some(0), [pc], Serving)
  }

  function Loaded(n: nat): State { At(n, Head) }

  lemma Started(cfg: Config) returns (steps: seq<Step>)
    ensures Leads(cfg, INITIAL, steps, Loaded(0))
  {
    var polled, cleared := INITIAL.(linkUp := true, receiver := ClearStop), INITIAL.(linkUp := true, receiver := Create);
    assert Apply(cfg, INITIAL, Poll(true)) == polled;
    assert Apply(cfg, polled, Receiver(true)) == cleared;
    assert [] + [Head] == [Head];
    assert Apply(cfg, cleared, Receiver(true)) == Loaded(0);
    hide Apply, Leads;
    steps := Started0(cfg);
    steps := Then(cfg, INITIAL, steps, INITIAL, Poll(true));
    steps := Then(cfg, INITIAL, steps, polled, Receiver(true));
    steps := Then(cfg, INITIAL, steps, cleared, Receiver(true));
  }

  lemma Started0(cfg: Config) returns (steps: seq<Step>)
    ensures Leads(cfg, INITIAL, steps, INITIAL)
  {
    steps := [];
  }

  /** One more frame up to the point where the device has it and the counter has not. */
  lemma Handing(cfg: Config, before: seq<Step>, n: nat) returns (steps: seq<Step>)
    requires n <= cfg.max && Leads(cfg, INITIAL, before, Loaded(n))
    ensures Leads(cfg, INITIAL, steps, At(n, Count(cfg.retries + 1)).(accepted := n + 1))
  {
    hide Leads;
    steps := Moved(cfg, INITIAL, before, Loaded(n), Idle, At(n, Select));
    steps := Moved(cfg, INITIAL, steps, At(n, Select), Readable(true), At(n, Guard(true)));
    steps := Moved(cfg, INITIAL, steps, At(n, Guard(true)), Idle, At(n, Recheck(true, false)));
    steps := Moved(cfg, INITIAL, steps, At(n, Recheck(true, false)), Idle, At(n, Put(cfg.retries + 1)));
    steps := Moved(cfg, INITIAL, steps, At(n, Put(cfg.retries + 1)), Handed(Accepted), At(n, Count(cfg.retries + 1)).(accepted := n + 1));
  }

  lemma Sending(cfg: Config, before: seq<Step>, n: nat) returns (steps: seq<Step>)
    requires Sound(cfg) && n <= cfg.max && Leads(cfg, INITIAL, before, Loaded(n))
    ensures Leads(cfg, INITIAL, steps, Loaded(n + 1))
  {
    hide Leads;
    var judge := At(n + 1, Judge(cfg.retries + 1, Accepted));
    steps := Handing(cfg, before, n);
    steps := Moved(cfg, INITIAL, steps, At(n, Count(cfg.retries + 1)).(accepted := n + 1), Idle, judge);
    steps := Moved(cfg, INITIAL, steps, judge, Idle, At(n + 1, Tail));
    steps := Moved(cfg, INITIAL, steps, At(n + 1, Tail), Idle, Loaded(n + 1));
  }

  lemma {:induction false} Loading(cfg: Config, n: nat) returns (steps: seq<Step>)
    requires Sound(cfg) && n <= cfg.max + 1
    ensures Leads(cfg, INITIAL, steps, Loaded(n))
  {
    if n == 0 {
      steps := Started(cfg);
    } else {
      var before := Loading(cfg, n - 1);
      steps := Sending(cfg, before, n - 1);
    }
  }

  /** The window's bound is exact: some run fills it, whatever the configuration. */
  lemma WindowFills(cfg: Config)
    requires Sound(cfg)
    ensures exists steps, t :: Leads(cfg, INITIAL, steps, t) && Outstanding(t) == cfg.max + 1
  {
    var steps := Loading(cfg, cfg.max + 1);
    assert Outstanding(Loaded(cfg.max + 1)) == cfg.max + 1;
  }

  /** The counter does wrap: some run reaches 0xFFFFFFFF with nothing outstanding. */
  lemma CounterWraps(cfg: Config)
    requires Sound(cfg)
    ensures exists steps, t :: Leads(cfg, INITIAL, steps, t) && Outstanding(t) == 0 && t.activeSends == 0xFFFF_FFFF
  {
    var steps := Started(cfg);
    steps := Handing(cfg, steps, 0);
    var handed := At(0, Count(cfg.retries + 1)).(accepted := 1);
    steps := Then(cfg, INITIAL, steps, handed, Confirmation);
    assert Outstanding(Apply(cfg, handed, Confirmation)) == 0;
  }

  // ---------------------------------------------------------- the join returns

  /** How many steps a sender still takes once it has been told to stop. */
  function Rank(cfg: Config, pc: Pc): nat {
    match pc
    case Exited => 0
    case Tail => 1
    case Judge(retry, _) => 3 * retry + 2
    case Count(retry) => 3 * retry + 3
    case Put(retry) => 3 * retry + 4
    case Recheck(_, _) => 3 * cfg.retries + 8
    case GuardWait(_) => 3 * cfg.retries + 9
    case Guard(_) => 3 * cfg.retries + 10
    case Select => 3 * cfg.retries + 11
    case LinkWait => 3 * cfg.retries + 12
    case Head => 3 * cfg.retries + 13
  }

  lemma StoppingStep(cfg: Config, s: State, pc: Pc, o: Outcome)
    requires s.stop && pc != Exited
    ensures Rank(cfg, Next(cfg, s, pc, o)) < Rank(cfg, pc)
  {}

  /** The steps of a run that thread i takes. */
  function Moves(steps: seq<Step>, i: nat): nat {
    if steps == [] then 0
    else (if steps[0].Sender? && steps[0].id == i then 1 else 0) + Moves(steps[1..], i)
  }

  /** While the receiver waits in the join nothing clears the flag, and each step the sender takes
      brings its end nearer: it takes at most Rank of them. */
  lemma {:induction false} JoinWaits(cfg: Config, s: State, steps: seq<Step>, t: State, i: nat)
    requires Sound(cfg) && Inv(cfg, s) && s.receiver == Join && s.handle == Some(i)
    requires Leads(cfg, s, steps, t)
    requires forall k :: 0 <= k < |steps| ==> steps[k].Sender?
    ensures t.receiver == Join && t.handle == Some(i) && i < |t.senders| && i < |s.senders|
    ensures Rank(cfg, t.senders[i]) + Moves(steps, i) <= Rank(cfg, s.senders[i])
    decreases |steps|
  {
    if steps != [] {
      var id, o := steps[0].id, steps[0].outcome;
      assert Alive(s, id);
      StepKeepsInv(cfg, s, steps[0]);
      StoppingStep(cfg, s, s.senders[id], o);
      JoinWaits(cfg, Apply(cfg, s, steps[0]), steps[1..], t, i);
    }
  }

  /** Telling the sender to stop ends it: in every run, while the receiver waits in the join the
      thread can take a step until it has exited, takes no more than 3 * retries + 13 of them, and
      once it has exited the join returns. */
  lemma StopEnds(cfg: Config, before: seq<Step>, s: State, steps: seq<Step>, t: State, i: nat)
    requires Sound(cfg) && Leads(cfg, INITIAL, before, s) && s.receiver == Join && s.handle == Some(i)
    requires Leads(cfg, s, steps, t) && forall k :: 0 <= k < |steps| ==> steps[k].Sender?
    ensures i < |s.senders| && Moves(steps, i) <= Rank(cfg, s.senders[i]) <= 3 * cfg.retries + 13
    ensures i < |t.senders| && (t.senders[i] == Exited <==> Enabled(t, Receiver(true)))
    ensures Moves(steps, i) == Rank(cfg, s.senders[i]) ==> t.senders[i] == Exited
  {
    InitialInv(cfg);
    RunKeepsInv(cfg, INITIAL, before, s);
    JoinWaits(cfg, s, steps, t, i);
  }

  // --------------------------------------------------------- when a sender runs

  /** A sender ends exactly when it looks at the stop flag after a frame was read or at the bottom of its
      loop and finds it up, or when waiting for a frame fails. */
  lemma ExitExactly(cfg: Config, s: State, pc: Pc, o: Outcome)
    requires pc != Exited
    ensures Next(cfg, s, pc, o) == Exited <==>
            (s.stop && (pc.Recheck? || pc.Tail?)) || (pc == Select && !o.Idle? && !o.Readable?)
  {}

  /** A sender waits for a frame exactly after it saw the link up, or the stop flag while the link is down. */
  lemma WaitsForFrame(cfg: Config, s: State, pc: Pc, o: Outcome)
    ensures Next(cfg, s, pc, o) == Select <==> (pc == Head && s.linkUp) || (pc == LinkWait && s.stop)
  {}

  /** When the link comes up the flag is cleared and, if it can be created, a new sender starts; nothing is
      counted. */
  lemma LinkUpStarts(cfg: Config, s: State, created: bool)
    requires s.receiver == Serving && !s.linkUp
    ensures Leads(cfg, s, [Poll(true), Receiver(true), Receiver(created)],
                  if created
                  then s.(linkUp := true, stop := false, senders := s.senders + [Head], handle := Some(|s.senders|))
                  else s.(linkUp := true, stop := false))
  {
    var a := s.(linkUp := true, receiver := ClearStop);
    var b := a.(stop := false, receiver := Create);
    var t := if created
             then s.(linkUp := true, stop := false, senders := s.senders + [Head], handle := Some(|s.senders|))
             else s.(linkUp := true, stop := false);
    hide Next;
    assert Apply(cfg, s, Poll(true)) == a && Apply(cfg, a, Receiver(true)) == b && Apply(cfg, b, Receiver(created)) == t;
    hide Leads, Apply;
    One(cfg, b, Receiver(created));
    Led(cfg, a, Receiver(true), b, [Receiver(created)], t);
    Led(cfg, s, Poll(true), a, [Receiver(true)] + [Receiver(created)], t);
    assert [Poll(true)] + ([Receiver(true)] + [Receiver(created)]) == [Poll(true), Receiver(true), Receiver(created)];
  }

  /** When the link goes down the flag is raised and the receiver waits for the sender, if there is one. */
  lemma LinkDownStops(cfg: Config, s: State)
    requires s.receiver == Serving && s.linkUp
    ensures Leads(cfg, s, [Poll(false), Receiver(true)], s.(linkUp := false, stop := true, receiver := Join))
  {
    var a := s.(linkUp := false, receiver := RaiseStop);
    var t := s.(linkUp := false, stop := true, receiver := Join);
    hide Next;
    assert Apply(cfg, s, Poll(false)) == a && Apply(cfg, a, Receiver(true)) == t;
    hide Leads, Apply;
    One(cfg, a, Receiver(true));
    Led(cfg, s, Poll(false), a, [Receiver(true)], t);
    assert [Poll(false)] + [Receiver(true)] == [Poll(false), Receiver(true)];
  }

  // ------------------------------------------------------------- frames and retries

  /** What the device says to n attempts, one after the other. */
  predicate FullThen(answers: seq<Answer>, last: Answer) {
    answers != [] && last != MailboxFull && answers[|answers| - 1] == last
    && forall i :: 0 <= i < |answers| - 1 ==> answers[i] == MailboxFull
  }

  /** One attempt that finds the mailbox full: the frame is handed over again if an attempt is left. */
  lemma FullAttempt(cfg: Config, s: State, id: nat, retry: nat)
    requires id < |s.senders| && s.senders[id] == Put(retry) && retry >= 1
    ensures var m := Apply(cfg, s, Sender(id, Handed(MailboxFull)));
            var t := Apply(cfg, m, Sender(id, Idle));
            && Enabled(s, Sender(id, Handed(MailboxFull))) && Enabled(m, Sender(id, Idle))
            && t == s.(senders := s.senders[id := if retry > 1 then Put(retry - 1) else Tail])
  {}

  lemma FailedAttempt(cfg: Config, s: State, id: nat, retry: nat)
    requires id < |s.senders| && s.senders[id] == Put(retry)
    ensures var m := Apply(cfg, s, Sender(id, Handed(Failed)));
            var t := Apply(cfg, m, Sender(id, Idle));
            Enabled(m, Sender(id, Idle)) && t == s.(senders := s.senders[id := Tail])
  {}

  lemma AcceptedAttempt(cfg: Config, s: State, id: nat, retry: nat)
    requires id < |s.senders| && s.senders[id] == Put(retry)
    ensures var m := Apply(cfg, s, Sender(id, Handed(Accepted)));
            var n := Apply(cfg, m, Sender(id, Idle));
            var t := Apply(cfg, n, Sender(id, Idle));
            && Enabled(m, Sender(id, Idle)) && Enabled(n, Sender(id, Idle))
            && t == s.(accepted := s.accepted + 1, activeSends := (s.activeSends + 1) % WIDTH, senders := s.senders[id := Tail])
  {}

  lemma Led(cfg: Config, s: State, step: Step, m: State, steps: seq<Step>, t: State)
    requires Enabled(s, step) && Apply(cfg, s, step) == m && Leads(cfg, m, steps, t)
    ensures Leads(cfg, s, [step] + steps, t)
  {
    hide Apply, Enabled;
    assert ([step] + steps)[1..] == steps;
  }

  /** The steps of a sender that hands over one frame and gets these answers. */
  function Attempts(id: nat, answers: seq<Answer>): seq<Step> {
    if answers == [] then []
    else
      [Sender(id, Handed(answers[0])), Sender(id, Idle)]
      + (if answers[0] == Accepted then [Sender(id, Idle)] else [])
      + Attempts(id, answers[1..])
  }

  /** A full mailbox, and only that, makes the sender hand the frame over again: after any number of full
      answers within the retries, the next answer decides, and the frame is accepted once or given up. */
  lemma {:induction false} RetriesDecide(cfg: Config, s: State, id: nat, retry: nat, answers: seq<Answer>, last: Answer)
    requires id < |s.senders| && s.senders[id] == Put(retry) && FullThen(answers, last) && |answers| <= retry
    ensures Leads(cfg, s, Attempts(id, answers),
                  if last == Accepted
                  then s.(accepted := s.accepted + 1, activeSends := (s.activeSends + 1) % WIDTH, senders := s.senders[id := Tail])
                  else s.(senders := s.senders[id := Tail]))
    decreases |answers|
  {
    if |answers| == 1 {
      assert answers[1..] == [];
      LastAttempt(cfg, s, id, retry, last);
      assert answers == [last];
    } else {
      FullAttempt(cfg, s, id, retry);
      var m := Apply(cfg, s, Sender(id, Handed(MailboxFull)));
      var t := Apply(cfg, m, Sender(id, Idle));
      assert answers[1..][|answers| - 2] == last;
      RetriesDecide(cfg, t, id, retry - 1, answers[1..], last);
      assert t.senders[id := Tail] == s.senders[id := Tail];
      var end := if last == Accepted
                 then s.(accepted := s.accepted + 1, activeSends := (s.activeSends + 1) % WIDTH, senders := s.senders[id := Tail])
                 else s.(senders := s.senders[id := Tail]);
      Led(cfg, m, Sender(id, Idle), t, Attempts(id, answers[1..]), end);
      Led(cfg, s, Sender(id, Handed(MailboxFull)), m, [Sender(id, Idle)] + Attempts(id, answers[1..]), end);
      assert Attempts(id, answers) == [Sender(id, Handed(MailboxFull))] + ([Sender(id, Idle)] + Attempts(id, answers[1..]));
    }
  }

  /** If every attempt finds the mailbox full the frame is given up after the last one, not before. */
  lemma {:induction false} RetriesEnd(cfg: Config, s: State, id: nat, retry: nat, answers: seq<Answer>)
    requires id < |s.senders| && s.senders[id] == Put(retry) && |answers| == retry >= 1
    requires forall i :: 0 <= i < |answers| ==> answers[i] == MailboxFull
    ensures Leads(cfg, s, Attempts(id, answers), s.(senders := s.senders[id := Tail]))
    decreases |answers|
  {
    FullAttempt(cfg, s, id, retry);
    var m := Apply(cfg, s, Sender(id, Handed(MailboxFull)));
    var t := Apply(cfg, m, Sender(id, Idle));
    var end := s.(senders := s.senders[id := Tail]);
    if |answers| == 1 {
      assert answers[1..] == [] && t == end;
      assert Leads(cfg, t, Attempts(id, answers[1..]), end);
    } else {
      RetriesEnd(cfg, t, id, retry - 1, answers[1..]);
      assert t.senders[id := Tail] == s.senders[id := Tail];
    }
    Led(cfg, m, Sender(id, Idle), t, Attempts(id, answers[1..]), end);
    Led(cfg, s, Sender(id, Handed(MailboxFull)), m, [Sender(id, Idle)] + Attempts(id, answers[1..]), end);
    assert Attempts(id, answers) == [Sender(id, Handed(MailboxFull))] + ([Sender(id, Idle)] + Attempts(id, answers[1..]));
  }

  lemma LastAttempt(cfg: Config, s: State, id: nat, retry: nat, last: Answer)
    requires id < |s.senders| && s.senders[id] == Put(retry) && last != MailboxFull
    ensures Leads(cfg, s, Attempts(id, [last]),
                  if last == Accepted
                  then s.(accepted := s.accepted + 1, activeSends := (s.activeSends + 1) % WIDTH, senders := s.senders[id := Tail])
                  else s.(senders := s.senders[id := Tail]))
  {
    assert [last][1..] == [];
    var m := Apply(cfg, s, Sender(id, Handed(last)));
    var n := Apply(cfg, m, Sender(id, Idle));
    if last == Accepted {
      AcceptedAttempt(cfg, s, id, retry);
      var t := Apply(cfg, n, Sender(id, Idle));
      One(cfg, n, Sender(id, Idle));
      Led(cfg, m, Sender(id, Idle), n, [Sender(id, Idle)], t);
      Led(cfg, s, Sender(id, Handed(last)), m, [Sender(id, Idle)] + [Sender(id, Idle)], t);
      assert Attempts(id, [last]) == [Sender(id, Handed(last))] + ([Sender(id, Idle)] + [Sender(id, Idle)]);
    } else {
      FailedAttempt(cfg, s, id, retry);
      One(cfg, m, Sender(id, Idle));
      Led(cfg, s, Sender(id, Handed(last)), m, [Sender(id, Idle)], n);
      assert Attempts(id, [last]) == [Sender(id, Handed(last))] + [Sender(id, Idle)];
    }
  }

  /** Frames read by the sender in a run: each time it waits for one and one with data is there. */
  function FramesRead(cfg: Config, s: State, steps: seq<Step>): nat
    requires Possible(cfg, s, steps)
    decreases |steps|
  {
    if steps == [] then 0
    else (if Reads(s, steps[0]) then 1 else 0) + FramesRead(cfg, Apply(cfg, s, steps[0]), steps[1..])
  }

  predicate Possible(cfg: Config, s: State, steps: seq<Step>)
    decreases |steps|
  {
    steps == [] || (Enabled(s, steps[0]) && Possible(cfg, Apply(cfg, s, steps[0]), steps[1..]))
  }

  predicate Reads(s: State, step: Step) {
    step.Sender? && step.id < |s.senders| && s.senders[step.id] == Select && step.outcome == Readable(true)
  }

  /** The sender holds a frame that the device has not taken. */
  function InHand(pc: Pc): nat {
    match pc
    case Guard(frame) => if frame then 1 else 0
    case GuardWait(frame) => if frame then 1 else 0
    case Recheck(frame, _) => if frame then 1 else 0
    case Put(_) => 1
    case Judge(_, result) => if result == Accepted then 0 else 1
    case _ => 0
  }

  function Held(s: State): nat {
    if s.handle.Some? && s.handle.value < |s.senders| then InHand(s.senders[s.handle.value]) else 0
  }

  lemma NextHolds(cfg: Config, s: State, pc: Pc, o: Outcome)
    ensures var pc' := Next(cfg, s, pc, o);
            (if pc.Put? && pc'.Count? then 1 else 0) + InHand(pc') <= InHand(pc) + (if pc == Select && o == Readable(true) then 1 else 0)
  {}

  lemma StepHolds(cfg: Config, s: State, step: Step)
    requires OneThread(s) && Enabled(s, step)
    ensures var t := Apply(cfg, s, step);
            t.accepted + Held(t) <= s.accepted + Held(s) + if Reads(s, step) then 1 else 0
  {
    match step
    case Sender(id, o) =>
      assert Alive(s, id) && s.handle == Some(id);
      NextHolds(cfg, s, s.senders[id], o);
      hide Next, OneThread;
    case _ => hide Next;
  }

  /** No frame is accepted twice, and none that was not read: in every run at most as many frames are
      accepted as the sender read with data in them. */
  lemma {:induction false} AcceptedOnce(cfg: Config, s: State, steps: seq<Step>, t: State)
    requires Sound(cfg) && Inv(cfg, s) && Leads(cfg, s, steps, t)
    ensures Possible(cfg, s, steps)
    ensures t.accepted + Held(t) <= s.accepted + Held(s) + FramesRead(cfg, s, steps)
    decreases |steps|
  {
    hide Apply, Enabled, Held, Reads, OneThread, Window;
    if steps != [] {
      StepKeepsInv(cfg, s, steps[0]);
      StepHolds(cfg, s, steps[0]);
      AcceptedOnce(cfg, Apply(cfg, s, steps[0]), steps[1..], t);
    }
  }
}
