/** The auto-reset event (libcifx/os_linux.c): a flag and a count of waiters under a mutex, and a
    condition variable.

    Each critical section is one step. A condition variable may wake a waiter at any time (time-out or
    spuriously), and a signal wakes at least one blocked waiter if there is one; a woken waiter goes on
    only when it gets the mutex, and other threads may come first. */
module OsEvent {

  datatype Entry =
    | BecameSet
    | Cleared               // OS_ResetEvent on a set event
    | Signalled(thread: nat)
    | TimedOut(thread: nat)

  datatype Event = Event(
    isSet: bool,
    waitingThreads: int,
    blocked: set<nat>,
    woken: set<nat>,
    log: seq<Entry>)

  const CREATED := Event(false, 0, {}, {}, [])

  datatype Step =
    | Set(wakes: set<nat>)  // OS_SetEvent, and whom the signal wakes
    | Reset                 // OS_ResetEvent
    | Enter(thread: nat)    // OS_WaitEvent up to its end or to pthread_cond_timedwait
    | Wake(thread: nat)     // a time-out or a spurious wake-up
    | Resume(thread: nat)   // OS_WaitEvent from the return of pthread_cond_timedwait on

  /** A signal is sent on the flag's way up, and only if threads wait. */
  predicate Signals(e: Event) { !e.isSet && e.waitingThreads > 0 }

  predicate Enabled(e: Event, step: Step) {
    match step
    case Set(wakes) =>
      wakes <= e.blocked && (if Signals(e) then e.blocked != {} ==> wakes != {} else wakes == {})
    case Reset => true
    case Enter(thread) => thread !in e.blocked && thread !in e.woken
    case Wake(thread) => thread in e.blocked
    case Resume(thread) => thread in e.woken
  }

  /** The end of OS_WaitEvent: take the event if it is set. */
  function Finish(e: Event, thread: nat): Event {
    if e.isSet then e.(isSet := false, log := e.log + [Signalled(thread)])
    else e.(log := e.log + [TimedOut(thread)])
  }

  function Apply(e: Event, step: Step): Event
    requires Enabled(e, step)
  {
    match step
    case Set(wakes) =>
      if e.isSet then e
      else e.(isSet := true, blocked := e.blocked - wakes, woken := e.woken + wakes, log := e.log + [BecameSet])
    case Reset => if e.isSet then e.(isSet := false, log := e.log + [Cleared]) else e
    case Enter(thread) =>
      if e.isSet then Finish(e, thread)
      else e.(waitingThreads := e.waitingThreads + 1, blocked := e.blocked + {thread})
    case Wake(thread) => e.(blocked := e.blocked - {thread}, woken := e.woken + {thread})
    case Resume(thread) => Finish(e.(waitingThreads := e.waitingThreads - 1, woken := e.woken - {thread}), thread)
  }

  ghost predicate Leads(e: Event, steps: seq<Step>, f: Event)
    decreases |steps|
  {
    if steps == [] then e == f
    else Enabled(e, steps[0]) && Leads(Apply(e, steps[0]), steps[1..], f)
  }

  // ------------------------------------------------------------- the invariant

  /** The flag after a log, if the log is one in which every set is used up before the next one takes
      effect: it rises, then one waiter or one reset consumes it, and so on; a wait times out only
      when the flag is down. */
  ghost predicate Explains(log: seq<Entry>, isSet: bool) {
    if log == [] then !isSet
    else
      var before, last := log[..|log| - 1], log[|log| - 1];
      match last
      case BecameSet => isSet && Explains(before, false)
      case TimedOut(_) => !isSet && Explains(before, false)
      case _ => !isSet && Explains(before, true)
  }

  ghost predicate Waiters(e: Event) {
    && e.blocked !! e.woken
    && e.waitingThreads == |e.blocked| + |e.woken|
    && (e.isSet && e.blocked != {} ==> e.woken != {})
  }

  ghost predicate Inv(e: Event) { Explains(e.log, e.isSet) && Waiters(e) }

  lemma ExplainsNext(log: seq<Entry>, isSet: bool, x: Entry)
    requires Explains(log, isSet)
    ensures Explains(log + [x], x == BecameSet) <==> (isSet <==> x.Signalled? || x.Cleared?)
    ensures isSet ==> !Explains(log, false)
    ensures !isSet ==> !Explains(log, true)
  {
    assert (log + [x])[..|log|] == log;
  }

  lemma StepExplains(e: Event, step: Step)
    requires Explains(e.log, e.isSet) && Enabled(e, step)
    ensures Explains(Apply(e, step).log, Apply(e, step).isSet)
  {
    hide Explains;
    ExplainsNext(e.log, e.isSet, BecameSet);
    ExplainsNext(e.log, e.isSet, Cleared);
    if !step.Set? && !step.Reset? {
      ExplainsNext(e.log, e.isSet, Signalled(step.thread));
      ExplainsNext(e.log, e.isSet, TimedOut(step.thread));
    }
  }

  lemma Moves(from: set<nat>, to: set<nat>, moved: set<nat>)
    requires from !! to && moved <= from
    ensures |from - moved| + |to + moved| == |from| + |to| && (from - moved) !! (to + moved)
  {
    assert from == (from - moved) + moved;
    assert |from| == |from - moved| + |moved|;
    assert |to + moved| == |to| + |moved|;
  }

  lemma StepWaiters(e: Event, step: Step)
    requires Waiters(e) && Enabled(e, step)
    ensures Waiters(Apply(e, step))
  {
    match step
    case Set(wakes) => Moves(e.blocked, e.woken, wakes);
      assert e.blocked != {} ==> e.waitingThreads > 0;
    case Reset =>
    case Enter(thread) =>
    case Wake(thread) => Moves(e.blocked, e.woken, {thread});
    case Resume(thread) =>
  }

  lemma {:induction false} RunKeepsInv(e: Event, steps: seq<Step>, f: Event)
    requires Inv(e) && Leads(e, steps, f)
    ensures Inv(f)
    decreases |steps|
  {
    if steps != [] {
      StepExplains(e, steps[0]);
      StepWaiters(e, steps[0]);
      RunKeepsInv(Apply(e, steps[0]), steps[1..], f);
    }
  }

  // ------------------------------------------------------------------- the laws

  function Count(log: seq<Entry>, which: Entry -> bool): nat {
    if log == [] then 0
    else Count(log[..|log| - 1], which) + if which(log[|log| - 1]) then 1 else 0
  }

  function Sets(log: seq<Entry>): nat { Count(log, (x: Entry) => x.BecameSet?) }
  function Takes(log: seq<Entry>): nat { Count(log, (x: Entry) => x.Signalled?) }
  function Clears(log: seq<Entry>): nat { Count(log, (x: Entry) => x.Cleared?) }

  lemma {:induction false} Balance(log: seq<Entry>, isSet: bool)
    requires Explains(log, isSet)
    ensures Sets(log) == Takes(log) + Clears(log) + if isSet then 1 else 0
  {
    if log != [] {
      var before, last := log[..|log| - 1], log[|log| - 1];
      Balance(before, last.Signalled? || last.Cleared?);
    }
  }

  /** In every interleaving: each set that takes effect is consumed by one signalled waiter or one
      reset, or the flag still shows it. */
  lemma SetsConserved(steps: seq<Step>, e: Event)
    requires Leads(CREATED, steps, e)
    ensures Sets(e.log) == Takes(e.log) + Clears(e.log) + if e.isSet then 1 else 0
  {
    RunKeepsInv(CREATED, steps, e);
    Balance(e.log, e.isSet);
  }

  lemma {:induction false} ConsumesSet(log: seq<Entry>, isSet: bool, i: nat)
    requires Explains(log, isSet) && i < |log|
    ensures log[i].Signalled? || log[i].Cleared? <==> i > 0 && log[i - 1] == BecameSet
  {
    var before := log[..|log| - 1];
    if before != [] {
      ConsumesSet(before, log[|log| - 2] == BecameSet, if i < |before| then i else i - 1);
    }
  }

  /** In every interleaving, what follows a set directly is the one return or reset that consumes it;
      nothing else consumes anything. */
  lemma ConsumedOnce(steps: seq<Step>, e: Event, i: nat)
    requires Leads(CREATED, steps, e) && i < |e.log|
    ensures e.log[i].Signalled? || e.log[i].Cleared? <==> i > 0 && e.log[i - 1] == BecameSet
  {
    RunKeepsInv(CREATED, steps, e);
    ConsumesSet(e.log, e.isSet, i);
  }

  /** The count of waiters is the number of threads inside the wait. */
  lemma WaitersCounted(steps: seq<Step>, e: Event)
    requires Leads(CREATED, steps, e)
    ensures e.waitingThreads == |e.blocked + e.woken|
  {
    RunKeepsInv(CREATED, steps, e);
  }

  /** No wake-up is lost: while the event is set and a thread is blocked, some other waiter is on its
      way, and whichever woken waiter gets the mutex first returns signalled. */
  lemma NoLostWakeup(steps: seq<Step>, e: Event)
    requires Leads(CREATED, steps, e) && e.isSet && e.blocked != {}
    ensures exists thread :: thread in e.woken && Enabled(e, Resume(thread))
    ensures forall thread :: thread in e.woken ==> Apply(e, Resume(thread)).log == e.log + [Signalled(thread)]
  {
    RunKeepsInv(CREATED, steps, e);
    var thread :| thread in e.woken;
    assert Enabled(e, Resume(thread));
  }

  // ------------------------------------------------------------ woken in vain

  lemma WokenStep(e: Event, step: Step, thread: nat)
    requires thread in e.woken && Enabled(e, step) && step != Resume(thread)
    ensures var f := Apply(e, step);
            && thread in f.woken && |e.log| <= |f.log| && f.log[..|e.log|] == e.log
            && (forall i :: |e.log| <= i < |f.log| ==> f.log[i] != Signalled(thread))
  {}

  /** While a woken thread does not run it stays woken, and what is consumed is consumed by others. */
  lemma {:induction false} StaysWoken(e: Event, steps: seq<Step>, f: Event, thread: nat)
    requires thread in e.woken && Leads(e, steps, f) && Resume(thread) !in steps
    ensures thread in f.woken && |e.log| <= |f.log| && f.log[..|e.log|] == e.log
    ensures forall i :: |e.log| <= i < |f.log| ==> f.log[i] != Signalled(thread)
    decreases |steps|
  {
    hide Apply, Enabled;
    if steps == [] {
      assert f.log[..|e.log|] == e.log;
    } else {
      var m := Apply(e, steps[0]);
      assert steps[0] in steps && forall s :: s in steps[1..] ==> s in steps;
      WokenStep(e, steps[0], thread);
      StaysWoken(m, steps[1..], f, thread);
      assert forall i :: 0 <= i < |m.log| ==> f.log[i] == f.log[..|m.log|][i];
      assert f.log[..|e.log|] == f.log[..|m.log|][..|e.log|];
    }
  }

  lemma FlagIsLast(log: seq<Entry>, isSet: bool)
    requires Explains(log, isSet)
    ensures isSet <==> log != [] && log[|log| - 1] == BecameSet
  {}

  /** OS_WaitEvent does not wait again: a waiter woken by a set returns with a time-out, however early,
      exactly if the flag is down when it runs, that is, if the last entry of the log is not a set; the
      set that woke it was then consumed by another thread or by a reset, and no other followed. */
  lemma WokenInVain(before: seq<Step>, e: Event, wakes: set<nat>, steps: seq<Step>, f: Event, thread: nat)
    requires Leads(CREATED, before, e) && !e.isSet && Enabled(e, Set(wakes)) && thread in wakes
    requires Leads(Apply(e, Set(wakes)), steps, f) && Resume(thread) !in steps
    ensures Enabled(f, Resume(thread)) && |f.log| > |e.log|
    ensures Apply(f, Resume(thread)).log == f.log + [TimedOut(thread)] <==> f.log[|f.log| - 1] != BecameSet
    ensures f.log[|f.log| - 1] != BecameSet ==>
              |e.log| + 1 < |f.log| && var taken := f.log[|e.log| + 1];
              taken.Cleared? || (taken.Signalled? && taken.thread != thread)
  {
    hide Apply, Leads, Inv, Enabled;
    Raised(before, e, wakes);
    var raised := Apply(e, Set(wakes));
    RunKeepsInv(raised, steps, f);
    StaysWoken(raised, steps, f, thread);
    Resumed(f, thread);
    TakenByOther(e.log, raised.log, f, thread);
  }

  lemma Raised(before: seq<Step>, e: Event, wakes: set<nat>)
    requires Leads(CREATED, before, e) && !e.isSet && Enabled(e, Set(wakes))
    ensures var f := Apply(e, Set(wakes)); Inv(f) && f.log == e.log + [BecameSet] && wakes <= f.woken
  {
    CreatedInv();
    hide Leads, Explains, Waiters;
    RunKeepsInv(CREATED, before, e);
    StepExplains(e, Set(wakes));
    StepWaiters(e, Set(wakes));
  }

  lemma CreatedInv()
    ensures Inv(CREATED)
  {}

  lemma TakenByOther(log: seq<Entry>, raised: seq<Entry>, f: Event, thread: nat)
    requires Inv(f) && raised == log + [BecameSet] && |raised| <= |f.log| && f.log[..|raised|] == raised
    requires forall i :: |raised| <= i < |f.log| ==> f.log[i] != Signalled(thread)
    ensures f.isSet <==> f.log[|f.log| - 1] == BecameSet
    ensures !f.isSet ==>
              |raised| < |f.log| && var taken := f.log[|raised|];
              taken.Cleared? || (taken.Signalled? && taken.thread != thread)
  {
    hide Explains, Waiters;
    var n := |log|;
    FlagIsLast(f.log, f.isSet);
    assert f.log[n] == f.log[..|raised|][n] == BecameSet;
    if n + 1 < |f.log| {
      ConsumesSet(f.log, f.isSet, n + 1);
      assert f.log[n + 1] != Signalled(thread);
    }
  }

  lemma Resumed(e: Event, thread: nat)
    ensures Enabled(e, Resume(thread)) <==> thread in e.woken
    ensures thread in e.woken ==> (Apply(e, Resume(thread)).log == e.log + [TimedOut(thread)] <==> !e.isSet)
  {
    assert (e.log + [TimedOut(thread)])[|e.log|] != (e.log + [Signalled(thread)])[|e.log|];
  }

  lemma After(e: Event, steps: seq<Step>, step: Step, f: Event)
    requires Leads(e, steps, f) && Enabled(f, step)
    ensures Leads(e, steps + [step], Apply(f, step))
    decreases |steps|
  {
    if steps == [] {
      assert [step][1..] == [];
    } else {
      assert (steps + [step])[1..] == steps[1..] + [step];
      After(Apply(e, steps[0]), steps[1..], step, f);
    }
  }

  /** It happens: thread 1 waits, a set wakes it, thread 2 comes first and takes the event. */
  lemma EarlyTimeout()
    ensures exists steps, e :: Leads(CREATED, steps, e) && e.log == [BecameSet, Signalled(2), TimedOut(1)]
  {
    var e1 := Event(false, 1, {1}, {}, []);
    var e2 := Event(true, 1, {}, {1}, [BecameSet]);
    var e3 := Event(false, 1, {}, {1}, [BecameSet, Signalled(2)]);
    var e4 := Event(false, 0, {}, {}, [BecameSet, Signalled(2), TimedOut(1)]);
    assert Apply(CREATED, Enter(1)) == e1 && Apply(e1, Set({1})) == e2 && Apply(e2, Enter(2)) == e3;
    assert Apply(e3, Resume(1)) == e4;
    hide Apply, Leads;
    Nothing(CREATED);
    After(CREATED, [], Enter(1), CREATED);
    After(CREATED, [] + [Enter(1)], Set({1}), e1);
    After(CREATED, [] + [Enter(1)] + [Set({1})], Enter(2), e2);
    After(CREATED, [] + [Enter(1)] + [Set({1})] + [Enter(2)], Resume(1), e3);
  }

  lemma Nothing(e: Event)
    ensures Leads(e, [], e)
  {}

  // ---------------------------------------------------- one operation after another

  /** After a set a thread that waits is signalled at once and takes the event: the next one blocks. */
  lemma SetThenWait(e: Event, wakes: set<nat>, thread: nat, next: nat)
    requires Enabled(e, Set(wakes))
    requires var s := Apply(e, Set(wakes)); Enabled(s, Enter(thread)) && Enabled(Apply(s, Enter(thread)), Enter(next))
    ensures var s := Apply(e, Set(wakes));
            var t := Apply(s, Enter(thread));
            var u := Apply(t, Enter(next));
            && s.isSet && t.log == s.log + [Signalled(thread)] && t.waitingThreads == s.waitingThreads
            && u.log == t.log && next in u.blocked && u.waitingThreads == t.waitingThreads + 1
  {}

  /** After a reset the event is down, whatever it was, nobody was woken by it, and the next wait blocks. */
  lemma ResetThenWait(e: Event, thread: nat)
    requires Enabled(e, Enter(thread))
    ensures var r := Apply(e, Reset);
            && !r.isSet && r.blocked == e.blocked && r.woken == e.woken && r.waitingThreads == e.waitingThreads
            && r.log == (if e.isSet then e.log + [Cleared] else e.log)
            && Enabled(r, Enter(thread)) && thread in Apply(r, Enter(thread)).blocked
            && Apply(r, Enter(thread)).log == r.log
  {}

  // ------------------------------------------------------------- the functions

  /** An event as the functions of os_linux.c change it, one critical section each; the condition
      variable's queue stands beside the two fields. */
  class OsEventObject {
    var isSet: bool
    var waitingThreads: int
    var blocked: set<nat>
    var woken: set<nat>
    var log: seq<Entry>

    function State(): Event
      reads this
    {
      Event(isSet, waitingThreads, blocked, woken, log)
    }

    constructor ()
      ensures State() == CREATED
    {
      isSet, waitingThreads, blocked, woken, log := false, 0, {}, {}, [];
    }

    method Signal(wakes: set<nat>)
      modifies this`blocked, this`woken
      ensures State() == old(State()).(blocked := old(blocked) - wakes, woken := old(woken) + wakes)
    {
      blocked, woken := blocked - wakes, woken + wakes;
    }

    method SetEvent(wakes: set<nat>)
      requires Enabled(State(), Set(wakes))
      modifies this
      ensures State() == Apply(old(State()), Set(wakes))
    {
      if !isSet {
        isSet := true;
        log := log + [BecameSet];
        if waitingThreads > 0 {
          Signal(wakes);
        }
      }
    }

    method ResetEvent()
      modifies this
      ensures State() == Apply(old(State()), Reset)
    {
      if isSet {
        log := log + [Cleared];
      }
      isSet := false;
    }

    /** The part of OS_WaitEvent before pthread_cond_timedwait; says whether the call is over. */
    method WaitEvent(thread: nat) returns (over: bool)
      requires Enabled(State(), Enter(thread))
      modifies this
      ensures State() == Apply(old(State()), Enter(thread)) && over == old(isSet)
    {
      over := isSet;
      if !isSet {
        waitingThreads := waitingThreads + 1;
        blocked := blocked + {thread};
      } else {
        var _ := Take(thread);
      }
    }

    /** The part of OS_WaitEvent after pthread_cond_timedwait; says whether the event was received. */
    method WaitResumed(thread: nat) returns (signalled: bool)
      requires Enabled(State(), Resume(thread))
      modifies this
      ensures State() == Apply(old(State()), Resume(thread)) && signalled == old(isSet)
    {
      woken := woken - {thread};
      waitingThreads := waitingThreads - 1;
      signalled := Take(thread);
    }

    method Take(thread: nat) returns (signalled: bool)
      modifies this
      ensures State() == Finish(old(State()), thread) && signalled == old(isSet)
    {
      signalled := isSet;
      if isSet {
        isSet := false;
        log := log + [Signalled(thread)];
      } else {
        log := log + [TimedOut(thread)];
      }
    }
  }
}
