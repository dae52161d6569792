/** Suspension lasts as long as asked for, and nice levels never take effect. */
module SchedulerTiming {
  import opened Collections
  import opened Scheduler
  import opened SchedulerInvariant
  import opened SchedulerSteps
  import opened SchedulerEvents
  import opened SchedulerMigration
  import opened SchedulerRuns
  import opened SchedulerFairness

  /** Some processor has gone over to running `p`. */
  ghost predicate Picks(s: State, r: State, p: Ptr) {
    exists c :: NewlyRuns(s, r, c, p)
  }

  ghost predicate NewlyRuns(s: State, r: State, c: nat, p: Ptr) {
    c < |r.locals| && r.locals[c].current == Some(p) && !(c < |s.locals| && s.locals[c].current == Some(p))
  }

  /** `p` keeps its level and its suspension, unless it was picked when its time had come. */
  ghost predicate Timed(s: State, r: State, p: Ptr) {
    && p in s.threads && p in r.threads && s.tick <= r.tick
    && r.threads[p].nice == s.threads[p].nice
    && r.threads[p].suspendFor == s.threads[p].suspendFor
    && (|| (r.threads[p].suspendFrom == s.threads[p].suspendFrom && !Picks(s, r, p))
        || (r.threads[p].suspendFrom == 0 && !ShouldSkip(s.threads[p], r.tick)))
  }

  /** Nothing about level or suspension changed, and nobody picked `p`. */
  ghost predicate Untouched(s: State, r: State, p: Ptr) {
    && p in s.threads && p in r.threads && s.tick <= r.tick
    && r.threads[p].nice == s.threads[p].nice
    && r.threads[p].suspendFor == s.threads[p].suspendFor
    && r.threads[p].suspendFrom == s.threads[p].suspendFrom && !Picks(s, r, p)
  }

  lemma UntouchedThen(s: State, s': State, r: State, p: Ptr)
    requires Untouched(s, s', p)
    ensures Timed(s', r, p) ==> Timed(s, r, p)
    ensures Untouched(s', r, p) ==> Untouched(s, r, p)
  {
    forall c | NewlyRuns(s, r, c, p) ensures NewlyRuns(s', r, c, p) { assert !NewlyRuns(s, s', c, p); }
  }

  /** The processors run what they ran. */
  lemma NobodyPicks(s: State, r: State, p: Ptr)
    requires |r.locals| == |s.locals| && forall c | 0 <= c < |s.locals| :: r.locals[c].current == s.locals[c].current
    ensures !Picks(s, r, p)
  {
    assert forall c :: !NewlyRuns(s, r, c, p);
  }

  lemma DispatchPicks(q: State, c: nat, n: Ptr, p: Ptr)
    requires c < |q.locals| && n in q.threads && p != n
    ensures !Picks(q, Dispatch(q, c, n), p)
  {
    assert forall i :: !NewlyRuns(q, Dispatch(q, c, n), i, p);
  }

  lemma ThenSwitchTimed(s: State, s': State, s1: State, c: nat, p: Ptr)
    requires Untouched(s, s', p) && Core(s') && Outgoing(s', s1, c)
    ensures Timed(s, Switch(s1, c), p)
  {
    hide Core, PickFrom, Requeue, Switch, Picks, ShouldSkip, Dispatch;
    RequeueOk(s', s1, c);
    var q := Requeue(s1, c);
    var n := SwitchPicks(s', s1, c);
    assert q.threads[p] == s1.threads[p];
    NobodyPicks(s', q, p);
    assert Untouched(s', q, p);
    UntouchedThen(s, s', q, p);
    DispatchTimed(q, c, n, p);
    UntouchedThen(s, q, Dispatch(q, c, n), p);
  }

  lemma DispatchTimed(q: State, c: nat, n: Ptr, p: Ptr)
    requires c < |q.locals| && Runnable(q, n) && p in q.threads
    ensures Timed(q, Dispatch(q, c, n), p)
  {
    hide ShouldSkip, Picks;
    if p != n { DispatchPicks(q, c, n, p); }
  }

  lemma ThenSleepTimed(s: State, s': State, c: nat, x: Ptr, p: Ptr)
    requires Untouched(s, s', p) && Core(s') && Captured(s', c) && x in s'.threads && !IsIdle(s', x)
    requires s'.threads[x].runningOn.On? ==> s'.threads[x].runningOn.cpu < |s'.locals|
    ensures Timed(s, Sleep(s', c, x), p)
  {
    hide Core, Picks, ShouldSkip;
    if s'.threads[x].runningOn.On? {
      var s1 := SetThread(s', x, s'.threads[x].(runningOn := Nowhere));
      if x == Current(s', c) {
        ThenSwitchTimed(s, s', s1, c, p);
      } else {
        NobodyPicks(s', Sleep(s', c, x), p);
        UntouchedThen(s, s', Sleep(s', c, x), p);
      }
    }
  }

  lemma {:induction false} WakeupEachUntouched(s: State, c: nat, e: nat, ps: seq<Ptr>, p: Ptr)
    requires p in s.threads && c < |s.locals| && forall x | x in ps :: x in s.threads
    ensures Untouched(s, WakeupEach(s, c, e, ps), p)
    decreases |ps|
  {
    hide Picks;
    if ps == [] {
      NobodyPicks(s, s, p);
    } else {
      var t := s.threads[ps[0]];
      var s1 := SetThread(s, ps[0], t.(events := EraseAll(t.events, e)));
      var s2 := Wakeup(s1, c, ps[0]);
      assert forall x | x in ps[1..] :: x in ps;
      NobodyPicks(s, s2, p);
      assert Untouched(s, s2, p);
      hide Wakeup;
      WakeupEachUntouched(s2, c, e, ps[1..], p);
      UntouchedThen(s, s2, WakeupEach(s, c, e, ps), p);
    }
  }

  lemma NotifyUntouched(s: State, c: nat, e: nat, p: Ptr)
    requires p in s.threads && c < |s.locals| && forall x | x in Waiters(s, e) :: x in s.threads
    ensures Untouched(s, Notify(s, c, e).0, p)
  {
    hide Picks, WakeupEach;
    NobodyPicks(s, s, p);
    if HasEvent(s, e) {
      var s1 := s.(events := s.events[e := Some([])]);
      NobodyPicks(s, s1, p);
      WakeupEachUntouched(s1, c, e, s.events[e].value, p);
      UntouchedThen(s, s1, Notify(s, c, e).0, p);
    }
  }

  lemma ExitTimed(s: State, c: nat, x: Ptr, p: Ptr)
    requires Inv(s) && Captured(s, c) && Alive(s, x) && x != s.eventProcessor && !IsIdle(s, x) && p in s.threads
    ensures Timed(s, Exit(s, c, x), p)
  {
    hide Core, Lists, Picks, Notify, Timed;
    CancelOk(s, x);
    var s1 := Cancel(MarkZombie(s, x), x);
    NotifyOk(s1, c, THREAD_JOINED, {x});
    NotifyFrame(s1, c, THREAD_JOINED);
    var s2 := Notify(s1, c, THREAD_JOINED).0;
    RunningInRange(s2, x);
    NobodyPicks(s, s1, p);
    NotifyUntouched(s1, c, THREAD_JOINED, p);
    UntouchedThen(s, s1, s2, p);
    ThenSleepTimed(s, s2, c, x, p);
  }

  lemma WaitEventsTimed(s: State, c: nat, es: seq<nat>, p: Ptr)
    requires Inv(s) && Blocking(s, c) && p in s.threads
    ensures Timed(s, WaitEvents(s, c, es).0, p)
  {
    CurrentIsAlive(s, c);
    var x := Current(s, c);
    PushWaitersOk(s, es, x);
    PushWaitersFrame(s, es, x);
    var s1 := PushWaiters(s, es, x).0;
    hide Core, Lists;
    Basics(s1);
    if PushWaiters(s, es, x).1 == Success {
      ThenSleepTimed(s, s1, c, x, p);
    }
  }

  lemma TimerTimed(s: State, c: nat, first: bool, acquired: bool, message: bool, passes: nat, p: Ptr)
    requires Inv(s) && Captured(s, c) && s.eventProcessor in s.threads && p in s.threads
    requires acquired && MigrationDue(s, first) ==> Migrate(Ticked(s, c, first, message), passes).Some?
    ensures Timed(s, Timer(s, c, first, acquired, message, passes), p)
  {
    hide Inv, Migrate;
    if !(first && !acquired) {
      TimerCaptured(s, c, first, message, passes);
      TickedOk(s, c, first, message);
      var s1 := Ticked(s, c, first, message);
      assert Untouched(s, s1, p);
      if MigrationDue(s, first) {
        MigrationConserves(s1, passes);
        SwitchTimed(s, Migrated(s1, passes), c, p);
      } else {
        SwitchTimed(s, s1, c, p);
      }
    }
  }

  lemma SwitchTimed(s: State, s': State, c: nat, p: Ptr)
    requires Untouched(s, s', p) && Inv(s') && Captured(s', c)
    ensures Timed(s, Switch(s', c), p)
  {
    ThenSwitchTimed(s, s', s', c, p);
  }

  /** The thread an operation suspends, if any. */
  ghost predicate Suspends(s: State, op: Op, p: Ptr) {
    || (op.OpSuspend? && FindAlive(s, op.pid, op.tid) == Found(p))
    || (op.OpSuspendThis? && op.c < |s.locals| && s.locals[op.c].current == Some(p))
  }

  lemma SuspendTimed(s: State, c: nat, x: Ptr, ticks: nat, p: Ptr)
    requires Inv(s) && Captured(s, c) && x in s.threads && !IsIdle(s, x) && p in s.threads && p != x
    ensures Timed(s, Suspend(s, c, x, ticks), p)
  {
    hide Core, Lists;
    if ticks > 0 && x == Current(s, c) {
      var from := if s.tick == 0 then 1 else s.tick;
      var length := if s.tick == 0 then ticks - 1 else ticks;
      var s1 := SetThread(s, x, s.threads[x].(suspendFrom := from, suspendFor := length));
      EditThread(s, x, s1.threads[x], {});
      ThenSwitchTimed(s, s1, s1, c, p);
    }
  }

  lemma CaptureUntouched(s: State, c: nat, pid: nat, main: Ptr, idle: Ptr, p: Ptr)
    requires c < |s.locals| && HasProcess(s, pid) && main != idle && p in s.threads && p != main && p != idle
    ensures Untouched(s, Capture(s, c, pid, main, idle), p)
  {
  }

  /** Operations that look their thread up. */
  ghost predicate ById(op: Op) { op.OpWakeup? || op.OpSleep? || op.OpSuspend? || op.OpExit? || op.OpWaitThread? }

  lemma ByIdTimed(s: State, op: Op, p: Ptr)
    requires Inv(s) && Enabled(s, op) && p in s.threads && p in Step(s, op).0.threads && !Suspends(s, op, p) && ById(op)
    ensures Timed(s, Step(s, op).0, p)
  {
    hide Core, Lists, Sleep, Suspend, Exit, WaitEvents, Timer, Notify, UnwaitAll, Capture, Fill;
    Basics(s);
    FoundIsThread(s, op.pid, op.tid);
    match op
    case OpSleep(c, pid, tid) =>
      var f := FindThread(s, pid, tid);
      if f.Found? {
        ThenSleepTimed(s, s, c, f.p, p);
      }
    case OpSuspend(c, pid, tid, ms) =>
      var f := FindAlive(s, pid, tid);
      if f.Found? {
        SuspendTimed(s, c, f.p, MsToTick(ms), p);
      }
    case OpExit(c, pid, tid) =>
      var f := FindAlive(s, pid, tid);
      if f.Found? {
        ExitTimed(s, c, f.p, p);
      }
    case OpWaitThread(c, pid, tid) =>
      var f := FindThread(s, pid, tid);
      if f.Found? && !s.threads[f.p].zombie {
        WaitEventsTimed(s, c, [THREAD_JOINED], p);
      }
    case _ =>
  }

  lemma StepTimed(s: State, op: Op, p: Ptr)
    requires Inv(s) && Enabled(s, op) && p in s.threads && p in Step(s, op).0.threads && !Suspends(s, op, p)
    ensures Timed(s, Step(s, op).0, p)
  {
    if ById(op) {
      hide Inv, Step, Timed;
      ByIdTimed(s, op, p);
    } else {
      OtherTimed(s, op, p);
    }
  }

  lemma OtherTimed(s: State, op: Op, p: Ptr)
    requires Inv(s) && Enabled(s, op) && p in s.threads && p in Step(s, op).0.threads && !Suspends(s, op, p)
    requires !ById(op)
    ensures Timed(s, Step(s, op).0, p)
  {
    hide Core, Lists, Sleep, Suspend, Exit, WaitEvents, Timer, Notify, UnwaitAll, Capture, Fill;
    Basics(s);
    match op
    case OpSleepThis(c) => ThenSleepTimed(s, s, c, Current(s, c), p);
    case OpSuspendThis(c, ms) => SuspendTimed(s, c, Current(s, c), MsToTick(ms), p);
    case OpExitThis(c) => CurrentIsAlive(s, c); ExitTimed(s, c, Current(s, c), p);
    case OpWaitProcess(c, pid) =>
      if HasProcess(s, pid) && !AllEmpty(s.processes[pid].value) {
        WaitEventsTimed(s, c, [THREAD_JOINED], p);
      }
    case OpWaitEvents(c, es) => WaitEventsTimed(s, c, es, p);
    case OpUnwaitEvents(c, es) => UnwaitAllFrame(s, es, Current(s, c));
    case OpNotify(c, e) => NotifyUntouched(s, c, e, p);
    case OpTimer(c, first, acquired, message, passes) => TimerTimed(s, c, first, acquired, message, passes, p);
    case OpCapture(c, pid, main, idle) => CaptureUntouched(s, c, pid, main, idle, p);
    case _ =>
  }

  // -------------------------------------------------------------- suspension

  /** `p` as suspend_thread_for_tick marks it, before any switch. */
  function Marked(s: State, p: Ptr, ticks: nat): State
    requires p in s.threads && ticks > 0
  {
    SetThread(s, p, s.threads[p].(suspendFrom := if s.tick == 0 then 1 else s.tick,
                                  suspendFor := if s.tick == 0 then ticks - 1 else ticks))
  }

  lemma MarkedSkips(s: State, p: Ptr, ticks: nat)
    requires p in s.threads && 1 <= ticks < TWO64
    ensures ShouldSkip(Marked(s, p, ticks).threads[p], s.tick) <==> s.tick >= 1
  {
    if s.tick == 0 {
      assert (0 - 1) % TWO64 == TWO64 - 1;
    }
  }

  /** A switch leaves alone a thread that is to be skipped, and does not pick it. */
  lemma SwitchPassesOver(s: State, c: nat, p: Ptr)
    requires Core(s) && Captured(s, c) && p in s.threads
    ensures var r := Switch(s, c);
            && r.tick == s.tick && p in r.threads && c < |r.locals|
            && (ShouldSkip(s.threads[p], s.tick) ==> r.threads[p] == s.threads[p] && r.locals[c].current != Some(p))
            && (!ShouldSkip(s.threads[p], s.tick) ==> !ShouldSkip(r.threads[p], r.tick))
  {
    hide Core, PickFrom, Requeue, Switch;
    RequeueOk(s, s, c);
    var n := SwitchPicks(s, s, c);
    assert Requeue(s, c).threads[p] == s.threads[p];
  }

  /**
   A thread just suspended, the caller included, is passed over exactly when
   at least one tick has been counted; then it is not picked right away.
   */
  lemma SuspensionTakesEffect(s: State, c: nat, p: Ptr, ticks: nat)
    requires Inv(s) && Captured(s, c) && p in s.threads && 1 <= ticks < TWO64 && (p == Current(s, c) ==> !IsIdle(s, p))
    ensures var r := Suspend(s, c, p, ticks);
            && (ShouldSkip(r.threads[p], s.tick) <==> s.tick >= 1)
            && (s.tick >= 1 ==>
                  && r.threads[p] == Marked(s, p, ticks).threads[p]
                  && c < |r.locals| && r.locals[c].current != Some(p))
  {
    hide Core, Lists, Switch, ShouldSkip, TWO64;
    MarkedSkips(s, p, ticks);
    if p == Current(s, c) {
      MarkedCore(s, p, ticks);
      SwitchPassesOver(Marked(s, p, ticks), c, p);
    }
  }

  lemma MarkedCore(s: State, p: Ptr, ticks: nat)
    requires Inv(s) && p in s.threads && 1 <= ticks && !IsIdle(s, p)
    ensures Core(Marked(s, p, ticks))
  {
    hide Core, Lists;
    EditThread(s, p, Marked(s, p, ticks).threads[p], {});
  }

  /** `p` exists throughout the run and nothing suspends it again. */
  ghost predicate Undisturbed(s: State, ops: seq<Op>, p: Ptr)
    requires Inv(s) && Admissible(s, ops)
    decreases |ops|
  {
    && p in s.threads
    && (ops != [] ==> !Suspends(s, ops[0], p) && (StepOk(s, ops[0]); Undisturbed(Step(s, ops[0]).0, ops[1..], p)))
  }

  /** Suspended at tick `from` for `ticks`: still so, or already picked after its time. */
  ghost predicate Owes(s: State, p: Ptr, from: nat, ticks: nat) {
    && p in s.threads && from <= s.tick
    && (|| (s.threads[p].suspendFrom == from && s.threads[p].suspendFor == ticks)
        || (s.threads[p].suspendFrom == 0 && s.tick >= from + ticks))
  }

  lemma OwesStep(s: State, r: State, p: Ptr, from: nat, ticks: nat)
    requires 1 <= from && ticks <= TWO64 && Owes(s, p, from, ticks) && Timed(s, r, p)
    ensures Owes(r, p, from, ticks) && (r.tick < from + ticks ==> !Picks(s, r, p))
  {
    assert r.tick < from + ticks ==> (r.tick - from) % TWO64 == r.tick - from;
  }

  /** No processor goes over to running `p` before tick `until`. */
  ghost predicate NeverPicked(s: State, ops: seq<Op>, p: Ptr, until: nat)
    requires Inv(s) && Admissible(s, ops)
    decreases |ops|
  {
    ops == [] ||
    (StepOk(s, ops[0]);
     var r := Step(s, ops[0]).0;
     (r.tick < until ==> !Picks(s, r, p)) && NeverPicked(r, ops[1..], p, until))
  }

  /**
   A thread that owes a suspension from tick T >= 1 for n ticks is picked by
   no processor before tick T + n, and in every later state its suspension
   is intact or T + n has passed.
   */
  lemma {:induction false} SuspensionLasts(s: State, ops: seq<Op>, p: Ptr, from: nat, ticks: nat)
    requires Inv(s) && Admissible(s, ops) && Undisturbed(s, ops, p)
    requires 1 <= from && ticks <= TWO64 && Owes(s, p, from, ticks)
    ensures Owes(Run(s, ops), p, from, ticks) && NeverPicked(s, ops, p, from + ticks)
    decreases |ops|
  {
    hide Inv, Step, Enabled, Owes, Suspends, Picks;
    if ops != [] {
      StepOk(s, ops[0]);
      var r := Step(s, ops[0]).0;
      assert Undisturbed(r, ops[1..], p);
      StepTimed(s, ops[0], p);
      OwesStep(s, r, p, from, ticks);
      SuspensionLasts(r, ops[1..], p, from, ticks);
    }
  }

  /**
   Suspending at tick T >= 1 for n >= 1 ticks, by identifiers or by the caller itself, is what the
   thread then owes.
   */
  lemma SuspendOwes(s: State, op: Op, p: Ptr)
    requires Inv(s) && Enabled(s, op) && (op.OpSuspend? || op.OpSuspendThis?) && Suspends(s, op, p)
    requires s.tick >= 1 && MsToTick(op.ms) >= 1
    ensures Owes(Step(s, op).0, p, s.tick, MsToTick(op.ms))
  {
    hide Core, Lists, Suspend;
    if op.OpSuspend? {
      FoundIsThread(s, op.pid, op.tid);
    }
    SuspensionTakesEffect(s, op.c, p, MsToTick(op.ms));
    SuspendKeepsTick(s, op.c, p, MsToTick(op.ms));
  }

  lemma SuspendKeepsTick(s: State, c: nat, p: Ptr, ticks: nat)
    requires Captured(s, c) && p in s.threads
    ensures Suspend(s, c, p, ticks).tick == s.tick
  {
  }

  /** A tick is ten milliseconds: the suspension lasts the milliseconds asked for, rounded down to whole ticks. */
  lemma MsRounded(ms: nat)
    requires 100 * ms < TWO64
    ensures 10 * MsToTick(ms) <= ms < 10 * (MsToTick(ms) + 1)
  {
  }

  /**
   A thread suspended at tick T >= 1 for n >= 1 ticks, over every later run
   that does not suspend it again: no processor picks it before tick T + n,
   and every state before then skips it.
   */
  lemma SuspendedUntil(s: State, ops: seq<Op>, p: Ptr)
    requires Inv(s) && Admissible(s, ops) && SuspendedOnce(s, ops, p) && s.tick >= 1 && MsToTick(ops[0].ms) >= 1
    ensures var until := s.tick + MsToTick(ops[0].ms);
            && (StepOk(s, ops[0]); NeverPicked(Step(s, ops[0]).0, ops[1..], p, until))
            && p in Run(s, ops).threads
            && (Run(s, ops).tick < until ==> ShouldSkip(Run(s, ops).threads[p], Run(s, ops).tick))
  {
    hide Inv, Step, Enabled, Suspends;
    StepOk(s, ops[0]);
    SuspendOwes(s, ops[0], p);
    SuspensionLasts(Step(s, ops[0]).0, ops[1..], p, s.tick, MsToTick(ops[0].ms));
  }

  /** The run begins by suspending `p`, and nothing suspends it again. */
  ghost predicate SuspendedOnce(s: State, ops: seq<Op>, p: Ptr)
    requires Inv(s) && Admissible(s, ops)
  {
    && ops != [] && (ops[0].OpSuspend? || ops[0].OpSuspendThis?) && Suspends(s, ops[0], p)
    && (StepOk(s, ops[0]); Undisturbed(Step(s, ops[0]).0, ops[1..], p))
  }

  // ------------------------------------------------------------- nice levels

  ghost predicate AllNeutral(s: State) {
    forall p | p in s.threads :: s.threads[p].nice == 0
  }

  lemma SuspendNeutral(s: State, c: nat, x: Ptr, ticks: nat)
    requires Inv(s) && Captured(s, c) && x in s.threads && !IsIdle(s, x)
    ensures x in Suspend(s, c, x, ticks).threads && Suspend(s, c, x, ticks).threads[x].nice == s.threads[x].nice
  {
    hide Core, Lists;
    if ticks > 0 && x == Current(s, c) {
      var from := if s.tick == 0 then 1 else s.tick;
      var length := if s.tick == 0 then ticks - 1 else ticks;
      var s1 := SetThread(s, x, s.threads[x].(suspendFrom := from, suspendFor := length));
      EditThread(s, x, s1.threads[x], {});
      ThenSwitchTimed(s1, s1, s1, c, x);
    }
  }

  lemma StepNeutral(s: State, op: Op)
    requires Inv(s) && Enabled(s, op) && AllNeutral(s)
    ensures AllNeutral(Step(s, op).0)
  {
    hide Core, Lists;
    forall p | p in Step(s, op).0.threads
      ensures Step(s, op).0.threads[p].nice == 0
    {
      StepNeutralAt(s, op, p);
    }
  }

  lemma StepNeutralAt(s: State, op: Op, p: Ptr)
    requires Inv(s) && Enabled(s, op) && AllNeutral(s) && p in Step(s, op).0.threads
    ensures Step(s, op).0.threads[p].nice == 0
  {
    hide Core, Lists;
    if p in s.threads {
      if Suspends(s, op, p) {
        if op.OpSuspend? {
          FoundIsThread(s, op.pid, op.tid);
        }
        SuspendNeutral(s, op.c, p, MsToTick(op.ms));
      } else {
        StepTimed(s, op, p);
      }
    } else {
      NewIsNeutral(s, op, p);
    }
  }

  /** Threads appear only by creation, at level 0. */
  lemma NewIsNeutral(s: State, op: Op, p: Ptr)
    requires Inv(s) && Enabled(s, op) && p !in s.threads && p in Step(s, op).0.threads
    ensures Step(s, op).0.threads[p].nice == 0
  {
    hide Core, Lists, Switch, Sleep, Suspend, Exit, WaitEvents, Timer, Notify;
    if !op.OpCreateThread? && !op.OpCapture? {
      SameThreads(s, op);
    }
  }

  lemma SameThreads(s: State, op: Op)
    requires Inv(s) && Enabled(s, op) && !op.OpCreateThread? && !op.OpCapture?
    ensures Step(s, op).0.threads.Keys <= s.threads.Keys
  {
    hide Inv, Switch, Wakeup, Sleep, Suspend, Exit, WaitEvents, Timer, Notify;
  }

  /**
   From boot, whatever nice values callers pass to wakeup_thread, every thread
   stays at level 0: the public entry point drops the argument.
   */
  lemma {:induction false} NiceNeverTakesEffect(s: State, ops: seq<Op>)
    requires Inv(s) && Admissible(s, ops) && AllNeutral(s)
    ensures AllNeutral(Run(s, ops))
    decreases |ops|
  {
    if ops != [] {
      StepOk(s, ops[0]);
      StepNeutral(s, ops[0]);
      NiceNeverTakesEffect(Step(s, ops[0]).0, ops[1..]);
    }
  }

  lemma BootIsNeutral(p: Ptr, idle: Ptr)
    requires p != idle
    ensures AllNeutral(Boot(p, idle))
  {
  }

  /** So nobody is ever more urgent than a waiting thread. */
  lemma NeutralIsQuiet(s: State, c: nat, p: Ptr)
    requires AllNeutral(s) && p in s.threads
    ensures Quiet(s, c, p)
  {
  }

  /** Until processor `c` runs it, `p` stays queued there, not suspended, and no migration takes it. */
  ghost predicate KeepsReady(s: State, ops: seq<Op>, c: nat, p: Ptr)
    requires Inv(s) && Admissible(s, ops)
    decreases |ops|
  {
    Selected(s, c, p) ||
    (&& Waits(s, c, p)
     && (ops != [] ==>
           && NotMigrated(s, ops[0], p)
           && var r := Step(s, ops[0]).0;
              Queued(r, c, p) && Runnable(r, p) && (StepOk(s, ops[0]); KeepsReady(r, ops[1..], c, p))))
  }

  lemma {:induction false} NeutralStaysReady(s: State, ops: seq<Op>, c: nat, p: Ptr)
    requires Inv(s) && Admissible(s, ops) && AllNeutral(s) && KeepsReady(s, ops, c, p)
    ensures StaysReady(s, ops, c, p)
    decreases |ops|
  {
    hide Inv, Step, Enabled, AllNeutral, NotMigrated, Waits, Quiet;
    if ops != [] && !Selected(s, c, p) {
      StepOk(s, ops[0]);
      StepNeutral(s, ops[0]);
      NeutralIsQuiet(Step(s, ops[0]).0, c, p);
      NeutralStaysReady(Step(s, ops[0]).0, ops[1..], c, p);
    }
  }

  /**
   Round robin: in any state reached from boot, the k-th thread of a run queue
   is selected within k + 1 switches of its processor, as long as it stays
   there and is not suspended.
   */
  lemma RoundRobin(main: Ptr, idle: Ptr, before: seq<Op>, ops: seq<Op>, c: nat, p: Ptr, k: nat)
    requires BootRun(main, idle, before) && Inv(Boot(main, idle))
    requires var s := Run(Boot(main, idle), before);
             && Inv(s) && Admissible(s, ops) && Waits(s, c, p) && KeepsReady(s, ops, c, p)
             && Position(s, c, p, k) && Switches(s, ops, c) >= k + 1
    ensures GetsSelected(Run(Boot(main, idle), before), ops, c, p)
  {
    hide Inv, Admissible, Run, KeepsReady, StaysReady, Switches, GetsSelected;
    BootIsNeutral(main, idle);
    NiceNeverTakesEffect(Boot(main, idle), before);
    var s := Run(Boot(main, idle), before);
    NeutralStaysReady(s, ops, c, p);
    BoundedWaiting(s, ops, c, p, k);
  }

  /**
   Until processor `c` runs it, `p` stays queued there, no migration takes it,
   nothing suspends it again, and the tick stays below `limit`.
   */
  ghost predicate KeepsQueued(s: State, ops: seq<Op>, c: nat, p: Ptr, limit: nat)
    requires Inv(s) && Admissible(s, ops)
    decreases |ops|
  {
    Selected(s, c, p) ||
    (&& Waits(s, c, p)
     && (ops != [] ==>
           && NotMigrated(s, ops[0], p) && !Suspends(s, ops[0], p)
           && var r := Step(s, ops[0]).0;
              Queued(r, c, p) && r.tick < limit && (StepOk(s, ops[0]); KeepsQueued(r, ops[1..], c, p, limit))))
  }

  /** When its time has come, and until the 64-bit clock has gone all the way round, `p` is runnable. */
  lemma OwedIsRunnable(s: State, p: Ptr, from: nat, ticks: nat)
    requires Owes(s, p, from, ticks) && from + ticks <= s.tick < from + TWO64
    ensures Runnable(s, p)
  {
    assert (s.tick - from) % TWO64 == s.tick - from;
  }

  lemma {:induction false} OwedKeepsReady(s: State, ops: seq<Op>, c: nat, p: Ptr, from: nat, ticks: nat)
    requires Inv(s) && Admissible(s, ops) && 1 <= from && ticks <= TWO64
    requires Owes(s, p, from, ticks) && from + ticks <= s.tick && KeepsQueued(s, ops, c, p, from + TWO64)
    ensures KeepsReady(s, ops, c, p)
    decreases |ops|
  {
    hide Inv, Step, Enabled, Owes, Suspends, NotMigrated, Runnable, TWO64;
    if ops != [] && !Selected(s, c, p) {
      StepOk(s, ops[0]);
      var r := Step(s, ops[0]).0;
      StepTimed(s, ops[0], p);
      OwesStep(s, r, p, from, ticks);
      OwedIsRunnable(r, p, from, ticks);
      OwedKeepsReady(r, ops[1..], c, p, from, ticks);
    }
  }

  /**
   The end of a suspension: a thread suspended at tick T >= 1 for n >= 1 ticks
   is not picked before tick T + n; and once that tick has come, with k threads
   in front of it in its queue, it is selected within k + 1 switches of its
   processor, as long as it stays there and is not suspended again.
   */
  lemma SuspendedThenSelected(s: State, ops: seq<Op>, later: seq<Op>, c: nat, p: Ptr, k: nat)
    requires Inv(s) && Admissible(s, ops) && AllNeutral(s)
    requires SuspendedOnce(s, ops, p) && s.tick >= 1 && MsToTick(ops[0].ms) >= 1
    requires var r := Run(s, ops);
             && s.tick + MsToTick(ops[0].ms) <= r.tick
             && Inv(r) && Admissible(r, later) && Waits(r, c, p) && KeepsQueued(r, later, c, p, s.tick + TWO64)
             && Position(r, c, p, k) && Switches(r, later, c) >= k + 1
    ensures (StepOk(s, ops[0]); NeverPicked(Step(s, ops[0]).0, ops[1..], p, s.tick + MsToTick(ops[0].ms)))
    ensures GetsSelected(Run(s, ops), later, c, p)
  {
    hide Inv, Step, Enabled, Owes, Suspends, Switches, GetsSelected, KeepsQueued, KeepsReady, StaysReady, AllNeutral,
        TWO64;
    var r, n := Run(s, ops), MsToTick(ops[0].ms);
    StepOk(s, ops[0]);
    SuspendOwes(s, ops[0], p);
    SuspensionLasts(Step(s, ops[0]).0, ops[1..], p, s.tick, n);
    OwedKeepsReady(r, later, c, p, s.tick, n);
    NiceNeverTakesEffect(s, ops);
    NeutralStaysReady(r, later, c, p);
    BoundedWaiting(r, later, c, p, k);
  }

  /**
   The internal wakeup that does set a level works on the calling processor's
   queues.  It keeps the queues consistent exactly when the thread is asleep,
   runs on that processor, or its level is not changed.
   */
  lemma WakeupWithNiceExactly(s: State, c: nat, p: Ptr, nice: int)
    requires QueuesOk(s) && c < |s.locals| && p in s.threads && -2 <= nice <= 2
    ensures QueuesOk(WakeupWithNice(s, c, p, nice).0) <==>
            s.threads[p].runningOn.Nowhere? || s.threads[p].runningOn == On(c) || s.threads[p].nice == nice
  {
    hide QueuesOk;
    var t := s.threads[p];
    if t.runningOn.Nowhere? {
      var a := SetThread(s, p, t.(nice := nice));
      NiceWhileAsleep(s, p, nice);
      WakeupQueues(a, c, p);
      assert WakeupWithNice(s, c, p, nice).0.threads == Wakeup(a, c, p).threads;
      assert WakeupWithNice(s, c, p, nice).0 == Wakeup(a, c, p);
    } else if t.runningOn == On(c) && t.nice != nice {
      MoveLevel(s, c, p, nice);
    } else if t.nice != nice {
      MoveBreaks(s, c, p, nice);
    }
  }

  /** Moving a thread of another processor leaves it in a queue that is not its own. */
  lemma MoveBreaks(s: State, c: nat, p: Ptr, nice: Nice)
    requires c < |s.locals| && p in s.threads && s.threads[p].nice != nice
    requires s.threads[p].runningOn.On? && s.threads[p].runningOn != On(c)
    ensures !QueuesOk(WakeupWithNice(s, c, p, nice).0)
  {
    var r := WakeupWithNice(s, c, p, nice).0;
    assert p in r.locals[c].queue[Level(nice)];
    assert !Placed(r, p, c, Level(nice));
  }

  lemma MoveLevel(s: State, c: nat, p: Ptr, nice: Nice)
    requires QueuesOk(s) && p in s.threads && s.threads[p].runningOn == On(c) && s.threads[p].nice != nice
    ensures QueuesOk(WakeupWithNice(s, c, p, nice).0)
  {
    EraseQueues(s, p);
    var a := Erase(SetThread(s, p, s.threads[p].(runningOn := Nowhere)), c, p);
    var b := SetThread(a, p, a.threads[p].(nice := nice));
    assert QueuesOk(b) by { NiceWhileAsleep(a, p, nice); }
    WakeupQueues(b, c, p);
    MoveSteps(s, c, p, nice);
  }

  /** Moving between levels is leaving the queue, taking the level and being woken. */
  lemma MoveSteps(s: State, c: nat, p: Ptr, nice: Nice)
    requires c < |s.locals| && p in s.threads && s.threads[p].runningOn == On(c) && s.threads[p].nice != nice
    ensures var a := Erase(SetThread(s, p, s.threads[p].(runningOn := Nowhere)), c, p);
            WakeupWithNice(s, c, p, nice).0 == Wakeup(SetThread(a, p, a.threads[p].(nice := nice)), c, p)
  {
    var a := Erase(SetThread(s, p, s.threads[p].(runningOn := Nowhere)), c, p);
    assert WakeupWithNice(s, c, p, nice).0.threads ==
        Wakeup(SetThread(a, p, a.threads[p].(nice := nice)), c, p).threads;
  }

  lemma NiceWhileAsleep(s: State, p: Ptr, nice: Nice)
    requires QueuesOk(s) && p in s.threads && s.threads[p].runningOn.Nowhere?
    ensures QueuesOk(SetThread(s, p, s.threads[p].(nice := nice)))
  {
    var r := SetThread(s, p, s.threads[p].(nice := nice));
    assert forall q, c, n :: Placed(s, q, c, n) ==> Placed(r, q, c, n);
  }
}
