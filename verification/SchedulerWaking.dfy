/**
 Nobody who waits is forgotten: what a notification does to each waiter, and that
 over every run a thread that went to sleep on an event is awake after the next
 notification of it.
 */
module SchedulerWaking {
  import opened Collections
  import opened Scheduler
  import opened SchedulerInvariant
  import opened SchedulerSteps
  import opened SchedulerEvents
  import opened SchedulerMigration
  import opened SchedulerRuns

  // ---------------------------------------------------------- one notification

  ghost predicate Asleep(s: State, p: Ptr) { p in s.threads && s.threads[p].runningOn.Nowhere? }

  ghost predicate Awake(s: State, p: Ptr) { p in s.threads && s.threads[p].runningOn.On? }

  /** The sleeping threads of level `n` among `ps`, in that order, each once. */
  ghost function Sleepers(s: State, ps: seq<Ptr>, n: nat): (r: seq<Ptr>)
    ensures forall p :: p in r <==> p in ps && Asleep(s, p) && Level(s.threads[p].nice) == n
    ensures NoDuplicates(r)
  {
    if ps == [] then []
    else
      var rest, p := ps[..|ps| - 1], ps[|ps| - 1];
      assert ps == rest + [p];
      var r := Sleepers(s, rest, n);
      if Asleep(s, p) && Level(s.threads[p].nice) == n && p !in rest then
        AppendKeepsDistinct(r, p);
        r + [p]
      else r
  }

  /** The waiters `ps` of event `e` have left it, those that slept run on `c` now, and nothing else changed. */
  ghost predicate NotifiedThreads(s: State, r: State, c: nat, e: nat, ps: seq<Ptr>) {
    && r.threads.Keys == s.threads.Keys
    && forall p | p in s.threads ::
         r.threads[p] == s.threads[p].(runningOn := if p in ps && Asleep(s, p) then On(c) else s.threads[p].runningOn,
                                       events := if p in ps then EraseAll(s.threads[p].events, e)
                                                 else s.threads[p].events)
  }

  /** Those that slept stand at the back of the queues of `c`, in the order of `ps`. */
  ghost predicate NotifiedQueues(s: State, r: State, c: nat, ps: seq<Ptr>)
    requires c < |s.locals|
  {
    && |r.locals| == |s.locals| && r.locals[c].current == s.locals[c].current
    && (forall i | 0 <= i < |s.locals| && i != c :: r.locals[i] == s.locals[i])
    && (forall n | 0 <= n < 5 :: r.locals[c].queue[n] == s.locals[c].queue[n] + Sleepers(s, ps, n))
  }

  ghost predicate Notified(s: State, r: State, c: nat, e: nat, ps: seq<Ptr>)
    requires c < |s.locals|
  {
    && NotifiedThreads(s, r, c, e, ps) && NotifiedQueues(s, r, c, ps)
    && r.events == s.events && r.tick == s.tick && r.processes == s.processes && r.eventProcessor == s.eventProcessor
  }

  /** One waiter's turn. */
  function WakeOne(s: State, c: nat, e: nat, p: Ptr): (r: State)
    requires c < |s.locals| && p in s.threads
    ensures r.threads.Keys == s.threads.Keys && |r.locals| == |s.locals|
  {
    Wakeup(SetThread(s, p, s.threads[p].(events := EraseAll(s.threads[p].events, e))), c, p)
  }

  lemma {:induction false} WakeupEachThen(s: State, c: nat, e: nat, ps: seq<Ptr>, p: Ptr)
    requires c < |s.locals| && p in s.threads && forall q | q in ps :: q in s.threads
    ensures forall q | q in ps + [p] :: q in s.threads
    ensures WakeupEach(s, c, e, ps + [p]) == WakeOne(WakeupEach(s, c, e, ps), c, e, p)
    decreases |ps|
  {
    hide EraseAll, Wakeup;
    if ps == [] {
      assert (ps + [p])[1..] == [];
    } else {
      assert (ps + [p])[1..] == ps[1..] + [p];
      assert forall q | q in ps[1..] :: q in ps;
      WakeupEachThen(WakeOne(s, c, e, ps[0]), c, e, ps[1..], p);
    }
  }

  lemma {:induction false} WakeupEachIs(s: State, c: nat, e: nat, ps: seq<Ptr>)
    requires c < |s.locals| && forall p | p in ps :: p in s.threads
    ensures Notified(s, WakeupEach(s, c, e, ps), c, e, ps)
    decreases |ps|
  {
    if ps != [] {
      var rest, p := ps[..|ps| - 1], ps[|ps| - 1];
      assert ps == rest + [p];
      WakeupEachIs(s, c, e, rest);
      WakeupEachThen(s, c, e, rest, p);
      NotifiedMore(s, WakeupEach(s, c, e, rest), c, e, rest, p);
    }
  }

  lemma {:induction false} SleepersMore(s: State, ps: seq<Ptr>, p: Ptr, n: nat)
    ensures Sleepers(s, ps + [p], n) ==
            Sleepers(s, ps, n) + if Asleep(s, p) && Level(s.threads[p].nice) == n && p !in ps then [p] else []
  {
    assert (ps + [p])[..|ps|] == ps;
  }

  /** What one turn does to the queues of `c`. */
  lemma WakeOneQueues(m: State, c: nat, e: nat, p: Ptr, n: nat)
    requires c < |m.locals| && p in m.threads && n < 5
    ensures var r := WakeOne(m, c, e, p);
            && r.locals[c].queue[n] ==
               m.locals[c].queue[n] + (if Asleep(m, p) && Level(m.threads[p].nice) == n then [p] else [])
            && r == m.(threads := r.threads, locals := m.locals[c := m.locals[c].(queue := r.locals[c].queue)])
            && r.threads == m.threads[p := m.threads[p].(events := EraseAll(m.threads[p].events, e),
                                      runningOn := if Asleep(m, p) then On(c) else m.threads[p].runningOn)]
  {
    hide EraseAll;
  }

  lemma ThreadsMore(s: State, m: State, c: nat, e: nat, ps: seq<Ptr>, p: Ptr)
    requires c < |m.locals| && p in s.threads && NotifiedThreads(s, m, c, e, ps)
    ensures NotifiedThreads(s, WakeOne(m, c, e, p), c, e, ps + [p])
  {
    hide EraseAll, WakeOne;
    ErasedTwice(s.threads[p].events, e);
    WakeOneQueues(m, c, e, p, 0);
  }

  lemma QueuesMore(s: State, m: State, c: nat, e: nat, ps: seq<Ptr>, p: Ptr)
    requires c < |s.locals| && p in s.threads && NotifiedThreads(s, m, c, e, ps) && NotifiedQueues(s, m, c, ps)
    ensures NotifiedQueues(s, WakeOne(m, c, e, p), c, ps + [p])
  {
    hide EraseAll, WakeOne, Sleepers;
    var r := WakeOne(m, c, e, p);
    WakeOneQueues(m, c, e, p, 0);
    assert Asleep(m, p) <==> Asleep(s, p) && p !in ps;
    assert m.threads[p].nice == s.threads[p].nice;
    hide NotifiedThreads;
    forall n | 0 <= n < 5 ensures r.locals[c].queue[n] == s.locals[c].queue[n] + Sleepers(s, ps + [p], n) {
      WakeOneQueues(m, c, e, p, n);
      SleepersMore(s, ps, p, n);
      assert m.locals[c].queue[n] == s.locals[c].queue[n] + Sleepers(s, ps, n);
    }
  }

  lemma NotifiedMore(s: State, m: State, c: nat, e: nat, ps: seq<Ptr>, p: Ptr)
    requires c < |s.locals| && p in s.threads && Notified(s, m, c, e, ps)
    ensures Notified(s, WakeOne(m, c, e, p), c, e, ps + [p])
  {
    hide EraseAll, WakeOne, NotifiedThreads;
    assert p in m.threads && |m.locals| == |s.locals| by { SameShape(s, m, c, e, ps); }
    hide NotifiedQueues;
    ThreadsMore(s, m, c, e, ps, p);
    QueuesMore(s, m, c, e, ps, p);
    WakeOneQueues(m, c, e, p, 0);
  }

  lemma SameShape(s: State, m: State, c: nat, e: nat, ps: seq<Ptr>)
    requires c < |s.locals| && NotifiedThreads(s, m, c, e, ps) && NotifiedQueues(s, m, c, ps)
    ensures m.threads.Keys == s.threads.Keys && |m.locals| == |s.locals|
  {
  }

  lemma {:induction false} ErasedTwice(q: seq<nat>, e: nat)
    ensures EraseAll(EraseAll(q, e), e) == EraseAll(q, e)
  {
    EraseAllAbsent(EraseAll(q, e), e);
  }

  /**
   notify_event: the event has no waiters left; everyone who waited is awake, those
   who slept on the calling processor, at the back of its queues in the order in
   which they waited; everybody else is as before.
   */
  lemma NotifyWakes(s: State, c: nat, e: nat)
    requires c < |s.locals| && HasEvent(s, e) && forall p | p in Waiters(s, e) :: p in s.threads
    ensures var (r, code) := Notify(s, c, e);
            && code == Success && HasEvent(r, e) && Waiters(r, e) == []
            && (forall e': nat | e' != e :: Waiters(r, e') == Waiters(s, e'))
            && NotifiedThreads(s, r, c, e, Waiters(s, e)) && NotifiedQueues(s, r, c, Waiters(s, e))
            && forall p | p in Waiters(s, e) :: Awake(r, p)
  {
    hide WakeupEach, EraseAll;
    var s1 := s.(events := s.events[e := Some([])]);
    WakeupEachIs(s1, c, e, s.events[e].value);
    forall n | 0 <= n < 5 ensures Sleepers(s1, Waiters(s, e), n) == Sleepers(s, Waiters(s, e), n) {
      SameSleepers(s, s1, Waiters(s, e), n);
    }
    hide Sleepers;
  }

  lemma {:induction false} SameSleepers(s: State, r: State, ps: seq<Ptr>, n: nat)
    requires r.threads == s.threads
    ensures Sleepers(r, ps, n) == Sleepers(s, ps, n)
  {
    if ps != [] { SameSleepers(s, r, ps[..|ps| - 1], n); }
  }

  // ------------------------------------------------------- going to sleep

  /** Whoever is put to sleep is asleep, and in no run queue; nobody else's placement changes. */
  lemma SleepSleeps(s: State, c: nat, p: Ptr, exiting: set<Ptr>)
    requires Core(s) && Lists(s, exiting) && Captured(s, c) && p in s.threads && !IsIdle(s, p) && OnlyHere(s, c, p)
    ensures var r := Sleep(s, c, p);
            && Asleep(r, p) && (forall i, n | 0 <= i < |r.locals| && 0 <= n < 5 :: p !in r.locals[i].queue[n])
            && (forall q | q in s.threads && q != p :: r.threads[q].runningOn == s.threads[q].runningOn)
            && r.threads.Keys == s.threads.Keys && SameLists(s, r) && SameIdentity(s, r)
  {
    hide QueuesOk, CurrentOk, IdleOk, Lists, Switch, Erase;
    RunsSomewhere(s, p);
    SleepOk(s, c, p, exiting);
    var r := Sleep(s, c, p);
    var s1 := SetThread(s, p, s.threads[p].(runningOn := Nowhere));
    if s.threads[p].runningOn.On? {
      if p == Current(s, c) {
        SwitchEffect(s, s1, c);
      } else {
        EraseFrame(s1, s.threads[p].runningOn.cpu, p);
      }
    }
    InNoQueue(r, p);
  }

  lemma EraseFrame(s: State, c: nat, p: Ptr)
    requires c < |s.locals| && p in s.threads
    ensures Erase(s, c, p) == s.(locals := Erase(s, c, p).locals)
  {
  }

  lemma InNoQueue(s: State, p: Ptr)
    requires QueuesOk(s) && Asleep(s, p)
    ensures forall i, n | 0 <= i < |s.locals| && 0 <= n < 5 :: p !in s.locals[i].queue[n]
  {
    forall i, n | 0 <= i < |s.locals| && 0 <= n < 5 ensures p !in s.locals[i].queue[n] {
      assert !Placed(s, p, i, n);
    }
  }

  /** The thread joins the back of every list, in turn, exactly when all the events exist. */
  lemma {:induction false} PushWaitersExactly(s: State, es: seq<nat>, p: Ptr)
    requires p in s.threads
    ensures var (r, code) := PushWaiters(s, es, p);
            && (code == Success <==> forall e | e in es :: HasEvent(s, e))
            && (code == Success ==> forall e | e in es :: WaitsFor(r, p, e))
            && (forall e: nat :: Waiters(s, e) <= Waiters(r, e) && (HasEvent(s, e) == HasEvent(r, e)))
            && (forall q | q in s.threads :: r.threads[q] == s.threads[q].(events := r.threads[q].events))
            && r.threads.Keys == s.threads.Keys
    decreases |es|
  {
    if es != [] && HasEvent(s, es[0]) {
      var m := PushWaiter(s, es[0], p);
      assert forall e: nat :: Waiters(s, e) <= Waiters(m, e) && HasEvent(m, e) == HasEvent(s, e);
      assert WaitsFor(m, p, es[0]);
      PushWaitersExactly(m, es[1..], p);
      assert forall e :: e in es <==> e == es[0] || e in es[1..];
    }
  }

  /** wait_event: the caller sleeps, listed with each event, exactly when all of them exist. */
  lemma WaitSleeps(s: State, c: nat, es: seq<nat>)
    requires Inv(s) && Blocking(s, c)
    ensures var (r, code) := WaitEvents(s, c, es);
            var w := Current(s, c);
            && (code == Success <==> forall e | e in es :: HasEvent(s, e))
            && (code == Success ==> Asleep(r, w) && Alive(r, w) && forall e | e in es :: WaitsFor(r, w, e))
            && (code != Success ==> Awake(r, w))
  {
    hide Core, Lists;
    CurrentIsAlive(s, c);
    var w := Current(s, c);
    PushWaitersExactly(s, es, w);
    PushWaitersOk(s, es, w);
    var (s1, code) := PushWaiters(s, es, w);
    if code == Success {
      SleepSleeps(s1, c, w, {});
    }
  }

  // --------------------------------------------------- over every operation

  /** `w` is still alive; if it was awake it is, and if it waited for `e` it does or is awake. */
  ghost predicate Keeps(s: State, r: State, w: Ptr, e: nat) {
    && Alive(s, w) && Alive(r, w) && (Awake(s, w) ==> Awake(r, w))
    && (WaitsFor(s, w, e) ==> WaitsFor(r, w, e) || Awake(r, w))
  }

  lemma KeepsThen(s: State, m: State, r: State, w: Ptr, e: nat)
    requires Keeps(s, m, w, e) && Keeps(m, r, w, e)
    ensures Keeps(s, r, w, e)
  {
  }

  lemma SameKeeps(s: State, r: State, w: Ptr, e: nat)
    requires Alive(s, w) && Alive(r, w) && r.threads[w].runningOn.On? == s.threads[w].runningOn.On?
    requires r.events == s.events
    ensures Keeps(s, r, w, e)
  {
  }

  lemma WakeupKeeps(s: State, c: nat, p: Ptr, w: Ptr, e: nat)
    requires c < |s.locals| && p in s.threads && Alive(s, w)
    ensures Keeps(s, Wakeup(s, c, p), w, e)
  {
  }

  lemma SleepKeeps(s: State, c: nat, p: Ptr, exiting: set<Ptr>, w: Ptr, e: nat)
    requires Core(s) && Lists(s, exiting) && Captured(s, c) && p in s.threads && !IsIdle(s, p) && OnlyHere(s, c, p)
    requires Alive(s, w) && p != w
    ensures Keeps(s, Sleep(s, c, p), w, e)
  {
    hide Core, Lists, Sleep;
    RunsSomewhere(s, p);
    SleepSleeps(s, c, p, exiting);
    SameKeeps(s, Sleep(s, c, p), w, e);
  }

  lemma RunsSomewhere(s: State, p: Ptr)
    requires Core(s) && p in s.threads
    ensures s.threads[p].runningOn.On? ==> s.threads[p].runningOn.cpu < |s.locals|
  {
  }

  lemma SwitchKeeps(s: State, c: nat, w: Ptr, e: nat)
    requires Core(s) && Captured(s, c) && Alive(s, w)
    ensures Keeps(s, Switch(s, c), w, e)
  {
    hide Core, Switch;
    SwitchEffect(s, s, c);
    SameKeeps(s, Switch(s, c), w, e);
  }

  lemma SuspendKeeps(s: State, c: nat, p: Ptr, ticks: nat, w: Ptr, e: nat)
    requires Inv(s) && Captured(s, c) && p in s.threads && !IsIdle(s, p) && Alive(s, w)
    ensures Keeps(s, Suspend(s, c, p, ticks), w, e)
  {
    hide Core, Lists, Switch;
    if ticks > 0 {
      var from := if s.tick == 0 then 1 else s.tick;
      var length := if s.tick == 0 then ticks - 1 else ticks;
      var s1 := SetThread(s, p, s.threads[p].(suspendFrom := from, suspendFor := length));
      EditThread(s, p, s1.threads[p], {});
      SameKeeps(s, s1, w, e);
      if p == Current(s, c) {
        SwitchKeeps(s1, c, w, e);
      }
    }
  }

  /** Whoever waits for the notified event is woken, whoever waits for another still does. */
  lemma NotifyKeeps(s: State, c: nat, e': nat, w: Ptr, e: nat)
    requires c < |s.locals| && Alive(s, w) && forall p | p in Waiters(s, e') :: p in s.threads
    ensures Keeps(s, Notify(s, c, e').0, w, e)
    ensures WaitsFor(s, w, e') ==> Awake(Notify(s, c, e').0, w)
  {
    hide Sleepers, EraseAll;
    if HasEvent(s, e') {
      NotifyWakes(s, c, e');
    }
  }

  lemma {:induction false} ErasedKeeps(q: seq<Ptr>, p: Ptr, w: Ptr)
    requires w != p && w in q
    ensures w in EraseAll(q, p)
  {
    if q[0] != w { ErasedKeeps(q[1..], p, w); }
  }

  lemma CancelKeeps(s: State, p: Ptr, w: Ptr, e: nat)
    requires p in s.threads && Alive(s, w) && p != w
    ensures Keeps(s, Cancel(MarkZombie(s, p), p), w, e)
  {
    hide EraseAll;
    if WaitsFor(s, w, e) { ErasedKeeps(s.events[e].value, p, w); }
  }

  /** Every exit wakes all who wait for a thread to end. */
  lemma ExitWakes(s: State, c: nat, p: Ptr, w: Ptr, e: nat)
    requires Inv(s) && Captured(s, c) && Alive(s, p) && p != s.eventProcessor && !IsIdle(s, p) && OnlyHere(s, c, p)
    requires Alive(s, w) && p != w
    ensures Keeps(s, Exit(s, c, p), w, e)
    ensures WaitsFor(s, w, THREAD_JOINED) ==> Awake(Exit(s, c, p), w)
  {
    hide QueuesOk, CurrentOk, IdleOk, Lists, Notify, Sleep, Cancel;
    CancelOk(s, p);
    var s1 := Cancel(MarkZombie(s, p), p);
    CancelKeeps(s, p, w, e);
    CancelKeeps(s, p, w, THREAD_JOINED);
    CancelFrame(s, p);
    NotifyOk(s1, c, THREAD_JOINED, {p});
    var s2 := Notify(s1, c, THREAD_JOINED).0;
    NotifyKeeps(s1, c, THREAD_JOINED, w, e);
    NotifyFrame(s1, c, THREAD_JOINED);
    SleepKeeps(s2, c, p, {p}, w, e);
  }

  lemma CancelFrame(s: State, p: Ptr)
    requires p in s.threads
    ensures var r := Cancel(MarkZombie(s, p), p);
            && r.locals == s.locals && r.threads.Keys == s.threads.Keys
            && r.threads[p].entry == s.threads[p].entry && r.threads[p].zombie
  {
  }

  lemma {:induction false} UnwaitAllKeeps(s: State, es: seq<nat>, p: Ptr, w: Ptr, e: nat)
    requires p in s.threads && Alive(s, w) && p != w
    ensures Keeps(s, UnwaitAll(s, es, p).0, w, e)
    decreases |es|
  {
    hide EraseAll;
    if es != [] && HasEvent(s, es[0]) {
      if WaitsFor(s, w, es[0]) { ErasedKeeps(s.events[es[0]].value, p, w); }
      UnwaitAllKeeps(Unwait(s, es[0], p), es[1..], p, w, e);
    }
  }

  lemma WaitEventsKeeps(s: State, c: nat, es: seq<nat>, w: Ptr, e: nat)
    requires Inv(s) && Blocking(s, c) && Alive(s, w) && Current(s, c) != w
    ensures Keeps(s, WaitEvents(s, c, es).0, w, e)
  {
    hide Core, Lists;
    CurrentIsAlive(s, c);
    var p := Current(s, c);
    PushWaitersExactly(s, es, p);
    PushWaitersOk(s, es, p);
    var (s1, code) := PushWaiters(s, es, p);
    assert Waiters(s, e) <= Waiters(s1, e);
    assert Keeps(s, s1, w, e);
    if code == Success {
      SleepKeeps(s1, c, p, {}, w, e);
    }
  }

  lemma TimerKeeps(s: State, c: nat, first: bool, acquired: bool, message: bool, passes: nat, w: Ptr, e: nat)
    requires Inv(s) && Captured(s, c) && s.eventProcessor in s.threads && Alive(s, w)
    requires acquired && MigrationDue(s, first) ==> Migrate(Ticked(s, c, first, message), passes).Some?
    ensures Keeps(s, Timer(s, c, first, acquired, message, passes), w, e)
  {
    hide Core, Lists, Migrate, Switch;
    if first && !acquired {
      SameKeeps(s, s.(tick := s.tick + 1), w, e);
    } else {
      TimerCaptured(s, c, first, message, passes);
      TickedOk(s, c, first, message);
      var s1 := Ticked(s, c, first, message);
      WakeupKeeps(s.(tick := s.tick + 1), c, s.eventProcessor, w, e);
      assert Keeps(s, s1, w, e);
      var s2 := if MigrationDue(s, first) then Migrated(s1, passes) else s1;
      if MigrationDue(s, first) {
        MigrationConserves(s1, passes);
        SameKeeps(s1, s2, w, e);
      }
      SwitchKeeps(s2, c, w, e);
    }
  }

  lemma CaptureKeeps(s: State, c: nat, pid: nat, main: Ptr, idle: Ptr, w: Ptr, e: nat)
    requires c < |s.locals| && HasProcess(s, pid) && main != idle && main !in s.threads && idle !in s.threads
    requires Alive(s, w)
    ensures Keeps(s, Capture(s, c, pid, main, idle), w, e)
  {
  }

  lemma {:induction false} FillKeeps<T>(q: seq<Option<T>>, v: T, i: nat)
    requires i < |q| && q[i].Some?
    ensures i < |Fill(q, v)| && Fill(q, v)[i] == q[i]
  {
  }

  /** The operation is about `w` itself: puts it to sleep, ends it, or is its own waiting. */
  ghost predicate Touches(s: State, op: Op, w: Ptr)
    requires Enabled(s, op)
  {
    match op
    case OpSleep(_, pid, tid) => FindThread(s, pid, tid) == Found(w)
    case OpExit(_, pid, tid) => FindAlive(s, pid, tid) == Found(w)
    case OpSleepThis(c) => Current(s, c) == w
    case OpExitThis(c) => Current(s, c) == w
    case OpWaitThread(c, _, _) => Current(s, c) == w
    case OpWaitProcess(c, _) => Current(s, c) == w
    case OpWaitEvents(c, _) => Current(s, c) == w
    case OpUnwaitEvents(c, _) => Current(s, c) == w
    case _ => false
  }

  /** The operation notifies `e`: by name, or by the end of a thread. */
  ghost predicate Notifies(s: State, op: Op, e: nat) {
    match op
    case OpNotify(_, e') => e' == e
    case OpExit(_, pid, tid) => e == THREAD_JOINED && FindAlive(s, pid, tid).Found?
    case OpExitThis(_) => e == THREAD_JOINED
    case _ => false
  }

  lemma ByIdKeeps(s: State, op: Op, w: Ptr, e: nat)
    requires Inv(s) && Enabled(s, op) && !Touches(s, op, w) && Alive(s, w)
    requires op.OpWakeup? || op.OpSleep? || op.OpSuspend? || op.OpExit? || op.OpWaitThread?
    ensures Keeps(s, Step(s, op).0, w, e)
    ensures Notifies(s, op, e) && WaitsFor(s, w, e) ==> Awake(Step(s, op).0, w)
  {
    hide Core, Lists, Wakeup, Sleep, Suspend, Exit, WaitEvents, FindThread, FindAlive;
    FoundIsThread(s, op.pid, op.tid);
    var f, g := FindThread(s, op.pid, op.tid), FindAlive(s, op.pid, op.tid);
    match op
    case OpWakeup(c, _, _) => if g.Found? { WakeupKeeps(s, c, g.p, w, e); }
    case OpSleep(c, _, _) => if f.Found? { SleepKeeps(s, c, f.p, {}, w, e); }
    case OpSuspend(c, _, _, ms) => if g.Found? { SuspendKeeps(s, c, g.p, MsToTick(ms), w, e); }
    case OpExit(c, _, _) => if g.Found? { ExitWakes(s, c, g.p, w, e); }
    case OpWaitThread(c, _, _) =>
      if f.Found? {
        if s.threads[f.p].zombie { FreeThreadOk(s, f.p); } else { WaitEventsKeeps(s, c, [THREAD_JOINED], w, e); }
      }
  }

  /** No operation of others makes `w` sleep or forget its event, and a notification of it wakes `w`. */
  lemma StepKeeps(s: State, op: Op, w: Ptr, e: nat)
    requires Inv(s) && Enabled(s, op) && !Touches(s, op, w) && Alive(s, w)
    ensures Keeps(s, Step(s, op).0, w, e)
    ensures Notifies(s, op, e) && WaitsFor(s, w, e) ==> Awake(Step(s, op).0, w)
  {
    hide Core, Lists, Wakeup, Sleep, Suspend, Exit, WaitEvents, Timer, Notify, Capture, UnwaitAll, FindThread,
        FindAlive, Fill;
    Basics(s);
    match op
    case OpWakeup(_, _, _) => ByIdKeeps(s, op, w, e);
    case OpSleep(_, _, _) => ByIdKeeps(s, op, w, e);
    case OpSuspend(_, _, _, _) => ByIdKeeps(s, op, w, e);
    case OpExit(_, _, _) => ByIdKeeps(s, op, w, e);
    case OpWaitThread(_, _, _) => ByIdKeeps(s, op, w, e);
    case OpSleepThis(c) => CurrentIsAlive(s, c); SleepKeeps(s, c, Current(s, c), {}, w, e);
    case OpSuspendThis(c, ms) => SuspendKeeps(s, c, Current(s, c), MsToTick(ms), w, e);
    case OpExitThis(c) => CurrentIsAlive(s, c); ExitWakes(s, c, Current(s, c), w, e);
    case OpWaitProcess(c, pid) =>
      if HasProcess(s, pid) && !AllEmpty(s.processes[pid].value) { WaitEventsKeeps(s, c, [THREAD_JOINED], w, e); }
    case OpCreateEvent => if WaitsFor(s, w, e) { FillKeeps(s.events, [], e); }
    case OpWaitEvents(c, es) => WaitEventsKeeps(s, c, es, w, e);
    case OpUnwaitEvents(c, es) => UnwaitAllKeeps(s, es, Current(s, c), w, e);
    case OpNotify(c, e') => NotifyKeeps(s, c, e', w, e);
    case OpTimer(c, first, acquired, message, passes) => TimerKeeps(s, c, first, acquired, message, passes, w, e);
    case OpPostMessage(c, acquired) => WakeupKeeps(s, c, s.eventProcessor, w, e);
    case OpCapture(c, pid, main, idle) => CaptureKeeps(s, c, pid, main, idle, w, e);
    case _ =>
  }

  // -------------------------------------------------------------------- runs

  /** No operation of the run is about `w` itself. */
  ghost predicate LeftAlone(s: State, ops: seq<Op>, w: Ptr)
    requires Inv(s) && Admissible(s, ops)
    decreases |ops|
  {
    ops == [] || (!Touches(s, ops[0], w) && (StepOk(s, ops[0]); LeftAlone(Step(s, ops[0]).0, ops[1..], w)))
  }

  /** Some operation of the run notifies `e`. */
  ghost predicate GetsNotified(s: State, ops: seq<Op>, e: nat)
    requires Inv(s) && Admissible(s, ops)
    decreases |ops|
  {
    ops != [] && (Notifies(s, ops[0], e) || (StepOk(s, ops[0]); GetsNotified(Step(s, ops[0]).0, ops[1..], e)))
  }

  lemma {:induction false} NoWakeupIsLost(s: State, ops: seq<Op>, w: Ptr, e: nat)
    requires Inv(s) && Admissible(s, ops) && LeftAlone(s, ops, w) && Alive(s, w) && (WaitsFor(s, w, e) || Awake(s, w))
    ensures var r := Run(s, ops);
            && Alive(r, w) && (WaitsFor(r, w, e) || Awake(r, w))
            && (Awake(s, w) || GetsNotified(s, ops, e) ==> Awake(r, w))
    decreases |ops|
  {
    hide Inv, Step, Enabled, Touches, Notifies;
    if ops != [] {
      StepOk(s, ops[0]);
      StepKeeps(s, ops[0], w, e);
      NoWakeupIsLost(Step(s, ops[0]).0, ops[1..], w, e);
    }
  }

  /**
   No wakeup is lost: a thread that waits for events, over any later run of others,
   is awake if one of those events was notified, and else still waits for them all.
   */
  lemma WaiterIsWoken(s: State, c: nat, es: seq<nat>, ops: seq<Op>, e: nat)
    requires Inv(s) && Blocking(s, c) && WaitEvents(s, c, es).1 == Success && e in es
    requires var r := WaitEvents(s, c, es).0; Inv(r) && Admissible(r, ops) && LeftAlone(r, ops, Current(s, c))
    ensures var r, w := WaitEvents(s, c, es).0, Current(s, c);
            && Asleep(r, w) && Alive(Run(r, ops), w) && (WaitsFor(Run(r, ops), w, e) || Awake(Run(r, ops), w))
            && (GetsNotified(r, ops, e) ==> Awake(Run(r, ops), w))
  {
    hide Inv, WaitEvents, Run, LeftAlone, GetsNotified, Admissible;
    WaitSleeps(s, c, es);
    NoWakeupIsLost(WaitEvents(s, c, es).0, ops, Current(s, c), e);
  }

  /** Only an exit ends a thread, and every exit notifies. */
  lemma EndNotifies(s: State, op: Op, p: Ptr)
    requires Inv(s) && Enabled(s, op) && Alive(s, p)
    ensures Alive(Step(s, op).0, p) || Notifies(s, op, THREAD_JOINED)
  {
    if !Touches(s, op, p) {
      hide Inv, Step, Enabled, Touches;
      StepKeeps(s, op, p, THREAD_JOINED);
    } else {
      OwnStep(s, op, p);
    }
  }

  lemma OwnStep(s: State, op: Op, p: Ptr)
    requires Inv(s) && Enabled(s, op) && Alive(s, p) && Touches(s, op, p)
    ensures Alive(Step(s, op).0, p) || Notifies(s, op, THREAD_JOINED)
  {
    hide Core, Lists, Sleep, Exit, WaitEvents, UnwaitAll, FindThread, FindAlive;
    Basics(s);
    match op
    case OpSleep(c, pid, tid) => SleepSleeps(s, c, p, {});
    case OpSleepThis(c) => CurrentIsAlive(s, c); SleepSleeps(s, c, p, {});
    case OpWaitThread(c, pid, tid) =>
      FoundIsThread(s, pid, tid);
      var f := FindThread(s, pid, tid);
      if f.Found? && s.threads[f.p].zombie { FreeThreadOk(s, f.p); }
      WaitKeepsAlive(s, c, [THREAD_JOINED], p);
    case OpWaitProcess(c, pid) => WaitKeepsAlive(s, c, [THREAD_JOINED], p);
    case OpWaitEvents(c, es) => WaitKeepsAlive(s, c, es, p);
    case OpUnwaitEvents(c, es) => UnwaitKeepsAlive(s, es, p);
    case _ =>
  }

  lemma WaitKeepsAlive(s: State, c: nat, es: seq<nat>, p: Ptr)
    requires Inv(s) && Blocking(s, c) && p == Current(s, c)
    ensures Alive(WaitEvents(s, c, es).0, p)
  {
    hide Core, Lists, Sleep;
    CurrentIsAlive(s, c);
    PushWaitersExactly(s, es, p);
    PushWaitersOk(s, es, p);
    var (s1, code) := PushWaiters(s, es, p);
    if code == Success { SleepSleeps(s1, c, p, {}); }
  }

  lemma {:induction false} UnwaitKeepsAlive(s: State, es: seq<nat>, p: Ptr)
    requires Alive(s, p)
    ensures Alive(UnwaitAll(s, es, p).0, p)
    decreases |es|
  {
    if es != [] && HasEvent(s, es[0]) { UnwaitKeepsAlive(Unwait(s, es[0], p), es[1..], p); }
  }

  lemma {:induction false} EndWasNotified(s: State, ops: seq<Op>, p: Ptr)
    requires Inv(s) && Admissible(s, ops) && Alive(s, p) && !Alive(Run(s, ops), p)
    ensures GetsNotified(s, ops, THREAD_JOINED)
    decreases |ops|
  {
    hide Inv, Step, Enabled, Notifies, Alive;
    StepOk(s, ops[0]);
    EndNotifies(s, ops[0], p);
    if Alive(Step(s, ops[0]).0, p) {
      EndWasNotified(Step(s, ops[0]).0, ops[1..], p);
    }
  }

  /**
   wait_thread: the caller sleeps, and in every later state in which the thread it
   waits for has ended it is awake, unless somebody else meddled with it.
   */
  lemma JoinerIsWoken(s: State, c: nat, pid: nat, tid: nat, p: Ptr, ops: seq<Op>)
    requires Inv(s) && Blocking(s, c) && HasEvent(s, THREAD_JOINED)
    requires FindAlive(s, pid, tid) == Found(p) && p != Current(s, c)
    requires var r := Step(s, OpWaitThread(c, pid, tid)).0;
             Inv(r) && Admissible(r, ops) && LeftAlone(r, ops, Current(s, c))
    ensures Asleep(Step(s, OpWaitThread(c, pid, tid)).0, Current(s, c))
    ensures var e := Run(Step(s, OpWaitThread(c, pid, tid)).0, ops); !Alive(e, p) ==> Awake(e, Current(s, c))
  {
    hide Core, Lists, WaitEvents, Run, LeftAlone, GetsNotified, Admissible;
    FoundIsThread(s, pid, tid);
    var r, w := Step(s, OpWaitThread(c, pid, tid)).0, Current(s, c);
    assert r == WaitEvents(s, c, [THREAD_JOINED]).0;
    WaitSleeps(s, c, [THREAD_JOINED]);
    CurrentIsAlive(s, c);
    StepKeeps(s, OpWaitThread(c, pid, tid), p, THREAD_JOINED);
    WaiterIsWoken(s, c, [THREAD_JOINED], ops, THREAD_JOINED);
    if !Alive(Run(r, ops), p) { EndWasNotified(r, ops, p); }
  }

  // ---------------------------------------------- a thread's life, from end to end

  /** create_thread: a sleeping thread, found under the first free number of its process; nothing else changes. */
  lemma CreateMakes(s: State, pid: nat, entry: Entry, p: Ptr)
    requires Inv(s) && Enabled(s, OpCreateThread(pid, entry, p)) && HasProcess(s, pid)
    ensures var (r, code) := Step(s, OpCreateThread(pid, entry, p));
            var tid := FirstEmpty(s.processes[pid].value);
            && code == Success && FindThread(s, pid, tid) == Missing(NoSuchThread)
            && FindAlive(r, pid, tid) == Found(p) && Asleep(r, p) && Alive(r, p) && r.threads[p].movable
            && (forall q | q in s.threads :: q in r.threads && r.threads[q] == s.threads[q])
            && (forall i: nat, t: nat | i != pid || t != tid :: FindThread(r, i, t) == FindThread(s, i, t))
            && r.locals == s.locals && r.events == s.events
  {
  }

  /** wakeup_thread: whoever slept is at the back of the calling processor's queue of its level. */
  lemma WakeupStarts(s: State, c: nat, pid: nat, tid: nat)
    requires Inv(s) && c < |s.locals| && FindAlive(s, pid, tid).Found?
    ensures var p, (r, code) := FindAlive(s, pid, tid).p, Step(s, OpWakeup(c, pid, tid));
            && code == Success && Alive(s, p) && Awake(r, p) && (Awake(s, p) ==> r == s)
            && (Asleep(s, p) ==> r.threads[p].runningOn == On(c) &&
                                 var n := Level(s.threads[p].nice);
                                 r.locals[c].queue[n] == s.locals[c].queue[n] + [p])
  {
    FoundIsThread(s, pid, tid);
  }

  /** A message for the kernel's own thread wakes it, from wherever it is posted. */
  lemma MessageWakes(s: State, c: nat)
    requires Inv(s) && Enabled(s, OpPostMessage(c, true))
    ensures Awake(Step(s, OpPostMessage(c, true)).0, s.eventProcessor)
  {
  }

  /** exit: the thread is a zombie, asleep, and nothing refers to it any more. */
  lemma ExitEnds(s: State, c: nat, p: Ptr)
    requires Inv(s) && Captured(s, c) && Alive(s, p) && p != s.eventProcessor && !IsIdle(s, p) && OnlyHere(s, c, p)
    ensures var r := Exit(s, c, p);
            p in r.threads && r.threads[p].zombie && Asleep(r, p) && Unreferenced(r, p)
  {
    hide QueuesOk, CurrentOk, IdleOk, Lists, Notify, Sleep, Cancel, Unreferenced, Exit;
    ExitOk(s, c, p);
    ExitMarks(s, c, p);
    ZombieIsUnreferenced(Exit(s, c, p), p);
  }

  lemma ExitMarks(s: State, c: nat, p: Ptr)
    requires Inv(s) && Captured(s, c) && Alive(s, p) && p != s.eventProcessor && !IsIdle(s, p) && OnlyHere(s, c, p)
    ensures Exit(s, c, p).threads[p].zombie && Asleep(Exit(s, c, p), p)
  {
    hide QueuesOk, CurrentOk, IdleOk, Lists, Notify, Sleep, Cancel;
    CancelOk(s, p);
    var s1 := Cancel(MarkZombie(s, p), p);
    CancelFrame(s, p);
    NotifyOk(s1, c, THREAD_JOINED, {p});
    var s2 := Notify(s1, c, THREAD_JOINED).0;
    NotifyFrame(s1, c, THREAD_JOINED);
    NotifyKeepsZombie(s1, c, p);
    RunsSomewhere(s2, p);
    SleepSleeps(s2, c, p, {p});
  }

  lemma NotifyKeepsZombie(s: State, c: nat, p: Ptr)
    requires c < |s.locals| && p in s.threads && forall q | q in Waiters(s, THREAD_JOINED) :: q in s.threads
    ensures Notify(s, c, THREAD_JOINED).0.threads[p].zombie == s.threads[p].zombie
  {
    hide Sleepers, EraseAll;
    if HasEvent(s, THREAD_JOINED) { NotifyWakes(s, c, THREAD_JOINED); }
  }

  /** wait_thread on a zombie: the thread is gone and its number free again; every other thread is as before. */
  lemma JoinFrees(s: State, c: nat, pid: nat, tid: nat)
    requires Inv(s) && Blocking(s, c) && FindAlive(s, pid, tid) == Missing(DeadThread)
    ensures var p, (r, code) := FindThread(s, pid, tid).p, Step(s, OpWaitThread(c, pid, tid));
            && code == Success && p !in r.threads && FindThread(r, pid, tid) == Missing(NoSuchThread)
            && (forall q | q in s.threads && q != p :: q in r.threads && r.threads[q] == s.threads[q])
            && r.locals == s.locals && r.events == s.events
  {
    FoundIsThread(s, pid, tid);
    var p := FindThread(s, pid, tid).p;
    assert Slot(s, pid, tid, p);
    FreeThreadOk(s, p);
  }
}
