/** Bounded waiting: a runnable thread cannot be passed over for ever. */
module SchedulerFairness {
  import opened Collections
  import opened Scheduler
  import opened SchedulerInvariant
  import opened SchedulerSteps
  import opened SchedulerEvents
  import opened SchedulerMigration
  import opened SchedulerRuns

  /** The elements of `q` in front of `p`. */
  function Before(q: seq<Ptr>, p: Ptr): set<Ptr> {
    if q == [] || q[0] == p then {} else {q[0]} + Before(q[1..], p)
  }

  lemma {:induction false} BeforeAppend(q: seq<Ptr>, x: Ptr, p: Ptr)
    requires p in q
    ensures Before(q + [x], p) == Before(q, p)
  {
    if q[0] != p {
      assert (q + [x])[1..] == q[1..] + [x];
      BeforeAppend(q[1..], x, p);
    }
  }

  lemma {:induction false} BeforeErase(q: seq<Ptr>, x: Ptr, p: Ptr)
    requires x != p
    ensures Before(EraseAll(q, x), p) == Before(q, p) - {x}
  {
    if q != [] && q[0] != p {
      BeforeErase(q[1..], x, p);
    }
  }

  lemma {:induction false} BeforeIsIn(q: seq<Ptr>, p: Ptr)
    ensures forall x | x in Before(q, p) :: x in q
  {
    if q != [] && q[0] != p {
      BeforeIsIn(q[1..], p);
    }
  }

  /** As many elements as the position says. */
  lemma {:induction false} BeforeSize(q: seq<Ptr>, k: nat)
    requires NoDuplicates(q) && k < |q|
    ensures |Before(q, q[k])| == k
  {
    if k > 0 {
      BeforeSize(q[1..], k - 1);
      BeforeIsIn(q[1..], q[k]);
      assert q[0] !in q[1..];
    }
  }

  /** If something in front of `p` is runnable, or `p` is, the first runnable thread is one of them. */
  lemma {:induction false} PickedInFront(s: State, q: seq<Ptr>, p: Ptr)
    requires p in q && Runnable(s, p)
    ensures var r := FirstRunnable(s, q); r.Some? && (r.value == p || r.value in Before(q, p))
  {
    if q[0] != p && !Runnable(s, q[0]) {
      PickedInFront(s, q[1..], p);
    }
  }

  // -------------------------------------------------------- threads in front

  ghost predicate Queued(s: State, c: nat, p: Ptr) {
    && c < |s.locals| && p in s.threads && s.threads[p].runningOn == On(c)
    && p in s.locals[c].queue[Level(s.threads[p].nice)]
  }

  ghost function Ahead(s: State, c: nat, p: Ptr): set<Ptr>
    requires c < |s.locals| && p in s.threads
  {
    Before(s.locals[c].queue[Level(s.threads[p].nice)], p)
  }

  /** `p` is in a run queue of processor `c`, which is running something else. */
  ghost predicate Waits(s: State, c: nat, p: Ptr) {
    Queued(s, c, p) && s.locals[c].current.Some? && s.locals[c].current != Some(p)
  }

  /** `k` threads are in front of `p` in its run queue. */
  ghost predicate Position(s: State, c: nat, p: Ptr, k: nat) {
    && c < |s.locals| && p in s.threads
    && var q := s.locals[c].queue[Level(s.threads[p].nice)]; k < |q| && q[k] == p
  }

  /** No thread of a more urgent level of `c` than that of `p` is runnable. */
  ghost predicate Quiet(s: State, c: nat, p: Ptr) {
    p in s.threads &&
    forall q | q in s.threads && s.threads[q].runningOn == On(c) &&
        Level(s.threads[q].nice) < Level(s.threads[p].nice) ::
      !Runnable(s, q)
  }

  /** `p` is in its queue on `c`, not suspended, and nobody more urgent is runnable there. */
  ghost predicate Ready(s: State, c: nat, p: Ptr) {
    Queued(s, c, p) && Runnable(s, p) && Quiet(s, c, p)
  }

  /** Nobody got in front of `p`, and the processor runs what it ran. */
  ghost predicate Calm(s: State, r: State, c: nat, p: Ptr) {
    && Queued(s, c, p) && Queued(r, c, p)
    && r.threads[p].nice == s.threads[p].nice
    && r.locals[c].current == s.locals[c].current
    && Ahead(r, c, p) <= Ahead(s, c, p)
  }

  lemma WakeupCalm(s: State, c': nat, x: Ptr, c: nat, p: Ptr)
    requires Queued(s, c, p) && c' < |s.locals| && x in s.threads
    ensures Calm(s, Wakeup(s, c', x), c, p)
  {
    if s.threads[x].runningOn.Nowhere? {
      BeforeAppend(s.locals[c].queue[Level(s.threads[p].nice)], x, p);
    }
  }

  lemma EraseCalm(s: State, c': nat, x: Ptr, c: nat, p: Ptr)
    requires Queued(s, c, p) && c' < |s.locals| && x in s.threads && x != p
    ensures Calm(s, Erase(s, c', x), c, p)
  {
    BeforeErase(s.locals[c].queue[Level(s.threads[p].nice)], x, p);
  }

  lemma PushCalm(s: State, c': nat, x: Ptr, c: nat, p: Ptr)
    requires Queued(s, c, p) && c' < |s.locals| && x in s.threads
    ensures Calm(s, Push(s, c', x), c, p)
  {
    BeforeAppend(s.locals[c].queue[Level(s.threads[p].nice)], x, p);
  }

  lemma {:induction false} WakeupEachCalm(s: State, c': nat, e: nat, ps: seq<Ptr>, c: nat, p: Ptr)
    requires Queued(s, c, p) && c' < |s.locals| && forall x | x in ps :: x in s.threads
    ensures Calm(s, WakeupEach(s, c', e, ps), c, p)
    decreases |ps|
  {
    if ps != [] {
      var t := s.threads[ps[0]];
      var s1 := SetThread(s, ps[0], t.(events := EraseAll(t.events, e)));
      var s2 := Wakeup(s1, c', ps[0]);
      assert Calm(s, s1, c, p);
      WakeupCalm(s1, c', ps[0], c, p);
      assert forall x | x in ps[1..] :: x in ps;
      WakeupEachCalm(s2, c', e, ps[1..], c, p);
    }
  }

  lemma NotifyCalm(s: State, c': nat, e: nat, c: nat, p: Ptr)
    requires Queued(s, c, p) && c' < |s.locals| && forall x | x in Waiters(s, e) :: x in s.threads
    ensures Calm(s, Notify(s, c', e).0, c, p)
  {
    if HasEvent(s, e) {
      var s1 := s.(events := s.events[e := Some([])]);
      assert Calm(s, s1, c, p);
      WakeupEachCalm(s1, c', e, s.events[e].value, c, p);
    }
  }

  // --------------------------------------------------------------- switching

  /** A step either leaves the processor alone, picks `p`, or uses up a thread that was in front. */
  ghost predicate Progress(s: State, r: State, c: nat, p: Ptr) {
    && Waits(s, c, p) && Queued(r, c, p) && r.locals[c].current.Some?
    && (|| Calm(s, r, c, p)
        || r.locals[c].current == Some(p)
        || (Ahead(r, c, p) <= Ahead(s, c, p) - {s.locals[c].current.value} &&
            r.locals[c].current.value in Ahead(r, c, p)))
  }

  /** Processor `c` has gone on to another thread. */
  ghost predicate Changes(s: State, r: State, c: nat) {
    c < |s.locals| && c < |r.locals| && r.locals[c].current != s.locals[c].current
  }

  lemma RequeueAhead(s: State, s1: State, c: nat, p: Ptr)
    requires Core(s) && Outgoing(s, s1, c) && Waits(s, c, p)
    ensures Queued(Requeue(s1, c), c, p)
    ensures Ahead(Requeue(s1, c), c, p) == Ahead(s, c, p) - {Current(s, c)}
    ensures Requeue(s1, c).threads[p] == s.threads[p]
  {
    var x := Current(s, c);
    var q := s.locals[c].queue[Level(s.threads[p].nice)];
    BeforeErase(q, x, p);
    BeforeAppend(EraseAll(q, x), x, p);
    if Level(s.threads[x].nice) != Level(s.threads[p].nice) {
      NotInOtherLevel(s, c, x, p);
    }
  }

  lemma NotInOtherLevel(s: State, c: nat, x: Ptr, p: Ptr)
    requires Core(s) && Captured(s, c) && x == Current(s, c) && Queued(s, c, p)
    requires Level(s.threads[x].nice) != Level(s.threads[p].nice)
    ensures x !in Ahead(s, c, p)
  {
    var n := Level(s.threads[p].nice);
    BeforeIsIn(s.locals[c].queue[n], p);
    assert !Placed(s, x, c, n);
  }

  lemma {:induction false} PickFromLevel(s: State, c: nat, n: nat, k: nat)
    requires c < |s.locals| && k <= n < 5
    requires forall i, q | k <= i < n && q in s.locals[c].queue[i] :: !Runnable(s, q)
    requires FirstRunnable(s, s.locals[c].queue[n]).Some?
    ensures PickFrom(s, c, k) == FirstRunnable(s, s.locals[c].queue[n])
    decreases n - k
  {
    if k < n {
      PickFromLevel(s, c, n, k + 1);
    }
  }

  /**
   One switch of `p`'s processor picks `p`, or uses up a thread in front of it,
   or picks a thread of a more urgent level.
   */
  lemma SwitchProgress(s: State, s1: State, c: nat, p: Ptr)
    requires Core(s) && Outgoing(s, s1, c) && Waits(s, c, p)
    requires Runnable(Switch(s1, c), p) && Quiet(Switch(s1, c), c, p)
    ensures Progress(s, Switch(s1, c), c, p)
    ensures Switch(s1, c).locals[c].current != s.locals[c].current
  {
    var q := Requeue(s1, c);
    RequeueOk(s, s1, c);
    RequeueAhead(s, s1, c, p);
    var x := SwitchPicks(s, s1, c);
    var r := Switch(s1, c);
    var n := Level(s.threads[p].nice);
    PickedIsLessUrgent(q, c, x, n, r, p);
    if x != p {
      PickedAtLevel(q, c, x, n, p);
    }
    DispatchAhead(q, c, x, p);
  }

  lemma DispatchAhead(q: State, c: nat, x: Ptr, p: Ptr)
    requires Queued(q, c, p) && x in q.threads
    ensures Queued(Dispatch(q, c, x), c, p) && Ahead(Dispatch(q, c, x), c, p) == Ahead(q, c, p)
    ensures Dispatch(q, c, x).locals[c].current == Some(x)
  {
  }

  /** The picked thread is not above level `n`, since it is runnable afterwards. */
  lemma PickedIsLessUrgent(q: State, c: nat, x: Ptr, n: nat, r: State, p: Ptr)
    requires x in q.threads && q.threads[x].runningOn == On(c) && c < |q.locals| && r == Dispatch(q, c, x)
    requires p in q.threads && n == Level(q.threads[p].nice) && Quiet(r, c, p)
    ensures n <= Level(q.threads[x].nice)
  {
    assert Runnable(r, x);
  }

  lemma PickedAtLevel(q: State, c: nat, x: Ptr, n: nat, p: Ptr)
    requires QueuesOk(q) && c < |q.locals| && n < 5 && PickFrom(q, c, 0) == Some(x) && x in q.threads
    requires Queued(q, c, p) && n == Level(q.threads[p].nice) <= Level(q.threads[x].nice) && Runnable(q, p)
    ensures x == p || x in Ahead(q, c, p)
  {
    PickedInFront(q, q.locals[c].queue[n], p);
    PickedNotAbove(q, c, x, n, 0);
    PickFromLevel(q, c, n, 0);
  }

  lemma {:induction false} PickedNotAbove(q: State, c: nat, x: Ptr, n: nat, k: nat)
    requires QueuesOk(q) && c < |q.locals| && k <= n < 5 && PickFrom(q, c, k) == Some(x)
    requires x in q.threads && n <= Level(q.threads[x].nice)
    ensures forall i, y | k <= i < n && y in q.locals[c].queue[i] :: !Runnable(q, y)
    decreases n - k
  {
    if k < n {
      assert !Placed(q, x, c, k);
      PickedNotAbove(q, c, x, n, k + 1);
    }
  }

  // -------------------------------------------------------- every operation

  lemma ElsewhereCalm(s: State, s1: State, c': nat, c: nat, p: Ptr)
    requires Core(s) && Outgoing(s, s1, c') && Queued(s, c, p) && c' != c
    ensures Calm(s, Switch(s1, c'), c, p)
  {
    RequeueOk(s, s1, c');
    var x := SwitchPicks(s, s1, c');
    var q := Requeue(s1, c');
    assert q.locals[c] == s.locals[c];
    assert x != p;
  }

  /** Calm until `s'`, then one switch of processor `c'`. */
  lemma ThenSwitch(s: State, s': State, s1: State, c': nat, c: nat, p: Ptr)
    requires Waits(s, c, p) && Calm(s, s', c, p) && Core(s') && Outgoing(s', s1, c')
    requires Runnable(Switch(s1, c'), p) && Quiet(Switch(s1, c'), c, p)
    ensures Progress(s, Switch(s1, c'), c, p)
    ensures c' == c ==> Changes(s, Switch(s1, c'), c)
  {
    hide Core;
    if c' == c {
      SwitchProgress(s', s1, c, p);
    } else {
      ElsewhereCalm(s', s1, c', c, p);
    }
  }

  lemma ThenSleep(s: State, s': State, c': nat, x: Ptr, c: nat, p: Ptr)
    requires Waits(s, c, p) && Calm(s, s', c, p) && Core(s') && Captured(s', c') && x in s'.threads && !IsIdle(s', x)
    requires s'.threads[x].runningOn.On? ==> s'.threads[x].runningOn.cpu < |s'.locals|
    requires var r := Sleep(s', c', x); Ready(r, c, p)
    ensures Progress(s, Sleep(s', c', x), c, p)
    ensures c' == c && x == Current(s', c') && s'.threads[x].runningOn.On? ==> Changes(s, Sleep(s', c', x), c)
  {
    hide Core;
    if s'.threads[x].runningOn.On? {
      var s1 := SetThread(s', x, s'.threads[x].(runningOn := Nowhere));
      if x == Current(s', c') {
        ThenSwitch(s, s', s1, c', c, p);
      } else {
        assert x != p;
        assert Calm(s', s1, c, p);
        EraseCalm(s1, s'.threads[x].runningOn.cpu, x, c, p);
      }
    }
  }

  /** Nothing about the processors or about `p` changed. */
  lemma SameLocalsCalm(s: State, r: State, c: nat, p: Ptr)
    requires Queued(s, c, p) && |s.locals| <= |r.locals| && r.locals[c] == s.locals[c] && p in r.threads
    requires r.threads[p].runningOn == s.threads[p].runningOn && r.threads[p].nice == s.threads[p].nice
    ensures Calm(s, r, c, p)
  {
  }

  lemma {:induction false} PushWaitersFrame(s: State, es: seq<nat>, x: Ptr)
    requires x in s.threads
    ensures var r := PushWaiters(s, es, x).0;
            && r.threads.Keys == s.threads.Keys && r.tick == s.tick
            && forall p | p in s.threads :: r.threads[p] == s.threads[p].(events := r.threads[p].events)
    decreases |es|
  {
    if es != [] && HasEvent(s, es[0]) {
      PushWaitersFrame(PushWaiter(s, es[0], x), es[1..], x);
    }
  }

  lemma {:induction false} UnwaitAllFrame(s: State, es: seq<nat>, x: Ptr)
    requires x in s.threads
    ensures var r := UnwaitAll(s, es, x).0;
            && r.threads.Keys == s.threads.Keys && r.tick == s.tick && r.locals == s.locals
            && forall p | p in s.threads :: r.threads[p] == s.threads[p].(events := r.threads[p].events)
    decreases |es|
  {
    if es != [] && HasEvent(s, es[0]) {
      UnwaitAllFrame(Unwait(s, es[0], x), es[1..], x);
    }
  }

  lemma WaitEventsProgress(s: State, c': nat, es: seq<nat>, c: nat, p: Ptr)
    requires Inv(s) && Blocking(s, c') && Waits(s, c, p)
    requires var r := WaitEvents(s, c', es).0; Ready(r, c, p)
    ensures Progress(s, WaitEvents(s, c', es).0, c, p)
    ensures c' == c && WaitEvents(s, c', es).1 == Success ==> Changes(s, WaitEvents(s, c', es).0, c)
  {
    CurrentIsAlive(s, c');
    var x := Current(s, c');
    PushWaitersOk(s, es, x);
    PushWaitersFrame(s, es, x);
    var s1 := PushWaiters(s, es, x).0;
    SameLocalsCalm(s, s1, c, p);
    hide Core, Lists;
    Basics(s1);
    if PushWaiters(s, es, x).1 == Success {
      ThenSleep(s, s1, c', x, c, p);
    }
  }

  lemma ExitProgress(s: State, c': nat, x: Ptr, c: nat, p: Ptr)
    requires Inv(s) && Captured(s, c') && Alive(s, x) && x != s.eventProcessor && !IsIdle(s, x) && Waits(s, c, p)
    requires var r := Exit(s, c', x); Ready(r, c, p)
    ensures Progress(s, Exit(s, c', x), c, p)
    ensures c' == c && x == Current(s, c') ==> Changes(s, Exit(s, c', x), c)
  {
    CancelOk(s, x);
    var s1 := Cancel(MarkZombie(s, x), x);
    NotifyOk(s1, c', THREAD_JOINED, {x});
    var s2 := Notify(s1, c', THREAD_JOINED).0;
    NotifyFrame(s1, c', THREAD_JOINED);
    RunningInRange(s2, x);
    hide Core, Lists;
    SameLocalsCalm(s, s1, c, p);
    NotifyCalm(s1, c', THREAD_JOINED, c, p);
    ThenSleep(s, s2, c', x, c, p);
  }

  lemma SuspendProgress(s: State, c': nat, x: Ptr, ticks: nat, c: nat, p: Ptr)
    requires Inv(s) && Captured(s, c') && x in s.threads && !IsIdle(s, x) && Waits(s, c, p)
    requires var r := Suspend(s, c', x, ticks); Ready(r, c, p)
    ensures Progress(s, Suspend(s, c', x, ticks), c, p)
    ensures c' == c && x == Current(s, c') && ticks > 0 ==> Changes(s, Suspend(s, c', x, ticks), c)
  {
    hide Core, Lists;
    if ticks > 0 {
      var from := if s.tick == 0 then 1 else s.tick;
      var length := if s.tick == 0 then ticks - 1 else ticks;
      var s1 := SetThread(s, x, s.threads[x].(suspendFrom := from, suspendFor := length));
      EditThread(s, x, s1.threads[x], {});
      if x == Current(s, c') {
        OnlyCurrentHere(s, c', c, p);
        ThenSwitch(s, s1, s1, c', c, p);
      }
    }
  }

  lemma OnlyCurrentHere(s: State, c': nat, c: nat, p: Ptr)
    requires Inv(s) && Captured(s, c') && Waits(s, c, p)
    ensures Current(s, c') != p
  {
  }

  // -------------------------------------------------------------- migration

  /** The pass takes `p` out of its queue at processor `i` or further on. */
  ghost predicate PassTakes(m: Migration, i: nat, total: nat, p: Ptr)
    requires Shape(m) && i <= |m.nums|
    decreases |m.nums| - i
  {
    i < |m.nums| &&
    (|| (Takes(m, i, p) && m.nums[i] >= Threshold(total, |m.nums|, i))
     || PassTakes(Visit(m, i, Threshold(total, |m.nums|, i)), i + 1, total, p))
  }

  ghost predicate PassesTake(m: Migration, total: nat, fuel: nat, p: Ptr)
    requires Shape(m)
    decreases fuel
  {
    fuel > 0 &&
    (|| PassTakes(m.(exit := true), 0, total, p)
     || (var m1 := PassFrom(m.(exit := true), 0, total); !m1.exit && PassesTake(m1, total, fuel - 1, p)))
  }

  /** migrate_threads takes `p` out of its queue at some point. */
  ghost predicate MigrationTakes(s: State, fuel: nat, p: Ptr) {
    PassesTake(Start(s), Sum(Loads(s)), fuel, p)
  }

  /** The thread in the loop's hand is in no queue. */
  lemma HandIsNotQueued(m: Migration, c: nat, p: Ptr)
    requires Shape(m) && Inv(Parked(m)) && Queued(m.s, c, p)
    ensures m.hand != Some(p)
  {
    assert Placed(Parked(m), p, c, Level(m.s.threads[p].nice));
  }

  lemma VisitCalm(s: State, m: Migration, i: nat, total: nat, c: nat, p: Ptr)
    requires Migrating(s, m, total) && i < |m.nums| && Queued(m.s, c, p)
    requires !(Takes(m, i, p) && m.nums[i] >= Threshold(total, |m.nums|, i))
    ensures Calm(m.s, Visit(m, i, Threshold(total, |m.nums|, i)).s, c, p)
  {
    hide Inv, OnlyMoved, PinnedStay, Counted, Bounded;
    var t := Threshold(total, |m.nums|, i);
    HandIsNotQueued(m, c, p);
    if m.hand.Some? {
      if m.nums[i] < t {
        var x := m.hand.value;
        var s1 := SetThread(m.s, x, m.s.threads[x].(runningOn := On(i)));
        SameLocalsCalm(m.s, s1, c, p);
        PushCalm(s1, i, x, c, p);
      }
    } else if m.nums[i] >= t && TakeBelow(m.s, i, 5).Some? {
      EraseCalm(m.s, i, TakeBelow(m.s, i, 5).value, c, p);
    }
  }

  lemma {:induction false} PassCalm(s: State, m: Migration, i: nat, total: nat, c: nat, p: Ptr)
    requires Inv(s) && Migrating(s, m, total) && i <= |m.nums| && Queued(m.s, c, p) && !PassTakes(m, i, total, p)
    ensures Calm(m.s, PassFrom(m, i, total).s, c, p)
    decreases |m.nums| - i
  {
    hide Inv, Migrating, Visit, Threshold;
    ShapeOf(s, m, total);
    if i < |m.nums| {
      var v := Visit(m, i, Threshold(total, |m.nums|, i));
      VisitKeeps(s, m, i, total);
      VisitCalm(s, m, i, total, c, p);
      PassCalm(s, v, i + 1, total, c, p);
    }
  }

  lemma {:induction false} PassesCalm(s: State, m: Migration, total: nat, fuel: nat, c: nat, p: Ptr)
    requires Inv(s) && Migrating(s, m, total) && Queued(m.s, c, p) && !PassesTake(m, total, fuel, p)
    requires Passes(m, total, fuel).Some?
    ensures Calm(m.s, Passes(m, total, fuel).value.s, c, p)
    decreases fuel
  {
    var m0 := m.(exit := true);
    hide Inv, Migrating, PassFrom, PassTakes;
    ShapeOf(s, m, total);
    ExitFlag(s, m, total);
    PassKeeps(s, m0, 0, total);
    PassCalm(s, m0, 0, total, c, p);
    var m1 := PassFrom(m0, 0, total);
    if !m1.exit {
      PassesCalm(s, m1, total, fuel - 1, c, p);
    }
  }

  /** Migration lets nobody in front of a thread it does not take. */
  lemma MigrationCalm(s: State, fuel: nat, c: nat, p: Ptr)
    requires Inv(s) && Queued(s, c, p) && !MigrationTakes(s, fuel, p) && Migrate(s, fuel).Some?
    ensures Calm(s, Migrated(s, fuel), c, p)
  {
    hide Inv, PassesTake;
    StartOk(s);
    PassesCalm(s, Start(s), Sum(Loads(s)), fuel, c, p);
  }

  lemma {:induction false} PassSparesPinned(s: State, m: Migration, i: nat, total: nat, p: Ptr)
    requires Inv(s) && Migrating(s, m, total) && i <= |m.nums| && p in s.threads && !s.threads[p].movable
    ensures !PassTakes(m, i, total, p)
    decreases |m.nums| - i
  {
    hide Inv, Visit, Threshold;
    if i < |m.nums| {
      VisitKeeps(s, m, i, total);
      PassSparesPinned(s, Visit(m, i, Threshold(total, |m.nums|, i)), i + 1, total, p);
    }
  }

  lemma {:induction false} PassesSparePinned(s: State, m: Migration, total: nat, fuel: nat, p: Ptr)
    requires Inv(s) && Migrating(s, m, total) && p in s.threads && !s.threads[p].movable
    ensures !PassesTake(m, total, fuel, p)
    decreases fuel
  {
    var m0 := m.(exit := true);
    hide Inv, Migrating, PassFrom, PassTakes;
    ShapeOf(s, m, total);
    ExitFlag(s, m, total);
    PassKeeps(s, m0, 0, total);
    PassSparesPinned(s, m0, 0, total, p);
    if fuel > 0 {
      PassesSparePinned(s, PassFrom(m0, 0, total), total, fuel - 1, p);
    }
  }

  /** A thread that is not movable is never taken. */
  lemma PinnedIsNotTaken(s: State, fuel: nat, p: Ptr)
    requires Inv(s) && p in s.threads && !s.threads[p].movable && |s.locals| > 0
    ensures !MigrationTakes(s, fuel, p)
  {
    hide Inv, PassesTake;
    StartOk(s);
    PassesSparePinned(s, Start(s), Sum(Loads(s)), fuel, p);
  }

  lemma TimerProgress(s: State, c': nat, first: bool, acquired: bool, message: bool, passes: nat, c: nat, p: Ptr)
    requires Inv(s) && Captured(s, c') && Waits(s, c, p) && s.eventProcessor in s.threads
    requires acquired && MigrationDue(s, first) ==> Migrate(Ticked(s, c', first, message), passes).Some?
    requires acquired && MigrationDue(s, first) ==> !MigrationTakes(Ticked(s, c', first, message), passes, p)
    requires var r := Timer(s, c', first, acquired, message, passes); Ready(r, c, p)
    ensures Progress(s, Timer(s, c', first, acquired, message, passes), c, p)
    ensures c' == c && !(first && !acquired) ==> Changes(s, Timer(s, c', first, acquired, message, passes), c)
  {
    hide Core, Lists, Migrate, MigrationTakes;
    if first && !acquired {
      SameLocalsCalm(s, s.(tick := s.tick + 1), c, p);
    } else {
      TimerCaptured(s, c', first, message, passes);
      TickedOk(s, c', first, message);
      var s1 := Ticked(s, c', first, message);
      TickedCalm(s, c', first, message, c, p);
      if MigrationDue(s, first) {
        MigrationCalm(s1, passes, c, p);
        ThenSwitch(s, Migrated(s1, passes), Migrated(s1, passes), c', c, p);
      } else {
        ThenSwitch(s, s1, s1, c', c, p);
      }
    }
  }

  lemma TickedCalm(s: State, c': nat, first: bool, message: bool, c: nat, p: Ptr)
    requires Queued(s, c, p) && c' < |s.locals| && s.eventProcessor in s.threads
    ensures Calm(s, Ticked(s, c', first, message), c, p)
  {
    var s1 := if first then s.(tick := s.tick + 1) else s;
    SameLocalsCalm(s, s1, c, p);
    WakeupCalm(s1, c', s.eventProcessor, c, p);
  }

  /** The step is no migration that takes `p`, to put it behind the threads of some processor. */
  ghost predicate NotMigrated(s: State, op: Op, p: Ptr)
    requires Enabled(s, op)
  {
    op.OpTimer? && op.acquired && MigrationDue(s, op.first) ==>
      !MigrationTakes(Ticked(s, op.c, op.first, op.message), op.passes, p)
  }

  /**
   The operation makes processor `c` choose a thread anew: its timer fires
   and gets the lock, or its current thread sleeps, is suspended, ends or
   waits.
   */
  ghost predicate Switching(s: State, op: Op, c: nat)
    requires Inv(s) && Enabled(s, op)
  {
    match op
    case OpSleep(c', pid, tid) => c' == c && FindThread(s, pid, tid) == Found(Current(s, c))
    case OpSleepThis(c') => c' == c
    case OpSuspend(c', pid, tid, ms) => c' == c && FindAlive(s, pid, tid) == Found(Current(s, c)) && MsToTick(ms) > 0
    case OpSuspendThis(c', ms) => c' == c && MsToTick(ms) > 0
    case OpExit(c', pid, tid) => c' == c && FindAlive(s, pid, tid) == Found(Current(s, c))
    case OpExitThis(c') => c' == c
    case OpWaitThread(c', pid, tid) =>
      var f := FindThread(s, pid, tid);
      FoundIsThread(s, pid, tid);
      c' == c && f.Found? && !s.threads[f.p].zombie && Step(s, op).1 == Success
    case OpWaitProcess(c', pid) =>
      c' == c && HasProcess(s, pid) && !AllEmpty(s.processes[pid].value) && Step(s, op).1 == Success
    case OpWaitEvents(c', _) => c' == c && Step(s, op).1 == Success
    case OpTimer(c', first, acquired, _, _) => c' == c && !(first && !acquired)
    case _ => false
  }

  /** `p` waits, and after the step it is still ready and nobody more urgent is. */
  ghost predicate Watched(s: State, op: Op, c: nat, p: Ptr)
    requires Inv(s) && Enabled(s, op)
  {
    && Waits(s, c, p) && NotMigrated(s, op, p)
    && Ready(Step(s, op).0, c, p)
  }

  /** What one operation means for a waiting thread. */
  ghost predicate Advances(s: State, op: Op, c: nat, p: Ptr)
    requires Inv(s) && Enabled(s, op)
  {
    Progress(s, Step(s, op).0, c, p) && (Switching(s, op, c) ==> Changes(s, Step(s, op).0, c))
  }

  lemma ByIdAdvances(s: State, op: Op, c: nat, p: Ptr)
    requires Inv(s) && Enabled(s, op) && Watched(s, op, c, p)
    requires op.OpWakeup? || op.OpSleep? || op.OpSuspend? || op.OpExit?
    ensures Advances(s, op, c, p)
  {
    hide Core, Lists, Wakeup, Sleep, Suspend, Exit, FindThread, FindAlive, Quiet, Progress;
    Basics(s);
    FoundIsThread(s, op.pid, op.tid);
    var f, g := FindThread(s, op.pid, op.tid), FindAlive(s, op.pid, op.tid);
    CalmIsProgress(s, s, c, p);
    match op
    case OpWakeup(c', _, _) =>
      if g.Found? {
        WakeupCalm(s, c', g.p, c, p);
        CalmIsProgress(s, Wakeup(s, c', g.p), c, p);
      }
    case OpSleep(c', _, _) =>
      CurrentIsAlive(s, c');
      if f.Found? { ThenSleep(s, s, c', f.p, c, p); }
    case OpSuspend(c', _, _, ms) =>
      if g.Found? { SuspendProgress(s, c', g.p, MsToTick(ms), c, p); }
    case OpExit(c', _, _) =>
      if g.Found? { ExitProgress(s, c', g.p, c, p); }
  }

  lemma CalmIsProgress(s: State, r: State, c: nat, p: Ptr)
    requires Waits(s, c, p) && (Calm(s, r, c, p) || r == s)
    ensures Progress(s, r, c, p)
  {
  }

  lemma WaitingAdvances(s: State, op: Op, c: nat, p: Ptr)
    requires Inv(s) && Enabled(s, op) && Watched(s, op, c, p)
    requires op.OpWaitThread? || op.OpWaitProcess? || op.OpWaitEvents?
    ensures Advances(s, op, c, p)
  {
    hide Core, Lists, WaitEvents, FindThread;
    match op
    case OpWaitThread(c', pid, tid) =>
      FoundIsThread(s, pid, tid);
      var f := FindThread(s, pid, tid);
      if f.Found? && !s.threads[f.p].zombie {
        WaitEventsProgress(s, c', [THREAD_JOINED], c, p);
      }
    case OpWaitProcess(c', pid) =>
      if HasProcess(s, pid) && !AllEmpty(s.processes[pid].value) {
        WaitEventsProgress(s, c', [THREAD_JOINED], c, p);
      }
    case OpWaitEvents(c', es) => WaitEventsProgress(s, c', es, c, p);
  }

  /**
   No operation lets a thread in front of a waiting one, and every switch of its processor goes on
   to another thread.
   */
  lemma StepProgress(s: State, op: Op, c: nat, p: Ptr)
    requires Inv(s) && Enabled(s, op) && Watched(s, op, c, p)
    ensures Advances(s, op, c, p)
  {
    hide Core, Lists, Wakeup, Sleep, Suspend, Exit, WaitEvents, Timer, Notify, Capture, UnwaitAll, FindThread,
        FindAlive;
    Basics(s);
    match op
    case OpWakeup(_, _, _) => ByIdAdvances(s, op, c, p);
    case OpSleep(_, _, _) => ByIdAdvances(s, op, c, p);
    case OpSuspend(_, _, _, _) => ByIdAdvances(s, op, c, p);
    case OpExit(_, _, _) => ByIdAdvances(s, op, c, p);
    case OpSleepThis(c') => CurrentIsAlive(s, c'); ThenSleep(s, s, c', Current(s, c'), c, p);
    case OpSuspendThis(c', ms) => SuspendProgress(s, c', Current(s, c'), MsToTick(ms), c, p);
    case OpExitThis(c') => CurrentIsAlive(s, c'); ExitProgress(s, c', Current(s, c'), c, p);
    case OpWaitThread(_, _, _) => WaitingAdvances(s, op, c, p);
    case OpWaitProcess(_, _) => WaitingAdvances(s, op, c, p);
    case OpWaitEvents(_, _) => WaitingAdvances(s, op, c, p);
    case OpUnwaitEvents(c', es) =>
      UnwaitAllFrame(s, es, Current(s, c'));
      SameLocalsCalm(s, Step(s, op).0, c, p);
    case OpNotify(c', e) => NotifyCalm(s, c', e, c, p);
    case OpTimer(c', first, acquired, message, passes) =>
      TimerProgress(s, c', first, acquired, message, passes, c, p);
    case OpPostMessage(c', acquired) => WakeupCalm(s, c', s.eventProcessor, c, p);
    case OpCapture(c', pid, main, idle) => CaptureCalm(s, c', pid, main, idle, c, p);
    case _ => SameLocalsCalm(s, Step(s, op).0, c, p);
  }

  lemma CaptureCalm(s: State, c': nat, pid: nat, main: Ptr, idle: Ptr, c: nat, p: Ptr)
    requires Queued(s, c, p) && c' < |s.locals| && c' != c && HasProcess(s, pid)
    requires main != idle && main !in s.threads && idle !in s.threads
    ensures Calm(s, Capture(s, c', pid, main, idle), c, p)
  {
    var a := AddThread(s, pid, main, NoEntry, false);
    var s1 := Wakeup(a, c', main);
    var b := AddThread(s1, pid, idle, IdleMain, false);
    var s2 := Wakeup(b, c', idle);
    SameLocalsCalm(s, a, c, p);
    WakeupCalm(a, c', main, c, p);
    SameLocalsCalm(s1, b, c, p);
    WakeupCalm(b, c', idle, c, p);
    SameLocalsCalm(s2, SetCurrent(s2, c', main), c, p);
  }

  // ------------------------------------------------------------ the theorem

  /**
   Until processor `c` runs it, `p` stays ready there, no more urgent thread
   of `c` is runnable, and no migration takes it.
   */
  ghost predicate StaysReady(s: State, ops: seq<Op>, c: nat, p: Ptr)
    requires Inv(s) && Admissible(s, ops)
    decreases |ops|
  {
    Selected(s, c, p) ||
    (&& Waits(s, c, p)
     && (ops != [] ==>
           Watched(s, ops[0], c, p) && (StepOk(s, ops[0]); StaysReady(Step(s, ops[0]).0, ops[1..], c, p))))
  }

  predicate Selected(s: State, c: nat, p: Ptr) { c < |s.locals| && s.locals[c].current == Some(p) }

  /** Some state of the run has `p` running on `c`. */
  ghost predicate GetsSelected(s: State, ops: seq<Op>, c: nat, p: Ptr)
    requires Inv(s) && Admissible(s, ops)
    decreases |ops|
  {
    Selected(s, c, p) || (ops != [] && (StepOk(s, ops[0]); GetsSelected(Step(s, ops[0]).0, ops[1..], c, p)))
  }

  /** How often the run makes processor `c` choose a thread. */
  ghost function Switches(s: State, ops: seq<Op>, c: nat): nat
    requires Inv(s) && Admissible(s, ops)
    decreases |ops|
  {
    if ops == [] then 0
    else
      StepOk(s, ops[0]);
      (if Switching(s, ops[0], c) then 1 else 0) + Switches(Step(s, ops[0]).0, ops[1..], c)
  }

  /** The threads that may still run before `p`. */
  ghost function Patience(s: State, c: nat, p: Ptr): nat
    requires Waits(s, c, p)
  {
    |Ahead(s, c, p) - {s.locals[c].current.value}|
  }

  lemma StepPatience(s: State, r: State, c: nat, p: Ptr)
    requires Progress(s, r, c, p) && Waits(r, c, p)
    ensures Patience(r, c, p) + (if Changes(s, r, c) then 1 else 0) <= Patience(s, c, p)
  {
    var a := Ahead(s, c, p) - {s.locals[c].current.value};
    var b := Ahead(r, c, p) - {r.locals[c].current.value};
    if r.locals[c].current != s.locals[c].current {
      SubsetSize(b + {r.locals[c].current.value}, a);
    } else {
      SubsetSize(b, a);
    }
  }

  lemma {:induction false} WaitingIsBounded(s: State, ops: seq<Op>, c: nat, p: Ptr)
    requires Inv(s) && Admissible(s, ops) && Waits(s, c, p) && StaysReady(s, ops, c, p)
    ensures Switches(s, ops, c) > Patience(s, c, p) ==> GetsSelected(s, ops, c, p)
    decreases |ops|
  {
    hide Inv, Patience, Step, Switching, Watched, Waits, Enabled;
    if ops != [] {
      StepOk(s, ops[0]);
      WaitsIsNotSelected(s, c, p);
      var r := Step(s, ops[0]).0;
      StepProgress(s, ops[0], c, p);
      AfterStep(s, ops[0], c, p);
      if !Selected(r, c, p) {
        StepPatience(s, r, c, p);
        WaitingIsBounded(r, ops[1..], c, p);
      }
    }
  }

  lemma WaitsIsNotSelected(s: State, c: nat, p: Ptr)
    requires Waits(s, c, p)
    ensures !Selected(s, c, p)
  {
  }

  lemma AfterStep(s: State, op: Op, c: nat, p: Ptr)
    requires Inv(s) && Enabled(s, op) && Watched(s, op, c, p) && Advances(s, op, c, p)
    ensures Selected(Step(s, op).0, c, p) || Waits(Step(s, op).0, c, p)
  {
    hide Step, Inv, Enabled;
  }

  /**
   A ready thread with `k` threads in front of it in its queue is selected
   within k + 1 switches of its processor, over every run in which it stays
   ready until then and no more urgent thread of the processor is runnable.
   */
  lemma BoundedWaiting(s: State, ops: seq<Op>, c: nat, p: Ptr, k: nat)
    requires Inv(s) && Admissible(s, ops) && Waits(s, c, p) && StaysReady(s, ops, c, p)
    requires Position(s, c, p, k) && Switches(s, ops, c) >= k + 1
    ensures GetsSelected(s, ops, c, p)
  {
    WaitingIsBounded(s, ops, c, p);
    hide Switches, GetsSelected, Admissible, StaysReady;
    assert NoDuplicates(s.locals[c].queue[Level(s.threads[p].nice)]);
    BeforeSize(s.locals[c].queue[Level(s.threads[p].nice)], k);
    SubsetSize(Ahead(s, c, p) - {s.locals[c].current.value}, Ahead(s, c, p));
  }
}
