/** Each primitive of the scheduler keeps the invariant. */
module SchedulerSteps {
  import opened Collections
  import opened Scheduler
  import opened SchedulerInvariant

  // ------------------------------------------------------ what does not move

  /** Threads differ only in where they run, their level, their suspension and what they wait for. */
  ghost predicate SameIdentity(s: State, r: State) {
    && r.threads.Keys == s.threads.Keys
    && forall p | p in s.threads ::
         && r.threads[p].zombie == s.threads[p].zombie
         && r.threads[p].pid == s.threads[p].pid && r.threads[p].id == s.threads[p].id
         && r.threads[p].entry == s.threads[p].entry && r.threads[p].movable == s.threads[p].movable
  }

  ghost predicate SameWaits(s: State, r: State) {
    && r.events == s.events
    && forall p | p in s.threads && p in r.threads :: r.threads[p].events == s.threads[p].events
  }

  ghost predicate SameLists(s: State, r: State) {
    SameWaits(s, r) && r.processes == s.processes && r.eventProcessor == s.eventProcessor
  }

  lemma TableKept(s: State, r: State)
    requires TableOk(s) && SameIdentity(s, r) && r.processes == s.processes
    ensures TableOk(r)
  {
    assert forall pid, tid, q :: Slot(r, pid, tid, q) <==> Slot(s, pid, tid, q);
  }

  lemma EventsKept(s: State, r: State)
    requires EventsOk(s) && SameIdentity(s, r) && SameWaits(s, r)
    ensures EventsOk(r)
  {
    assert forall e: nat, q :: WaitsFor(r, q, e) == WaitsFor(s, q, e);
    assert forall q | Alive(r, q) :: Alive(s, q) && (Mirrored(s, q) ==> Mirrored(r, q));
  }

  /** Waiter lists and process tables depend on nothing a queue operation changes. */
  lemma ListsKept(s: State, r: State, exiting: set<Ptr>, exiting': set<Ptr>)
    requires Lists(s, exiting) && SameLists(s, r) && SameIdentity(s, r)
    requires forall p | p in s.threads && s.threads[p].zombie && p !in exiting' :: r.threads[p].runningOn.Nowhere?
    ensures Lists(r, exiting')
  {
    hide EventsOk, TableOk;
    EventsKept(s, r);
    TableKept(s, r);
  }

  lemma IdleKept(s: State, r: State)
    requires IdleOk(s) && SameIdentity(s, r) && |r.locals| == |s.locals|
    requires forall p | p in s.threads && s.threads[p].entry.IdleMain? ::
               && (r.threads[p].suspendFrom == 0 || r.threads[p].suspendFrom == s.threads[p].suspendFrom)
               && (s.threads[p].runningOn.On? ==> r.threads[p].runningOn == s.threads[p].runningOn)
    requires forall c | 0 <= c < |s.locals| :: r.locals[c].current.Some? ==> s.locals[c].current.Some?
    ensures IdleOk(r)
  {
    forall c | 0 <= c < |r.locals| && r.locals[c].current.Some?
      ensures HasIdle(r, c)
    {
      assert HasIdle(s, c);
      var p :| IdleOn(s, p, c);
      assert IdleOn(r, p, c);
    }
  }

  lemma CurrentKept(s: State, r: State)
    requires CurrentOk(s) && r.threads.Keys == s.threads.Keys && |r.locals| == |s.locals|
    requires forall c | 0 <= c < |s.locals| :: r.locals[c].current == s.locals[c].current
    requires forall p | p in s.threads && s.threads[p].runningOn.On? :: r.threads[p].runningOn == s.threads[p].runningOn
    ensures CurrentOk(r)
  {
  }

  lemma QueuesKept(s: State, r: State)
    requires QueuesOk(s) && r.threads.Keys == s.threads.Keys && |r.locals| == |s.locals|
    requires forall c | 0 <= c < |s.locals| :: r.locals[c].queue == s.locals[c].queue
    requires forall p | p in s.threads ::
             r.threads[p].runningOn == s.threads[p].runningOn && r.threads[p].nice == s.threads[p].nice
    ensures QueuesOk(r)
  {
    assert forall q, c, n :: Placed(s, q, c, n) ==> Placed(r, q, c, n);
  }

  /** An edit that moves no thread and touches no list. */
  lemma EditThread(s: State, p: Ptr, t: Thread, exiting: set<Ptr>)
    requires Core(s) && Lists(s, exiting) && p in s.threads
    requires t == s.threads[p].(suspendFrom := t.suspendFrom, suspendFor := t.suspendFor)
    requires t.entry.IdleMain? ==> t.suspendFrom == 0
    ensures Core(SetThread(s, p, t)) && Lists(SetThread(s, p, t), exiting)
  {
    hide QueuesOk, CurrentOk, IdleOk, EventsOk, TableOk;
    var r := SetThread(s, p, t);
    QueuesKept(s, r);
    CurrentKept(s, r);
    IdleKept(s, r);
    ListsKept(s, r, exiting, exiting);
  }

  // ----------------------------------------------------------------- wakeup

  lemma WakeupQueues(s: State, c: nat, p: Ptr)
    requires QueuesOk(s) && c < |s.locals| && p in s.threads
    ensures QueuesOk(Wakeup(s, c, p))
  {
    var r := Wakeup(s, c, p);
    var n := Level(s.threads[p].nice);
    if s.threads[p].runningOn.Nowhere? {
      assert forall c', n' :: !Placed(s, p, c', n');
      assert forall c', n' | 0 <= c' < |s.locals| && 0 <= n' < 5 :: p !in s.locals[c'].queue[n'];
      assert forall c', n' | 0 <= c' < |s.locals| && 0 <= n' < 5 ::
        r.locals[c'].queue[n'] == if c' == c && n' == n then s.locals[c].queue[n] + [p] else s.locals[c'].queue[n'];
      forall c', n', q | 0 <= c' < |r.locals| && 0 <= n' < 5 && q in r.locals[c'].queue[n']
        ensures Placed(r, q, c', n')
      {
        if q != p {
          assert q in s.locals[c'].queue[n'];
          assert Placed(s, q, c', n');
        }
      }
      AppendKeepsDistinct(s.locals[c].queue[n], p);
    }
  }

  lemma WakeupOk(s: State, c: nat, p: Ptr, exiting: set<Ptr>)
    requires Core(s) && Lists(s, exiting) && c < |s.locals| && Alive(s, p)
    ensures Core(Wakeup(s, c, p)) && Lists(Wakeup(s, c, p), exiting)
  {
    hide QueuesOk, CurrentOk, IdleOk, EventsOk, TableOk;
    var r := Wakeup(s, c, p);
    WakeupQueues(s, c, p);
    CurrentKept(s, r);
    IdleKept(s, r);
    ListsKept(s, r, exiting, exiting);
  }

  // -------------------------------------------------------- leaving a queue

  /** `p` is marked Nowhere and taken out of its queue. */
  lemma EraseQueues(s: State, p: Ptr)
    requires QueuesOk(s) && p in s.threads && s.threads[p].runningOn.On?
    ensures QueuesOk(Erase(SetThread(s, p, s.threads[p].(runningOn := Nowhere)), s.threads[p].runningOn.cpu, p))
  {
    var c := s.threads[p].runningOn.cpu;
    var n := Level(s.threads[p].nice);
    var r := Erase(SetThread(s, p, s.threads[p].(runningOn := Nowhere)), c, p);
    assert forall c', n' | 0 <= c' < |s.locals| && 0 <= n' < 5 ::
      r.locals[c'].queue[n'] ==
      if c' == c && n' == n then EraseAll(s.locals[c].queue[n], p) else s.locals[c'].queue[n'];
    forall c', n', q | 0 <= c' < |r.locals| && 0 <= n' < 5 && q in r.locals[c'].queue[n']
      ensures Placed(r, q, c', n')
    {
      assert q in s.locals[c'].queue[n'];
      assert Placed(s, q, c', n');
    }
    EraseAllKeepsDistinct(s.locals[c].queue[n], p);
  }

  lemma RotateQueues(s: State, c: nat, p: Ptr)
    requires QueuesOk(s) && p in s.threads && s.threads[p].runningOn == On(c)
    ensures QueuesOk(Push(Erase(s, c, p), c, p))
  {
    var n := Level(s.threads[p].nice);
    var e := EraseAll(s.locals[c].queue[n], p);
    var r := Push(Erase(s, c, p), c, p);
    assert forall c', n' | 0 <= c' < |s.locals| && 0 <= n' < 5 ::
      r.locals[c'].queue[n'] == if c' == c && n' == n then e + [p] else s.locals[c'].queue[n'];
    forall c', n', q | 0 <= c' < |r.locals| && 0 <= n' < 5 && q in r.locals[c'].queue[n']
      ensures Placed(r, q, c', n')
    {
      assert q in s.locals[c'].queue[n'];
      assert Placed(s, q, c', n');
    }
    EraseAllKeepsDistinct(s.locals[c].queue[n], p);
    AppendKeepsDistinct(e, p);
  }

  // -------------------------------------------------------------- switching

  lemma {:induction false} PickFromIsQueued(s: State, c: nat, n: nat)
    requires QueuesOk(s) && c < |s.locals| && n <= 5
    ensures var r := PickFrom(s, c, n);
            && (r.Some? ==>
                  && Runnable(s, r.value) && s.threads[r.value].runningOn == On(c)
                  && n <= Level(s.threads[r.value].nice))
            && (r.None? ==>
                  forall p | p in s.threads && s.threads[p].runningOn == On(c) && n <= Level(s.threads[p].nice) ::
                    !Runnable(s, p))
    decreases 5 - n
  {
    if n < 5 {
      PickFromIsQueued(s, c, n + 1);
      var r := FirstRunnable(s, Queue(s, c, n));
      if r.Some? {
        assert r.value in s.locals[c].queue[n];
        assert Placed(s, r.value, c, n);
      }
    }
  }

  /** A captured processor always finds a thread: its idle thread at worst. */
  lemma PickSucceeds(s: State, c: nat)
    requires QueuesOk(s) && IdleOk(s) && c < |s.locals| && s.locals[c].current.Some?
    ensures PickFrom(s, c, 0).Some?
  {
    PickFromIsQueued(s, c, 0);
    assert HasIdle(s, c);
    var p :| IdleOn(s, p, c);
    assert Runnable(s, p);
  }

  lemma DispatchQueues(s: State, c: nat, p: Ptr)
    requires QueuesOk(s) && c < |s.locals| && p in s.threads
    ensures QueuesOk(Dispatch(s, c, p))
  {
    var r := Dispatch(s, c, p);
    assert forall c' | 0 <= c' < |s.locals| :: r.locals[c'].queue == s.locals[c'].queue;
    assert forall q, c', n :: Placed(s, q, c', n) ==> Placed(r, q, c', n);
  }

  /** The outgoing thread of processor `c`: still runnable, or marked asleep. */
  ghost predicate Outgoing(s: State, s1: State, c: nat) {
    && Captured(s, c)
    && var p := Current(s, c);
       s1 == s || (s1 == SetThread(s, p, s.threads[p].(runningOn := Nowhere)) && !IsIdle(s, p))
  }

  lemma RequeueOk(s: State, s1: State, c: nat)
    requires Core(s) && Outgoing(s, s1, c)
    ensures var q := Requeue(s1, c);
            && QueuesOk(q) && IdleOk(q) && SameLists(s, q) && SameIdentity(s, q) && |q.locals| == |s.locals|
            && (forall i | 0 <= i < |s.locals| :: q.locals[i].current == s.locals[i].current)
            && (forall t | t in s.threads :: q.threads[t] == s1.threads[t])
            && q.tick == s.tick
            && PickFrom(q, c, 0).Some?
  {
    var p := Current(s, c);
    var q := Requeue(s1, c);
    if s1 == s {
      RotateQueues(s, c, p);
    } else {
      EraseQueues(s, p);
    }
    IdleKept(s, q);
    PickSucceeds(q, c);
  }

  lemma DispatchCurrent(s: State, q: State, c: nat, n: Ptr)
    requires CurrentOk(s) && c < |s.locals| && q.threads.Keys == s.threads.Keys && |q.locals| == |s.locals|
    requires forall i | 0 <= i < |s.locals| :: q.locals[i].current == s.locals[i].current
    requires forall p | p in s.threads && s.locals[c].current != Some(p) ::
             q.threads[p].runningOn == s.threads[p].runningOn
    requires n in q.threads && q.threads[n].runningOn == On(c) && s.locals[c].current.Some?
    ensures CurrentOk(Dispatch(q, c, n))
  {
  }

  /** `t` is the thread to run: in the most urgent level that has a runnable thread, the one nearest the front. */
  ghost predicate FirstOfFirst(s: State, c: nat, t: Ptr)
    requires c < |s.locals|
  {
    exists k, i ::
      && 0 <= k < 5 && 0 <= i < |s.locals[c].queue[k]| && s.locals[c].queue[k][i] == t && Runnable(s, t)
      && (forall j | 0 <= j < i :: !Runnable(s, s.locals[c].queue[k][j]))
      && forall k', p | 0 <= k' < k && p in s.locals[c].queue[k'] :: !Runnable(s, p)
  }

  lemma {:induction false} FirstRunnableAt(s: State, q: seq<Ptr>) returns (i: nat)
    requires FirstRunnable(s, q).Some?
    ensures i < |q| && q[i] == FirstRunnable(s, q).value && forall j | 0 <= j < i :: !Runnable(s, q[j])
  {
    hide Runnable;
    if Runnable(s, q[0]) {
      i := 0;
    } else {
      i := FirstRunnableAt(s, q[1..]);
      i := i + 1;
    }
  }

  lemma {:induction false} PicksFirstOfFirst(s: State, c: nat, n: nat)
    requires c < |s.locals| && n <= 5 && PickFrom(s, c, n).Some?
    requires forall k, p | 0 <= k < n && p in s.locals[c].queue[k] :: !Runnable(s, p)
    ensures FirstOfFirst(s, c, PickFrom(s, c, n).value)
    decreases 5 - n
  {
    hide Runnable;
    var q := s.locals[c].queue[n];
    if FirstRunnable(s, q).Some? {
      var i := FirstRunnableAt(s, q);
      assert s.locals[c].queue[n][i] == PickFrom(s, c, n).value;
    } else {
      PicksFirstOfFirst(s, c, n + 1);
    }
  }

  /** The state after a switch, in terms of the thread it picks. */
  lemma SwitchPicks(s: State, s1: State, c: nat) returns (n: Ptr)
    requires Core(s) && Outgoing(s, s1, c)
    ensures PickFrom(Requeue(s1, c), c, 0) == Some(n)
    ensures Switch(s1, c) == Dispatch(Requeue(s1, c), c, n)
    ensures Runnable(Requeue(s1, c), n) && s1.threads[n].runningOn == On(c) && n in s.threads
  {
    var q := Requeue(s1, c);
    RequeueOk(s, s1, c);
    PickFromIsQueued(q, c, 0);
    n := PickFrom(q, c, 0).value;
  }

  lemma SwitchCore(s: State, s1: State, c: nat)
    requires Core(s) && Outgoing(s, s1, c)
    ensures Core(Switch(s1, c))
  {
    hide QueuesOk, IdleOk, CurrentOk, PickFrom, Requeue, Switch;
    var q := Requeue(s1, c);
    RequeueOk(s, s1, c);
    var n := SwitchPicks(s, s1, c);
    DispatchQueues(q, c, n);
    DispatchCurrent(s, q, c, n);
    IdleKept(q, Dispatch(q, c, n));
  }

  lemma SwitchEffect(s: State, s1: State, c: nat)
    requires Core(s) && Outgoing(s, s1, c)
    ensures SameLists(s, Switch(s1, c)) && SameIdentity(s, Switch(s1, c))
    ensures forall p | p in s.threads :: Switch(s1, c).threads[p].runningOn == s1.threads[p].runningOn
  {
    hide QueuesOk, CurrentOk, IdleOk, PickFrom, Requeue, Switch;
    RequeueOk(s, s1, c);
    var n := SwitchPicks(s, s1, c);
  }

  /** Switching keeps the invariant. */
  lemma SwitchOk(s: State, c: nat, exiting: set<Ptr>)
    requires Core(s) && Lists(s, exiting) && Captured(s, c)
    ensures Core(Switch(s, c)) && Lists(Switch(s, c), exiting)
  {
    hide QueuesOk, CurrentOk, IdleOk, EventsOk, TableOk;
    SwitchEffect(s, s, c);
    SwitchCore(s, s, c);
    ListsKept(s, Switch(s, c), exiting, exiting);
  }

  lemma CurrentKeptBut(s: State, r: State, p: Ptr)
    requires CurrentOk(s) && r.threads.Keys == s.threads.Keys && |r.locals| == |s.locals|
    requires forall c | 0 <= c < |s.locals| :: r.locals[c].current == s.locals[c].current != Some(p)
    requires forall q | q in s.threads && q != p :: r.threads[q].runningOn == s.threads[q].runningOn
    ensures CurrentOk(r)
  {
  }

  lemma SleepCurrentOk(s: State, c: nat, exiting: set<Ptr>)
    requires Core(s) && Lists(s, exiting) && Captured(s, c) && !IsIdle(s, Current(s, c))
    ensures var p := Current(s, c);
            var r := Switch(SetThread(s, p, s.threads[p].(runningOn := Nowhere)), c);
            Core(r) && Lists(r, exiting - {p})
  {
    hide QueuesOk, IdleOk, EventsOk, TableOk, CurrentOk;
    var p := Current(s, c);
    var s1 := SetThread(s, p, s.threads[p].(runningOn := Nowhere));
    SwitchEffect(s, s1, c);
    SwitchCore(s, s1, c);
    ListsKept(s, Switch(s1, c), exiting, exiting - {p});
  }

  lemma SleepOtherOk(s: State, p: Ptr, exiting: set<Ptr>)
    requires Core(s) && Lists(s, exiting) && p in s.threads && s.threads[p].runningOn.On? && !IsIdle(s, p)
    requires forall i | 0 <= i < |s.locals| :: s.locals[i].current != Some(p)
    ensures var r := Erase(SetThread(s, p, s.threads[p].(runningOn := Nowhere)), s.threads[p].runningOn.cpu, p);
            Core(r) && Lists(r, exiting - {p})
  {
    var r := Erase(SetThread(s, p, s.threads[p].(runningOn := Nowhere)), s.threads[p].runningOn.cpu, p);
    hide QueuesOk, IdleOk, EventsOk, TableOk, CurrentOk;
    EraseQueues(s, p);
    CurrentKeptBut(s, r, p);
    IdleKept(s, r);
    ListsKept(s, r, exiting, exiting - {p});
  }

  /**
   Putting a thread to sleep keeps the invariant, and completes its exit if it
   was exiting.  No other processor may be running it.
   */
  lemma SleepOk(s: State, c: nat, p: Ptr, exiting: set<Ptr>)
    requires Core(s) && Lists(s, exiting) && Captured(s, c) && p in s.threads && !IsIdle(s, p)
    requires forall i | 0 <= i < |s.locals| && i != c :: s.locals[i].current != Some(p)
    ensures Core(Sleep(s, c, p)) && Lists(Sleep(s, c, p), exiting - {p})
  {
    if s.threads[p].runningOn.Nowhere? {
      hide QueuesOk, IdleOk, EventsOk, TableOk, CurrentOk;
    } else if p == Current(s, c) {
      SleepCurrentOk(s, c, exiting);
    } else {
      SleepOtherOk(s, p, exiting);
    }
  }

  /** The processors stay consistent exactly when no other one is running the thread put to sleep. */
  lemma SleepKeepsExactly(s: State, c: nat, p: Ptr, exiting: set<Ptr>)
    requires Core(s) && Lists(s, exiting) && Captured(s, c) && p in s.threads && !IsIdle(s, p)
    ensures Core(Sleep(s, c, p)) <==> forall i | 0 <= i < |s.locals| && i != c :: s.locals[i].current != Some(p)
  {
    if forall i | 0 <= i < |s.locals| && i != c :: s.locals[i].current != Some(p) {
      hide QueuesOk, CurrentOk, IdleOk, Lists;
      SleepOk(s, c, p, exiting);
    } else {
      hide IdleOk, Lists;
      var i :| 0 <= i < |s.locals| && i != c && s.locals[i].current == Some(p);
      assert s.threads[p].runningOn == On(i);
      var r := Sleep(s, c, p);
      assert r.locals[i].current == Some(p) && r.threads[p].runningOn.Nowhere?;
    }
  }
}
