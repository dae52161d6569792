/**
 process::Manager and ProcessorLocal as the source has them: fields updated in
 place by methods, searches and list walks as loops.  Each method's contract
 gives the whole new state as a step of the machine in SchedulerRuns, and the
 places where the source panics are shown to be out of reach.
 */
module SchedulerManager {
  import opened Collections
  import opened Scheduler
  import opened SchedulerInvariant
  import opened SchedulerSteps
  import opened SchedulerEvents
  import opened SchedulerMigration
  import opened SchedulerRuns

  /** dense_map::DenseMap::find_empty_slot, without the resize. */
  method FindEmptySlot<T>(data: seq<Option<T>>) returns (i: nat)
    ensures i <= |data| && (i < |data| ==> data[i].None?)
    ensures forall k | 0 <= k < i :: data[k].Some?
  {
    i := 0;
    while i < |data|
      invariant i <= |data|
      invariant forall k | 0 <= k < i :: data[k].Some?
    {
      if data[i].None? {
        return;
      }
      i := i + 1;
    }
  }

  lemma FirstEmptyIs<T>(data: seq<Option<T>>, i: nat)
    requires i <= |data| && (i < |data| ==> data[i].None?) && forall k | 0 <= k < i :: data[k].Some?
    ensures FirstEmpty(data) == i
  {
  }

  /** The process manager; `S()` is its abstract state. */
  class Manager {
    var tick: nat
    var threads: map<Ptr, Thread>
    var processes: seq<Option<seq<Option<Ptr>>>>
    var locals: seq<Local>
    var events: seq<Option<seq<Ptr>>>
    var eventProcessor: Ptr

    function S(): State
      reads this
    {
      State(tick, threads, processes, locals, events, eventProcessor)
    }

    // ------------------------------------------------------ ProcessorLocal

    method PushToRunQueue(c: nat, p: Ptr)
      requires c < |locals| && p in threads
      modifies this`locals
      ensures S() == Push(old(S()), c, p)
    {
      var n := Level(threads[p].nice);
      locals := locals[c := locals[c].(queue := locals[c].queue[n := locals[c].queue[n] + [p]])];
    }

    method EraseFromRunQueue(c: nat, p: Ptr)
      requires c < |locals| && p in threads
      modifies this`locals
      ensures S() == Erase(old(S()), c, p)
    {
      var n := Level(threads[p].nice);
      locals := locals[c := locals[c].(queue := locals[c].queue[n := EraseAll(locals[c].queue[n], p)])];
    }

    /** The search of update_this_thread: levels from most to least urgent, each queue from its front. */
    method PickThread(c: nat) returns (t: Ptr)
      requires c < |locals| && forall n, p | 0 <= n < 5 && p in locals[c].queue[n] :: p in threads
      requires PickFrom(S(), c, 0).Some?
      ensures FirstOfFirst(S(), c, t)
      ensures PickFrom(S(), c, 0) == Some(t)
    {
      PicksFirstOfFirst(S(), c, 0);
      hide FirstOfFirst;
      var n := 0;
      while n < 5
        invariant 0 <= n <= 5
        invariant PickFrom(S(), c, 0) == PickFrom(S(), c, n)
      {
        var q := locals[c].queue[n];
        var i := 0;
        while i < |q|
          invariant 0 <= i <= |q|
          invariant FirstRunnable(S(), q) == FirstRunnable(S(), q[i..])
        {
          t := q[i];
          assert t in locals[c].queue[n];
          assert q[i..][1..] == q[i + 1..];
          if !ShouldSkip(threads[t], tick) {
            return;
          }
          i := i + 1;
        }
        assert q[i..] == [];
        n := n + 1;
      }
      assert false; // "run queue empty" cannot happen
    }

    method RequeueThisThread(c: nat)
      requires Captured(S(), c)
      modifies this`locals
      ensures S() == Requeue(old(S()), c)
    {
      var p := locals[c].current.value;
      EraseFromRunQueue(c, p);
      if threads[p].runningOn.On? {
        PushToRunQueue(c, p);
      }
    }

    /** update_this_thread; `s` is the consistent state the switch started from. */
    method UpdateThisThread(c: nat, ghost s: State)
      requires Core(s) && Outgoing(s, S(), c)
      modifies this`locals, this`threads
      ensures S() == Switch(old(S()), c)
      ensures Core(S())
    {
      SwitchReady(s, S(), c);
      hide Core, Outgoing, PickFrom, Requeue;
      RequeueThisThread(c);
      var t := PickThread(c);
      threads := threads[t := threads[t].(suspendFrom := 0)];
      locals := locals[c := locals[c].(current := Some(t))];
    }

    // ------------------------------------------------------ locked helpers

    method WakeupThread(c: nat, p: Ptr)
      requires c < |locals| && p in threads
      modifies this`locals, this`threads
      ensures S() == Wakeup(old(S()), c, p)
    {
      if threads[p].runningOn.On? {
        return;
      }
      threads := threads[p := threads[p].(runningOn := On(c))];
      PushToRunQueue(c, p);
    }

    method SleepThread(c: nat, p: Ptr)
      requires Core(S()) && Captured(S(), c) && p in threads && !IsIdle(S(), p)
      requires threads[p].runningOn.On? ==> threads[p].runningOn.cpu < |locals|
      modifies this`locals, this`threads
      ensures S() == Sleep(old(S()), c, p)
    {
      hide Core;
      if threads[p].runningOn.Nowhere? {
        return;
      }
      ghost var s := S();
      if locals[c].current == Some(p) {
        threads := threads[p := threads[p].(runningOn := Nowhere)];
        UpdateThisThread(c, s);
      } else {
        var i := threads[p].runningOn.cpu;
        threads := threads[p := threads[p].(runningOn := Nowhere)];
        EraseFromRunQueue(i, p);
      }
    }

    method SuspendThreadForTick(c: nat, p: Ptr, waitTick: nat)
      requires Inv(S()) && Captured(S(), c) && p in threads && !IsIdle(S(), p)
      modifies this`locals, this`threads
      ensures S() == Suspend(old(S()), c, p, waitTick)
    {
      if waitTick == 0 {
        return;
      }
      hide Core, Lists, Switch;
      var from := if tick == 0 then 1 else tick;
      var length := if tick == 0 then waitTick - 1 else waitTick;
      EditThread(S(), p, threads[p].(suspendFrom := from, suspendFor := length), {});
      ghost var s1 := SetThread(S(), p, threads[p].(suspendFrom := from, suspendFor := length));
      threads := threads[p := threads[p].(suspendFrom := from, suspendFor := length)];
      assert S() == s1;
      if locals[c].current == Some(p) {
        UpdateThisThread(c, S());
      }
    }

    method PushThreadToEvents(e: nat, p: Ptr) returns (code: Code)
      requires p in threads
      modifies this`events, this`threads
      ensures code == if HasEvent(old(S()), e) then Success else NoSuchEvent
      ensures S() == if HasEvent(old(S()), e) then PushWaiter(old(S()), e, p) else old(S())
    {
      if !(e < |events| && events[e].Some?) {
        return NoSuchEvent;
      }
      events := events[e := Some(events[e].value + [p])];
      threads := threads[p := threads[p].(events := threads[p].events + [e])];
      code := Success;
    }

    /** The thread's own list leads to every list it is in, so walking it is enough. */
    method CancelEventsOfThread(p: Ptr)
      requires p in threads
      requires forall e | e in threads[p].events :: HasEvent(S(), e)
      requires forall e: nat | p in Waiters(S(), e) :: e in threads[p].events
      modifies this`events
      ensures S() == Cancel(old(S()), p)
    {
      hide EraseAll;
      ghost var s := S();
      var ids := threads[p].events;
      var i := 0;
      while i < |ids|
        invariant 0 <= i <= |ids| && S() == s.(events := events) && |events| == |s.events|
        invariant forall e | 0 <= e < |events| ::
                    events[e] == if e in ids[..i] then EraseWaiter(s.events[e], p) else s.events[e]
      {
        var e := ids[i];
        assert HasEvent(s, e); // the source's fatal_assert
        EraseTwice(s.events[e].value, p);
        events := events[e := Some(EraseAll(events[e].value, p))];
        assert ids[..i + 1] == ids[..i] + [e];
        i := i + 1;
      }
      assert ids[..|ids|] == ids;
      forall e | 0 <= e < |events|
        ensures events[e] == Cancel(s, p).events[e]
      {
        if e !in ids && s.events[e].Some? {
          assert p !in Waiters(s, e);
          EraseAllAbsent(s.events[e].value, p);
        }
      }
      assert events == Cancel(s, p).events;
    }

    method NotifyEvent(c: nat, e: nat) returns (code: Code)
      requires c < |locals| && forall p | p in Waiters(S(), e) :: p in threads
      modifies this`events, this`threads, this`locals
      ensures (S(), code) == Notify(old(S()), c, e)
    {
      if !(e < |events| && events[e].Some?) {
        return NoSuchEvent;
      }
      var toWakeup := events[e].value;
      events := events[e := Some([])];
      ghost var s := S();
      var i := 0;
      while i < |toWakeup|
        invariant 0 <= i <= |toWakeup| && c < |locals|
        invariant forall p | p in toWakeup :: p in threads && p in s.threads
        invariant forall p | p in toWakeup[i..] :: p in toWakeup
        invariant WakeupEach(s, c, e, toWakeup) == WakeupEach(S(), c, e, toWakeup[i..])
      {
        var t := toWakeup[i];
        assert toWakeup[i..][0] == t && toWakeup[i..][1..] == toWakeup[i + 1..];
        threads := threads[t := threads[t].(events := EraseAll(threads[t].events, e))];
        WakeupThread(c, t);
        i := i + 1;
      }
      code := Success;
    }

    method ExitThread(c: nat, p: Ptr)
      requires Inv(S()) && Captured(S(), c) && Alive(S(), p) && p != eventProcessor && !IsIdle(S(), p)
      modifies this`events, this`threads, this`locals
      ensures S() == Exit(old(S()), c, p)
    {
      ghost var s := S();
      ExitSteps(s, c, p);
      hide Inv, Core, Lists, Cancel, Notify, Sleep, Exit, EraseAll, IsIdle;
      threads := threads[p := threads[p].(zombie := true)];
      assert S() == MarkZombie(s, p);
      hide MarkZombie, Captured;
      CancelEventsOfThread(p);
      var code := NotifyEvent(c, THREAD_JOINED);
      SleepThread(c, p);
    }

    method WaitEventsThenSleep(c: nat, es: seq<nat>) returns (code: Code)
      requires Inv(S()) && Blocking(S(), c)
      modifies this`events, this`threads, this`locals
      ensures (S(), code) == WaitEvents(old(S()), c, es)
    {
      ghost var s := S();
      var p := locals[c].current.value;
      CurrentIsAlive(s, c);
      PushWaitersOk(s, es, p);
      var i := 0;
      hide Inv, Core, Lists, Sleep;
      while i < |es|
        invariant 0 <= i <= |es| && p in threads && locals == s.locals
        invariant PushWaiters(s, es, p) == PushWaiters(S(), es[i..], p)
      {
        assert es[i..][0] == es[i] && es[i..][1..] == es[i + 1..];
        code := PushThreadToEvents(es[i], p);
        if code != Success {
          return;
        }
        i := i + 1;
      }
      assert es[i..] == [];
      Basics(S());
      CoreOf(S());
      SleepThread(c, p);
      code := Success;
    }

    // ---------------------------------------------------- public operations

    method FindThreadByIds(pid: nat, tid: nat) returns (f: Found)
      ensures f == FindThread(S(), pid, tid)
    {
      if !(pid < |processes| && processes[pid].Some?) {
        return Missing(NoSuchProcess);
      }
      var ts := processes[pid].value;
      if !(tid < |ts| && ts[tid].Some?) {
        return Missing(NoSuchThread);
      }
      f := Found(ts[tid].value);
    }

    method FindAliveThread(pid: nat, tid: nat) returns (f: Found)
      requires Inv(S())
      ensures f == FindAlive(S(), pid, tid)
      ensures f.Found? ==> Alive(S(), f.p)
    {
      FoundIsThread(S(), pid, tid);
      f := FindThreadByIds(pid, tid);
      if f.Found? && threads[f.p].zombie {
        f := Missing(DeadThread);
      }
    }

    /** The boot processor's manager: two events, the kernel process, and its context captured. */
    constructor (main: Ptr, idle: Ptr)
      requires main != idle
      ensures S() == Boot(main, idle) && Inv(S())
    {
      BootOk(main, idle);
      hide Inv;
      tick, threads, eventProcessor := 0, map[], main;
      events := [Some([]), Some([])];
      locals := [FRESH];
      processes := [Some([])];
      new;
      CaptureContext(0, 0, main, idle);
    }

    method AddNewThread(pid: nat, p: Ptr, entry: Entry, movable: bool)
      requires HasProcess(S(), pid)
      modifies this`threads, this`processes
      ensures S() == AddThread(old(S()), pid, p, entry, movable)
    {
      var ts := processes[pid].value;
      var tid := FindEmptySlot(ts);
      FirstEmptyIs(ts, tid);
      threads := threads[p := NewThread(pid, tid, entry, movable)];
      processes := processes[pid := Some(if tid < |ts| then ts[tid := Some(p)] else ts + [Some(p)])];
    }

    method CaptureContext(c: nat, pid: nat, main: Ptr, idle: Ptr)
      requires c < |locals| && HasProcess(S(), pid) && main != idle
      modifies this`threads, this`processes, this`locals
      ensures S() == Capture(old(S()), c, pid, main, idle)
    {
      hide Fill;
      AddNewThread(pid, main, NoEntry, false);
      WakeupThread(c, main);
      AddNewThread(pid, idle, IdleMain, false);
      WakeupThread(c, idle);
      locals := locals[c := locals[c].(current := Some(main))];
    }

    /** The source takes a nice level here and does not use it. */
    method WakeupThreadById(c: nat, pid: nat, tid: nat, nice: int) returns (code: Code)
      requires Inv(S()) && Enabled(S(), OpWakeup(c, pid, tid))
      modifies this`threads, this`locals
      ensures (S(), code) == Step(old(S()), OpWakeup(c, pid, tid))
    {
      var f := FindAliveThread(pid, tid);
      if f.Missing? {
        return f.code;
      }
      hide Inv, Wakeup;
      WakeupThread(c, f.p);
      code := Success;
    }

    method SleepThisThread(c: nat)
      requires Inv(S()) && Enabled(S(), OpSleepThis(c))
      modifies this`threads, this`locals
      ensures S() == Step(old(S()), OpSleepThis(c)).0
    {
      CurrentIsAlive(S(), c);
      Basics(S());
      hide Core, Lists, Sleep;
      SleepThread(c, locals[c].current.value);
    }

    method SuspendThreadForMs(c: nat, pid: nat, tid: nat, ms: nat) returns (code: Code)
      requires Inv(S()) && Enabled(S(), OpSuspend(c, pid, tid, ms))
      modifies this`threads, this`locals
      ensures (S(), code) == Step(old(S()), OpSuspend(c, pid, tid, ms))
    {
      var f := FindAliveThread(pid, tid);
      if f.Missing? {
        return f.code;
      }
      hide Inv, Suspend;
      SuspendThreadForTick(c, f.p, MsToTick(ms));
      code := Success;
    }

    method ExitThisThread(c: nat)
      requires Inv(S()) && Enabled(S(), OpExitThis(c))
      modifies this`events, this`threads, this`locals
      ensures S() == Step(old(S()), OpExitThis(c)).0
    {
      CurrentIsAlive(S(), c);
      hide Inv, Exit;
      ExitThread(c, locals[c].current.value);
    }

    /** One round of wait_thread: frees a zombie, or sleeps until some thread ends. */
    method WaitThread(c: nat, pid: nat, tid: nat) returns (code: Code)
      requires Inv(S()) && Enabled(S(), OpWaitThread(c, pid, tid))
      modifies this`events, this`threads, this`locals, this`processes
      ensures (S(), code) == Step(old(S()), OpWaitThread(c, pid, tid))
      ensures forall p | p in old(threads) && p !in threads :: Unreferenced(S(), p)
    {
      hide Inv, Core, Lists, WaitEvents, Unreferenced;
      ghost var s := S();
      FoundIsThread(s, pid, tid);
      var f := FindThreadByIds(pid, tid);
      if f.Missing? {
        return f.code;
      }
      if !threads[f.p].zombie {
        code := WaitEventsThenSleep(c, [THREAD_JOINED]);
        return;
      }
      FreeThreadOk(s, f.p);
      DeadIsUnreferenced(FreeThread(s, f.p), f.p);
      var t := threads[f.p];
      processes := processes[t.pid := Some(processes[t.pid].value[t.id := None])];
      threads := threads - {f.p};
      code := Success;
      assert S() == FreeThread(s, f.p);
    }

    method WaitProcess(c: nat, pid: nat) returns (code: Code)
      requires Inv(S()) && Enabled(S(), OpWaitProcess(c, pid))
      modifies this`events, this`threads, this`locals, this`processes
      ensures (S(), code) == Step(old(S()), OpWaitProcess(c, pid))
    {
      hide Inv, WaitEvents;
      if !(pid < |processes| && processes[pid].Some?) {
        return NoSuchProcess;
      }
      var ts := processes[pid].value;
      var i := 0;
      while i < |ts|
        invariant 0 <= i <= |ts| && S() == old(S())
        invariant forall k | 0 <= k < i :: ts[k].None?
      {
        if ts[i].Some? {
          code := WaitEventsThenSleep(c, [THREAD_JOINED]);
          return;
        }
        i := i + 1;
      }
      processes := processes[pid := None];
      code := Success;
    }

    method CreateThread(pid: nat, entry: Entry, ptr: Ptr) returns (code: Code, tid: nat)
      requires Inv(S()) && Enabled(S(), OpCreateThread(pid, entry, ptr))
      modifies this`threads, this`processes
      ensures (S(), code) == Step(old(S()), OpCreateThread(pid, entry, ptr))
      ensures code == Success ==> FindThread(S(), pid, tid) == Found(ptr)
    {
      hide Inv;
      if !(pid < |processes| && processes[pid].Some?) {
        return NoSuchProcess, 0;
      }
      tid := FindEmptySlot(processes[pid].value);
      FirstEmptyIs(processes[pid].value, tid);
      AddNewThread(pid, ptr, entry, true);
      code := Success;
    }

    method CreateEvent() returns (e: nat)
      requires Inv(S())
      modifies this`events
      ensures S() == Step(old(S()), OpCreateEvent).0 && HasEvent(S(), e) && events[e] == Some([])
      ensures !HasEvent(old(S()), e)
    {
      hide Inv;
      e := FindEmptySlot(events);
      FirstEmptyIs(events, e);
      events := if e < |events| then events[e := Some([])] else events + [Some([])];
    }

    method DeleteEvent(e: nat) returns (code: Code)
      requires Inv(S())
      modifies this`events
      ensures (S(), code) == Step(old(S()), OpDeleteEvent(e))
    {
      hide Inv;
      if !(e < |events| && events[e].Some?) {
        return NoSuchEvent;
      }
      if events[e].value != [] {
        return UnFinishedEvent;
      }
      events := events[e := None];
      code := Success;
    }

    method UnwaitEvent(p: Ptr, e: nat) returns (code: Code)
      requires p in threads
      modifies this`events, this`threads
      ensures code == if HasEvent(old(S()), e) then Success else NoSuchEvent
      ensures S() == if HasEvent(old(S()), e) then Unwait(old(S()), e, p) else old(S())
    {
      if !(e < |events| && events[e].Some?) {
        return NoSuchEvent;
      }
      events := events[e := Some(EraseAll(events[e].value, p))];
      threads := threads[p := threads[p].(events := EraseAll(threads[p].events, e))];
      code := Success;
    }

    method UnwaitEvents(c: nat, es: seq<nat>) returns (code: Code)
      requires Inv(S()) && Enabled(S(), OpUnwaitEvents(c, es))
      modifies this`events, this`threads
      ensures (S(), code) == Step(old(S()), OpUnwaitEvents(c, es))
    {
      hide Inv, EraseAll;
      ghost var s := S();
      var p := locals[c].current.value;
      var i := 0;
      while i < |es|
        invariant 0 <= i <= |es| && p in threads
        invariant UnwaitAll(s, es, p) == UnwaitAll(S(), es[i..], p)
      {
        assert es[i..][0] == es[i] && es[i..][1..] == es[i + 1..];
        code := UnwaitEvent(p, es[i]);
        if code != Success {
          return;
        }
        i := i + 1;
      }
      assert es[i..] == [];
      code := Success;
    }

    // ------------------------------------------------------------ migration

    method CountThreads() returns (nums: seq<nat>, total: nat)
      ensures nums == Loads(S()) && total == Sum(Loads(S()))
    {
      nums, total := [], 0;
      var i := 0;
      while i < |locals|
        invariant 0 <= i <= |locals| && |nums| == i
        invariant forall k | 0 <= k < i :: nums[k] == Load(locals[k])
        invariant total == Sum(nums)
      {
        var n := |locals[i].queue[0]| + |locals[i].queue[1]| + |locals[i].queue[2]| + |locals[i].queue[3]| +
            |locals[i].queue[4]|;
        nums := nums + [n];
        assert nums[..i + 1] == nums;
        SumPrefix(nums, i);
        assert nums[..i] + [n] == nums;
        total := total + n;
        i := i + 1;
      }
      assert nums == Loads(S());
    }

    /** The search for a thread to move: least urgent level first, each queue from its front. */
    method FindMovable(i: nat) returns (t: Option<Ptr>)
      requires i < |locals| && forall n, p | 0 <= n < 5 && p in locals[i].queue[n] :: p in threads
      ensures t.Some? ==> FirstOfLast(S(), i, t.value)
      ensures t.None? ==> forall n, p | 0 <= n < 5 && p in locals[i].queue[n] :: !Takeable(S(), i, p)
      ensures t == TakeBelow(S(), i, 5)
    {
      if TakeBelow(S(), i, 5).Some? { TakesFirstOfLast(S(), i, 5); }
      hide FirstOfLast;
      var n := 5;
      while n > 0
        invariant 0 <= n <= 5
        invariant TakeBelow(S(), i, 5) == TakeBelow(S(), i, n)
      {
        var q := locals[i].queue[n - 1];
        var k := 0;
        while k < |q|
          invariant 0 <= k <= |q|
          invariant FirstTakeable(S(), i, q) == FirstTakeable(S(), i, q[k..])
        {
          assert q[k] in locals[i].queue[n - 1];
          assert q[k..][1..] == q[k + 1..];
          if threads[q[k]].movable && locals[i].current != Some(q[k]) {
            return Some(q[k]);
          }
          k := k + 1;
        }
        assert q[k..] == [];
        n := n - 1;
      }
      t := None;
    }

    /** One processor's turn. */
    method MigrateVisit(i: nat, nums: seq<nat>, hand: Option<Ptr>, exit: bool, threshold: nat)
      returns (nums': seq<nat>, hand': Option<Ptr>, exit': bool)
      requires Shape(Migration(S(), nums, hand, exit)) && i < |nums|
      requires forall n, p | 0 <= n < 5 && p in locals[i].queue[n] :: p in threads
      requires hand.None? && TakeBelow(S(), i, 5).Some? ==> nums[i] > 0
      modifies this`threads, this`locals
      ensures Migration(S(), nums', hand', exit') == Visit(Migration(old(S()), nums, hand, exit), i, threshold)
    {
      hide TakeBelow, EraseAll;
      nums', hand', exit' := nums, hand, exit;
      if hand.None? {
        if nums[i] < threshold {
          return;
        }
        hand' := FindMovable(i);
        if hand'.Some? {
          EraseFromRunQueue(i, hand'.value);
          nums' := nums[i := nums[i] - 1];
          exit' := false;
        }
      } else {
        if nums[i] >= threshold {
          return;
        }
        threads := threads[hand.value := threads[hand.value].(runningOn := On(i))];
        PushToRunQueue(i, hand.value);
        hand' := None;
        nums' := nums[i := nums[i] + 1];
      }
    }

    /** One pass over the processors. */
    method MigratePass(nums: seq<nat>, hand: Option<Ptr>, total: nat, ghost s: State)
      returns (nums': seq<nat>, hand': Option<Ptr>, exit: bool)
      requires Inv(s) && Migrating(s, Migration(S(), nums, hand, true), total)
      modifies this`threads, this`locals
      ensures Migration(S(), nums', hand', exit) == PassFrom(Migration(old(S()), nums, hand, true), 0, total)
      ensures Migrating(s, Migration(S(), nums', hand', exit), total)
    {
      nums', hand', exit := nums, hand, true;
      ghost var m0 := Migration(S(), nums, hand, true);
      hide Inv, Migrating, Visit, TakeBelow;
      ShapeOf(s, m0, total);
      var average := total / |nums|;
      var mod := total - average * |nums|;
      var i := 0;
      while i < |nums'|
        invariant 0 <= i <= |nums'| == |nums| && Shape(m0)
        invariant Migrating(s, Migration(S(), nums', hand', exit), total) && Shape(Migration(S(), nums', hand', exit))
        invariant PassFrom(m0, 0, total) == PassFrom(Migration(S(), nums', hand', exit), i, total)
      {
        ghost var m := Migration(S(), nums', hand', exit);
        VisitKeeps(s, m, i, total);
        MayTake(s, m, i, total);
        nums', hand', exit := MigrateVisit(i, nums', hand', exit, if i < mod then average + 1 else average);
        i := i + 1;
      }
    }

    /** The source repeats without bound; `passes` bounds how long this run is watched. */
    method MigrateLoop(nums0: seq<nat>, total: nat, passes: nat, ghost s: State) returns (done: bool)
      requires Inv(s) && Migrating(s, Migration(S(), nums0, None, true), total)
      requires Shape(Migration(S(), nums0, None, true))
      modifies this`threads, this`locals
      ensures var r := Passes(Migration(old(S()), nums0, None, true), total, passes);
              done == r.Some? && (done ==> S() == r.value.s)
    {
      hide Inv, Migrating, Passes, PassFrom;
      var nums, hand: Option<Ptr>, left := nums0, None, passes;
      ghost var m0 := Migration(S(), nums0, None, true);
      ghost var m := m0;
      while left > 0
        invariant m == Migration(S(), nums, hand, m.exit)
        invariant Migrating(s, m, total) && Shape(m) && Shape(m0)
        invariant Passes(m0, total, passes) == Passes(m, total, left)
      {
        ExitFlag(s, m, total);
        PassesUnroll(m, total, left);
        var exit;
        nums, hand, exit := MigratePass(nums, hand, total, s);
        m := Migration(S(), nums, hand, exit);
        ShapeOf(s, m, total);
        if exit {
          return true;
        }
        left := left - 1;
      }
      PassesZero(m, total);
      done := false;
    }

    method MigrateThreads(passes: nat) returns (done: bool)
      requires Inv(S()) && |locals| > 0
      modifies this`threads, this`locals
      ensures done == Migrate(old(S()), passes).Some?
      ensures done ==> S() == Migrate(old(S()), passes).value.s
    {
      hide Inv, Migrating, Passes;
      StartOk(S());
      var nums, total := CountThreads();
      done := MigrateLoop(nums, total, passes, S());
    }

    /** The part of the timer interrupt before the switch. */
    method CountTick(c: nat, first: bool, message: bool)
      requires c < |locals| && eventProcessor in threads
      modifies this`tick, this`threads, this`locals
      ensures S() == Ticked(old(S()), c, first, message)
    {
      if first {
        tick := tick + 1;
        if message {
          WakeupThread(c, eventProcessor);
        }
      }
    }

    /** The timer interrupt, when its migration returns within `passes` passes. */
    method SwitchThreadMayFail(c: nat, first: bool, acquired: bool, message: bool, passes: nat)
      requires Inv(S()) && Enabled(S(), OpTimer(c, first, acquired, message, passes))
      modifies this`tick, this`threads, this`locals
      ensures S() == Step(old(S()), OpTimer(c, first, acquired, message, passes)).0
    {
      ghost var s := S();
      hide Inv, Core, Switch, Migrate, Ticked, Loads, Sum;
      if first && !acquired {
        tick := tick + 1;
        return;
      }
      TickedTick(s, c, first, message);
      TickedOk(s, c, first, message);
      TimerCaptured(s, c, first, message, passes);
      CountTick(c, first, message);
      if first && tick % 500 == 0 {
        var done := MigrateThreads(passes);
      }
      CoreOf(S());
      UpdateThisThread(c, S());
    }
  }

  /** A processor with a thread to take has a count to lower, and its queues hold threads that exist. */
  lemma MayTake(s: State, m: Migration, i: nat, total: nat)
    requires Migrating(s, m, total) && i < |m.nums|
    ensures forall n, p | 0 <= n < 5 && p in m.s.locals[i].queue[n] :: p in m.s.threads
    ensures TakeBelow(m.s, i, 5).Some? ==> m.nums[i] > 0
  {
    hide QueuesOk, OnlyMoved, PinnedStay, CurrentOk, IdleOk, Lists, Bounded, HandOk;
    ParkedExist(m, i);
    if TakeBelow(m.s, i, 5).Some? {
      NotEmpty(m.s, i, TakeBelow(m.s, i, 5).value);
    }
  }

  lemma ParkedExist(m: Migration, i: nat)
    requires Shape(m) && i < |m.s.locals| && QueuesOk(Parked(m))
    ensures forall n, p | 0 <= n < 5 && p in m.s.locals[i].queue[n] :: p in m.s.threads
  {
    QueuedExist(Parked(m), i);
    hide QueuesOk;
    assert Parked(m).threads.Keys == m.s.threads.Keys && Parked(m).locals == m.s.locals;
  }

  lemma NotEmpty(s: State, c: nat, p: Ptr)
    requires c < |s.locals| && exists k :: 0 <= k < 5 && p in s.locals[c].queue[k]
    ensures Load(s.locals[c]) > 0
  {
  }

  lemma TickedTick(s: State, c: nat, first: bool, message: bool)
    requires c < |s.locals| && s.eventProcessor in s.threads
    ensures Ticked(s, c, first, message).tick == if first then s.tick + 1 else s.tick
  {
  }

  lemma CoreOf(s: State)
    requires Inv(s)
    ensures Core(s)
  {
  }

  lemma EraseTwice(q: seq<Ptr>, p: Ptr)
    ensures EraseAll(EraseAll(q, p), p) == EraseAll(q, p)
  {
    EraseAllAbsent(EraseAll(q, p), p);
  }

  /** What each stage of exit_thread needs from the one before. */
  lemma ExitSteps(s: State, c: nat, p: Ptr)
    requires Inv(s) && Captured(s, c) && Alive(s, p) && p != s.eventProcessor && !IsIdle(s, p)
    ensures var s0 := MarkZombie(s, p);
            var s1 := Cancel(s0, p);
            && (forall e | e in s0.threads[p].events :: HasEvent(s0, e))
            && (forall e: nat | p in Waiters(s0, e) :: e in s0.threads[p].events)
            && c < |s1.locals| && (forall x | x in Waiters(s1, THREAD_JOINED) :: x in s1.threads)
            && var s2 := Notify(s1, c, THREAD_JOINED).0;
               && Core(s2) && Captured(s2, c) && p in s2.threads && !IsIdle(s2, p)
               && (s2.threads[p].runningOn.On? ==> s2.threads[p].runningOn.cpu < |s2.locals|)
               && Exit(s, c, p) == Sleep(s2, c, p)
  {
    ExitReach(s, p);
    hide QueuesOk, CurrentOk, IdleOk, Lists;
    CancelOk(s, p);
    var s1 := Cancel(MarkZombie(s, p), p);
    NotifyOk(s1, c, THREAD_JOINED, {p});
    NotifyFrame(s1, c, THREAD_JOINED);
    RunningInRange(Notify(s1, c, THREAD_JOINED).0, p);
  }

  lemma ExitReach(s: State, p: Ptr)
    requires Inv(s) && Alive(s, p)
    ensures var s0 := MarkZombie(s, p);
            && (forall e | e in s0.threads[p].events :: HasEvent(s0, e))
            && (forall e: nat | p in Waiters(s0, e) :: e in s0.threads[p].events)
  {
    var s0 := MarkZombie(s, p);
    forall e | e in s0.threads[p].events
      ensures HasEvent(s0, e)
    {
      EventsExist(s, p, e);
    }
    forall e: nat | p in Waiters(s0, e)
      ensures e in s0.threads[p].events
    {
      assert Mirrored(s, p);
      assert multiset(Waiters(s, e))[p] > 0;
      assert multiset(s.threads[p].events)[e] > 0;
    }
  }

  lemma SwitchReady(s: State, s1: State, c: nat)
    requires Core(s) && Outgoing(s, s1, c)
    ensures Captured(s1, c) && Core(Switch(s1, c))
    ensures var q := Requeue(s1, c);
            && c < |q.locals| && (forall n, p | 0 <= n < 5 && p in q.locals[c].queue[n] :: p in q.threads)
            && PickFrom(q, c, 0).Some? && PickFrom(q, c, 0).value in q.threads
  {
    hide Core, PickFrom, Requeue, Switch;
    SwitchCore(s, s1, c);
    RequeueOk(s, s1, c);
    QueuedExist(Requeue(s1, c), c);
    var n := SwitchPicks(s, s1, c);
  }

  lemma QueuedExist(s: State, c: nat)
    requires QueuesOk(s) && c < |s.locals|
    ensures forall n, p | 0 <= n < 5 && p in s.locals[c].queue[n] :: p in s.threads
  {
    forall n, p | 0 <= n < 5 && p in s.locals[c].queue[n]
      ensures p in s.threads
    {
      assert Placed(s, p, c, n);
    }
  }
}
