/** Every operation of the manager as a step, and the invariant over every run. */
module SchedulerRuns {
  import opened Collections
  import opened Scheduler
  import opened SchedulerInvariant
  import opened SchedulerSteps
  import opened SchedulerEvents
  import opened SchedulerMigration

  // ------------------------------------------------- slots of a dense map

  function FirstEmpty<T>(s: seq<Option<T>>): (i: nat)
    ensures i <= |s| && (i < |s| ==> s[i].None?)
    ensures forall k | 0 <= k < i :: s[k].Some?
  {
    if s == [] || s[0].None? then 0 else 1 + FirstEmpty(s[1..])
  }

  function Fill<T>(s: seq<Option<T>>, v: T): (r: seq<Option<T>>)
    ensures |s| <= |r| && FirstEmpty(s) < |r| && r[FirstEmpty(s)] == Some(v)
    ensures forall k | 0 <= k < |r| && k != FirstEmpty(s) :: k < |s| && r[k] == s[k]
  {
    var i := FirstEmpty(s);
    if i < |s| then s[i := Some(v)] else s + [Some(v)]
  }

  predicate HasProcess(s: State, pid: nat) {
    pid < |s.processes| && s.processes[pid].Some?
  }

  datatype Found = Found(p: Ptr) | Missing(code: Code)

  function FindThread(s: State, pid: nat, tid: nat): Found {
    if !HasProcess(s, pid) then Missing(NoSuchProcess)
    else
      var ts := s.processes[pid].value;
      if tid < |ts| && ts[tid].Some? then Found(ts[tid].value) else Missing(NoSuchThread)
  }

  function FindAlive(s: State, pid: nat, tid: nat): Found {
    var f := FindThread(s, pid, tid);
    if f.Found? && f.p in s.threads && s.threads[f.p].zombie then Missing(DeadThread) else f
  }

  // ------------------------------------------------ creating and destroying

  function NewThread(pid: nat, tid: nat, entry: Entry, movable: bool): Thread {
    Thread(pid, tid, entry, Nowhere, [], 0, 0, 0, false, movable)
  }

  function AddThread(s: State, pid: nat, p: Ptr, entry: Entry, movable: bool): (r: State)
    requires HasProcess(s, pid)
  {
    var ts := s.processes[pid].value;
    s.(threads := s.threads[p := NewThread(pid, FirstEmpty(ts), entry, movable)],
       processes := s.processes[pid := Some(Fill(ts, p))])
  }

  function FreeThread(s: State, p: Ptr): (r: State)
    requires p in s.threads && Slot(s, s.threads[p].pid, s.threads[p].id, p)
  {
    var t := s.threads[p];
    s.(threads := s.threads - {p},
       processes := s.processes[t.pid := Some(s.processes[t.pid].value[t.id := None])])
  }

  function FreeProcess(s: State, pid: nat): (r: State)
    requires HasProcess(s, pid)
  {
    s.(processes := s.processes[pid := None])
  }

  function Exit(s: State, c: nat, p: Ptr): (r: State)
    requires Inv(s) && Captured(s, c) && Alive(s, p) && p != s.eventProcessor && !IsIdle(s, p)
    ensures r.threads.Keys == s.threads.Keys
  {
    hide QueuesOk, CurrentOk, IdleOk, Lists;
    CancelOk(s, p);
    var s1 := Cancel(MarkZombie(s, p), p);
    NotifyOk(s1, c, THREAD_JOINED, {p});
    var s2 := Notify(s1, c, THREAD_JOINED).0;
    NotifyFrame(s1, c, THREAD_JOINED);
    RunningInRange(s2, p);
    Sleep(s2, c, p)
  }

  lemma {:induction false} WakeupEachFrame(s: State, c: nat, e: nat, ps: seq<Ptr>)
    requires c < |s.locals| && forall p | p in ps :: p in s.threads
    ensures var r := WakeupEach(s, c, e, ps);
            && (forall i | 0 <= i < |s.locals| :: r.locals[i].current == s.locals[i].current)
            && (forall p | p in s.threads :: r.threads[p].entry == s.threads[p].entry)
            && r.eventProcessor == s.eventProcessor && r.tick == s.tick
    decreases |ps|
  {
    if ps != [] {
      var t := s.threads[ps[0]];
      var s1 := SetThread(s, ps[0], t.(events := EraseAll(t.events, e)));
      assert forall p | p in ps[1..] :: p in ps;
      assert forall i | 0 <= i < |s.locals| :: Wakeup(s1, c, ps[0]).locals[i].current == s.locals[i].current;
      WakeupEachFrame(Wakeup(s1, c, ps[0]), c, e, ps[1..]);
    }
  }

  /** Notifying changes neither what the processors run nor which threads exist. */
  lemma NotifyFrame(s: State, c: nat, e: nat)
    requires c < |s.locals| && forall p | p in Waiters(s, e) :: p in s.threads
    ensures var r := Notify(s, c, e).0;
            && r.threads.Keys == s.threads.Keys && |r.locals| == |s.locals|
            && (forall i | 0 <= i < |s.locals| :: r.locals[i].current == s.locals[i].current)
            && (forall p | p in s.threads :: r.threads[p].entry == s.threads[p].entry)
            && r.eventProcessor == s.eventProcessor && r.tick == s.tick
  {
    if HasEvent(s, e) {
      WakeupEachFrame(s.(events := s.events[e := Some([])]), c, e, s.events[e].value);
    }
  }

  lemma RunningInRange(s: State, p: Ptr)
    requires QueuesOk(s) && p in s.threads
    ensures s.threads[p].runningOn.On? ==> s.threads[p].runningOn.cpu < |s.locals|
  {
  }

  lemma ExitOk(s: State, c: nat, p: Ptr)
    requires Inv(s) && Captured(s, c) && Alive(s, p) && p != s.eventProcessor && !IsIdle(s, p)
    requires forall i | 0 <= i < |s.locals| && i != c :: s.locals[i].current != Some(p)
    ensures Inv(Exit(s, c, p))
  {
    hide QueuesOk, CurrentOk, IdleOk, Lists;
    CancelOk(s, p);
    var s1 := Cancel(MarkZombie(s, p), p);
    NotifyOk(s1, c, THREAD_JOINED, {p});
    var s2 := Notify(s1, c, THREAD_JOINED).0;
    NotifyFrame(s1, c, THREAD_JOINED);
    RunningInRange(s2, p);
    assert {p} - {p} == {};
    SleepOk(s2, c, p, {p});
  }

  /** An exit keeps the scheduler consistent exactly when no other processor is running the thread. */
  lemma ExitKeepsExactly(s: State, c: nat, p: Ptr)
    requires Inv(s) && Captured(s, c) && Alive(s, p) && p != s.eventProcessor && !IsIdle(s, p)
    ensures Inv(Exit(s, c, p)) <==> OnlyHere(s, c, p)
  {
    hide QueuesOk, CurrentOk, IdleOk, Lists, Notify, Sleep;
    if OnlyHere(s, c, p) {
      ExitOk(s, c, p);
    } else {
      CancelOk(s, p);
      var s1 := Cancel(MarkZombie(s, p), p);
      NotifyOk(s1, c, THREAD_JOINED, {p});
      var s2 := Notify(s1, c, THREAD_JOINED).0;
      NotifyFrame(s1, c, THREAD_JOINED);
      RunningInRange(s2, p);
      SleepKeepsExactly(s2, c, p, {p});
      assert !Core(Sleep(s2, c, p));
    }
  }

  lemma AddThreadTable(s: State, pid: nat, p: Ptr, entry: Entry, movable: bool)
    requires TableOk(s) && HasProcess(s, pid) && p !in s.threads
    ensures TableOk(AddThread(s, pid, p, entry, movable))
  {
    var r := AddThread(s, pid, p, entry, movable);
    var tid := FirstEmpty(s.processes[pid].value);
    forall pid': nat, tid': nat, q | Slot(r, pid', tid', q)
      ensures q in r.threads && r.threads[q].pid == pid' && r.threads[q].id == tid'
    {
      if pid' == pid && tid' == tid {
        assert q == p;
      } else {
        assert Slot(s, pid', tid', q);
      }
    }
    forall q | q in r.threads
      ensures Slot(r, r.threads[q].pid, r.threads[q].id, q)
    {
      if q != p {
        assert Slot(s, s.threads[q].pid, s.threads[q].id, q);
      }
    }
  }

  lemma AddThreadCore(s: State, pid: nat, p: Ptr, entry: Entry, movable: bool)
    requires Core(s) && HasProcess(s, pid) && p !in s.threads && (entry.IdleMain? ==> !movable)
    ensures Core(AddThread(s, pid, p, entry, movable))
  {
    var r := AddThread(s, pid, p, entry, movable);
    assert forall q, c, n :: Placed(s, q, c, n) ==> Placed(r, q, c, n);
    forall c | 0 <= c < |r.locals| && r.locals[c].current.Some?
      ensures HasIdle(r, c)
    {
      assert HasIdle(s, c);
      var q :| IdleOn(s, q, c);
      assert IdleOn(r, q, c);
    }
  }

  lemma AddThreadEvents(s: State, pid: nat, p: Ptr, entry: Entry, movable: bool)
    requires EventsOk(s) && HasProcess(s, pid) && p !in s.threads
    ensures EventsOk(AddThread(s, pid, p, entry, movable))
  {
    var r := AddThread(s, pid, p, entry, movable);
    assert forall e: nat :: Waiters(r, e) == Waiters(s, e);
    assert forall e: nat :: !WaitsFor(s, p, e);
    forall e: nat, q | WaitsFor(r, q, e)
      ensures Alive(r, q)
    {
      assert WaitsFor(s, q, e);
    }
    forall q | Alive(r, q)
      ensures Mirrored(r, q)
    {
      if q != p {
        assert Mirrored(s, q);
      } else {
        forall e: nat
          ensures multiset(Waiters(r, e))[p] == multiset(r.threads[p].events)[e]
        {
          assert !WaitsFor(s, p, e);
        }
      }
    }
  }

  lemma AddThreadOk(s: State, pid: nat, p: Ptr, entry: Entry, movable: bool)
    requires Inv(s) && HasProcess(s, pid) && p !in s.threads && (entry.IdleMain? ==> !movable)
    ensures Inv(AddThread(s, pid, p, entry, movable)) && Alive(AddThread(s, pid, p, entry, movable), p)
  {
    hide Core, EventsOk, TableOk;
    AddThreadCore(s, pid, p, entry, movable);
    AddThreadEvents(s, pid, p, entry, movable);
    AddThreadTable(s, pid, p, entry, movable);
  }

  /** A zombie can be freed: nothing in the scheduler refers to it any more. */
  lemma ZombieIsUnreferenced(s: State, p: Ptr)
    requires Inv(s) && p in s.threads && s.threads[p].zombie
    ensures Unreferenced(s, p)
  {
    forall c, n | 0 <= c < |s.locals| && 0 <= n < 5
      ensures p !in s.locals[c].queue[n]
    {
      assert !Placed(s, p, c, n);
    }
    assert forall e: nat :: !WaitsFor(s, p, e);
  }

  lemma FreeThreadTable(s: State, p: Ptr)
    requires TableOk(s) && p in s.threads
    ensures Slot(s, s.threads[p].pid, s.threads[p].id, p) && TableOk(FreeThread(s, p))
  {
    var t := s.threads[p];
    assert Slot(s, t.pid, t.id, p);
    var r := FreeThread(s, p);
    forall pid: nat, tid: nat, q | Slot(r, pid, tid, q)
      ensures q in r.threads && r.threads[q].pid == pid && r.threads[q].id == tid
    {
      assert Slot(s, pid, tid, q);
    }
    forall q | q in r.threads
      ensures Slot(r, r.threads[q].pid, r.threads[q].id, q)
    {
      assert Slot(s, s.threads[q].pid, s.threads[q].id, q);
    }
  }

  lemma FreeThreadCore(s: State, p: Ptr)
    requires Core(s) && p in s.threads && Slot(s, s.threads[p].pid, s.threads[p].id, p)
    requires Unreferenced(s, p) && s.threads[p].runningOn.Nowhere?
    ensures Core(FreeThread(s, p))
  {
    var r := FreeThread(s, p);
    assert forall q, c, n | q != p :: Placed(s, q, c, n) ==> Placed(r, q, c, n);
    forall c | 0 <= c < |r.locals| && r.locals[c].current.Some?
      ensures HasIdle(r, c)
    {
      assert HasIdle(s, c);
      var q :| IdleOn(s, q, c);
      assert IdleOn(r, q, c);
    }
  }

  lemma FreeThreadEvents(s: State, p: Ptr)
    requires EventsOk(s) && p in s.threads && Slot(s, s.threads[p].pid, s.threads[p].id, p) && Unreferenced(s, p)
    ensures EventsOk(FreeThread(s, p))
  {
    var r := FreeThread(s, p);
    assert forall e: nat, q :: WaitsFor(r, q, e) == WaitsFor(s, q, e);
    forall q | Alive(r, q)
      ensures Mirrored(r, q)
    {
      assert Mirrored(s, q);
      assert forall e: nat :: Waiters(r, e) == Waiters(s, e);
    }
  }

  lemma FreeThreadOk(s: State, p: Ptr)
    requires Inv(s) && p in s.threads && s.threads[p].zombie
    ensures Slot(s, s.threads[p].pid, s.threads[p].id, p) && Inv(FreeThread(s, p))
  {
    ZombieIsUnreferenced(s, p);
    FreeThreadTable(s, p);
    assert s.threads[p].runningOn.Nowhere?;
    assert forall e: nat :: Waiters(FreeThread(s, p), e) == Waiters(s, e);
    hide Core, EventsOk, TableOk, Unreferenced;
    FreeThreadCore(s, p);
    FreeThreadEvents(s, p);
  }

  lemma ProcessesOk(s: State, pid: nat, v: Option<seq<Option<Ptr>>>)
    requires Inv(s) && pid <= |s.processes|
    requires v.None? || forall t | 0 <= t < |v.value| :: v.value[t].None?
    requires pid < |s.processes| && s.processes[pid].Some? ==> forall t | 0 <= t < |s.processes[pid].value| ::
             s.processes[pid].value[t].None?
    ensures pid < |s.processes| ==> Inv(s.(processes := s.processes[pid := v]))
    ensures pid == |s.processes| ==> Inv(s.(processes := s.processes + [v]))
  {
    var r := s.(processes := if pid < |s.processes| then s.processes[pid := v] else s.processes + [v]);
    assert forall pid', tid, q :: Slot(r, pid', tid, q) <==> Slot(s, pid', tid, q);
    assert TableOk(r);
    hide QueuesOk, CurrentOk, IdleOk, TableOk, EventsOk;
    CoreKept(s, r);
    EventsKept(s, r);
  }

  lemma CreateProcessOk(s: State)
    requires Inv(s)
    ensures Inv(s.(processes := Fill(s.processes, [])))
  {
    ProcessesOk(s, FirstEmpty(s.processes), Some([]));
  }

  lemma EventSlotsOk(s: State, r: State)
    requires Inv(s) && r == s.(events := r.events) && forall e: nat :: Waiters(r, e) == Waiters(s, e)
    ensures Inv(r)
  {
    assert EventsOk(r) by {
      assert forall e: nat, q :: WaitsFor(r, q, e) == WaitsFor(s, q, e);
      forall q | Alive(r, q)
        ensures Mirrored(r, q)
      {
        assert Mirrored(s, q);
      }
    }
    hide QueuesOk, CurrentOk, IdleOk, TableOk, EventsOk;
    CoreKept(s, r);
    TableKept(s, r);
  }

  lemma CreateEventOk(s: State)
    requires Inv(s)
    ensures Inv(s.(events := Fill(s.events, [])))
  {
    EventSlotsOk(s, s.(events := Fill(s.events, [])));
  }

  lemma DeleteEventOk(s: State, e: nat)
    requires Inv(s) && HasEvent(s, e) && s.events[e].value == []
    ensures Inv(s.(events := s.events[e := None]))
  {
    EventSlotsOk(s, s.(events := s.events[e := None]));
  }

  // ------------------------------------------------- bringing processors up

  const FRESH := Local(None, [[], [], [], [], []])

  function Expand(s: State, n: nat): (r: State) {
    s.(locals := s.locals + seq(n, _ => FRESH))
  }

  lemma ExpandOk(s: State, n: nat)
    requires Inv(s)
    ensures Inv(Expand(s, n))
  {
    var r := Expand(s, n);
    assert forall q, c, k :: Placed(s, q, c, k) ==> Placed(r, q, c, k);
    assert QueuesOk(r) && CurrentOk(r);
    assert IdleOk(r) by {
      forall c | 0 <= c < |r.locals| && r.locals[c].current.Some?
        ensures HasIdle(r, c)
      {
        assert HasIdle(s, c);
        var q :| IdleOn(s, q, c);
        assert IdleOn(r, q, c);
      }
    }
    hide QueuesOk, CurrentOk, IdleOk, TableOk, EventsOk;
    EventsKept(s, r);
    TableKept(s, r);
  }

  function SetCurrent(s: State, c: nat, p: Ptr): State
    requires c < |s.locals|
  {
    s.(locals := s.locals[c := s.locals[c].(current := Some(p))])
  }

  /** capture_context: the running code becomes a thread, and an idle thread joins it. */
  function Capture(s: State, c: nat, pid: nat, p: Ptr, idle: Ptr): (r: State)
    requires c < |s.locals| && HasProcess(s, pid) && p != idle
  {
    var s1 := Wakeup(AddThread(s, pid, p, NoEntry, false), c, p);
    var s2 := Wakeup(AddThread(s1, pid, idle, IdleMain, false), c, idle);
    SetCurrent(s2, c, p)
  }

  lemma SetCurrentOk(s: State, c: nat, p: Ptr, idle: Ptr)
    requires Inv(s) && c < |s.locals| && p in s.threads && s.threads[p].runningOn == On(c) && IdleOn(s, idle, c)
    ensures Inv(SetCurrent(s, c, p))
  {
    var r := SetCurrent(s, c, p);
    assert CurrentOk(r);
    assert IdleOk(r) by {
      assert IdleOn(r, idle, c);
      forall c' | 0 <= c' < |r.locals| && r.locals[c'].current.Some?
        ensures HasIdle(r, c')
      {
        if c' != c {
          assert HasIdle(s, c');
          var q :| IdleOn(s, q, c');
          assert IdleOn(r, q, c');
        }
      }
    }
    hide QueuesOk, CurrentOk, IdleOk, TableOk, EventsOk;
    QueuesKept(s, r);
    EventsKept(s, r);
    TableKept(s, r);
  }

  lemma CaptureOk(s: State, c: nat, pid: nat, p: Ptr, idle: Ptr)
    requires Inv(s) && c < |s.locals| && HasProcess(s, pid)
    requires p != idle && p !in s.threads && idle !in s.threads
    ensures Inv(Capture(s, c, pid, p, idle)) && Captured(Capture(s, c, pid, p, idle), c)
  {
    hide Inv, Core, Lists;
    var a := AddThread(s, pid, p, NoEntry, false);
    var s1 := Wakeup(a, c, p);
    var b := AddThread(s1, pid, idle, IdleMain, false);
    var s2 := Wakeup(b, c, idle);
    AddThreadOk(s, pid, p, NoEntry, false);
    WakeupInv(a, c, p);
    AddThreadOk(s1, pid, idle, IdleMain, false);
    WakeupInv(b, c, idle);
    SetCurrentOk(s2, c, p, idle);
  }

  lemma WakeupInv(s: State, c: nat, p: Ptr)
    requires Inv(s) && c < |s.locals| && Alive(s, p)
    ensures Inv(Wakeup(s, c, p))
  {
    WakeupOk(s, c, p, {});
  }

  /** The manager's constructor on the boot processor. */
  function Boot(p: Ptr, idle: Ptr): (s: State)
    requires p != idle
  {
    Capture(State(0, map[], [Some([])], [FRESH], [Some([]), Some([])], p), 0, 0, p, idle)
  }

  lemma BootOk(p: Ptr, idle: Ptr)
    requires p != idle
    ensures Inv(Boot(p, idle)) && Captured(Boot(p, idle), 0)
  {
    var s := State(0, map[], [Some([])], [FRESH], [Some([]), Some([])], p);
    var a := AddThread(s, 0, p, NoEntry, false);
    assert Inv(a) by {
      var none: seq<Option<Ptr>> := [];
      assert Fill(none, p) == none + [Some(p)] == [Some(p)];
      assert a.processes == [Some([Some(p)])];
      assert forall e: nat :: Waiters(a, e) == [];
    }
    hide Inv, Core, Lists;
    var s1 := Wakeup(a, 0, p);
    var b := AddThread(s1, 0, idle, IdleMain, false);
    WakeupInv(a, 0, p);
    AddThreadOk(s1, 0, idle, IdleMain, false);
    WakeupInv(b, 0, idle);
    SetCurrentOk(Wakeup(b, 0, idle), 0, p, idle);
  }

  // ------------------------------------------------------------- operations

  datatype Op =
    | OpCreateProcess
    | OpCreateThread(pid: nat, entry: Entry, ptr: Ptr)
    | OpWakeup(c: nat, pid: nat, tid: nat)
    | OpSleep(c: nat, pid: nat, tid: nat)
    | OpSleepThis(c: nat)
    | OpSuspend(c: nat, pid: nat, tid: nat, ms: nat)
    | OpSuspendThis(c: nat, ms: nat)
    | OpExit(c: nat, pid: nat, tid: nat)
    | OpExitThis(c: nat)
    | OpWaitThread(c: nat, pid: nat, tid: nat)
    | OpWaitProcess(c: nat, pid: nat)
    | OpCreateEvent
    | OpDeleteEvent(e: nat)
    | OpWaitEvents(c: nat, es: seq<nat>)
    | OpUnwaitEvents(c: nat, es: seq<nat>)
    | OpNotify(c: nat, e: nat)
    | OpTimer(c: nat, first: bool, acquired: bool, message: bool, passes: nat)
    | OpPostMessage(c: nat, acquired: bool)
    | OpExpand(n: nat)
    | OpCapture(c: nat, pid: nat, main: Ptr, idle: Ptr)

  /** No processor but `c` is running `p`. */
  ghost predicate OnlyHere(s: State, c: nat, p: Ptr) {
    forall i | 0 <= i < |s.locals| && i != c :: s.locals[i].current != Some(p)
  }

  /** Processor `c` runs a thread that may block: idle threads only halt. */
  ghost predicate Blocking(s: State, c: nat) {
    Captured(s, c) && !IsIdle(s, Current(s, c))
  }

  /** The timer's state once the tick is counted and pending messages have woken the kernel thread. */
  function Ticked(s: State, c: nat, first: bool, message: bool): (r: State)
    requires c < |s.locals| && s.eventProcessor in s.threads
    ensures |r.locals| == |s.locals|
  {
    var s1 := if first then s.(tick := s.tick + 1) else s;
    if first && message then Wakeup(s1, c, s.eventProcessor) else s1
  }

  predicate MigrationDue(s: State, first: bool) {
    first && (s.tick + 1) % 500 == 0
  }

  /**
   What the callers of the manager respect: sleep and exit are aimed at the
   calling thread or at one no other processor is running; idle threads are
   never put to sleep, suspended or ended; the kernel's message thread never
   ends; and a timer step whose migration never returns is not a step.
   */
  ghost predicate Enabled(s: State, op: Op) {
    match op
    case OpCreateProcess => true
    case OpCreateThread(_, entry, ptr) => ptr !in s.threads && !entry.IdleMain?
    case OpWakeup(c, _, _) => c < |s.locals|
    case OpSleep(c, pid, tid) =>
      Captured(s, c) && var f := FindThread(s, pid, tid); f.Found? ==> OnlyHere(s, c, f.p) && !IsIdle(s, f.p)
    case OpSleepThis(c) => Blocking(s, c)
    case OpSuspend(c, pid, tid, _) =>
      Captured(s, c) && var f := FindAlive(s, pid, tid); f.Found? ==> !IsIdle(s, f.p)
    case OpSuspendThis(c, _) => Blocking(s, c)
    case OpExit(c, pid, tid) =>
      Captured(s, c) && var f := FindAlive(s, pid, tid);
      f.Found? ==> OnlyHere(s, c, f.p) && !IsIdle(s, f.p) && f.p != s.eventProcessor
    case OpExitThis(c) => Blocking(s, c) && Current(s, c) != s.eventProcessor
    case OpWaitThread(c, _, _) => Blocking(s, c)
    case OpWaitProcess(c, _) => Blocking(s, c)
    case OpCreateEvent => true
    case OpDeleteEvent(_) => true
    case OpWaitEvents(c, _) => Blocking(s, c)
    case OpUnwaitEvents(c, _) => Captured(s, c)
    case OpNotify(c, _) => c < |s.locals|
    case OpTimer(c, first, acquired, message, passes) =>
      Captured(s, c) && s.eventProcessor in s.threads &&
      (acquired && MigrationDue(s, first) ==> Migrate(Ticked(s, c, first, message), passes).Some?)
    case OpPostMessage(c, _) => c < |s.locals|
    case OpExpand(_) => true
    case OpCapture(c, pid, main, idle) =>
      && c < |s.locals| && s.locals[c].current.None? && HasProcess(s, pid)
      && main != idle && main !in s.threads && idle !in s.threads
  }

  lemma CurrentIsAlive(s: State, c: nat)
    requires Inv(s) && Captured(s, c)
    ensures Alive(s, Current(s, c)) && s.threads[Current(s, c)].runningOn == On(c) && OnlyHere(s, c, Current(s, c))
  {
  }

  lemma FoundIsThread(s: State, pid: nat, tid: nat)
    requires Inv(s)
    ensures var f := FindThread(s, pid, tid); f.Found? ==> f.p in s.threads
    ensures var f := FindAlive(s, pid, tid); f.Found? ==> Alive(s, f.p)
  {
    var f := FindThread(s, pid, tid);
    if f.Found? {
      assert Slot(s, pid, tid, f.p);
    }
  }

  function WaitEvents(s: State, c: nat, es: seq<nat>): (r: (State, Code))
    requires Inv(s) && Captured(s, c)
    ensures r.0.threads.Keys == s.threads.Keys
  {
    CurrentIsAlive(s, c);
    var p := Current(s, c);
    var (s1, code) := PushWaiters(s, es, p);
    if code == Success then (Sleep(s1, c, p), Success) else (s1, code)
  }

  function AllEmpty(ts: seq<Option<Ptr>>): bool {
    forall i | 0 <= i < |ts| :: ts[i].None?
  }

  function Migrated(s: State, passes: nat): State {
    var m := Migrate(s, passes);
    if m.Some? then m.value.s else s
  }

  function Timer(s: State, c: nat, first: bool, acquired: bool, message: bool, passes: nat): (r: State)
    requires Inv(s) && Captured(s, c) && s.eventProcessor in s.threads
    requires acquired && MigrationDue(s, first) ==> Migrate(Ticked(s, c, first, message), passes).Some?
    ensures r.threads.Keys == s.threads.Keys
  {
    if first && !acquired then s.(tick := s.tick + 1)
    else
      var s1 := Ticked(s, c, first, message);
      var s2 := if MigrationDue(s, first) then Migrated(s1, passes) else s1;
      TimerCaptured(s, c, first, message, passes);
      Switch(s2, c)
  }

  /** What the operations rely on to be well defined. */
  lemma Basics(s: State)
    requires Inv(s)
    ensures Alive(s, s.eventProcessor)
    ensures forall p | p in s.threads && s.threads[p].runningOn.On? :: s.threads[p].runningOn.cpu < |s.locals|
    ensures forall e: nat, p | p in Waiters(s, e) :: p in s.threads
  {
    assert forall e: nat, p | p in Waiters(s, e) :: WaitsFor(s, p, e);
  }

  lemma TickOk(s: State, tick: nat)
    requires Inv(s)
    ensures Inv(s.(tick := tick))
  {
    var r := s.(tick := tick);
    hide QueuesOk, CurrentOk, IdleOk, TableOk, EventsOk;
    CoreKept(s, r);
    EventsKept(s, r);
    TableKept(s, r);
  }

  lemma TickedOk(s: State, c: nat, first: bool, message: bool)
    requires Inv(s) && c < |s.locals| && s.eventProcessor in s.threads
    ensures Inv(Ticked(s, c, first, message))
    ensures forall i | 0 <= i < |s.locals| :: Ticked(s, c, first, message).locals[i].current == s.locals[i].current
    ensures Ticked(s, c, first, message).threads.Keys == s.threads.Keys
  {
    hide Inv;
    Basics(s);
    TickOk(s, s.tick + 1);
    var s1 := if first then s.(tick := s.tick + 1) else s;
    if first && message {
      WakeupInv(s1, c, s.eventProcessor);
    }
  }

  lemma TimerCaptured(s: State, c: nat, first: bool, message: bool, passes: nat)
    requires Inv(s) && Captured(s, c) && s.eventProcessor in s.threads
    requires MigrationDue(s, first) ==> Migrate(Ticked(s, c, first, message), passes).Some?
    ensures var s1 := Ticked(s, c, first, message);
            var s2 := if MigrationDue(s, first) then Migrated(s1, passes) else s1;
            Captured(s2, c) && Inv(s2) && s2.threads.Keys == s.threads.Keys
  {
    hide Inv, Ticked, Migrate;
    TickedOk(s, c, first, message);
    if MigrationDue(s, first) {
      MigrationConserves(Ticked(s, c, first, message), passes);
    }
  }

  /** One manager operation: the new state and the code it returns. */
  function Step(s: State, op: Op): (r: (State, Code))
    requires Inv(s) && Enabled(s, op)
  {
    hide Inv;
    Basics(s);
    match op
    case OpCreateProcess => (s.(processes := Fill(s.processes, [])), Success)
    case OpCreateThread(pid, entry, ptr) =>
      if HasProcess(s, pid) then (AddThread(s, pid, ptr, entry, true), Success) else (s, NoSuchProcess)
    case OpWakeup(c, pid, tid) =>
      var f := FindAlive(s, pid, tid);
      FoundIsThread(s, pid, tid);
      if f.Found? then (Wakeup(s, c, f.p), Success) else (s, f.code)
    case OpSleep(c, pid, tid) =>
      var f := FindThread(s, pid, tid);
      FoundIsThread(s, pid, tid);
      if f.Found? then (Sleep(s, c, f.p), Success) else (s, f.code)
    case OpSleepThis(c) => CurrentIsAlive(s, c); (Sleep(s, c, Current(s, c)), Success)
    case OpSuspend(c, pid, tid, ms) =>
      var f := FindAlive(s, pid, tid);
      FoundIsThread(s, pid, tid);
      if f.Found? then (Suspend(s, c, f.p, MsToTick(ms)), Success) else (s, f.code)
    case OpSuspendThis(c, ms) => (Suspend(s, c, Current(s, c), MsToTick(ms)), Success)
    case OpExit(c, pid, tid) =>
      var f := FindAlive(s, pid, tid);
      FoundIsThread(s, pid, tid);
      if f.Found? then (Exit(s, c, f.p), Success) else (s, f.code)
    case OpExitThis(c) => CurrentIsAlive(s, c); (Exit(s, c, Current(s, c)), Success)
    case OpWaitThread(c, pid, tid) =>
      var f := FindThread(s, pid, tid);
      FoundIsThread(s, pid, tid);
      if f.Missing? then (s, f.code)
      else if s.threads[f.p].zombie then FreeThreadOk(s, f.p); (FreeThread(s, f.p), Success)
      else WaitEvents(s, c, [THREAD_JOINED])
    case OpWaitProcess(c, pid) =>
      if !HasProcess(s, pid) then (s, NoSuchProcess)
      else if AllEmpty(s.processes[pid].value) then (FreeProcess(s, pid), Success)
      else WaitEvents(s, c, [THREAD_JOINED])
    case OpCreateEvent => (s.(events := Fill(s.events, [])), Success)
    case OpDeleteEvent(e) =>
      if !HasEvent(s, e) then (s, NoSuchEvent)
      else if s.events[e].value != [] then (s, UnFinishedEvent)
      else (s.(events := s.events[e := None]), Success)
    case OpWaitEvents(c, es) => WaitEvents(s, c, es)
    case OpUnwaitEvents(c, es) => UnwaitAll(s, es, Current(s, c))
    case OpNotify(c, e) => Notify(s, c, e)
    case OpTimer(c, first, acquired, message, passes) =>
      (Timer(s, c, first, acquired, message, passes), Success)
    case OpPostMessage(c, acquired) => (if acquired then Wakeup(s, c, s.eventProcessor) else s, Success)
    case OpExpand(n) => (Expand(s, n), Success)
    case OpCapture(c, pid, main, idle) => (Capture(s, c, pid, main, idle), Success)
  }

  lemma WaitEventsOk(s: State, c: nat, es: seq<nat>)
    requires Inv(s) && Blocking(s, c)
    ensures Inv(WaitEvents(s, c, es).0)
  {
    CurrentIsAlive(s, c);
    var p := Current(s, c);
    PushWaitersOk(s, es, p);
    var s1 := PushWaiters(s, es, p).0;
    hide Core, Lists;
    assert {} - {p} == {};
    SleepOk(s1, c, p, {});
  }

  lemma SuspendOk(s: State, c: nat, p: Ptr, ticks: nat)
    requires Inv(s) && Captured(s, c) && p in s.threads && !IsIdle(s, p)
    ensures Inv(Suspend(s, c, p, ticks))
  {
    hide Core, Lists;
    if ticks > 0 {
      var from := if s.tick == 0 then 1 else s.tick;
      var length := if s.tick == 0 then ticks - 1 else ticks;
      var s1 := SetThread(s, p, s.threads[p].(suspendFrom := from, suspendFor := length));
      EditThread(s, p, s1.threads[p], {});
      if p == Current(s, c) {
        SwitchOk(s1, c, {});
      }
    }
  }

  lemma SleepInv(s: State, c: nat, p: Ptr)
    requires Inv(s) && Captured(s, c) && p in s.threads && !IsIdle(s, p) && OnlyHere(s, c, p)
    ensures Inv(Sleep(s, c, p))
  {
    SleepOk(s, c, p, {});
    assert {} - {p} == {};
  }

  /** Every operation keeps the invariant. */
  lemma StepOk(s: State, op: Op)
    requires Inv(s) && Enabled(s, op)
    ensures Inv(Step(s, op).0)
  {
    hide Core, Lists;
    match op
    case OpCreateProcess => CreateProcessOk(s);
    case OpCreateThread(pid, entry, ptr) =>
      if HasProcess(s, pid) {
        AddThreadOk(s, pid, ptr, entry, true);
      }
    case OpWakeup(c, pid, tid) =>
      FoundIsThread(s, pid, tid);
      var f := FindAlive(s, pid, tid);
      if f.Found? {
        WakeupInv(s, c, f.p);
      }
    case OpSleep(c, pid, tid) =>
      FoundIsThread(s, pid, tid);
      var f := FindThread(s, pid, tid);
      if f.Found? {
        SleepInv(s, c, f.p);
      }
    case OpSleepThis(c) => CurrentIsAlive(s, c); SleepInv(s, c, Current(s, c));
    case OpSuspend(c, pid, tid, ms) =>
      FoundIsThread(s, pid, tid);
      var f := FindAlive(s, pid, tid);
      if f.Found? {
        SuspendOk(s, c, f.p, MsToTick(ms));
      }
    case OpSuspendThis(c, ms) => SuspendOk(s, c, Current(s, c), MsToTick(ms));
    case OpExit(c, pid, tid) =>
      FoundIsThread(s, pid, tid);
      var f := FindAlive(s, pid, tid);
      if f.Found? {
        ExitOk(s, c, f.p);
      }
    case OpExitThis(c) => CurrentIsAlive(s, c); ExitOk(s, c, Current(s, c));
    case OpWaitThread(c, pid, tid) =>
      FoundIsThread(s, pid, tid);
      var f := FindThread(s, pid, tid);
      if f.Found? {
        if s.threads[f.p].zombie { FreeThreadOk(s, f.p); } else { WaitEventsOk(s, c, [THREAD_JOINED]); }
      }
    case OpWaitProcess(c, pid) =>
      if HasProcess(s, pid) {
        if AllEmpty(s.processes[pid].value) { ProcessesOk(s, pid, None); } else { WaitEventsOk(s, c, [THREAD_JOINED]); }
      }
    case OpCreateEvent => CreateEventOk(s);
    case OpDeleteEvent(e) =>
      if HasEvent(s, e) && s.events[e].value == [] {
        DeleteEventOk(s, e);
      }
    case OpWaitEvents(c, es) => WaitEventsOk(s, c, es);
    case OpUnwaitEvents(c, es) => CurrentIsAlive(s, c); UnwaitAllOk(s, es, Current(s, c));
    case OpNotify(c, e) => NotifyOk(s, c, e, {});
    case OpTimer(c, first, acquired, message, passes) => TimerOk(s, c, first, acquired, message, passes);
    case OpPostMessage(c, acquired) =>
      if acquired {
        Basics(s);
        WakeupInv(s, c, s.eventProcessor);
      }
    case OpExpand(n) => ExpandOk(s, n);
    case OpCapture(c, pid, main, idle) => CaptureOk(s, c, pid, main, idle);
  }

  lemma TimerOk(s: State, c: nat, first: bool, acquired: bool, message: bool, passes: nat)
    requires Inv(s) && Captured(s, c) && s.eventProcessor in s.threads
    requires acquired && MigrationDue(s, first) ==> Migrate(Ticked(s, c, first, message), passes).Some?
    ensures Inv(Timer(s, c, first, acquired, message, passes))
  {
    hide Core, Lists;
    if first && !acquired {
      TickedOk(s, c, true, false);
    } else {
      TimerCaptured(s, c, first, message, passes);
      var s1 := Ticked(s, c, first, message);
      var s2 := if MigrationDue(s, first) then Migrated(s1, passes) else s1;
      SwitchOk(s2, c, {});
    }
  }

  // ------------------------------------------------------------------- runs

  /** `ops` can be carried out one after another from `s`. */
  ghost predicate Admissible(s: State, ops: seq<Op>)
    requires Inv(s)
    decreases |ops|
  {
    ops != [] ==> Enabled(s, ops[0]) && (StepOk(s, ops[0]); Admissible(Step(s, ops[0]).0, ops[1..]))
  }

  ghost function Run(s: State, ops: seq<Op>): State
    requires Inv(s) && Admissible(s, ops)
    decreases |ops|
  {
    if ops == [] then s else StepOk(s, ops[0]); Run(Step(s, ops[0]).0, ops[1..])
  }

  lemma {:induction false} RunKeepsInv(s: State, ops: seq<Op>)
    requires Inv(s) && Admissible(s, ops)
    ensures Inv(Run(s, ops))
    decreases |ops|
  {
    if ops != [] {
      StepOk(s, ops[0]);
      RunKeepsInv(Step(s, ops[0]).0, ops[1..]);
    }
  }

  ghost predicate BootRun(p: Ptr, idle: Ptr, ops: seq<Op>) {
    p != idle && (BootOk(p, idle); Admissible(Boot(p, idle), ops))
  }

  /**
   Every state reachable from boot, on any number of processors, satisfies the
   invariant; the operation after it cannot fail to find a thread to run.
   */
  lemma ReachableOk(p: Ptr, idle: Ptr, ops: seq<Op>)
    requires BootRun(p, idle, ops)
    ensures Inv(Boot(p, idle)) && Inv(Run(Boot(p, idle), ops))
  {
    BootOk(p, idle);
    RunKeepsInv(Boot(p, idle), ops);
  }
}
