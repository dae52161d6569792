/**
 The state in which migrate_threads hangs, reached from boot: four processors
 come up, three threads are created, the first runs on processor 3 when the
 other two are woken on processors 0 and 2, and 499 ticks are counted.
 */
module SchedulerHang {
  import opened Collections
  import opened Scheduler
  import opened SchedulerInvariant
  import opened SchedulerMigration
  import opened SchedulerRuns
  import opened SchedulerBalance
  import opened SchedulerReturns
  import opened SchedulerLivelock

  // --------------------------------------------------------- reachable states

  ghost predicate Reachable(s: State) {
    exists p, idle, ops {:trigger BootRun(p, idle, ops)} :: BootRun(p, idle, ops) && RunsTo(p, idle, ops, s)
  }

  ghost predicate RunsTo(p: Ptr, idle: Ptr, ops: seq<Op>, s: State)
    requires BootRun(p, idle, ops)
  {
    BootOk(p, idle);
    Run(Boot(p, idle), ops) == s
  }

  lemma ReachableInv(s: State)
    requires Reachable(s)
    ensures Inv(s)
  {
    hide Inv;
    var p, idle, ops :| BootRun(p, idle, ops) && RunsTo(p, idle, ops, s);
    ReachableOk(p, idle, ops);
  }

  lemma {:induction false} RunThen(s: State, ops: seq<Op>, op: Op)
    requires Inv(s) && Admissible(s, ops) && (RunKeepsInv(s, ops); Enabled(Run(s, ops), op))
    ensures Admissible(s, ops + [op]) && Inv(Run(s, ops)) && Run(s, ops + [op]) == Step(Run(s, ops), op).0
    decreases |ops|
  {
    hide Inv, Step, Enabled;
    RunKeepsInv(s, ops);
    if ops == [] {
      assert (ops + [op])[1..] == [];
      StepOk(s, op);
    } else {
      assert (ops + [op])[1..] == ops[1..] + [op];
      StepOk(s, ops[0]);
      RunThen(Step(s, ops[0]).0, ops[1..], op);
    }
  }

  lemma Onward(s: State, op: Op)
    requires Reachable(s) && (ReachableInv(s); Enabled(s, op))
    ensures Inv(s) && Reachable(Step(s, op).0)
  {
    hide Inv, Step, Enabled, Admissible, Run;
    ReachableInv(s);
    var p, idle, ops :| BootRun(p, idle, ops) && RunsTo(p, idle, ops, s);
    BootOk(p, idle);
    RunThen(Boot(p, idle), ops, op);
    assert BootRun(p, idle, ops + [op]) && RunsTo(p, idle, ops + [op], Step(s, op).0);
  }

  // ------------------------------------------------------- processors come up

  // Processor c runs its kernel thread 2c beside its idle thread 2c + 1.
  function Kernel(p: Ptr): Thread {
    Thread(0, p, if p % 2 == 1 then IdleMain else NoEntry, On(p / 2), [], 0, 0, 0, false, false)
  }

  function Cpu(current: Ptr, q: seq<Ptr>): Local { Local(Some(current), [[], [], q, [], []]) }

  function Slots(n: nat): seq<Option<Ptr>> { seq(n, p => Some(p)) }

  function Locals(k: nat): seq<Local> {
    seq(4, c requires 0 <= c => if c < k then Cpu(2 * c, [2 * c, 2 * c + 1]) else FRESH)
  }

  function Up(k: nat): State {
    State(0, map p: nat | p < 2 * k :: Kernel(p), [Some(Slots(2 * k))], Locals(k), [Some([]), Some([])], 0)
  }

  lemma {:induction false} AllTaken(s: seq<Option<Ptr>>)
    requires forall i | 0 <= i < |s| :: s[i].Some?
    ensures FirstEmpty(s) == |s|
  {
    if s != [] { AllTaken(s[1..]); }
  }

  lemma NextSlot(n: nat)
    ensures FirstEmpty(Slots(n)) == n && Fill(Slots(n), n) == Slots(n + 1)
  {
    AllTaken(Slots(n));
  }

  /** One kernel thread, pushed to the queue of its processor. */
  lemma Join(s: State, p: Ptr, c: nat, idle: bool, q: seq<Ptr>)
    requires s.processes == [Some(Slots(p))] && c < |s.locals| && s.locals[c].queue == [[], [], q, [], []]
    ensures var t := Thread(0, p, if idle then IdleMain else NoEntry, On(c), [], 0, 0, 0, false, false);
            Wakeup(AddThread(s, 0, p, if idle then IdleMain else NoEntry, false), c, p) ==
            s.(threads := s.threads[p := t], processes := [Some(Slots(p + 1))],
               locals := s.locals[c := s.locals[c].(queue := [[], [], q + [p], [], []])])
  {
    NextSlot(p);
    hide Fill, FirstEmpty, Slots;
    var a := AddThread(s, 0, p, if idle then IdleMain else NoEntry, false);
    var r := Wakeup(a, c, p);
    assert r.locals[c].queue == [[], [], q + [p], [], []];
  }

  lemma CaptureIs(s: State, c: nat, p: Ptr)
    requires s.processes == [Some(Slots(p))] && c < |s.locals| && s.locals[c] == FRESH
    ensures var r := Capture(s, c, 0, p, p + 1);
            && r == s.(threads := r.threads, processes := [Some(Slots(p + 2))],
                locals := s.locals[c := Cpu(p, [p, p + 1])])
            && r.threads == s.threads[p := Thread(0, p, NoEntry, On(c), [], 0, 0, 0, false, false)]
                                     [p + 1 := Thread(0, p + 1, IdleMain, On(c), [], 0, 0, 0, false, false)]
  {
    Join(s, p, c, false, []);
    var s1 := Wakeup(AddThread(s, 0, p, NoEntry, false), c, p);
    assert [] + [p] == [p];
    Join(s1, p + 1, c, true, [p]);
    assert [p] + [p + 1] == [p, p + 1];
  }

  lemma UpNext(k: nat)
    requires 1 <= k < 4
    ensures Capture(Up(k), k, 0, 2 * k, 2 * k + 1) == Up(k + 1)
  {
    hide Capture, Slots;
    CaptureIs(Up(k), k, 2 * k);
    UpThreads(k);
    assert Up(k).locals[k := Cpu(2 * k, [2 * k, 2 * k + 1])] == Locals(k + 1);
  }

  lemma UpThreads(k: nat)
    ensures Up(k).threads[2 * k := Thread(0, 2 * k, NoEntry, On(k), [], 0, 0, 0, false, false)]
                         [2 * k + 1 := Thread(0, 2 * k + 1, IdleMain, On(k), [], 0, 0, 0, false, false)] ==
            Up(k + 1).threads
  {
    assert Kernel(2 * k) == Thread(0, 2 * k, NoEntry, On(k), [], 0, 0, 0, false, false);
    assert Kernel(2 * k + 1) == Thread(0, 2 * k + 1, IdleMain, On(k), [], 0, 0, 0, false, false);
  }

  lemma FirstUp()
    ensures Expand(Boot(0, 1), 3) == Up(1)
  {
    var s := State(0, map[], [Some([])], [FRESH], [Some([]), Some([])], 0);
    assert Slots(0) == [];
    CaptureIs(s, 0, 0);
    hide Capture;
    var r := Expand(Boot(0, 1), 3);
    assert r.locals == Locals(1);
    assert r.threads == Up(1).threads;
  }

  lemma Reachable4()
    ensures Reachable(Up(4))
  {
    hide Capture, Inv, Boot;
    BootOk(0, 1);
    assert BootRun(0, 1, []) && RunsTo(0, 1, [], Boot(0, 1));
    Onward(Boot(0, 1), OpExpand(3));
    FirstUp();
    Comes(1);
    Comes(2);
    Comes(3);
  }

  lemma Comes(k: nat)
    requires 1 <= k < 4 && Reachable(Up(k))
    ensures Reachable(Up(k + 1))
  {
    hide Capture, Inv;
    UpNext(k);
    Onward(Up(k), OpCapture(k, 0, 2 * k, 2 * k + 1));
  }

  // ---------------------------------------------------- threads come and run

  function User(p: Ptr, at: Placement): Thread { Thread(0, p, UserEntry, at, [], 0, 0, 0, false, true) }

  function Resident(at: seq<Placement>, p: Ptr): Thread
    requires p < 8 + |at|
  {
    if p < 8 then Kernel(p) else User(p, at[p - 8])
  }

  /** Four processors, and beside their threads those from 8 on, at the places given. */
  function Town(at: seq<Placement>, locals: seq<Local>, tick: nat): State {
    State(tick, map p: nat | p < 8 + |at| :: Resident(at, p),
          [Some(Slots(8 + |at|))], locals, [Some([]), Some([])], 0)
  }

  lemma CreateIs(at: seq<Placement>, locals: seq<Local>)
    ensures AddThread(Town(at, locals, 0), 0, 8 + |at|, UserEntry, true) == Town(at + [Nowhere], locals, 0)
  {
    hide Slots, Fill, FirstEmpty, Kernel;
    NextSlot(8 + |at|);
    var s := Town(at, locals, 0);
    var r := AddThread(s, 0, 8 + |at|, UserEntry, true);
    var t := Town(at + [Nowhere], locals, 0);
    assert s.processes[0].value == Slots(8 + |at|);
    assert r.threads[8 + |at|] == User(8 + |at|, Nowhere);
    forall p | p in t.threads ensures p in r.threads && r.threads[p] == t.threads[p] {
      if p < 8 + |at| { assert Resident(at + [Nowhere], p) == Resident(at, p); }
    }
    assert r.threads == t.threads;
  }

  lemma Created(at: seq<Placement>, locals: seq<Local>)
    requires Reachable(Town(at, locals, 0))
    ensures Reachable(Town(at + [Nowhere], locals, 0))
  {
    hide Inv, AddThread;
    CreateIs(at, locals);
    Onward(Town(at, locals, 0), OpCreateThread(0, UserEntry, 8 + |at|));
  }

  lemma WakeIs(at: seq<Placement>, locals: seq<Local>, i: nat, c: nat, current: Ptr, q: seq<Ptr>)
    requires i < |at| && at[i].Nowhere? && c < |locals| && locals[c] == Cpu(current, q)
    ensures 8 + i in Town(at, locals, 0).threads
    ensures Wakeup(Town(at, locals, 0), c, 8 + i) == Town(at[i := On(c)], locals[c := Cpu(current, q + [8 + i])], 0)
  {
    hide Slots, Kernel;
    var s := Town(at, locals, 0);
    var p := 8 + i;
    assert s.threads[p] == Resident(at, p) == User(p, Nowhere);
    var r := Wakeup(s, c, p);
    var t := Town(at[i := On(c)], locals[c := Cpu(current, q + [p])], 0);
    forall x | x in t.threads ensures x in r.threads && r.threads[x] == t.threads[x] {
      if x != p { assert Resident(at[i := On(c)], x) == Resident(at, x); }
    }
    assert r.threads == t.threads;
    assert r.locals[c].queue == [[], [], q + [p], [], []];
    assert r.locals == t.locals;
  }

  lemma Woken(at: seq<Placement>, locals: seq<Local>, i: nat, c: nat, current: Ptr, q: seq<Ptr>)
    requires Reachable(Town(at, locals, 0))
    requires i < |at| && at[i].Nowhere? && c < |locals| && locals[c] == Cpu(current, q)
    ensures Reachable(Town(at[i := On(c)], locals[c := Cpu(current, q + [8 + i])], 0))
  {
    hide Inv, Wakeup, Kernel;
    var s := Town(at, locals, 0);
    assert Slots(8 + |at|)[8 + i] == Some(8 + i);
    assert s.threads[8 + i] == Resident(at, 8 + i);
    assert FindThread(s, 0, 8 + i) == Found(8 + i);
    WakeIs(at, locals, i, c, current, q);
    Onward(s, OpWakeup(c, 0, 8 + i));
  }

  /** A switch on a processor with three ready threads, the first of which it runs. */
  lemma SwitchIs(at: seq<Placement>, locals: seq<Local>, c: nat, x: Ptr, y: Ptr, z: Ptr)
    requires c < |locals| && locals[c] == Cpu(x, [x, y, z]) && x != y && x != z && y != z
    requires var s := Town(at, locals, 0);
             x in s.threads && y in s.threads && z in s.threads && s.threads[x].runningOn.On?
    ensures Switch(Town(at, locals, 0), c) == Town(at, locals[c := Cpu(y, [y, z, x])], 0)
  {
    hide Slots, EraseAll, Kernel;
    var s := Town(at, locals, 0);
    EraseFront(x, y, z);
    Neutral(at, locals, x);
    Neutral(at, locals, y);
    var q := Requeue(s, c);
    assert q.locals[c].queue == [[], [], [y, z, x], [], []];
    hide Requeue;
    assert q.threads == s.threads && q.tick == 0;
    assert FirstRunnable(q, [y, z, x]) == Some(y);
    assert PickFrom(q, c, 2) == Some(y);
    assert PickFrom(q, c, 0) == PickFrom(q, c, 1) == PickFrom(q, c, 2);
    assert Dispatch(q, c, y).threads == s.threads;
    assert Dispatch(q, c, y).locals == locals[c := Cpu(y, [y, z, x])];
  }

  lemma Neutral(at: seq<Placement>, locals: seq<Local>, p: Ptr)
    requires p in Town(at, locals, 0).threads
    ensures var t := Town(at, locals, 0).threads[p]; t.nice == 0 && t.suspendFrom == 0 && t.(suspendFrom := 0) == t
  {
  }

  lemma EraseFront(x: Ptr, y: Ptr, z: Ptr)
    requires x != y && x != z
    ensures EraseAll([x, y, z], x) + [x] == [y, z, x]
  {
    assert [x, y, z][1..] == [y, z];
    EraseAllAbsent([y, z], x);
  }

  lemma Switched(at: seq<Placement>, locals: seq<Local>, c: nat, x: Ptr, y: Ptr, z: Ptr)
    requires Reachable(Town(at, locals, 0))
    requires c < |locals| && locals[c] == Cpu(x, [x, y, z]) && x != y && x != z && y != z
    requires var s := Town(at, locals, 0);
             x in s.threads && y in s.threads && z in s.threads && s.threads[x].runningOn.On?
    ensures Reachable(Town(at, locals[c := Cpu(y, [y, z, x])], 0))
  {
    hide Inv, Switch, Kernel, Slots;
    SwitchIs(at, locals, c, x, y, z);
    Onward(Town(at, locals, 0), OpTimer(c, false, false, false, 0));
  }

  lemma TickIs(at: seq<Placement>, locals: seq<Local>, tick: nat)
    requires |locals| > 0 && locals[0].current == Some(0) && Inv(Town(at, locals, tick))
    ensures var s := Town(at, locals, tick);
            && Enabled(s, OpTimer(0, true, false, false, 0))
            && Step(s, OpTimer(0, true, false, false, 0)).0 == Town(at, locals, tick + 1)
  {
    hide Inv, Kernel, Slots, Migrate;
  }

  lemma {:induction false} Later(at: seq<Placement>, locals: seq<Local>, tick: nat)
    requires Reachable(Town(at, locals, 0)) && |locals| > 0 && locals[0].current == Some(0)
    ensures Reachable(Town(at, locals, tick))
  {
    hide Inv, Reachable, Slots, Kernel;
    if tick > 0 {
      Later(at, locals, tick - 1);
      ReachableInv(Town(at, locals, tick - 1));
      TickIs(at, locals, tick - 1);
      Onward(Town(at, locals, tick - 1), OpTimer(0, true, false, false, 0));
    }
  }

  // --------------------------------------------------------------- the result

  const JAM: seq<Local> := [Cpu(0, [0, 1, 9]), Cpu(2, [2, 3]), Cpu(4, [4, 5, 10]), Cpu(8, [8, 6, 7])]

  function Jam(tick: nat): State { Town([On(3), On(0), On(2)], JAM, tick) }

  lemma JamIsReachable(tick: nat)
    ensures Reachable(Jam(tick))
  {
    hide Town, Reachable;
    Reachable4();
    var l := Locals(4);
    assert Up(4) == Town([], l, 0) by { UpIsTown(); }
    var none := [Nowhere, Nowhere, Nowhere];
    assert [] + [Nowhere] == [Nowhere] && [Nowhere] + [Nowhere] == [Nowhere, Nowhere] &&
        [Nowhere, Nowhere] + [Nowhere] == none;
    Created([], l);
    Created([Nowhere], l);
    Created([Nowhere, Nowhere], l);
    assert l == [Cpu(0, [0, 1]), Cpu(2, [2, 3]), Cpu(4, [4, 5]), Cpu(6, [6, 7])];
    JamGathers(none, l, tick);
  }

  lemma UpIsTown()
    ensures Up(4) == Town([], Locals(4), 0)
  {
  }

  lemma JamGathers(none: seq<Placement>, l: seq<Local>, tick: nat)
    requires none == [Nowhere, Nowhere, Nowhere] && Reachable(Town(none, l, 0))
    requires l == [Cpu(0, [0, 1]), Cpu(2, [2, 3]), Cpu(4, [4, 5]), Cpu(6, [6, 7])]
    ensures Reachable(Jam(tick))
  {
    hide Reachable, Kernel, Slots;
    Woken(none, l, 0, 3, 6, [6, 7]);
    var at := none[0 := On(3)];
    var l1 := l[3 := Cpu(6, [6, 7, 8])];
    assert [6, 7] + [8] == [6, 7, 8];
    KernelRuns(at, l1, 6);
    KernelRuns(at, l1, 7);
    Switched(at, l1, 3, 6, 7, 8);
    var l2 := l1[3 := Cpu(7, [7, 8, 6])];
    KernelRuns(at, l2, 7);
    Switched(at, l2, 3, 7, 8, 6);
    var l3 := l2[3 := Cpu(8, [8, 6, 7])];
    Woken(at, l3, 1, 0, 0, [0, 1]);
    assert [0, 1] + [9] == [0, 1, 9];
    var l4 := l3[0 := Cpu(0, [0, 1, 9])];
    Woken(at[1 := On(0)], l4, 2, 2, 4, [4, 5]);
    assert [4, 5] + [10] == [4, 5, 10];
    assert l4[2 := Cpu(4, [4, 5, 10])] == JAM && at[1 := On(0)][2 := On(2)] == [On(3), On(0), On(2)];
    Later([On(3), On(0), On(2)], JAM, tick);
  }

  lemma KernelRuns(at: seq<Placement>, l: seq<Local>, p: Ptr)
    requires p < 8
    ensures p in Town(at, l, 0).threads && Town(at, l, 0).threads[p].runningOn.On?
  {
  }

  /** The threads of a processor that cannot be taken from it. */
  lemma JamPinned(tick: nat, c: nat)
    requires c < 4
    ensures Loads(Jam(tick)) == LOADS && PinnedOn(Jam(tick), c) == HELD.pinned[c]
  {
    hide Slots;
    var s := Jam(tick);
    forall p: nat | p < 11 ensures Takeable(s, c, p) <==> p >= 8 && s.locals[c].current != Some(p) {
      assert s.threads[p] == Resident([On(3), On(0), On(2)], p);
    }
    hide Takeable;
    assert Loads(s) == LOADS;
    StuckRow(s, c, s.locals[c].queue[2]);
  }

  lemma StuckRow(s: State, c: nat, q: seq<Ptr>)
    requires c < |s.locals| && 2 <= |q| <= 3
    ensures Stuck(s, c, q) == Counts(s, c, q[0]) + Counts(s, c, q[1]) + if |q| == 3 then Counts(s, c, q[2]) else 0
  {
    hide Takeable;
    var t := q[1..];
    assert t[1..] == q[2..] && (|q| == 3 ==> q[2..] == [q[2]] && q[2..][1..] == []);
    assert Stuck(s, c, q[2..]) == if |q| == 3 then Counts(s, c, q[2]) else 0;
  }

  function Counts(s: State, c: nat, p: Ptr): nat
    requires c < |s.locals|
  {
    if Takeable(s, c, p) then 0 else 1
  }

  /**
   The kernel reaches, from boot, a state whose next timer interrupt is due
   to migrate threads and whose migration never returns.
   */
  lemma MigrationMayNotReturn(passes: nat)
    ensures Reachable(Jam(499)) && MigrationDue(Jam(499), true)
    ensures Ticked(Jam(499), 0, true, false) == Jam(500) && Migrate(Jam(500), passes) == None
    ensures |Jam(500).locals| > 0 && !PinnedFit(Jam(500))
  {
    hide Reachable, PinnedOn, Migrate, Inv, Loads, Resident;
    JamIsReachable(499);
    JamIsReachable(500);
    ReachableInv(Jam(500));
    forall c | 0 <= c < 4 ensures PinnedOn(Jam(500), c) == HELD.pinned[c] { JamPinned(500, c); }
    JamPinned(500, 0);
    NumbersNeverReturn(Jam(500), passes);
  }
}
