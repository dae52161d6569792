/**
 The scheduler's state, and each operation of process::Manager as one function
 on that state.  `Thread*` values are pointers into `threads`; freeing a thread
 removes its pointer from that map, so a dangling pointer is one outside it.
 */
module Scheduler {
  import opened Collections

  type Ptr = nat
  type Nice = n: int | -2 <= n <= 2

  const LEVELS := 5
  const TWO64 := 0x1_0000_0000_0000_0000

  datatype Entry = NoEntry | IdleMain | UserEntry

  datatype Placement = Nowhere | On(cpu: nat)

  datatype Thread = Thread(
    pid: nat, id: nat, entry: Entry,
    runningOn: Placement, events: seq<nat>, nice: Nice,
    suspendFrom: nat, suspendFor: nat, zombie: bool, movable: bool)

  type RunQueue = q: seq<seq<Ptr>> | |q| == 5 witness [[], [], [], [], []]

  /** A processor; `current` is None until the processor has captured its context. */
  datatype Local = Local(current: Option<Ptr>, queue: RunQueue)

  datatype State = State(
    tick: nat,
    threads: map<Ptr, Thread>,
    processes: seq<Option<seq<Option<Ptr>>>>,
    locals: seq<Local>,
    events: seq<Option<seq<Ptr>>>,
    eventProcessor: Ptr)

  datatype Code =
    | Success | InvalidNice | NoSuchEvent | UnFinishedEvent | DeadThread | NoSuchProcess | NoSuchThread

  const THREAD_JOINED: nat := 0

  // ---------------------------------------------------------------- queues

  function Level(n: Nice): (i: nat)
    ensures i < 5
  {
    n + 2
  }

  function Queue(s: State, c: nat, n: nat): seq<Ptr>
    requires c < |s.locals| && n < 5
  {
    s.locals[c].queue[n]
  }

  function SetQueue(s: State, c: nat, n: nat, q: seq<Ptr>): (r: State)
    requires c < |s.locals| && n < 5
  {
    s.(locals := s.locals[c := s.locals[c].(queue := s.locals[c].queue[n := q])])
  }

  function SetThread(s: State, p: Ptr, t: Thread): (r: State) {
    s.(threads := s.threads[p := t])
  }

  function Push(s: State, c: nat, p: Ptr): (r: State)
    requires c < |s.locals| && p in s.threads
  {
    var n := Level(s.threads[p].nice);
    SetQueue(s, c, n, Queue(s, c, n) + [p])
  }

  function Erase(s: State, c: nat, p: Ptr): (r: State)
    requires c < |s.locals| && p in s.threads
  {
    var n := Level(s.threads[p].nice);
    SetQueue(s, c, n, EraseAll(Queue(s, c, n), p))
  }

  // ------------------------------------------------------- switching threads

  /** `elapsed` is computed in 64 bits, so a suspension in the future wraps. */
  predicate ShouldSkip(t: Thread, tick: nat) {
    t.suspendFrom != 0 && (tick - t.suspendFrom) % TWO64 < t.suspendFor
  }

  predicate Runnable(s: State, p: Ptr) {
    p in s.threads && !ShouldSkip(s.threads[p], s.tick)
  }

  /** The first runnable thread of a queue. */
  function FirstRunnable(s: State, q: seq<Ptr>): (r: Option<Ptr>)
    ensures r.Some? ==> r.value in q && Runnable(s, r.value)
    ensures r.None? <==> forall p | p in q :: !Runnable(s, p)
  {
    if q == [] then None
    else if Runnable(s, q[0]) then Some(q[0])
    else FirstRunnable(s, q[1..])
  }

  /** The first runnable thread at level `n` or a less urgent one. */
  function PickFrom(s: State, c: nat, n: nat): (r: Option<Ptr>)
    requires c < |s.locals| && n <= 5
    decreases 5 - n
  {
    if n == 5 then None
    else
      var r := FirstRunnable(s, Queue(s, c, n));
      if r.Some? then r else PickFrom(s, c, n + 1)
  }

  /** The outgoing thread goes to the back of its queue, or leaves it when it sleeps. */
  function Requeue(s: State, c: nat): (r: State)
    requires c < |s.locals| && s.locals[c].current.Some? && s.locals[c].current.value in s.threads
    ensures r.threads.Keys == s.threads.Keys
  {
    var p := s.locals[c].current.value;
    var e := Erase(s, c, p);
    if s.threads[p].runningOn.On? then Push(e, c, p) else e
  }

  function Dispatch(s: State, c: nat, p: Ptr): (r: State)
    requires c < |s.locals| && p in s.threads
    ensures r.threads.Keys == s.threads.Keys
  {
    SetThread(s, p, s.threads[p].(suspendFrom := 0))
      .(locals := s.locals[c := s.locals[c].(current := Some(p))])
  }

  predicate Captured(s: State, c: nat) {
    c < |s.locals| && s.locals[c].current.Some? && s.locals[c].current.value in s.threads
  }

  function Current(s: State, c: nat): Ptr
    requires Captured(s, c)
  {
    s.locals[c].current.value
  }

  /** update_this_thread; the kernel panics when nothing can be picked. */
  function Switch(s: State, c: nat): (r: State)
    requires Captured(s, c)
    ensures r.threads.Keys == s.threads.Keys
  {
    var q := Requeue(s, c);
    var p := PickFrom(q, c, 0);
    if p.Some? && p.value in q.threads then Dispatch(q, c, p.value) else q
  }

  // ------------------------------------------------------ wakeup and sleep

  function Wakeup(s: State, c: nat, p: Ptr): (r: State)
    requires c < |s.locals| && p in s.threads
    ensures r.threads.Keys == s.threads.Keys
  {
    if s.threads[p].runningOn.On? then s
    else Push(SetThread(s, p, s.threads[p].(runningOn := On(c))), c, p)
  }

  /** The locked wakeup that also sets a nice level. */
  function WakeupWithNice(s: State, c: nat, p: Ptr, nice: int): (r: (State, Code))
    requires c < |s.locals| && p in s.threads
  {
    if !(-2 <= nice <= 2) then (s, InvalidNice)
    else if s.threads[p].runningOn.On? then
      if s.threads[p].nice == nice then (s, Success)
      else (Push(SetThread(Erase(s, c, p), p, s.threads[p].(nice := nice)), c, p), Success)
    else (Push(SetThread(s, p, s.threads[p].(nice := nice, runningOn := On(c))), c, p), Success)
  }

  function Sleep(s: State, c: nat, p: Ptr): (r: State)
    requires Captured(s, c) && p in s.threads
    requires s.threads[p].runningOn.On? ==> s.threads[p].runningOn.cpu < |s.locals|
    ensures r.threads.Keys == s.threads.Keys
  {
    var t := s.threads[p];
    if t.runningOn.Nowhere? then s
    else
      var s1 := SetThread(s, p, t.(runningOn := Nowhere));
      if p == Current(s, c) then Switch(s1, c) else Erase(s1, t.runningOn.cpu, p)
  }

  function Suspend(s: State, c: nat, p: Ptr, ticks: nat): (r: State)
    requires Captured(s, c) && p in s.threads
    ensures r.threads.Keys == s.threads.Keys
  {
    if ticks == 0 then s
    else
      var from := if s.tick == 0 then 1 else s.tick;
      var length := if s.tick == 0 then ticks - 1 else ticks;
      var s1 := SetThread(s, p, s.threads[p].(suspendFrom := from, suspendFor := length));
      if p == Current(s, c) then Switch(s1, c) else s1
  }

  function MsToTick(ms: nat): (t: nat)
    ensures t < TWO64
  {
    (ms * 100) % TWO64 / 1000
  }

  // ----------------------------------------------------------------- events

  predicate HasEvent(s: State, e: nat) {
    e < |s.events| && s.events[e].Some?
  }

  function Waiters(s: State, e: nat): seq<Ptr> {
    if HasEvent(s, e) then s.events[e].value else []
  }

  function PushWaiter(s: State, e: nat, p: Ptr): (r: State)
    requires HasEvent(s, e) && p in s.threads
  {
    SetThread(s, p, s.threads[p].(events := s.threads[p].events + [e]))
      .(events := s.events[e := Some(s.events[e].value + [p])])
  }

  function PushWaiters(s: State, es: seq<nat>, p: Ptr): (r: (State, Code))
    requires p in s.threads
    ensures p in r.0.threads && r.0.locals == s.locals
    ensures r.0.threads[p].runningOn == s.threads[p].runningOn
    ensures r.0.threads.Keys == s.threads.Keys
    decreases |es|
  {
    if es == [] then (s, Success)
    else if !HasEvent(s, es[0]) then (s, NoSuchEvent)
    else PushWaiters(PushWaiter(s, es[0], p), es[1..], p)
  }

  function Unwait(s: State, e: nat, p: Ptr): (r: State)
    requires HasEvent(s, e) && p in s.threads
  {
    SetThread(s, p, s.threads[p].(events := EraseAll(s.threads[p].events, e)))
      .(events := s.events[e := Some(EraseAll(s.events[e].value, p))])
  }

  function UnwaitAll(s: State, es: seq<nat>, p: Ptr): (r: (State, Code))
    requires p in s.threads
    ensures r.0.threads.Keys == s.threads.Keys
    decreases |es|
  {
    if es == [] then (s, Success)
    else if !HasEvent(s, es[0]) then (s, NoSuchEvent)
    else UnwaitAll(Unwait(s, es[0], p), es[1..], p)
  }

  function EraseWaiter(waiters: Option<seq<Ptr>>, p: Ptr): Option<seq<Ptr>> {
    if waiters.Some? then Some(EraseAll(waiters.value, p)) else None
  }

  /** Removes `p` from every waiter list. */
  function Cancel(s: State, p: Ptr): (r: State) {
    s.(events := seq(|s.events|, e requires 0 <= e < |s.events| => EraseWaiter(s.events[e], p)))
  }

  function WakeupEach(s: State, c: nat, e: nat, ps: seq<Ptr>): (r: State)
    requires c < |s.locals| && forall p | p in ps :: p in s.threads
    ensures r.threads.Keys == s.threads.Keys && |r.locals| == |s.locals|
    decreases |ps|
  {
    if ps == [] then s
    else
      var t := s.threads[ps[0]];
      var s1 := SetThread(s, ps[0], t.(events := EraseAll(t.events, e)));
      WakeupEach(Wakeup(s1, c, ps[0]), c, e, ps[1..])
  }

  function Notify(s: State, c: nat, e: nat): (r: (State, Code))
    requires c < |s.locals| && forall p | p in Waiters(s, e) :: p in s.threads
    ensures r.0.threads.Keys == s.threads.Keys
  {
    if !HasEvent(s, e) then (s, NoSuchEvent)
    else (WakeupEach(s.(events := s.events[e := Some([])]), c, e, s.events[e].value), Success)
  }
}
