/** What every reachable scheduler state satisfies, and why each primitive keeps it. */
module SchedulerInvariant {
  import opened Collections
  import opened Scheduler

  // ------------------------------------------------------------- run queues

  /** `p` sits where the queues say it sits. */
  ghost predicate Placed(s: State, p: Ptr, c: nat, n: nat) {
    p in s.threads && s.threads[p].runningOn == On(c) && Level(s.threads[p].nice) == n
  }

  /**
   A thread with a valid processor is queued there exactly once, at its own
   level; a thread without one is queued nowhere.
   */
  ghost predicate QueuesOk(s: State) {
    && (forall c, n, p | 0 <= c < |s.locals| && 0 <= n < 5 && p in s.locals[c].queue[n] :: Placed(s, p, c, n))
    && (forall c, n | 0 <= c < |s.locals| && 0 <= n < 5 :: NoDuplicates(s.locals[c].queue[n]))
    && (forall p | p in s.threads && s.threads[p].runningOn.On? ::
          && s.threads[p].runningOn.cpu < |s.locals|
          && p in s.locals[s.threads[p].runningOn.cpu].queue[Level(s.threads[p].nice)])
  }

  ghost predicate CurrentOk(s: State) {
    forall c | 0 <= c < |s.locals| && s.locals[c].current.Some? ::
      s.locals[c].current.value in s.threads && s.threads[s.locals[c].current.value].runningOn == On(c)
  }

  /** Idle threads are pinned, never suspended, and every captured processor has one. */
  ghost predicate IsIdle(s: State, p: Ptr) {
    p in s.threads && s.threads[p].entry.IdleMain?
  }

  ghost predicate IdleOn(s: State, p: Ptr, c: nat) {
    IsIdle(s, p) && s.threads[p].runningOn == On(c)
  }

  ghost predicate HasIdle(s: State, c: nat) {
    exists p :: IdleOn(s, p, c)
  }

  ghost predicate IdleOk(s: State) {
    && (forall p | p in s.threads && s.threads[p].entry.IdleMain? ::
          s.threads[p].suspendFrom == 0 && !s.threads[p].movable && !s.threads[p].zombie)
    && (forall c {:trigger HasIdle(s, c)} | 0 <= c < |s.locals| && s.locals[c].current.Some? :: HasIdle(s, c))
  }

  // ----------------------------------------------------------------- events

  ghost predicate Alive(s: State, p: Ptr) {
    p in s.threads && !s.threads[p].zombie
  }

  /** The waiter lists and the thread's own list agree, counting repetitions. */
  ghost predicate Mirrored(s: State, p: Ptr)
    requires p in s.threads
  {
    forall e: nat :: multiset(Waiters(s, e))[p] == multiset(s.threads[p].events)[e]
  }

  ghost predicate WaitsFor(s: State, p: Ptr, e: nat) {
    p in Waiters(s, e)
  }

  ghost predicate EventsOk(s: State) {
    && (forall e: nat, p | WaitsFor(s, p, e) :: Alive(s, p))
    && (forall p | Alive(s, p) :: Mirrored(s, p))
  }

  // ----------------------------------------------------- processes, zombies

  /** Zombies other than `exiting` have left the processors. */
  ghost predicate ZombiesOk(s: State, exiting: set<Ptr>) {
    forall p | p in s.threads && s.threads[p].zombie && p !in exiting :: s.threads[p].runningOn.Nowhere?
  }

  ghost predicate Slot(s: State, pid: nat, tid: nat, p: Ptr) {
    && pid < |s.processes| && s.processes[pid].Some?
    && tid < |s.processes[pid].value| && s.processes[pid].value[tid] == Some(p)
  }

  /** Process tables and live thread objects are in bijection. */
  ghost predicate TableOk(s: State) {
    && (forall pid: nat, tid: nat, p | Slot(s, pid, tid, p) ::
          p in s.threads && s.threads[p].pid == pid && s.threads[p].id == tid)
    && (forall p | p in s.threads :: Slot(s, s.threads[p].pid, s.threads[p].id, p))
  }

  /** What the processors and their queues satisfy. */
  ghost predicate Core(s: State) {
    QueuesOk(s) && CurrentOk(s) && IdleOk(s)
  }

  /** What the waiter lists and the process tables satisfy while `exiting` is being torn down. */
  ghost predicate Lists(s: State, exiting: set<Ptr>) {
    EventsOk(s) && TableOk(s) && ZombiesOk(s, exiting) && Alive(s, s.eventProcessor)
  }

  ghost predicate Inv(s: State) {
    Core(s) && Lists(s, {})
  }

  // ------------------------------------------------------- what it implies

  /** No thread is in two queues, or twice in one. */
  lemma QueuedOnce(s: State, p: Ptr, c: nat, n: nat, i: nat, c': nat, n': nat, i': nat)
    requires QueuesOk(s)
    requires c < |s.locals| && n < 5 && i < |s.locals[c].queue[n]| && s.locals[c].queue[n][i] == p
    requires c' < |s.locals| && n' < 5 && i' < |s.locals[c'].queue[n']| && s.locals[c'].queue[n'][i'] == p
    ensures c == c' && n == n' && i == i'
  {
    assert p in s.locals[c].queue[n] && p in s.locals[c'].queue[n'];
    assert Placed(s, p, c, n) && Placed(s, p, c', n');
    assert NoDuplicates(s.locals[c].queue[n]);
  }

  /** A dead pointer is in no queue, no waiter list, and no processor runs it. */
  ghost predicate Unreferenced(s: State, p: Ptr) {
    && (forall c, n | 0 <= c < |s.locals| && 0 <= n < 5 :: p !in s.locals[c].queue[n])
    && (forall c | 0 <= c < |s.locals| :: s.locals[c].current != Some(p))
    && (forall e: nat :: !WaitsFor(s, p, e))
  }

  lemma DeadIsUnreferenced(s: State, p: Ptr)
    requires Inv(s) && p !in s.threads
    ensures Unreferenced(s, p)
  {
  }

  /** The waiter lists of a live thread all belong to existing events. */
  lemma EventsExist(s: State, p: Ptr, e: nat)
    requires EventsOk(s) && Alive(s, p) && e in s.threads[p].events
    ensures HasEvent(s, e) && p in s.events[e].value
  {
    assert Mirrored(s, p);
    assert multiset(s.threads[p].events)[e] > 0;
    assert multiset(Waiters(s, e))[p] > 0;
  }
}
