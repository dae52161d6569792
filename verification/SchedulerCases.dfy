/**
 States reached from boot in which operations do not do what is asked of them:
 four processors are up, and processor 0 aims at thread 2, which processor 1 runs.
 */
module SchedulerCases {
  import opened Collections
  import opened Scheduler
  import opened SchedulerInvariant
  import opened SchedulerSteps
  import opened SchedulerRuns
  import opened SchedulerTiming
  import opened SchedulerHang

  lemma AllUp()
    ensures Reachable(Up(4)) && Inv(Up(4)) && Captured(Up(4), 0) && Alive(Up(4), 2) && !IsIdle(Up(4), 2)
    ensures Up(4).eventProcessor == 0 && Up(4).locals[1].current == Some(2) && |Up(4).locals| == 4
    ensures Up(4).threads[2].runningOn == On(1) && Up(4).threads[2].nice == 0 && Up(4).tick == 0
  {
    hide Reachable, Inv;
    Reachable4();
    ReachableInv(Up(4));
  }

  /** Processor 1 is left running a thread that is in no queue. */
  lemma SleepElsewhereBreaks()
    ensures Reachable(Up(4)) && Inv(Up(4)) && Captured(Up(4), 0) && 2 in Up(4).threads
    ensures !Core(Sleep(Up(4), 0, 2))
  {
    hide Reachable, QueuesOk, CurrentOk, IdleOk, Lists, Up, Sleep;
    AllUp();
    RunningInRange(Up(4), 2);
    SleepKeepsExactly(Up(4), 0, 2, {});
  }

  lemma ExitElsewhereBreaks()
    ensures Reachable(Up(4)) && Inv(Up(4)) && Captured(Up(4), 0) && Alive(Up(4), 2) && 2 != Up(4).eventProcessor
    ensures !IsIdle(Up(4), 2) && !Inv(Exit(Up(4), 0, 2))
  {
    hide Reachable, Inv, Up, Exit;
    AllUp();
    ExitKeepsExactly(Up(4), 0, 2);
  }

  /** The thread lands in a queue of processor 0 while it is still one of processor 1's. */
  lemma NiceElsewhereBreaks()
    ensures Reachable(Up(4)) && 0 < |Up(4).locals| && 2 in Up(4).threads
    ensures !QueuesOk(WakeupWithNice(Up(4), 0, 2, 1).0)
  {
    hide Reachable, QueuesOk, CurrentOk, IdleOk, Lists, Up, WakeupWithNice;
    AllUp();
    WakeupWithNiceExactly(Up(4), 0, 2, 1);
  }

  /** Before the first tick no suspension holds, however long. */
  lemma SuspensionAtBootFails(ticks: nat)
    requires 1 <= ticks < TWO64
    ensures Reachable(Up(4)) && Captured(Up(4), 0) && 2 in Up(4).threads
    ensures !ShouldSkip(Suspend(Up(4), 0, 2, ticks).threads[2], Up(4).tick)
  {
    hide Reachable, Inv, Up, Suspend, ShouldSkip;
    AllUp();
    SuspensionTakesEffect(Up(4), 0, 2, ticks);
  }
}
