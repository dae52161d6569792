/**
 migrate_threads need not return.  Four processors hold 3, 2, 3 and 3 threads,
 of which 2, 2, 2 and 3 cannot be taken: the last one's share is 2 and nothing
 it has can move, so two waiting threads circulate among the others for ever.
 The kernel gets there from boot by ordinary operations.
 */
module SchedulerLivelock {
  import opened Collections
  import opened Scheduler
  import opened SchedulerInvariant
  import opened SchedulerMigration
  import opened SchedulerRuns
  import opened SchedulerBalance
  import opened SchedulerReturns

  // ------------------------------------------------------------- the numbers

  const LOADS: seq<nat> := [3, 2, 3, 3]
  const HELD := Limits([3, 3, 3, 2], [2, 2, 2, 3])

  /** Two passes bring the numbers back to where they were. */
  lemma {:induction false} NeverSettles(b: Balance, fuel: nat)
    requires b.nums == LOADS && !b.hand
    ensures !Settles(b, HELD, fuel)
    decreases fuel
  {
    var b0 := b.(exit := true);
    var r1 := Looks(b0, HELD, 0, 4);
    var r2 := Looks(r1.(exit := true), HELD, 0, 4);
    FirstPass(b0);
    SecondPass(r1.(exit := true));
    hide Looks;
    if fuel >= 2 { NeverSettles(r2, fuel - 2); }
  }

  lemma FirstPass(b: Balance)
    requires b == Balance(LOADS, false, true)
    ensures Looks(b, HELD, 0, 4) == Balance([2, 3, 2, 3], true, false)
  {
    var v1 := Look(b, HELD, 0);
    assert v1.nums == [2, 2, 3, 3];
    var v2 := Look(v1, HELD, 1);
    assert v2.nums == [2, 3, 3, 3];
    var v3 := Look(v2, HELD, 2);
    assert v3.nums == [2, 3, 2, 3];
    hide Look;
    FourLooks(b);
  }

  lemma SecondPass(b: Balance)
    requires b == Balance([2, 3, 2, 3], true, true)
    ensures Looks(b, HELD, 0, 4) == Balance(LOADS, false, false)
  {
    var v1 := Look(b, HELD, 0);
    assert v1.nums == [3, 3, 2, 3];
    var v2 := Look(v1, HELD, 1);
    assert v2.nums == [3, 2, 2, 3];
    var v3 := Look(v2, HELD, 2);
    assert v3.nums == [3, 2, 3, 3];
    FourLooks(b);
  }

  lemma FourLooks(b: Balance)
    requires Fits(b, HELD)
    ensures Looks(b, HELD, 0, 4) == Look(Look(Look(Look(b, HELD, 0), HELD, 1), HELD, 2), HELD, 3)
  {
    hide Look;
    var v1 := Look(b, HELD, 0);
    var v2 := Look(v1, HELD, 1);
    assert Looks(v2, HELD, 2, 4) == Looks(Look(v2, HELD, 2), HELD, 3, 4);
    assert Looks(b, HELD, 0, 4) == Looks(v1, HELD, 1, 4) == Looks(v2, HELD, 2, 4);
  }

  /** From every consistent state with these numbers no number of passes makes migrate_threads return. */
  lemma NumbersNeverReturn(s: State, fuel: nat)
    requires Inv(s) && Loads(s) == LOADS && forall c | 0 <= c < 4 :: PinnedOn(s, c) == HELD.pinned[c]
    ensures Migrate(s, fuel) == None && !PinnedFit(s)
  {
    hide Inv, PinnedOn, Migrate, Settles;
    assert Sum(LOADS) == 11 by { Eleven(); }
    Shares();
    assert LimitsOf(s, 11) == HELD;
    NeverSettles(Balance(LOADS, false, true), fuel);
    ReturnsByNumbers(s, fuel);
  }

  lemma Eleven()
    ensures Sum(LOADS) == 11
  {
    assert LOADS[1..] == [2, 3, 3] && LOADS[1..][1..] == [3, 3] && LOADS[1..][1..][1..] == [3];
    assert Sum([3]) == 3 && Sum([3, 3]) == 6 && Sum([2, 3, 3]) == 8;
  }

  lemma Shares()
    ensures Threshold(11, 4, 0) == 3 && Threshold(11, 4, 1) == 3 && Threshold(11, 4, 2) == 3 && Threshold(11, 4, 3) == 2
  {
  }

  // ------------------------------------------------------- shares can be missed

  const LOADS3: seq<nat> := [6, 2, 3]
  const HELD3 := Limits([4, 4, 3], [2, 2, 2])

  lemma ThreeLooks(b: Balance)
    requires Fits(b, HELD3)
    ensures Looks(b, HELD3, 0, 3) == Look(Look(Look(b, HELD3, 0), HELD3, 1), HELD3, 2)
  {
    hide Look;
    var v1 := Look(b, HELD3, 0);
    assert Looks(b, HELD3, 0, 3) == Looks(v1, HELD3, 1, 3) == Looks(Look(v1, HELD3, 1), HELD3, 2, 3);
  }

  lemma TwoPasses(b: Balance)
    requires b == Balance(LOADS3, false, true)
    ensures Looks(b, HELD3, 0, 3) == Balance([5, 3, 2], true, false)
    ensures Looks(Balance([5, 3, 2], true, true), HELD3, 0, 3) == Balance([5, 4, 2], false, true)
  {
    ThreeLooks(b);
    assert Look(b, HELD3, 0).nums == [5, 2, 3];
    assert Look(Look(b, HELD3, 0), HELD3, 1).nums == [5, 3, 3];
    ThreeLooks(Balance([5, 3, 2], true, true));
  }

  /**
   Migration need not leave every processor its share, even when all can be moved that
   ought to: three processors with 6, 2 and 3 threads, two of each pinned, are left
   with 5, 4 and 2, where the shares are 4, 4 and 3.
   */
  lemma SharesMayBeMissed(s: State)
    requires Inv(s) && Loads(s) == LOADS3 && forall c | 0 <= c < 3 :: PinnedOn(s, c) == 2
    ensures |s.locals| == 3 && PinnedFit(s) && LimitsOf(s, Sum(Loads(s))) == HELD3
    ensures Migrate(s, 2).Some? && Loads(Migrate(s, 2).value.s) == [5, 4, 2]
  {
    hide Inv, PinnedOn, Migrate, Looks;
    assert Sum(LOADS3) == 11 by { assert LOADS3[1..] == [2, 3] && LOADS3[1..][1..] == [3]; }
    assert LimitsOf(s, 11) == HELD3;
    var b := Balance(LOADS3, false, true);
    TwoPasses(b);
    ReturnsByNumbers(s, 2);
    FinalLoadsByNumbers(s, 2);
    assert Outcome(b, HELD3, 2) == Some(Balance([5, 4, 2], false, true));
  }
}
