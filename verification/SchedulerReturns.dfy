/** migrate_threads returns when every processor could hold its pinned threads within its share. */
module SchedulerReturns {
  import opened Collections
  import opened Scheduler
  import opened SchedulerInvariant
  import opened SchedulerMigration
  import opened SchedulerBalance

  // ------------------------------------------------- threads that stay put

  /** How many threads of `q` cannot be taken from processor `c`: the immovable ones and the one it runs. */
  function Stuck(s: State, c: nat, q: seq<Ptr>): (n: nat)
    requires c < |s.locals|
    ensures n <= |q| && (n == |q| <==> FirstTakeable(s, c, q).None?)
  {
    if q == [] then 0 else (if Takeable(s, c, q[0]) then 0 else 1) + Stuck(s, c, q[1..])
  }

  function PinnedOn(s: State, c: nat): nat
    requires c < |s.locals|
  {
    Stuck(s, c, s.locals[c].queue[0]) + Stuck(s, c, s.locals[c].queue[1]) + Stuck(s, c, s.locals[c].queue[2])
    + Stuck(s, c, s.locals[c].queue[3]) + Stuck(s, c, s.locals[c].queue[4])
  }

  /** There is a thread to take exactly when not all are pinned. */
  lemma TakesExactly(s: State, c: nat)
    requires c < |s.locals|
    ensures TakeBelow(s, c, 5).Some? <==> Load(s.locals[c]) > PinnedOn(s, c)
  {
    assert TakeBelow(s, c, 1).Some? <==> FirstTakeable(s, c, s.locals[c].queue[0]).Some?;
    assert TakeBelow(s, c, 2).Some? <==> FirstTakeable(s, c, s.locals[c].queue[1]).Some? || TakeBelow(s, c, 1).Some?;
    assert TakeBelow(s, c, 3).Some? <==> FirstTakeable(s, c, s.locals[c].queue[2]).Some? || TakeBelow(s, c, 2).Some?;
    assert TakeBelow(s, c, 4).Some? <==> FirstTakeable(s, c, s.locals[c].queue[3]).Some? || TakeBelow(s, c, 3).Some?;
  }

  ghost predicate SameTaking(s: State, r: State, c: nat) {
    c < |s.locals| && c < |r.locals| && forall p :: Takeable(s, c, p) <==> Takeable(r, c, p)
  }

  lemma {:induction false} StuckKept(s: State, r: State, c: nat, q: seq<Ptr>)
    requires SameTaking(s, r, c)
    ensures Stuck(r, c, q) == Stuck(s, c, q)
  {
    if q != [] { StuckKept(s, r, c, q[1..]); }
  }

  lemma {:induction false} StuckAfterErase(s: State, c: nat, q: seq<Ptr>, p: Ptr)
    requires c < |s.locals| && Takeable(s, c, p)
    ensures Stuck(s, c, EraseAll(q, p)) == Stuck(s, c, q)
  {
    if q != [] { StuckAfterErase(s, c, q[1..], p); }
  }

  lemma {:induction false} StuckAfterPush(s: State, c: nat, q: seq<Ptr>, p: Ptr)
    requires c < |s.locals| && Takeable(s, c, p)
    ensures Stuck(s, c, q + [p]) == Stuck(s, c, q)
  {
    if q == [] {
      assert [p][1..] == [];
    } else {
      assert (q + [p])[1..] == q[1..] + [p];
      StuckAfterPush(s, c, q[1..], p);
    }
  }

  /** One queue changed, without a pinned thread coming or going. */
  lemma PinnedKept(s: State, r: State, c: nat, n: nat)
    requires c < |s.locals| && c < |r.locals| && SameTaking(s, r, c) && n < 5
    requires forall k | 0 <= k < 5 && k != n :: r.locals[c].queue[k] == s.locals[c].queue[k]
    requires Stuck(s, c, r.locals[c].queue[n]) == Stuck(s, c, s.locals[c].queue[n])
    ensures PinnedOn(r, c) == PinnedOn(s, c)
  {
    hide SameTaking;
    forall k | 0 <= k < 5 ensures Stuck(r, c, r.locals[c].queue[k]) == Stuck(s, c, s.locals[c].queue[k]) {
      StuckKept(s, r, c, r.locals[c].queue[k]);
    }
  }

  lemma TakeKeepsPinned(m: Migration, i: nat, p: Ptr, c: nat)
    requires i < |m.s.locals| && c < |m.s.locals| && Takeable(m.s, i, p)
    ensures PinnedOn(Erase(m.s, i, p), c) == PinnedOn(m.s, c)
  {
    var n := Level(m.s.threads[p].nice);
    var r := Erase(m.s, i, p);
    assert SameTaking(m.s, r, c);
    StuckAfterErase(m.s, i, m.s.locals[i].queue[n], p);
    hide SameTaking, Stuck;
    PinnedKept(m.s, r, c, n);
  }

  lemma GiveKeepsPinned(m: Migration, i: nat, p: Ptr, c: nat)
    requires i < |m.s.locals| && c < |m.s.locals| && Takeable(m.s, i, p)
    ensures PinnedOn(Push(SetThread(m.s, p, m.s.threads[p].(runningOn := On(i))), i, p), c) == PinnedOn(m.s, c)
  {
    var n := Level(m.s.threads[p].nice);
    var r := Push(SetThread(m.s, p, m.s.threads[p].(runningOn := On(i))), i, p);
    assert SameTaking(m.s, r, c);
    StuckAfterPush(m.s, i, m.s.locals[i].queue[n], p);
    hide SameTaking, Stuck;
    PinnedKept(m.s, r, c, n);
  }

  // ------------------------------------------------------- down to numbers

  function View(m: Migration): Balance { Balance(m.nums, m.hand.Some?, m.exit) }

  /** The shares of `total` threads, and the pinned threads, of the processors of `s`. */
  function LimitsOf(s: State, total: nat): (l: Limits)
    requires |s.locals| > 0
    ensures |l.share| == |l.pinned| == |s.locals|
    ensures forall i | 0 <= i < |s.locals| ::
            l.share[i] == Threshold(total, |s.locals|, i) && l.pinned[i] == PinnedOn(s, i)
  {
    Limits(seq(|s.locals|, i requires 0 <= i < |s.locals| => Threshold(total, |s.locals|, i)),
           seq(|s.locals|, i requires 0 <= i < |s.locals| => PinnedOn(s, i)))
  }

  ghost predicate SamePinned(s: State, m: Migration) {
    |m.s.locals| == |s.locals| && forall i | 0 <= i < |s.locals| :: PinnedOn(m.s, i) == PinnedOn(s, i)
  }

  lemma VisitIsLook(s: State, m: Migration, i: nat, total: nat)
    requires Migrating(s, m, total) && SamePinned(s, m) && i < |m.nums|
    ensures var v := Visit(m, i, Threshold(total, |m.nums|, i));
            SamePinned(s, v) && View(v) == Look(View(m), LimitsOf(s, total), i)
  {
    hide Inv, OnlyMoved, PinnedStay, Bounded, PinnedOn, Threshold;
    var t := Threshold(total, |m.nums|, i);
    var v := Visit(m, i, t);
    TakesExactly(m.s, i);
    if m.hand.None? && m.nums[i] >= t && TakeBelow(m.s, i, 5).Some? {
      var p := TakeBelow(m.s, i, 5).value;
      forall c | 0 <= c < |s.locals| ensures PinnedOn(v.s, c) == PinnedOn(s, c) { TakeKeepsPinned(m, i, p, c); }
    } else if m.hand.Some? && m.nums[i] < t {
      var p := m.hand.value;
      forall c | 0 <= c < |s.locals| ensures PinnedOn(v.s, c) == PinnedOn(s, c) { GiveKeepsPinned(m, i, p, c); }
    }
  }

  lemma {:induction false} PassIsLooks(s: State, m: Migration, i: nat, total: nat)
    requires Inv(s) && Migrating(s, m, total) && SamePinned(s, m) && i <= |m.nums|
    ensures var r := PassFrom(m, i, total);
            SamePinned(s, r) && View(r) == Looks(View(m), LimitsOf(s, total), i, |m.nums|)
    decreases |m.nums| - i
  {
    hide Inv, Migrating, SamePinned, PinnedOn, Threshold, Visit;
    ShapeOf(s, m, total);
    if i < |m.nums| {
      VisitIsLook(s, m, i, total);
      VisitKeeps(s, m, i, total);
      PassIsLooks(s, Visit(m, i, Threshold(total, |m.nums|, i)), i + 1, total);
    }
  }

  lemma {:induction false} SharesSum(share: seq<nat>, total: nat, i: nat)
    requires |share| > 0 && i <= |share| && forall k | 0 <= k < |share| :: share[k] == Threshold(total, |share|, k)
    ensures Sum(share[..i]) == SumThresholds(total, |share|, i)
  {
    hide Threshold;
    if i > 0 {
      SharesSum(share, total, i - 1);
      SumPrefix(share, i - 1);
    }
  }

  lemma MigratingConserves(s: State, m: Migration, total: nat)
    requires Migrating(s, m, total)
    ensures Conserved(View(m), LimitsOf(s, total)) && Sum(LimitsOf(s, total).share) == total
  {
    hide Inv, OnlyMoved, PinnedStay, Bounded, Threshold;
    var share := LimitsOf(s, total).share;
    SharesSum(share, total, |share|);
    assert share[..|share|] == share;
    ThresholdsSumToTotal(total, |share|);
  }

  // ------------------------------------------------------- numbers decide

  /** The loop on numbers alone: does it return within `fuel` passes? */
  predicate Settles(b: Balance, l: Limits, fuel: nat)
    requires Fits(b, l)
    decreases fuel
  {
    fuel > 0 && (var r := Looks(b.(exit := true), l, 0, |b.nums|); r.exit || Settles(r, l, fuel - 1))
  }

  /** The numbers it returns with. */
  function Outcome(b: Balance, l: Limits, fuel: nat): Option<Balance>
    requires Fits(b, l)
    decreases fuel
  {
    if fuel == 0 then None
    else
      var r := Looks(b.(exit := true), l, 0, |b.nums|);
      if r.exit then Some(r) else Outcome(r, l, fuel - 1)
  }

  lemma OnePass(s: State, m: Migration, total: nat)
    requires Inv(s) && Migrating(s, m, total) && SamePinned(s, m)
    ensures Shape(m) && Fits(View(m), LimitsOf(s, total))
    ensures var r := PassFrom(m.(exit := true), 0, total);
            && Migrating(s, r, total) && SamePinned(s, r)
            && View(r) == Looks(View(m).(exit := true), LimitsOf(s, total), 0, |m.nums|)
  {
    hide Inv, Migrating, PassFrom, PinnedOn, Threshold;
    ShapeOf(s, m, total);
    ExitFlag(s, m, total);
    PassIsLooks(s, m.(exit := true), 0, total);
    PassKeeps(s, m.(exit := true), 0, total);
  }

  lemma {:induction false} PassesByNumbers(s: State, m: Migration, total: nat, fuel: nat)
    requires Inv(s) && Migrating(s, m, total) && SamePinned(s, m)
    ensures Shape(m) && Fits(View(m), LimitsOf(s, total))
    ensures Passes(m, total, fuel).Some? <==> Settles(View(m), LimitsOf(s, total), fuel)
    ensures var r := Passes(m, total, fuel);
            Outcome(View(m), LimitsOf(s, total), fuel) == if r.Some? then Some(View(r.value)) else None
    decreases fuel
  {
    hide Inv, Migrating, SamePinned, PassFrom, Looks, PinnedOn, Threshold;
    OnePass(s, m, total);
    if fuel > 0 {
      PassesByNumbers(s, PassFrom(m.(exit := true), 0, total), total, fuel - 1);
    }
  }

  /**
   Whether migrate_threads returns depends on nothing but how many threads
   each processor has and how many of them cannot be taken.
   */
  lemma ReturnsByNumbers(s: State, fuel: nat)
    requires Inv(s) && |s.locals| > 0
    ensures Migrate(s, fuel).Some? <==> Settles(Balance(Loads(s), false, true), LimitsOf(s, Sum(Loads(s))), fuel)
  {
    hide Inv, PinnedOn, Threshold;
    StartOk(s);
    PassesByNumbers(s, Start(s), Sum(Loads(s)), fuel);
  }

  /** The loads a migration ends with are those the loop on numbers ends with. */
  lemma FinalLoadsByNumbers(s: State, fuel: nat)
    requires Inv(s) && |s.locals| > 0 && Migrate(s, fuel).Some?
    ensures Outcome(Balance(Loads(s), false, true), LimitsOf(s, Sum(Loads(s))), fuel) ==
            Some(Balance(Loads(Migrate(s, fuel).value.s), false, true))
  {
    hide Inv, PinnedOn, Threshold;
    StartOk(s);
    PassesByNumbers(s, Start(s), Sum(Loads(s)), fuel);
    PassesKeep(s, Start(s), Sum(Loads(s)), fuel);
    MigrationConserves(s, fuel);
    PassesExit(Start(s), Sum(Loads(s)), fuel);
    var m := Migrate(s, fuel).value;
    assert m.nums == Loads(m.s);
  }

  lemma {:induction false} PassesExit(m: Migration, total: nat, fuel: nat)
    requires Shape(m) && Passes(m, total, fuel).Some?
    ensures Passes(m, total, fuel).value.exit
    decreases fuel
  {
    hide PassFrom;
    var m1 := PassFrom(m.(exit := true), 0, total);
    if !m1.exit { PassesExit(m1, total, fuel - 1); }
  }

  // ------------------------------------------------------------ the theorem

  /** Every processor's pinned threads fit in its share of all threads. */
  ghost predicate PinnedFit(s: State)
    requires |s.locals| > 0
  {
    forall i | 0 <= i < |s.locals| :: PinnedOn(s, i) <= Threshold(Sum(Loads(s)), |s.locals|, i)
  }

  lemma {:induction false} NumbersSettle(b: Balance, l: Limits, fuel: nat)
    requires Conserved(b, l) && CanGive(l) && Rank(b, l) < fuel
    ensures Settles(b, l, fuel)
    decreases fuel
  {
    hide Rank, Conserved, CanGive, Looks;
    ConservedFits(b, l);
    var b0 := b.(exit := true);
    ExitAside(b, l);
    RankInRange(b, l);
    var r := Looks(b0, l, 0, |b.nums|);
    LooksConserve(b0, l, 0, |b.nums|);
    if !r.exit {
      PassLowers(b0, l);
      LowerRank(r, b0, l);
      NumbersSettle(r, l, fuel - 1);
    }
  }

  lemma ExitAside(b: Balance, l: Limits)
    requires Conserved(b, l)
    ensures var b0 := b.(exit := true); Conserved(b0, l) && Rank(b0, l) == Rank(b, l)
  {
    var b0 := b.(exit := true);
    assert Extras(b0, l) == Extras(b, l) && Weights(b0, l) == Weights(b, l) && Lacks(b0, l) == Lacks(b, l);
    SameNumbers(b, b0, l, 0);
  }

  lemma {:induction false} SameNumbers(b: Balance, b0: Balance, l: Limits, i: nat)
    requires Fits(b, l) && b0.nums == b.nums && i <= |b.nums|
    ensures FirstBeyond(b0, l, i) == FirstBeyond(b, l, i)
    decreases |b.nums| - i
  {
    if i < |b.nums| { SameNumbers(b, b0, l, i + 1); }
  }

  /**
   If on every processor the threads that cannot be taken number at most its
   share, migrate_threads returns, within PassBound passes.
   */
  lemma MigrationReturns(s: State, fuel: nat)
    requires Inv(s) && |s.locals| > 0 && PinnedFit(s) && fuel >= PassBound(|s.locals|, Sum(Loads(s)))
    ensures Migrate(s, fuel).Some?
  {
    hide Inv, PinnedOn, Threshold, Rank, PassBound, Migrate, Settles;
    var total := Sum(Loads(s));
    StartOk(s);
    MigratingConserves(s, Start(s), total);
    RankInRange(View(Start(s)), LimitsOf(s, total));
    NumbersSettle(View(Start(s)), LimitsOf(s, total), fuel);
    ReturnsByNumbers(s, fuel);
  }
}
