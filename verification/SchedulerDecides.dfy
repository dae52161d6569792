/**
 Whether migrate_threads returns can be decided: the numbers it works on take
 finitely many values, so it returns within that many passes or never.
 */
module SchedulerDecides {
  import opened Collections
  import opened Scheduler
  import opened SchedulerInvariant
  import opened SchedulerMigration
  import opened SchedulerBalance
  import opened SchedulerReturns

  // ------------------------------------------------------ numbering the values

  function Power(base: nat, n: nat): nat {
    if n == 0 then 1 else base * Power(base, n - 1)
  }

  /** `nums` as the digits of one number. */
  function Code(nums: seq<nat>, base: nat): nat {
    if nums == [] then 0 else nums[0] + base * Code(nums[1..], base)
  }

  ghost predicate Below(nums: seq<nat>, base: nat) { forall i | 0 <= i < |nums| :: nums[i] < base }

  lemma {:induction false} CodeBelow(nums: seq<nat>, base: nat)
    requires Below(nums, base)
    ensures Code(nums, base) < Power(base, |nums|)
  {
    if nums != [] {
      CodeBelow(nums[1..], base);
      DigitBelow(nums[0], base, Code(nums[1..], base), Power(base, |nums| - 1));
    }
  }

  lemma DigitBelow(d: nat, base: nat, c: nat, p: nat)
    requires d < base && c < p
    ensures d + base * c < base * p
  {
    assert base * (c + 1) <= base * p;
  }

  lemma {:induction false} CodeDiffers(a: seq<nat>, b: seq<nat>, base: nat)
    requires |a| == |b| && Below(a, base) && Below(b, base) && Code(a, base) == Code(b, base)
    ensures a == b
  {
    if a != [] {
      SameDigits(a[0], b[0], base, Code(a[1..], base), Code(b[1..], base));
      CodeDiffers(a[1..], b[1..], base);
      assert a == [a[0]] + a[1..] && b == [b[0]] + b[1..];
    }
  }

  lemma SameDigits(d: nat, e: nat, base: nat, c: nat, k: nat)
    requires d < base && e < base && d + base * c == e + base * k
    ensures d == e && c == k
  {
    DivMod(d + base * c, base, c, d);
    DivMod(e + base * k, base, k, e);
  }

  /** How many values the numbers of `total` threads on `n` processors can take. */
  function Values(n: nat, total: nat): nat { 2 * Power(total + 1, n) }

  function Number(b: Balance, total: nat): nat { 2 * Code(b.nums, total + 1) + if b.hand then 1 else 0 }

  lemma {:induction false} PartBelowSum(a: seq<nat>, i: nat)
    requires i < |a|
    ensures a[i] <= Sum(a)
  {
    if i > 0 { PartBelowSum(a[1..], i - 1); }
  }

  lemma InRange(b: Balance, l: Limits)
    requires Conserved(b, l)
    ensures Below(b.nums, Sum(l.share) + 1) && Number(b, Sum(l.share)) < Values(|b.nums|, Sum(l.share))
  {
    forall i | 0 <= i < |b.nums| ensures b.nums[i] < Sum(l.share) + 1 { PartBelowSum(b.nums, i); }
    CodeBelow(b.nums, Sum(l.share) + 1);
  }

  lemma SameNumber(a: Balance, b: Balance, l: Limits)
    requires Conserved(a, l) && Conserved(b, l) && a.exit == b.exit
    requires Number(a, Sum(l.share)) == Number(b, Sum(l.share))
    ensures a == b
  {
    InRange(a, l);
    InRange(b, l);
    CodeDiffers(a.nums, b.nums, Sum(l.share) + 1);
  }

  // ------------------------------------------------------------- the passes

  function Pass(b: Balance, l: Limits): (r: Balance)
    requires Fits(b, l)
    ensures Fits(r, l)
  {
    Looks(b.(exit := true), l, 0, |b.nums|)
  }

  /** The numbers after `k` passes, the flag aside. */
  function AfterPasses(b: Balance, l: Limits, k: nat): (r: Balance)
    requires Fits(b, l)
    ensures Fits(r, l) && r.exit
  {
    if k == 0 then b.(exit := true) else Pass(AfterPasses(b, l, k - 1), l).(exit := true)
  }

  lemma {:induction false} LaterPasses(b: Balance, l: Limits, k: nat)
    requires Fits(b, l)
    ensures AfterPasses(Pass(b, l), l, k) == AfterPasses(b, l, k + 1)
  {
    hide Pass;
    if k > 0 { LaterPasses(b, l, k - 1); } else { PassIgnoresFlag(b, l); }
  }

  lemma PassIgnoresFlag(b: Balance, l: Limits)
    requires Fits(b, l)
    ensures Pass(b.(exit := true), l) == Pass(b, l)
  {
  }

  ghost predicate EndsAt(b: Balance, l: Limits, k: nat)
    requires Fits(b, l)
  {
    Pass(AfterPasses(b, l, k), l).exit
  }

  /** The loop returns within `fuel` passes exactly when one of them takes no thread. */
  lemma {:induction false} SettlesAt(b: Balance, l: Limits, fuel: nat)
    requires Fits(b, l)
    ensures Settles(b, l, fuel) <==> exists k: nat :: k < fuel && EndsAt(b, l, k)
    decreases fuel
  {
    hide Pass;
    PassIgnoresFlag(b, l);
    if fuel > 0 {
      var r := Pass(b, l);
      assert r == Looks(b.(exit := true), l, 0, |b.nums|) by { PassIs(b, l); }
      assert EndsAt(b, l, 0) <==> r.exit;
      SettlesAt(r, l, fuel - 1);
      forall k: nat ensures EndsAt(r, l, k) <==> EndsAt(b, l, k + 1) { LaterPasses(b, l, k); }
      if k: nat :| k < fuel && EndsAt(b, l, k) {
        if k > 0 { assert EndsAt(r, l, k - 1); }
      }
    }
  }

  lemma PassIs(b: Balance, l: Limits)
    requires Fits(b, l)
    ensures Pass(b, l) == Looks(b.(exit := true), l, 0, |b.nums|)
  {
  }

  lemma {:induction false} PassesConserve(b: Balance, l: Limits, k: nat)
    requires Conserved(b, l)
    ensures Conserved(AfterPasses(b, l, k), l)
  {
    if k > 0 {
      var r := AfterPasses(b, l, k - 1);
      PassesConserve(b, l, k - 1);
      LooksConserve(r.(exit := true), l, 0, |r.nums|);
    }
  }

  /** Once the numbers have come back to an earlier value they go round for ever. */
  lemma {:induction false} GoesRound(b: Balance, l: Limits, i: nat, j: nat, k: nat)
    requires Fits(b, l) && i < j && AfterPasses(b, l, i) == AfterPasses(b, l, j) && j <= k
    ensures AfterPasses(b, l, k) == AfterPasses(b, l, k - (j - i))
    decreases k
  {
    hide Pass;
    if j < k { GoesRound(b, l, i, j, k - 1); }
  }

  lemma {:induction false} NoneEnds(b: Balance, l: Limits, i: nat, j: nat, k: nat)
    requires Fits(b, l) && i < j && AfterPasses(b, l, i) == AfterPasses(b, l, j)
    requires forall t: nat | t < j :: !EndsAt(b, l, t)
    ensures !EndsAt(b, l, k)
    decreases k
  {
    hide Pass, AfterPasses;
    if j <= k {
      GoesRound(b, l, i, j, k);
      NoneEnds(b, l, i, j, k - (j - i));
    }
  }

  /** Some value comes twice in one pass more than there are values. */
  lemma Repeats(b: Balance, l: Limits) returns (i: nat, j: nat)
    requires Conserved(b, l)
    ensures i < j <= Values(|b.nums|, Sum(l.share)) && Fits(b, l) && AfterPasses(b, l, i) == AfterPasses(b, l, j)
  {
    hide Conserved, AfterPasses, Number, Values;
    ConservedFits(b, l);
    var total, n := Sum(l.share), Values(|b.nums|, Sum(l.share));
    var numbers := seq(n + 1, k requires 0 <= k <= n => Number(AfterPasses(b, l, k), total));
    forall k | 0 <= k <= n ensures numbers[k] < n && Conserved(AfterPasses(b, l, k), l) {
      PassesConserve(b, l, k);
      InRange(AfterPasses(b, l, k), l);
    }
    if NoDuplicates(numbers) {
      DistinctInRange(numbers, 0, n);
    }
    i, j :| 0 <= i < j < |numbers| && numbers[i] == numbers[j];
    SameNumber(AfterPasses(b, l, i), AfterPasses(b, l, j), l);
  }

  /** The loop on numbers returns within as many passes as there are values, or never. */
  lemma SettlesInTime(b: Balance, l: Limits, fuel: nat)
    requires Conserved(b, l) && Fits(b, l) && Settles(b, l, fuel)
    ensures Settles(b, l, Values(|b.nums|, Sum(l.share)))
  {
    hide Conserved, AfterPasses, Values, Settles, EndsAt;
    var n := Values(|b.nums|, Sum(l.share));
    SettlesAt(b, l, fuel);
    SettlesAt(b, l, n);
    var k: nat :| k < fuel && EndsAt(b, l, k);
    var i, j := Repeats(b, l);
    if !Settles(b, l, n) {
      NoneEnds(b, l, i, j, k);
    }
  }

  /**
   migrate_threads returns, after any number of passes, exactly when the loop on
   numbers returns within as many passes as the numbers have values.
   */
  lemma MigrationDecided(s: State)
    requires Inv(s) && |s.locals| > 0
    ensures var total := Sum(Loads(s));
            (exists fuel: nat :: Migrate(s, fuel).Some?) <==>
            Settles(Balance(Loads(s), false, true), LimitsOf(s, total), Values(|s.locals|, total))
  {
    hide Inv, PinnedOn, Threshold, Migrate, Settles, Values;
    var total := Sum(Loads(s));
    StartOk(s);
    MigratingConserves(s, Start(s), total);
    ReturnsByNumbers(s, Values(|s.locals|, total));
    if fuel: nat :| Migrate(s, fuel).Some? {
      ReturnsByNumbers(s, fuel);
      SettlesInTime(Balance(Loads(s), false, true), LimitsOf(s, total), fuel);
    }
  }
}
