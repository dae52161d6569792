/**
 When migrate_threads does return.  What a pass does depends only on how many
 threads each processor has, how many of them cannot be taken, and whether a
 thread is in hand; so a pass is followed on those numbers.
 */
module SchedulerBalance {
  import opened Collections
  import opened Scheduler
  import opened SchedulerInvariant
  import opened SchedulerMigration

  /** The numbers of a migration: `hand` says whether a thread is between two queues. */
  datatype Balance = Balance(nums: seq<nat>, hand: bool, exit: bool)

  /** Shares, and threads that cannot be taken, of each processor. */
  datatype Limits = Limits(share: seq<nat>, pinned: seq<nat>)

  predicate Fits(b: Balance, l: Limits) { |b.nums| == |l.share| == |l.pinned| }

  function Look(b: Balance, l: Limits, i: nat): (r: Balance)
    requires Fits(b, l) && i < |b.nums|
    ensures Fits(r, l)
  {
    if !b.hand then
      if b.nums[i] >= l.share[i] && b.nums[i] > l.pinned[i] then Balance(b.nums[i := b.nums[i] - 1], true, false) else b
    else if b.nums[i] < l.share[i] then Balance(b.nums[i := b.nums[i] + 1], false, b.exit) else b
  }

  /** The looks at processors i to j - 1. */
  function Looks(b: Balance, l: Limits, i: nat, j: nat): (r: Balance)
    requires Fits(b, l) && i <= j <= |b.nums|
    ensures Fits(r, l)
    decreases j - i
  {
    if i == j then b else Looks(Look(b, l, i), l, i + 1, j)
  }

  lemma {:induction false} LooksSplit(b: Balance, l: Limits, i: nat, k: nat, j: nat)
    requires Fits(b, l) && i <= k <= j <= |b.nums|
    ensures Looks(b, l, i, j) == Looks(Looks(b, l, i, k), l, k, j)
    decreases k - i
  {
    if i < k { LooksSplit(Look(b, l, i), l, i + 1, k, j); }
  }

  // ---------------------------------------------------- shortage and excess

  function Lack(have: nat, share: nat): nat { if have < share then share - have else 0 }

  /** What each processor lacks to its share. */
  function Lacks(b: Balance, l: Limits): (r: seq<nat>)
    requires Fits(b, l)
    ensures |r| == |b.nums| && forall i | 0 <= i < |r| :: r[i] == Lack(b.nums[i], l.share[i])
  {
    seq(|b.nums|, i requires 0 <= i < |b.nums| => Lack(b.nums[i], l.share[i]))
  }

  /** What each has beyond it. */
  function Extras(b: Balance, l: Limits): (r: seq<nat>)
    requires Fits(b, l)
    ensures |r| == |b.nums| && forall i | 0 <= i < |r| :: r[i] == Lack(l.share[i], b.nums[i])
  {
    seq(|b.nums|, i requires 0 <= i < |b.nums| => Lack(l.share[i], b.nums[i]))
  }

  /** What each lacks, weighed by its place in the pass. */
  function Weights(b: Balance, l: Limits): (r: seq<nat>)
    requires Fits(b, l)
    ensures |r| == |b.nums| && forall i | 0 <= i < |r| :: r[i] == i * Lack(b.nums[i], l.share[i])
  {
    seq(|b.nums|, i requires 0 <= i < |b.nums| => i * Lack(b.nums[i], l.share[i]))
  }

  function Excess(b: Balance, l: Limits): nat
    requires Fits(b, l)
  {
    Sum(Extras(b, l))
  }

  function Weight(b: Balance, l: Limits): nat
    requires Fits(b, l)
  {
    Sum(Weights(b, l))
  }

  /** Taken from a processor at its share, or given to one below it. */
  lemma LookAtShare(b: Balance, l: Limits, i: nat)
    requires Fits(b, l) && i < |b.nums| && b.nums[i] <= l.share[i]
    ensures var r := Look(b, l, i);
            && Excess(r, l) == Excess(b, l)
            && (r == b
                || (!b.hand && r.hand && !r.exit && b.nums[i] == l.share[i] && Weight(r, l) == Weight(b, l) + i)
                || (b.hand && !r.hand && r.exit == b.exit && b.nums[i] < l.share[i] &&
                    Weight(r, l) == Weight(b, l) - i))
  {
    var r := Look(b, l, i);
    if r != b {
      assert Extras(r, l) == Extras(b, l);
      var d := Lack(r.nums[i], l.share[i]);
      assert Weights(r, l) == Weights(b, l)[i := i * d];
      SumUpdate(Weights(b, l), i, i * d);
      Distribute(i, d);
    }
  }

  lemma Distribute(i: nat, d: nat)
    ensures i * (d + 1) == i * d + i && (d > 0 ==> i * (d - 1) == i * d - i)
  {
  }

  /** A processor beyond its share gives one up, if the hand is free. */
  lemma LookBeyond(b: Balance, l: Limits, i: nat)
    requires Fits(b, l) && i < |b.nums| && b.nums[i] > l.share[i] && l.pinned[i] <= l.share[i]
    ensures var r := Look(b, l, i); if b.hand then r == b else Excess(r, l) == Excess(b, l) - 1
  {
    var r := Look(b, l, i);
    if !b.hand {
      assert Extras(r, l) == Extras(b, l)[i := Extras(b, l)[i] - 1];
      SumUpdate(Extras(b, l), i, Extras(b, l)[i] - 1);
    }
  }

  ghost predicate CanGive(l: Limits) {
    |l.share| == |l.pinned| && forall i | 0 <= i < |l.share| :: l.pinned[i] <= l.share[i]
  }

  lemma {:induction false} ExcessShrinks(b: Balance, l: Limits, i: nat, j: nat)
    requires Fits(b, l) && CanGive(l) && i <= j <= |b.nums|
    ensures Excess(Looks(b, l, i, j), l) <= Excess(b, l)
    decreases j - i
  {
    hide Excess, Weight;
    if i < j {
      if b.nums[i] <= l.share[i] { LookAtShare(b, l, i); } else { LookBeyond(b, l, i); }
      ExcessShrinks(Look(b, l, i), l, i + 1, j);
    }
  }

  // ------------------------------------------------------ weight goes up

  /**
   When no excess is used up, threads are only taken where the share is just
   met.  From a full hand to a full hand, each gift is followed by a taking
   further on, so the shortage moves towards the end.
   */
  lemma {:induction false} ShortageMovesOn(b: Balance, l: Limits, i: nat)
    requires Fits(b, l) && CanGive(l) && i <= |b.nums|
    requires var r := Looks(b, l, i, |b.nums|); r.hand && Excess(r, l) == Excess(b, l)
    ensures var r := Looks(b, l, i, |b.nums|);
            if b.hand then r == b || Weight(r, l) > Weight(b, l) else Weight(r, l) >= Weight(b, l) + i
    decreases |b.nums| - i
  {
    hide Excess, Weight;
    if i < |b.nums| {
      var v := Look(b, l, i);
      ExcessShrinks(v, l, i + 1, |b.nums|);
      if b.nums[i] <= l.share[i] { LookAtShare(b, l, i); } else { LookBeyond(b, l, i); }
      ShortageMovesOn(v, l, i + 1);
    }
  }

  // ------------------------------------------------ the first in excess

  /** The first processor beyond its share, or their number. */
  function FirstBeyond(b: Balance, l: Limits, i: nat): (p: nat)
    requires Fits(b, l) && i <= |b.nums|
    ensures i <= p <= |b.nums| && (p < |b.nums| ==> b.nums[p] > l.share[p])
    ensures forall k | i <= k < p :: b.nums[k] <= l.share[k]
    decreases |b.nums| - i
  {
    if i == |b.nums| || b.nums[i] > l.share[i] then i else FirstBeyond(b, l, i + 1)
  }

  /** What the first p processors lack together. */
  function LackBefore(b: Balance, l: Limits, p: nat): nat
    requires Fits(b, l) && p <= |b.nums|
  {
    Sum(Lacks(b, l)[..p])
  }

  /** Looking at processors that are not beyond their share: what they lack grows with what has been taken from them. */
  lemma LookBefore(b: Balance, l: Limits, i: nat, p: nat)
    requires Fits(b, l) && i < p <= |b.nums| && b.nums[i] <= l.share[i]
    ensures var r := Look(b, l, i);
            && r.nums[i] <= l.share[i] && (forall k | 0 <= k < |b.nums| && k != i :: r.nums[k] == b.nums[k])
            && LackBefore(r, l, p) - Count(r.hand) == LackBefore(b, l, p) - Count(b.hand)
  {
    var r := Look(b, l, i);
    var d := Lack(r.nums[i], l.share[i]);
    assert Lacks(r, l)[..p] == Lacks(b, l)[..p][i := d];
    SumUpdate(Lacks(b, l)[..p], i, d);
  }

  function Count(hand: bool): int { if hand then 1 else 0 }

  lemma {:induction false} LooksBefore(b: Balance, l: Limits, i: nat, p: nat)
    requires Fits(b, l) && i <= p <= |b.nums| && forall k | 0 <= k < p :: b.nums[k] <= l.share[k]
    ensures var r := Looks(b, l, i, p);
            && (forall k | 0 <= k < p :: r.nums[k] <= l.share[k])
            && (forall k | p <= k < |b.nums| :: r.nums[k] == b.nums[k])
            && LackBefore(r, l, p) - Count(r.hand) == LackBefore(b, l, p) - Count(b.hand)
    decreases p - i
  {
    hide LackBefore;
    if i < p {
      LookBefore(b, l, i, p);
      LooksBefore(Look(b, l, i), l, i + 1, p);
    }
  }

  lemma {:induction false} LooksAfter(b: Balance, l: Limits, i: nat, j: nat)
    requires Fits(b, l) && i <= j <= |b.nums|
    ensures forall k | 0 <= k < i :: Looks(b, l, i, j).nums[k] == b.nums[k]
    decreases j - i
  {
    if i < j { LooksAfter(Look(b, l, i), l, i + 1, j); }
  }

  /** A pass that uses up no excess comes to the first processor in excess with its hand full, and leaves it so. */
  lemma HandFullAtExcess(b: Balance, l: Limits, p: nat)
    requires Fits(b, l) && CanGive(l) && p == FirstBeyond(b, l, 0) < |b.nums|
    requires Excess(Looks(b, l, 0, |b.nums|), l) == Excess(b, l)
    ensures Looks(b, l, 0, p).hand && Looks(b, l, 0, |b.nums|).nums[p] == b.nums[p]
  {
    hide Excess, FirstBeyond, LackBefore;
    var n := |b.nums|;
    var a := Looks(b, l, 0, p);
    LooksSplit(b, l, 0, p, n);
    LooksBefore(b, l, 0, p);
    ExcessShrinks(b, l, 0, p);
    LookBeyond(a, l, p);
    var v := Look(a, l, p);
    ExcessShrinks(v, l, p + 1, n);
    LooksAfter(v, l, p + 1, n);
  }

  // ------------------------------------------------ once nothing is in excess

  ghost predicate Conserved(b: Balance, l: Limits) {
    Fits(b, l) && Sum(b.nums) + Count(b.hand) == Sum(l.share)
  }

  lemma LookConserves(b: Balance, l: Limits, i: nat)
    requires Conserved(b, l) && i < |b.nums|
    ensures Conserved(Look(b, l, i), l)
  {
    SumUpdate(b.nums, i, Look(b, l, i).nums[i]);
  }

  lemma {:induction false} LooksConserve(b: Balance, l: Limits, i: nat, j: nat)
    requires Conserved(b, l) && i <= j <= |b.nums|
    ensures Conserved(Looks(b, l, i, j), l)
    decreases j - i
  {
    hide Conserved;
    ConservedFits(b, l);
    if i < j {
      LookConserves(b, l, i);
      LooksConserve(Look(b, l, i), l, i + 1, j);
    }
  }

  lemma ConservedFits(b: Balance, l: Limits)
    requires Conserved(b, l)
    ensures Fits(b, l)
  {
  }

  lemma {:induction false} SumBelow(a: seq<nat>, b: seq<nat>)
    requires |a| == |b| && forall i | 0 <= i < |a| :: a[i] <= b[i]
    ensures Sum(a) <= Sum(b) && (Sum(a) == Sum(b) ==> a == b)
  {
    if a != [] {
      SumBelow(a[1..], b[1..]);
      assert a == [a[0]] + a[1..] && b == [b[0]] + b[1..];
    }
  }

  lemma {:induction false} FullHandStays(b: Balance, l: Limits, i: nat)
    requires Fits(b, l) && i <= |b.nums| && b.hand && forall k | i <= k < |b.nums| :: b.nums[k] >= l.share[k]
    ensures Looks(b, l, i, |b.nums|) == b
    decreases |b.nums| - i
  {
    if i < |b.nums| { FullHandStays(b, l, i + 1); }
  }

  /** With nobody in excess, a pass that takes a thread keeps it in hand. */
  lemma {:induction false} TakingEndsThePass(b: Balance, l: Limits, i: nat)
    requires Conserved(b, l) && i <= |b.nums| && (forall k | 0 <= k < |b.nums| :: b.nums[k] <= l.share[k])
    requires b.exit && !Looks(b, l, i, |b.nums|).exit
    ensures Looks(b, l, i, |b.nums|).hand
    decreases |b.nums| - i
  {
    if i < |b.nums| {
      var v := Look(b, l, i);
      LookConserves(b, l, i);
      if v.exit {
        TakingEndsThePass(v, l, i + 1);
      } else {
        SumBelow(b.nums, l.share);
        FullHandStays(v, l, i + 1);
      }
    }
  }

  // -------------------------------------------------------------- the measure

  lemma {:induction false} SumScaled(a: seq<nat>, c: nat, b: seq<nat>)
    requires |a| == |b| && forall i | 0 <= i < |a| :: a[i] <= c * b[i]
    ensures Sum(a) <= c * Sum(b)
  {
    if a != [] {
      SumScaled(a[1..], c, b[1..]);
      assert c * Sum(b) == c * b[0] + c * Sum(b[1..]);
    }
  }

  lemma {:induction false} SumOfFront(a: seq<nat>, p: nat)
    requires p <= |a|
    ensures Sum(a[..p]) <= Sum(a)
  {
    if p > 0 {
      SumOfFront(a[1..], p - 1);
      assert a[..p][1..] == a[1..][..p - 1];
    }
  }

  lemma Ranges(b: Balance, l: Limits, p: nat)
    requires Conserved(b, l) && p <= |b.nums|
    ensures Excess(b, l) <= Sum(l.share) && LackBefore(b, l, p) <= Sum(l.share)
    ensures Weight(b, l) <= |b.nums| * Sum(l.share)
  {
    SumBelow(Extras(b, l), b.nums);
    SumBelow(Lacks(b, l), l.share);
    SumOfFront(Lacks(b, l), p);
    forall i | 0 <= i < |b.nums| ensures Weights(b, l)[i] <= |b.nums| * l.share[i] {
      Products(i, |b.nums|, Lack(b.nums[i], l.share[i]), l.share[i]);
    }
    SumScaled(Weights(b, l), |b.nums|, l.share);
  }

  lemma Products(i: nat, n: nat, d: nat, e: nat)
    requires i <= n && d <= e
    ensures i * d <= n * e
  {
    assert n * e - i * d == (n - i) * e + i * (e - d);
  }

  function Shortage(b: Balance, l: Limits): nat
    requires Fits(b, l)
  {
    LackBefore(b, l, FirstBeyond(b, l, 0))
  }

  /**
   What a pass that does not end the migration lowers: lexicographically, excess, shortage still to
   come, hand, weight still to come.
   */
  ghost predicate Lower(r: Balance, b: Balance, l: Limits) {
    && Fits(r, l) && Fits(b, l)
    && (|| Excess(r, l) < Excess(b, l)
        || (Excess(r, l) == Excess(b, l) && Shortage(r, l) > Shortage(b, l))
        || (Excess(r, l) == Excess(b, l) && Shortage(r, l) == Shortage(b, l) && b.hand &&
            (r.hand ==> Weight(r, l) > Weight(b, l))))
  }

  lemma SameFirst(b: Balance, r: Balance, l: Limits, i: nat, p: nat)
    requires Fits(b, l) && Fits(r, l) && i <= p <= |b.nums| && p == FirstBeyond(b, l, i)
    requires (forall k | i <= k < p :: r.nums[k] <= l.share[k]) && (p < |b.nums| ==> r.nums[p] > l.share[p])
    ensures FirstBeyond(r, l, i) == p
  {
    assert FirstBeyond(r, l, i) >= p;
  }

  lemma PassLowers(b: Balance, l: Limits)
    requires Conserved(b, l) && CanGive(l) && b.exit && !Looks(b, l, 0, |b.nums|).exit
    ensures Lower(Looks(b, l, 0, |b.nums|), b, l)
  {
    hide Excess, Weight, FirstBeyond, LackBefore, Conserved;
    ConservedFits(b, l);
    var n := |b.nums|;
    var r := Looks(b, l, 0, n);
    ExcessShrinks(b, l, 0, n);
    if Excess(r, l) == Excess(b, l) {
      var p := FirstBeyond(b, l, 0);
      var a := Looks(b, l, 0, p);
      LooksSplit(b, l, 0, p, n);
      LooksBefore(b, l, 0, p);
      LooksAfter(a, l, p, n);
      LackKept(a, r, l, p);
      if p < n { HandFullAtExcess(b, l, p); } else { TakingEndsThePass(b, l, 0); }
      SameFirst(b, r, l, 0, p);
      if b.hand && r.hand { ShortageMovesOn(b, l, 0); }
    }
  }

  lemma LackKept(a: Balance, r: Balance, l: Limits, p: nat)
    requires Fits(a, l) && Fits(r, l) && p <= |a.nums| && forall k | 0 <= k < p :: r.nums[k] == a.nums[k]
    ensures LackBefore(r, l, p) == LackBefore(a, l, p)
  {
    assert Lacks(r, l)[..p] == Lacks(a, l)[..p];
  }

  /** The four parts of the measure as one number; `total` threads on `n` processors. */
  function Number(n: nat, total: nat, excess: nat, lacked: nat, hand: bool, weight: nat): int {
    ((excess * (total + 1) + (total - lacked)) * 2 + Count(hand)) * (n * total + 1) + (n * total - weight)
  }

  function Rank(b: Balance, l: Limits): int
    requires Fits(b, l)
  {
    Number(|b.nums|, Sum(l.share), Excess(b, l), Shortage(b, l), b.hand, Weight(b, l))
  }

  /** What a migration of `total` threads on `n` processors never needs more passes than. */
  function PassBound(n: nat, total: nat): nat {
    ((total * (total + 1) + total) * 2 + 1) * (n * total + 1) + n * total + 1
  }

  /** Two-part numbers compare by their first parts. */
  lemma Digits(a: int, a': int, w: nat, x: int, x': int)
    requires 0 <= x < w && 0 <= x' < w
    ensures a < a' ==> a * w + x < a' * w + x'
    ensures a == a' && x < x' ==> a * w + x < a' * w + x'
    ensures 0 <= a ==> 0 <= a * w + x
    ensures a <= a' ==> a * w + x <= a' * w + (w - 1)
  {
    Grows(a' - a, w);
    Grows(a, w);
    Spread(a', a, w);
  }

  lemma Grows(d: int, w: nat)
    ensures d >= 1 ==> d * w >= w
    ensures d >= 0 ==> d * w >= 0
  {
  }

  lemma Spread(a: int, b: int, w: nat)
    ensures (a - b) * w == a * w - b * w
  {
  }

  lemma RankInRange(b: Balance, l: Limits)
    requires Conserved(b, l)
    ensures 0 <= Rank(b, l) < PassBound(|b.nums|, Sum(l.share))
  {
    hide Excess, Weight, LackBefore, FirstBeyond, Conserved;
    ConservedFits(b, l);
    Ranges(b, l, FirstBeyond(b, l, 0));
    NumberInRange(|b.nums|, Sum(l.share), Excess(b, l), Shortage(b, l), b.hand, Weight(b, l));
  }

  lemma NumberInRange(n: nat, total: nat, excess: nat, lacked: nat, hand: bool, weight: nat)
    requires excess <= total && lacked <= total && weight <= n * total
    ensures 0 <= Number(n, total, excess, lacked, hand, weight) < PassBound(n, total)
  {
    var a := excess * (total + 1) + (total - lacked);
    Digits(excess, total, total + 1, total - lacked, 0);
    Digits(a * 2 + Count(hand), (total * (total + 1) + total) * 2 + 1, n * total + 1, n * total - weight, 0);
  }

  lemma LowerRank(r: Balance, b: Balance, l: Limits)
    requires Conserved(b, l) && Conserved(r, l) && Lower(r, b, l)
    ensures Rank(r, l) < Rank(b, l)
  {
    hide Excess, Weight, LackBefore, FirstBeyond, Conserved;
    ConservedFits(b, l);
    ConservedFits(r, l);
    var n, total := |b.nums|, Sum(l.share);
    Ranges(b, l, FirstBeyond(b, l, 0));
    Ranges(r, l, FirstBeyond(r, l, 0));
    var a := Excess(b, l) * (total + 1) + (total - Shortage(b, l));
    var a' := Excess(r, l) * (total + 1) + (total - Shortage(r, l));
    Digits(Excess(r, l), Excess(b, l), total + 1, total - Shortage(r, l), total - Shortage(b, l));
    Digits(a' * 2 + Count(r.hand), a * 2 + Count(b.hand), n * total + 1, n * total - Weight(r, l),
        n * total - Weight(b, l));
  }
}
