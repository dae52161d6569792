/**
 migrate_threads: threads are taken one at a time from loaded processors and
 handed to processors below their share.  The source repeats whole passes until
 one pass takes nothing, and has no bound on the number of passes; here `fuel`
 bounds them and None means "still running".
 */
module SchedulerMigration {
  import opened Collections
  import opened Scheduler
  import opened SchedulerInvariant
  import opened SchedulerSteps
  import opened SchedulerEvents

  /** The loop's variables; `hand` is the thread between two queues. */
  datatype Migration = Migration(s: State, nums: seq<nat>, hand: Option<Ptr>, exit: bool)

  function Load(l: Local): nat {
    |l.queue[0]| + |l.queue[1]| + |l.queue[2]| + |l.queue[3]| + |l.queue[4]|
  }

  function Sum(nums: seq<nat>): nat {
    if nums == [] then 0 else nums[0] + Sum(nums[1..])
  }

  function Loads(s: State): (r: seq<nat>)
    ensures |r| == |s.locals| && forall i | 0 <= i < |r| :: r[i] == Load(s.locals[i])
  {
    seq(|s.locals|, i requires 0 <= i < |s.locals| => Load(s.locals[i]))
  }

  function Threshold(total: nat, n: nat, i: nat): nat
    requires n > 0
  {
    var average := total / n;
    var mod := total - average * n;
    if i < mod then average + 1 else average
  }

  predicate Takeable(s: State, c: nat, p: Ptr)
    requires c < |s.locals|
  {
    p in s.threads && s.threads[p].movable && s.locals[c].current != Some(p)
  }

  function FirstTakeable(s: State, c: nat, q: seq<Ptr>): (r: Option<Ptr>)
    requires c < |s.locals|
    ensures r.Some? ==> r.value in q && Takeable(s, c, r.value)
    ensures r.None? <==> forall p | p in q :: !Takeable(s, c, p)
  {
    if q == [] then None
    else if Takeable(s, c, q[0]) then Some(q[0])
    else FirstTakeable(s, c, q[1..])
  }

  /** The least urgent takeable thread among levels below `n`. */
  function TakeBelow(s: State, c: nat, n: nat): (r: Option<Ptr>)
    requires c < |s.locals| && n <= 5
    ensures r.Some? ==> Takeable(s, c, r.value) && exists k :: 0 <= k < n && r.value in s.locals[c].queue[k]
    ensures r.None? ==> forall k, p | 0 <= k < n && p in s.locals[c].queue[k] :: !Takeable(s, c, p)
  {
    if n == 0 then None
    else
      var r := FirstTakeable(s, c, s.locals[c].queue[n - 1]);
      if r.Some? then r else TakeBelow(s, c, n - 1)
  }

  /**
   `t` is the thread to take: in the least urgent level that has a takeable thread,
   the takeable thread nearest the front.
   */
  ghost predicate FirstOfLast(s: State, c: nat, t: Ptr)
    requires c < |s.locals|
  {
    exists k, i ::
      && 0 <= k < 5 && 0 <= i < |s.locals[c].queue[k]| && s.locals[c].queue[k][i] == t && Takeable(s, c, t)
      && (forall j | 0 <= j < i :: !Takeable(s, c, s.locals[c].queue[k][j]))
      && forall k', p | k < k' < 5 && p in s.locals[c].queue[k'] :: !Takeable(s, c, p)
  }

  lemma {:induction false} FirstTakeableAt(s: State, c: nat, q: seq<Ptr>) returns (i: nat)
    requires c < |s.locals| && FirstTakeable(s, c, q).Some?
    ensures i < |q| && q[i] == FirstTakeable(s, c, q).value && forall j | 0 <= j < i :: !Takeable(s, c, q[j])
  {
    hide Takeable;
    if Takeable(s, c, q[0]) {
      i := 0;
    } else {
      i := FirstTakeableAt(s, c, q[1..]);
      i := i + 1;
    }
  }

  lemma {:induction false} TakesFirstOfLast(s: State, c: nat, n: nat)
    requires c < |s.locals| && n <= 5 && TakeBelow(s, c, n).Some?
    requires forall k, p | n <= k < 5 && p in s.locals[c].queue[k] :: !Takeable(s, c, p)
    ensures FirstOfLast(s, c, TakeBelow(s, c, n).value)
  {
    hide Takeable;
    var q := s.locals[c].queue[n - 1];
    if FirstTakeable(s, c, q).Some? {
      var i := FirstTakeableAt(s, c, q);
      assert s.locals[c].queue[n - 1][i] == TakeBelow(s, c, n).value;
    } else {
      TakesFirstOfLast(s, c, n - 1);
    }
  }

  predicate Shape(m: Migration) {
    && |m.nums| == |m.s.locals|
    && (m.hand.Some? ==> m.hand.value in m.s.threads)
  }

  function Visit(m: Migration, i: nat, threshold: nat): (r: Migration)
    requires Shape(m) && i < |m.nums|
    ensures Shape(r) && |r.nums| == |m.nums|
  {
    if m.hand.None? then
      var t := if m.nums[i] < threshold then None else TakeBelow(m.s, i, 5);
      if t.None? then m
      else Migration(Erase(m.s, i, t.value), m.nums[i := if m.nums[i] == 0 then 0 else m.nums[i] - 1], t, false)
    else if m.nums[i] >= threshold then m
    else
      var p := m.hand.value;
      Migration(Push(SetThread(m.s, p, m.s.threads[p].(runningOn := On(i))), i, p), m.nums[i := m.nums[i] + 1], None,
          m.exit)
  }

  function PassFrom(m: Migration, i: nat, total: nat): (r: Migration)
    requires Shape(m) && i <= |m.nums|
    ensures Shape(r) && |r.nums| == |m.nums|
    decreases |m.nums| - i
  {
    if i == |m.nums| then m
    else PassFrom(Visit(m, i, Threshold(total, |m.nums|, i)), i + 1, total)
  }

  function Passes(m: Migration, total: nat, fuel: nat): (r: Option<Migration>)
    requires Shape(m)
    ensures r.Some? ==> Shape(r.value)
    decreases fuel
  {
    if fuel == 0 then None
    else
      var m1 := PassFrom(m.(exit := true), 0, total);
      if m1.exit then Some(m1) else Passes(m1, total, fuel - 1)
  }

  function Start(s: State): (m: Migration)
    ensures Shape(m)
  {
    Migration(s, Loads(s), None, true)
  }

  function Migrate(s: State, fuel: nat): (r: Option<Migration>) {
    Passes(Start(s), Sum(Loads(s)), fuel)
  }

  // ------------------------------------------------------------- arithmetic

  function SumThresholds(total: nat, n: nat, i: nat): nat
    requires n > 0 && i <= n
  {
    if i == 0 then 0 else SumThresholds(total, n, i - 1) + Threshold(total, n, i - 1)
  }

  lemma {:induction false} ThresholdPrefix(total: nat, n: nat, i: nat)
    requires n > 0 && i <= n
    ensures var average := total / n;
            var mod := total - average * n;
            0 <= mod < n && SumThresholds(total, n, i) == i * average + (if i < mod then i else mod)
  {
    var average := total / n;
    assert total == average * n + total % n;
    if i > 0 {
      ThresholdPrefix(total, n, i - 1);
      assert (i - 1) * average + average == i * average;
    }
  }

  /** The shares add up to the number of threads. */
  lemma ThresholdsSumToTotal(total: nat, n: nat)
    requires n > 0
    ensures SumThresholds(total, n, n) == total
  {
    ThresholdPrefix(total, n, n);
    assert n * (total / n) == (total / n) * n;
  }

  lemma {:induction false} SumUpdate(nums: seq<nat>, i: nat, v: nat)
    requires i < |nums|
    ensures Sum(nums[i := v]) == Sum(nums) - nums[i] + v
  {
    if i == 0 {
      assert nums[0 := v][1..] == nums[1..];
    } else {
      assert nums[i := v][1..] == nums[1..][i - 1 := v];
      SumUpdate(nums[1..], i - 1, v);
    }
  }

  lemma {:induction false} SumPrefix(nums: seq<nat>, i: nat)
    requires i < |nums|
    ensures Sum(nums[..i + 1]) == Sum(nums[..i]) + nums[i]
  {
    if i == 0 {
      assert nums[..1] == [nums[0]] + [];
    } else {
      assert nums[..i + 1][1..] == nums[1..][..i] && nums[..i][1..] == nums[1..][..i - 1];
      SumPrefix(nums[1..], i - 1);
    }
  }

  /** Pigeonhole: if every processor has its share, no thread can be missing. */
  lemma {:induction false} FullEverywhere(nums: seq<nat>, total: nat, i: nat)
    requires |nums| > 0 && i <= |nums|
    requires forall k | 0 <= k < i :: nums[k] >= Threshold(total, |nums|, k)
    ensures Sum(nums[..i]) >= SumThresholds(total, |nums|, i)
  {
    if i > 0 {
      FullEverywhere(nums, total, i - 1);
      SumPrefix(nums, i - 1);
    }
  }

  // -------------------------------------------------------------- invariant

  /** The state seen as if the thread in hand were asleep. */
  function Parked(m: Migration): (s: State)
    requires Shape(m)
  {
    if m.hand.None? then m.s
    else SetThread(m.s, m.hand.value, m.s.threads[m.hand.value].(runningOn := Nowhere))
  }

  /** Threads changed processors and nothing else about them changed. */
  ghost predicate OnlyMoved(s: State, r: State) {
    && r.threads.Keys == s.threads.Keys && |r.locals| == |s.locals|
    && r.tick == s.tick && r.events == s.events && r.processes == s.processes && r.eventProcessor == s.eventProcessor
    && (forall p | p in s.threads ::
          && r.threads[p] == s.threads[p].(runningOn := r.threads[p].runningOn)
          && r.threads[p].runningOn.On? == s.threads[p].runningOn.On?)
    && (forall c | 0 <= c < |s.locals| :: r.locals[c].current == s.locals[c].current)
  }

  /** Immovable threads, and the threads the processors are running, stay put. */
  ghost predicate PinnedStay(s: State, r: State) {
    forall p | p in s.threads && p in r.threads &&
               (!s.threads[p].movable || (s.threads[p].runningOn.On? && s.threads[p].runningOn.cpu < |s.locals| &&
                                          s.locals[s.threads[p].runningOn.cpu].current == Some(p))) ::
      r.threads[p].runningOn == s.threads[p].runningOn
  }

  function Max(a: int, b: int): int { if a < b then b else a }
  function Min(a: int, b: int): int { if a < b then a else b }

  ghost predicate Bounded(s: State, m: Migration, total: nat)
    requires |m.nums| == |s.locals| > 0
  {
    forall i | 0 <= i < |m.nums| ::
      var t := Threshold(total, |m.nums|, i);
      Min(Load(s.locals[i]), t - 1) <= m.nums[i] <= Max(Load(s.locals[i]), t)
  }

  ghost predicate Counted(m: Migration, total: nat) {
    && |m.nums| == |m.s.locals|
    && (forall i | 0 <= i < |m.nums| :: m.nums[i] == Load(m.s.locals[i]))
    && Sum(m.nums) + (if m.hand.Some? then 1 else 0) == total
  }

  ghost predicate HandOk(m: Migration) {
    m.hand.Some? ==>
      && m.hand.value in m.s.threads
      && m.s.threads[m.hand.value].runningOn.On? && m.s.threads[m.hand.value].movable
      && forall c | 0 <= c < |m.s.locals| :: m.s.locals[c].current != m.hand
  }

  ghost predicate Migrating(s: State, m: Migration, total: nat) {
    && Shape(m) && |m.nums| == |s.locals| > 0
    && Inv(Parked(m))
    && HandOk(m)
    && OnlyMoved(s, m.s)
    && PinnedStay(s, m.s)
    && Counted(m, total)
    && Bounded(s, m, total)
  }

  // ------------------------------------------------------------- one visit

  lemma LoadAfterErase(s: State, c: nat, n: nat, p: Ptr)
    requires c < |s.locals| && n < 5 && NoDuplicates(s.locals[c].queue[n]) && p in s.locals[c].queue[n]
    ensures Load(SetQueue(s, c, n, EraseAll(s.locals[c].queue[n], p)).locals[c]) == Load(s.locals[c]) - 1
  {
    var k :| 0 <= k < |s.locals[c].queue[n]| && s.locals[c].queue[n][k] == p;
    EraseAllAt(s.locals[c].queue[n], k);
  }

  /** The thread the next visit to processor `i` would take. */
  ghost predicate Takes(m: Migration, i: nat, p: Ptr) {
    && Shape(m) && i < |m.nums| && m.hand.None? && TakeBelow(m.s, i, 5) == Some(p)
  }

  lemma TakenIsFree(m: Migration, i: nat, p: Ptr)
    requires Takes(m, i, p) && Inv(m.s)
    ensures p in m.s.threads && m.s.threads[p].movable && m.s.threads[p].runningOn == On(i) && !IsIdle(m.s, p)
    ensures p in m.s.locals[i].queue[Level(m.s.threads[p].nice)]
    ensures NoDuplicates(m.s.locals[i].queue[Level(m.s.threads[p].nice)])
    ensures forall c | 0 <= c < |m.s.locals| :: m.s.locals[c].current != Some(p)
  {
    var k :| 0 <= k < 5 && p in m.s.locals[i].queue[k];
    assert Placed(m.s, p, i, k);
  }

  lemma TakeParked(m: Migration, i: nat, p: Ptr, threshold: nat)
    requires Takes(m, i, p) && Inv(m.s) && m.nums[i] >= threshold
    ensures Inv(Parked(Visit(m, i, threshold))) && HandOk(Visit(m, i, threshold))
    ensures Load(Visit(m, i, threshold).s.locals[i]) == Load(m.s.locals[i]) - 1
  {
    TakenIsFree(m, i, p);
    LoadAfterErase(m.s, i, Level(m.s.threads[p].nice), p);
    hide QueuesOk, CurrentOk, IdleOk, EventsOk, TableOk;
    SleepOtherOk(m.s, p, {});
    assert {} - {p} == {};
    var r := Visit(m, i, threshold);
    assert Parked(r) == Erase(SetThread(m.s, p, m.s.threads[p].(runningOn := Nowhere)), i, p);
  }

  lemma TakeMoves(s: State, m: Migration, i: nat, p: Ptr, threshold: nat)
    requires Takes(m, i, p) && m.nums[i] >= threshold && p in m.s.threads
    requires OnlyMoved(s, m.s) && PinnedStay(s, m.s)
    ensures OnlyMoved(s, Visit(m, i, threshold).s) && PinnedStay(s, Visit(m, i, threshold).s)
  {
    var r := Visit(m, i, threshold).s;
    assert r.threads == m.s.threads;
    assert forall c | 0 <= c < |m.s.locals| :: r.locals[c].current == m.s.locals[c].current;
  }

  /** A visit that changes one count by one keeps every count tied to its queue and in bounds. */
  lemma CountsKept(s: State, m: Migration, r: Migration, i: nat, total: nat)
    requires i < |m.nums| && |s.locals| == |m.nums| && Counted(m, total) && Bounded(s, m, total)
    requires |r.s.locals| == |m.s.locals|
    requires forall c | 0 <= c < |m.s.locals| && c != i :: r.s.locals[c] == m.s.locals[c]
    requires var t := Threshold(total, |m.nums|, i);
             || (m.hand.None? && r.hand.Some? && m.nums[i] >= t && m.nums[i] > 0 &&
                 r.nums == m.nums[i := m.nums[i] - 1])
             || (m.hand.Some? && r.hand.None? && m.nums[i] < t && r.nums == m.nums[i := m.nums[i] + 1])
    requires Load(r.s.locals[i]) == r.nums[i]
    ensures Counted(r, total) && Bounded(s, r, total)
  {
    SumUpdate(m.nums, i, r.nums[i]);
  }

  lemma TakeKeeps(s: State, m: Migration, i: nat, p: Ptr, total: nat)
    requires Migrating(s, m, total) && Takes(m, i, p) && m.nums[i] >= Threshold(total, |m.nums|, i)
    ensures Migrating(s, Visit(m, i, Threshold(total, |m.nums|, i)), total)
  {
    hide Inv, OnlyMoved, PinnedStay, Counted, Bounded;
    var t := Threshold(total, |m.nums|, i);
    TakenIsFree(m, i, p);
    TakeParked(m, i, p, t);
    TakeMoves(s, m, i, p, t);
    assert m.nums[i] == Load(m.s.locals[i]) by { CountIsLoad(m, i, total); }
    CountsKept(s, m, Visit(m, i, t), i, total);
  }

  lemma CountIsLoad(m: Migration, i: nat, total: nat)
    requires Counted(m, total) && i < |m.nums|
    ensures m.nums[i] == Load(m.s.locals[i])
  {
  }

  /** Handing a thread over is waking it on the new processor. */
  lemma GiveIsWakeup(m: Migration, i: nat, threshold: nat)
    requires Shape(m) && i < |m.nums| && m.hand.Some? && m.nums[i] < threshold
    ensures Visit(m, i, threshold).s == Wakeup(Parked(m), i, m.hand.value)
    ensures Load(Visit(m, i, threshold).s.locals[i]) == Load(m.s.locals[i]) + 1
  {
    var p := m.hand.value;
    assert m.s.threads[p].(runningOn := Nowhere).(runningOn := On(i)) == m.s.threads[p].(runningOn := On(i));
    assert Visit(m, i, threshold).s.threads == Wakeup(Parked(m), i, p).threads;
  }

  lemma GiveParked(m: Migration, i: nat, threshold: nat)
    requires Shape(m) && i < |m.nums| && m.hand.Some? && Inv(Parked(m)) && m.nums[i] < threshold
    requires !m.s.threads[m.hand.value].zombie
    ensures Inv(Parked(Visit(m, i, threshold)))
    ensures Load(Visit(m, i, threshold).s.locals[i]) == Load(m.s.locals[i]) + 1
  {
    hide Core, Lists, Wakeup;
    WakeupOk(Parked(m), i, m.hand.value, {});
    GiveIsWakeup(m, i, threshold);
  }

  lemma GiveMoves(s: State, m: Migration, i: nat, threshold: nat)
    requires Shape(m) && i < |m.nums| && m.hand.Some? && m.nums[i] < threshold && CurrentOk(s)
    requires OnlyMoved(s, m.s) && PinnedStay(s, m.s) && HandOk(m)
    ensures OnlyMoved(s, Visit(m, i, threshold).s) && PinnedStay(s, Visit(m, i, threshold).s)
  {
    var r := Visit(m, i, threshold).s;
    assert forall c | 0 <= c < |m.s.locals| :: r.locals[c].current == m.s.locals[c].current;
  }

  lemma GiveKeeps(s: State, m: Migration, i: nat, total: nat)
    requires Migrating(s, m, total) && Inv(s) && i < |m.nums|
    requires m.hand.Some? && m.nums[i] < Threshold(total, |m.nums|, i)
    ensures Migrating(s, Visit(m, i, Threshold(total, |m.nums|, i)), total)
  {
    hide Inv, CurrentOk, OnlyMoved, PinnedStay, Counted, Bounded, HandOk, Visit;
    HandIsAlive(s, m);
    var t := Threshold(total, |m.nums|, i);
    GiveParked(m, i, t);
    GiveMoves(s, m, i, t);
    assert m.nums[i] == Load(m.s.locals[i]) by { CountIsLoad(m, i, total); }
    GiveShape(m, i, t);
    CountsKept(s, m, Visit(m, i, t), i, total);
  }

  lemma GiveShape(m: Migration, i: nat, threshold: nat)
    requires Shape(m) && i < |m.nums| && m.hand.Some? && m.nums[i] < threshold
    ensures var r := Visit(m, i, threshold);
            && r.hand.None? && HandOk(r) && r.nums == m.nums[i := m.nums[i] + 1] && |r.s.locals| == |m.s.locals|
            && forall c | 0 <= c < |m.s.locals| && c != i :: r.s.locals[c] == m.s.locals[c]
  {
  }

  lemma HandIsAlive(s: State, m: Migration)
    requires Inv(s) && HandOk(m) && m.hand.Some? && OnlyMoved(s, m.s)
    ensures Alive(m.s, m.hand.value) && CurrentOk(s)
  {
  }

  lemma VisitKeeps(s: State, m: Migration, i: nat, total: nat)
    requires Migrating(s, m, total) && Inv(s) && i < |m.nums|
    ensures Migrating(s, Visit(m, i, Threshold(total, |m.nums|, i)), total)
  {
    assert Shape(m);
    hide Migrating;
    var t := Threshold(total, |m.nums|, i);
    if m.hand.Some? {
      if m.nums[i] < t {
        GiveKeeps(s, m, i, total);
      }
    } else if m.nums[i] >= t && TakeBelow(m.s, i, 5).Some? {
      TakeKeeps(s, m, i, TakeBelow(m.s, i, 5).value, total);
    }
  }

  // ----------------------------------------------------- passes and results

  lemma {:induction false} PassKeeps(s: State, m: Migration, i: nat, total: nat)
    requires Migrating(s, m, total) && Inv(s) && i <= |m.nums|
    ensures Migrating(s, PassFrom(m, i, total), total)
    decreases |m.nums| - i
  {
    hide Inv;
    if i < |m.nums| {
      VisitKeeps(s, m, i, total);
      PassKeeps(s, Visit(m, i, Threshold(total, |m.nums|, i)), i + 1, total);
    }
  }

  lemma {:induction false} TakingIsRemembered(m: Migration, i: nat, total: nat)
    requires Shape(m) && i <= |m.nums| && !m.exit
    ensures !PassFrom(m, i, total).exit
    decreases |m.nums| - i
  {
    if i < |m.nums| {
      TakingIsRemembered(Visit(m, i, Threshold(total, |m.nums|, i)), i + 1, total);
    }
  }

  /** A pass that takes nothing and still ends with a thread in hand met only full processors. */
  lemma {:induction false} CarriedThroughFull(m: Migration, i: nat, total: nat)
    requires Shape(m) && i <= |m.nums| && m.exit
    requires PassFrom(m, i, total).exit && PassFrom(m, i, total).hand.Some?
    ensures PassFrom(m, i, total) == m
    ensures forall k | i <= k < |m.nums| :: m.nums[k] >= Threshold(total, |m.nums|, k)
    decreases |m.nums| - i
  {
    if i < |m.nums| {
      var v := Visit(m, i, Threshold(total, |m.nums|, i));
      if !v.exit {
        TakingIsRemembered(v, i + 1, total);
      } else {
        CarriedThroughFull(v, i + 1, total);
      }
    }
  }

  lemma NothingInHand(s: State, m: Migration, total: nat)
    requires Migrating(s, m, total) && m.exit
    requires PassFrom(m, 0, total).exit
    ensures PassFrom(m, 0, total).hand.None?
  {
    hide Inv, OnlyMoved, PinnedStay, Bounded;
    assert m.nums[..|m.nums|] == m.nums;
    ThresholdsSumToTotal(total, |m.nums|);
    if PassFrom(m, 0, total).hand.Some? {
      CarriedThroughFull(m, 0, total);
      FullEverywhere(m.nums, total, |m.nums|);
    }
  }

  lemma ShapeOf(s: State, m: Migration, total: nat)
    requires Migrating(s, m, total)
    ensures Shape(m) && |m.nums| == |s.locals| > 0
  {
  }

  lemma ExitFlag(s: State, m: Migration, total: nat)
    requires Migrating(s, m, total)
    ensures Migrating(s, m.(exit := true), total)
  {
    hide Inv;
    assert Parked(m.(exit := true)) == Parked(m);
  }

  lemma PassesUnroll(m: Migration, total: nat, fuel: nat)
    requires Shape(m) && fuel > 0
    ensures var m1 := PassFrom(m.(exit := true), 0, total);
            Passes(m, total, fuel) == if m1.exit then Some(m1) else Passes(m1, total, fuel - 1)
  {
  }

  lemma PassesZero(m: Migration, total: nat)
    requires Shape(m)
    ensures Passes(m, total, 0) == None
  {
  }

  lemma {:induction false} PassesKeep(s: State, m: Migration, total: nat, fuel: nat)
    requires Migrating(s, m, total) && Inv(s)
    ensures var r := Passes(m, total, fuel);
            r.Some? ==> Migrating(s, r.value, total) && r.value.hand.None?
    decreases fuel
  {
    hide Inv, OnlyMoved, PinnedStay;
    if fuel > 0 {
      var m0 := m.(exit := true);
      PassKeeps(s, m0, 0, total);
      var m1 := PassFrom(m0, 0, total);
      if m1.exit {
        NothingInHand(s, m0, total);
      } else {
        PassesKeep(s, m1, total, fuel - 1);
      }
    }
  }

  lemma StartOk(s: State)
    requires Inv(s) && |s.locals| > 0
    ensures Migrating(s, Start(s), Sum(Loads(s)))
  {
  }

  /**
   If migrate_threads returns, no thread was lost, duplicated or left in hand;
   immovable and running threads stayed put; and every processor's load lies
   between its old load and its share (one less when it was over its share).
   */
  lemma MigrationConserves(s: State, fuel: nat)
    requires Inv(s) && |s.locals| > 0 && Migrate(s, fuel).Some?
    ensures var m := Migrate(s, fuel).value;
            && m.hand.None? && Inv(m.s) && OnlyMoved(s, m.s) && PinnedStay(s, m.s)
            && forall i | 0 <= i < |s.locals| ::
                 var t := Threshold(Sum(Loads(s)), |s.locals|, i);
                 Min(Load(s.locals[i]), t - 1) <= Load(m.s.locals[i]) <= Max(Load(s.locals[i]), t)
  {
    hide Inv;
    StartOk(s);
    PassesKeep(s, Start(s), Sum(Loads(s)), fuel);
  }
}
