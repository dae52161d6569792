/** Sequence and arithmetic vocabulary shared by the models. */
module Collections {

  datatype Option<+T> = None | Some(value: T)

  /** Every occurrence of `x` is removed; the rest keeps its order. */
  function EraseAll<T(==,!new)>(s: seq<T>, x: T): (r: seq<T>)
    ensures |r| <= |s|
    ensures x !in r
    ensures forall y :: y in r <==> y in s && y != x
    ensures multiset(r) == multiset(s)[x := 0]
  {
    if s == [] then []
    else
      assert s == [s[0]] + s[1..];
      if s[0] == x then EraseAll(s[1..], x)
      else [s[0]] + EraseAll(s[1..], x)
  }

  ghost predicate NoDuplicates<T>(s: seq<T>) {
    forall i, j | 0 <= i < j < |s| :: s[i] != s[j]
  }

  lemma {:induction false} EraseAllConcat<T(!new)>(a: seq<T>, b: seq<T>, x: T)
    ensures EraseAll(a + b, x) == EraseAll(a, x) + EraseAll(b, x)
  {
    if a == [] {
      assert a + b == b;
    } else {
      assert (a + b)[1..] == a[1..] + b;
      EraseAllConcat(a[1..], b, x);
    }
  }

  lemma {:induction false} EraseAllAbsent<T(!new)>(s: seq<T>, x: T)
    requires x !in s
    ensures EraseAll(s, x) == s
  {
    if s != [] {
      EraseAllAbsent(s[1..], x);
    }
  }

  lemma {:induction false} EraseAllKeepsDistinct<T(!new)>(s: seq<T>, x: T)
    requires NoDuplicates(s)
    ensures NoDuplicates(EraseAll(s, x))
  {
    if s != [] {
      EraseAllKeepsDistinct(s[1..], x);
      assert s[0] !in s[1..];
      assert s[0] !in EraseAll(s[1..], x);
    }
  }

  /** Erasing the only occurrence of an element closes the gap it leaves. */
  lemma {:induction false} EraseAllAt<T(!new)>(s: seq<T>, k: nat)
    requires NoDuplicates(s) && k < |s|
    ensures EraseAll(s, s[k]) == s[..k] + s[k + 1..]
    decreases k
  {
    if k == 0 {
      EraseAllAbsent(s[1..], s[0]);
    } else {
      EraseAllAt(s[1..], k - 1);
      assert s[1..][..k - 1] == s[1..k];
    }
  }

  lemma AppendKeepsDistinct<T>(s: seq<T>, x: T)
    requires NoDuplicates(s) && x !in s
    ensures NoDuplicates(s + [x])
  {
  }

  /** Quotient and remainder are determined by their equation. */
  lemma DivMod(x: nat, n: nat, q: nat, r: nat)
    requires n > 0 && r < n && x == q * n + r
    ensures x / n == q && x % n == r
  {
    var k := x / n - q;
    assert x / n * n + x % n == x;
    assert k * n == x / n * n - q * n;
    assert k >= 1 ==> k * n >= n;
    assert k <= -1 ==> k * n + n <= 0;
  }

  lemma SubsetSize<T>(a: set<T>, b: set<T>)
    requires a <= b
    ensures |a| <= |b|
  {
    assert b == a + (b - a);
  }

  /** Distinct numbers of a range are no more than the range is long. */
  lemma {:induction false} DistinctInRange(s: seq<nat>, lo: int, hi: int)
    requires NoDuplicates(s) && lo <= hi && forall x | x in s :: lo <= x < hi
    ensures |s| <= hi - lo
    decreases hi - lo
  {
    if s != [] {
      assert s[0] in s;
      if k :| 0 <= k < |s| && s[k] == hi - 1 {
        var t := s[..k] + s[k + 1..];
        forall x | x in t ensures lo <= x < hi - 1 { assert x in s; }
        assert NoDuplicates(t) by { forall i, j | 0 <= i < j < |t| ensures t[i] != t[j] {} }
        DistinctInRange(t, lo, hi - 1);
      } else {
        forall x | x in s ensures lo <= x < hi - 1 {}
        DistinctInRange(s, lo, hi - 1);
      }
    }
  }

  lemma MulMonotone(a: nat, b: nat, c: nat)
    requires a <= b
    ensures a * c <= b * c
  {
  }

  /** Multiplying by a positive number keeps the order both ways. */
  lemma MulOrder(a: nat, b: nat, c: nat)
    requires c > 0
    ensures a <= b <==> a * c <= b * c
  {
    if a <= b {
      MulMonotone(a, b, c);
    } else {
      MulMonotone(b + 1, a, c);
      assert (b + 1) * c == b * c + c;
    }
  }
}
