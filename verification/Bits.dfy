/** Single bits of a 64-bit word. */
module Bits {
  function Mask(i: nat): bv64
    requires i < 64
  {
    (1 as bv64) << (i as bv6)
  }

  function And(a: bv64, b: bv64): bv64 { a & b }

  predicate Test(w: bv64, m: bv64) { And(w, m) != 0 }

  function Put(w: bv64, m: bv64, flag: bool): bv64 { if flag then w | m else w & !m }

  predicate Get(w: bv64, i: nat)
    requires i < 64
  {
    Test(w, Mask(i))
  }

  function Set(w: bv64, i: nat, flag: bool): bv64
    requires i < 64
  {
    Put(w, Mask(i), flag)
  }

  lemma ShiftIsExact(i: nat)
    requires i < 64
    ensures (i as bv6) as nat == i
  {
  }

  lemma Apart(i: bv6, j: bv6)
    requires i != j
    ensures ((1 as bv64) << i) & ((1 as bv64) << j) == 0
  {
  }

  lemma MasksApart(i: nat, j: nat)
    requires i < 64 && j < 64 && i != j
    ensures !Test(Mask(i), Mask(j))
  {
    ShiftIsExact(i);
    ShiftIsExact(j);
    Apart(i as bv6, j as bv6);
  }

  lemma Alone(i: bv6)
    ensures (1 as bv64) << i != 0
  {
  }

  lemma MaskAlone(i: nat)
    requires i < 64
    ensures Mask(i) != 0
  {
    Alone(i as bv6);
  }

  lemma SetHere(w: bv64, m: bv64)
    requires m != 0
    ensures And(Put(w, m, true), m) != 0
  {
    assert (w | m) & m == m;
  }

  lemma ClearHere(w: bv64, m: bv64)
    ensures And(Put(w, m, false), m) == 0
  {
  }

  lemma Distribute(w: bv64, m: bv64, n: bv64)
    ensures (w | m) & n == (w & n) | (m & n)
  {
  }

  lemma OrNothing(a: bv64)
    ensures a | 0 == a
  {
  }

  lemma SetElsewhere(w: bv64, m: bv64, n: bv64)
    requires And(m, n) == 0
    ensures And(Put(w, m, true), n) == And(w, n)
  {
    Distribute(w, m, n);
    OrNothing(w & n);
  }

  lemma Reorder(w: bv64, m: bv64, n: bv64)
    ensures (w & m) & n == w & (n & m)
  {
  }

  lemma NoneTaken(m: bv64, n: bv64)
    requires m & n == 0
    ensures n & !m == n
  {
  }

  lemma ClearElsewhere(w: bv64, m: bv64, n: bv64)
    requires And(m, n) == 0
    ensures And(Put(w, m, false), n) == And(w, n)
  {
    NoneTaken(m, n);
    Reorder(w, !m, n);
  }

  lemma PutHere(w: bv64, m: bv64, flag: bool)
    requires m != 0
    ensures Test(Put(w, m, flag), m) == flag
  {
    hide And, Put;
    if flag { SetHere(w, m); } else { ClearHere(w, m); }
  }

  lemma PutElsewhere(w: bv64, m: bv64, flag: bool, n: bv64)
    requires !Test(m, n)
    ensures Test(Put(w, m, flag), n) == Test(w, n)
  {
    hide And, Put;
    if flag { SetElsewhere(w, m, n); } else { ClearElsewhere(w, m, n); }
  }

  /** The word operations are those of a set of bit numbers. */
  lemma GetAfterSet(w: bv64, i: nat, flag: bool, j: nat)
    requires i < 64 && j < 64
    ensures Get(Set(w, i, flag), j) <==> if i == j then flag else Get(w, j)
  {
    hide Mask, Test, Put;
    MaskAlone(i);
    if i == j {
      PutHere(w, Mask(i), flag);
    } else {
      MasksApart(i, j);
      PutElsewhere(w, Mask(i), flag, Mask(j));
    }
  }

  lemma GetZero(i: nat)
    requires i < 64
    ensures !Get(0, i)
  {
    hide Mask;
    assert And(0, Mask(i)) == 0;
  }
}
