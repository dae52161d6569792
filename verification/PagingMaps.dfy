/**
 Mapping pages: every run of map_virtual_to_physical calls on a process's
 tables, against the processor's walk.
 */
module PagingMaps {
  import opened Collections
  import opened Paging

  // ------------------------------------------------------- one table at a time

  ghost predicate Fresh(s: Space, a: nat) { PageAddress(a) && a !in s.mem }

  ghost predicate CanDescend(s: Space, t: nat, i: nat) {
    t in s.mem && t in s.level && s.level[t] > 1 && i < 512
  }

  lemma FreshIsUnused(s: Space, a: nat)
    requires Tables(s) && Fresh(s, a)
    ensures a !in s.level && forall j: nat :: (a, j) !in s.child
  {
    assert !TableOk(s, a);
    forall j: nat ensures (a, j) !in s.child { assert !LinkOk(s, a, j); }
  }

  /** Creating a table keeps every entry the kernel has recorded, and makes up none. */
  lemma {:induction false} NextKeepsEntries(s: Space, id: Identity, t: nat, i: nat, a: nat, u: nat, k: nat, va: nat)
    requires Inv(s, id) && CanDescend(s, t, i) && Fresh(s, a)
    requires u in s.level && s.level[u] == k
    ensures EntryFrom(Next(s, t, i, a).0, u, k, va) == EntryFrom(s, u, k, va)
    decreases k
  {
    hide IdentityOk, OneParent, Entries, IndexAt, TableEntry, PageAddress;
    assert TableOk(s, u);
    var s' := Next(s, t, i, a).0;
    var j := IndexAt(va, k);
    if (t, i) !in s.child && k > 1 {
      FreshIsUnused(s, a);
      if (u, j) in s.child {
        assert LinkOk(s, u, j);
        NextKeepsEntries(s, id, t, i, a, s.child[(u, j)], k - 1, va);
      } else if (u, j) == (t, i) {
        assert EntryFrom(s', u, k, va) == EntryFrom(s', a, k - 1, va);
        if k > 2 {
          var j' := IndexAt(va, k - 1);
          assert (a, j') !in s.child;
        }
      }
    }
  }

  lemma NextTables(s: Space, id: Identity, t: nat, i: nat, a: nat)
    requires Inv(s, id) && CanDescend(s, t, i) && Fresh(s, a)
    ensures Tables(Next(s, t, i, a).0) && OneParent(Next(s, t, i, a).0)
  {
    hide IdentityOk, Entries, TableEntry, PageAddress;
    var s' := Next(s, t, i, a).0;
    if (t, i) !in s.child {
      FreshIsUnused(s, a);
      forall u | u in s'.level ensures TableOk(s', u) { if u != a { assert TableOk(s, u); } }
      forall u, j | (u, j) in s'.child ensures LinkOk(s', u, j) { if (u, j) != (t, i) { assert LinkOk(s, u, j); } }
      forall u, j | (u, j) in s.child ensures s.child[(u, j)] != a { assert LinkOk(s, u, j); }
    }
  }

  lemma NextEntries(s: Space, id: Identity, t: nat, i: nat, a: nat)
    requires Inv(s, id) && CanDescend(s, t, i) && Fresh(s, a)
    requires Tables(Next(s, t, i, a).0)
    ensures Entries(Next(s, t, i, a).0, id) && IdentityOk(Next(s, t, i, a).0, id)
  {
    hide TableEntry, PageAddress, OneParent, IdentityPdpte, IdentityPde;
    var s' := Next(s, t, i, a).0;
    if (t, i) !in s.child {
      FreshIsUnused(s, a);
      forall u, j | u in s'.level && s'.level[u] > 1 && 0 <= j < 512 && (u != s'.pml4 || j != 0)
        ensures EntryOk(s', u, j)
      {
        if u == a {
          assert (a, j) !in s.child;
        } else {
          assert EntryOk(s, u, j);
        }
      }
      forall g | 0 <= g < 64 ensures PdOk(s', id, g) { assert PdOk(s, id, g); }
    }
  }

  /** Descending keeps the invariant and every recorded entry; the step it took is there to walk again. */
  lemma NextOk(s: Space, id: Identity, t: nat, i: nat, a: nat)
    requires Inv(s, id) && CanDescend(s, t, i) && Fresh(s, a)
    ensures var (s', c) := Next(s, t, i, a);
            && Inv(s', id) && s'.pml4 == s.pml4
            && c in s'.level && c in s'.mem && s'.level[c] == s.level[t] - 1
            && (t, i) in s'.child && s'.child[(t, i)] == c
            && (forall u, j | (u, j) in s.child :: (u, j) in s'.child && s'.child[(u, j)] == s.child[(u, j)])
            && s.mem.Keys <= s'.mem.Keys <= s.mem.Keys + {a}
            && (forall va :: EntryFor(s', va) == EntryFor(s, va))
  {
    NextTables(s, id, t, i, a);
    NextEntries(s, id, t, i, a);
    forall va ensures EntryFor(Next(s, t, i, a).0, va) == EntryFor(s, va) {
      NextKeepsEntries(s, id, t, i, a, s.pml4, 4, va);
    }
    if (t, i) in s.child { assert LinkOk(s, t, i); assert TableOk(s, s.child[(t, i)]); }
  }

  // -------------------------------------------------------- the entry written

  function WithEntry(s: Space, p: nat, j: nat, e: nat): Space
    requires p in s.mem && j < 512
  {
    s.(mem := s.mem[p := s.mem[p][j := e]])
  }

  lemma WriteOk(s: Space, id: Identity, p: nat, j: nat, e: nat)
    requires Inv(s, id) && p in s.level && s.level[p] == 1 && j < 512
    requires p in s.mem
    ensures Inv(WithEntry(s, p, j, e), id)
  {
    hide TableEntry, PageAddress, OneParent, IdentityPdpte, IdentityPde;
    var s' := WithEntry(s, p, j, e);
    assert OneParent(s') by { hide Tables, Entries, IdentityOk; UnlinkedKeepsParents(s, s'); }
    forall u | u in s'.level ensures TableOk(s', u) { assert TableOk(s, u); }
    forall u, i | (u, i) in s'.child ensures LinkOk(s', u, i) { assert LinkOk(s, u, i); }
    forall u, i | u in s'.level && s'.level[u] > 1 && 0 <= i < 512 && (u != s'.pml4 || i != 0)
      ensures EntryOk(s', u, i)
    {
      assert EntryOk(s, u, i);
    }
    forall g | 0 <= g < 64 ensures PdOk(s', id, g) { assert PdOk(s, id, g); }
  }

  lemma UnlinkedKeepsParents(s: Space, s': Space)
    requires OneParent(s) && s'.child == s.child
    ensures OneParent(s')
  {
  }

  /** A page table has one way down to it. */
  lemma {:induction false} SameTable(s: Space, t: nat, t': nat, k: nat, va: nat, va': nat)
    requires OneParent(s) && 1 <= k <= 4
    requires TableFor(s, t, k, va).Some? && TableFor(s, t, k, va) == TableFor(s, t', k, va')
    ensures t == t' && forall m | 2 <= m <= k :: IndexAt(va, m) == IndexAt(va', m)
    decreases k
  {
    hide IndexAt;
    if k > 1 {
      SameTable(s, s.child[(t, IndexAt(va, k))], s.child[(t', IndexAt(va', k))], k - 1, va, va');
    }
  }

  predicate SamePage(va: nat, va': nat) {
    forall k | 1 <= k <= 4 :: IndexAt(va, k) == IndexAt(va', k)
  }

  /** The entry the walk ends in, by way of its page table. */
  lemma {:induction false} EntryInTable(s: Space, t: nat, k: nat, va: nat)
    requires Tables(s) && t in s.level && s.level[t] == k
    ensures var p := TableFor(s, t, k, va);
            && (p.Some? ==> p.value in s.mem && p.value in s.level && s.level[p.value] == 1)
            && EntryFrom(s, t, k, va) == if p.Some? then s.mem[p.value][IndexAt(va, 1)] else 0
    decreases k
  {
    hide IndexAt;
    assert TableOk(s, t);
    if k > 1 && (t, IndexAt(va, k)) in s.child {
      assert LinkOk(s, t, IndexAt(va, k));
      EntryInTable(s, s.child[(t, IndexAt(va, k))], k - 1, va);
    }
  }

  lemma {:induction false} SameLinksSameTable(s: Space, s': Space, t: nat, k: nat, va: nat)
    requires s'.child == s.child && 1 <= k <= 4
    ensures TableFor(s', t, k, va) == TableFor(s, t, k, va)
    decreases k
  {
    if k > 1 && (t, IndexAt(va, k)) in s.child {
      SameLinksSameTable(s, s', s.child[(t, IndexAt(va, k))], k - 1, va);
    }
  }

  /** Writing the entry of `va`'s page changes that page's entry and no other's. */
  lemma WriteChangesOnePage(s: Space, id: Identity, p: nat, va: nat, e: nat, va': nat)
    requires Inv(s, id) && TableFor(s, s.pml4, 4, va) == Some(p) && p in s.level && s.level[p] == 1
    requires p in s.mem
    ensures var s' := WithEntry(s, p, IndexAt(va, 1), e);
            EntryFor(s', va') == if SamePage(va, va') then e else EntryFor(s, va')
  {
    var s' := WithEntry(s, p, IndexAt(va, 1), e);
    WriteOk(s, id, p, IndexAt(va, 1), e);
    hide IndexAt, IdentityOk, Entries;
    EntryInTable(s, s.pml4, 4, va');
    EntryInTable(s', s.pml4, 4, va');
    SameLinksSameTable(s, s', s.pml4, 4, va');
    if TableFor(s, s.pml4, 4, va') == Some(p) {
      SameTable(s, s.pml4, s.pml4, 4, va, va');
    } else if SamePage(va, va') {
      SamePageSameTable(s, s.pml4, 4, va, va');
    }
  }

  lemma {:induction false} SamePageSameTable(s: Space, t: nat, k: nat, va: nat, va': nat)
    requires SamePage(va, va') && 1 <= k <= 4
    ensures TableFor(s, t, k, va) == TableFor(s, t, k, va')
    decreases k
  {
    hide IndexAt;
    assert IndexAt(va, k) == IndexAt(va', k);
    if k > 1 && (t, IndexAt(va, k)) in s.child {
      SamePageSameTable(s, s.child[(t, IndexAt(va, k))], k - 1, va, va');
    }
  }

  // -------------------------------------------------- map_virtual_to_physical

  /** One call; `spare` are the addresses operator new would hand out for missing tables. */
  datatype Call = Call(va: nat, physical: nat, user: bool, write: bool, spare: seq<nat>)

  ghost predicate CallOk(s: Space, c: Call) {
    && PageAddress(c.physical)
    && |c.spare| == 3 && Fresh(s, c.spare[0]) && Fresh(s, c.spare[1]) && Fresh(s, c.spare[2])
    && c.spare[0] != c.spare[1] && c.spare[0] != c.spare[2] && c.spare[1] != c.spare[2]
  }

  /** The three operator[] calls: the tables on the way to `va`'s page table, created where missing. */
  ghost function Descend(s: Space, id: Identity, c: Call): (Space, nat)
    requires Inv(s, id) && CallOk(s, c)
  {
    PmlCanDescend(s, id, c);
    var (s1, t1) := Next(s, s.pml4, IndexAt(c.va, 4), c.spare[0]);
    NextOk(s, id, s.pml4, IndexAt(c.va, 4), c.spare[0]);
    var (s2, t2) := Next(s1, t1, IndexAt(c.va, 3), c.spare[1]);
    NextOk(s1, id, t1, IndexAt(c.va, 3), c.spare[1]);
    Next(s2, t2, IndexAt(c.va, 2), c.spare[2])
  }

  lemma PmlCanDescend(s: Space, id: Identity, c: Call)
    requires Inv(s, id)
    ensures CanDescend(s, s.pml4, IndexAt(c.va, 4))
  {
    assert TableOk(s, s.pml4);
  }

  lemma DescendOk(s: Space, id: Identity, c: Call)
    requires Inv(s, id) && CallOk(s, c)
    ensures var (s', p) := Descend(s, id, c);
            && Inv(s', id) && s'.pml4 == s.pml4 && TableFor(s', s.pml4, 4, c.va) == Some(p)
            && p in s'.level && p in s'.mem && s'.level[p] == 1
            && s.mem.Keys <= s'.mem.Keys <= s.mem.Keys + {c.spare[0], c.spare[1], c.spare[2]}
            && (forall va :: EntryFor(s', va) == EntryFor(s, va))
  {
    hide Inv, IndexAt, EntryFor, Next, PageAddress;
    PmlCanDescend(s, id, c);
    assert s.level[s.pml4] == 4 by { LevelOfRoot(s, id); }
    var i4, i3, i2 := IndexAt(c.va, 4), IndexAt(c.va, 3), IndexAt(c.va, 2);
    var (s1, t1) := Next(s, s.pml4, i4, c.spare[0]);
    NextOk(s, id, s.pml4, i4, c.spare[0]);
    var (s2, t2) := Next(s1, t1, i3, c.spare[1]);
    NextOk(s1, id, t1, i3, c.spare[1]);
    var (s3, t3) := Next(s2, t2, i2, c.spare[2]);
    NextOk(s2, id, t2, i2, c.spare[2]);
    assert TableFor(s3, t3, 1, c.va) == Some(t3);
    assert TableFor(s3, t2, 2, c.va) == Some(t3);
    assert TableFor(s3, t1, 3, c.va) == Some(t3);
  }

  lemma LevelOfRoot(s: Space, id: Identity)
    requires Inv(s, id)
    ensures s.pml4 in s.level && s.level[s.pml4] == 4
  {
  }
}
