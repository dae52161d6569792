/**
 Four-level page tables (section 4.5 of the Intel SDM, volume 3A): the tables
 the kernel builds, against the walk the processor makes.

 `mem` holds the tables by physical address, as 64-bit entries.  `level` says
 which of the four structures a kernel-owned table is (4 for the PML4 down to
 1 for a page table), and `child` is the tables' `resource` arrays.
 */
module Paging {
  import opened Collections

  const TWO40 := 0x100_0000_0000
  const TWO52 := 0x10_0000_0000_0000
  const TWO64 := 0x1_0000_0000_0000_0000

  type Table = t: seq<nat> | |t| == 512 witness seq(512, _ => 0)

  datatype Space = Space(mem: map<nat, Table>, level: map<nat, nat>, child: map<(nat, nat), nat>, pml4: nat)

  // ----------------------------------------------------------------- entries

  predicate IsPresent(e: nat) { e % 2 == 1 }
  predicate IsWrite(e: nat) { e / 2 % 2 == 1 }
  predicate IsUser(e: nat) { e / 4 % 2 == 1 }
  predicate IsHuge(e: nat) { e / 128 % 2 == 1 }

  /** Bits 51..12, in place. */
  function Addr(e: nat): nat { e / 4096 % TWO40 * 4096 }

  function SetPresent(e: nat): nat { e - e % 2 + 1 }
  function SetWrite(e: nat, v: bool): nat { e - e / 2 % 2 * 2 + if v then 2 else 0 }
  function SetHuge(e: nat): nat { e - e / 128 % 2 * 128 + 128 }
  function SetUser(e: nat, v: bool): nat { e - e / 4 % 2 * 4 + if v then 4 else 0 }

  /** An entry made to point at a table: present, writable, user. */
  function TableEntry(address: nat): nat {
    SetUser(SetWrite(SetPresent(address), true), true)
  }

  /** The last-level entry written by map_virtual_to_physical. */
  function PageEntry(physical: nat, user: bool, write: bool): nat {
    SetWrite(SetUser(SetPresent(physical), user), write)
  }

  predicate PageAddress(a: nat) { a % 4096 == 0 && a < TWO52 }

  lemma Parity(y: nat, z: nat)
    ensures (2 * y + z) % 2 == z % 2
  {
  }

  lemma LowFlags(a: nat, low: nat)
    requires PageAddress(a)
    ensures IsPresent(a + low) <==> IsPresent(low)
    ensures IsWrite(a + low) <==> IsWrite(low)
    ensures IsUser(a + low) <==> IsUser(low)
  {
    var q := a / 4096;
    assert (a + low) / 2 == 2 * (1024 * q) + low / 2;
    assert (a + low) / 4 == 2 * (512 * q) + low / 4;
    Parity(2048 * q, low);
    Parity(1024 * q, low / 2);
    Parity(512 * q, low / 4);
  }

  lemma LowAddress(a: nat, low: nat)
    requires PageAddress(a) && low < 256
    ensures IsHuge(a + low) <==> IsHuge(low)
    ensures Addr(a + low) == a
  {
    var q := a / 4096;
    assert (a + low) / 128 == 2 * (16 * q) + low / 128;
    Parity(16 * q, low / 128);
    assert (a + low) / 4096 == q;
  }

  /** What the low bits of an entry say, when the rest is a page address. */
  lemma LowBits(a: nat, low: nat)
    requires PageAddress(a) && low < 256
    ensures IsPresent(a + low) <==> IsPresent(low)
    ensures IsWrite(a + low) <==> IsWrite(low)
    ensures IsUser(a + low) <==> IsUser(low)
    ensures IsHuge(a + low) <==> IsHuge(low)
    ensures Addr(a + low) == a
  {
    hide IsPresent, IsWrite, IsUser, IsHuge, Addr, PageAddress;
    LowFlags(a, low);
    LowAddress(a, low);
  }

  lemma TableEntryReads(a: nat)
    requires PageAddress(a)
    ensures var e := TableEntry(a); e == a + 7 && IsPresent(e) && IsWrite(e) && IsUser(e) && !IsHuge(e) && Addr(e) == a
  {
    LowBits(a, 0);
    LowBits(a, 1);
    LowBits(a, 3);
    LowBits(a, 7);
  }

  lemma PageEntryReads(a: nat, user: bool, write: bool)
    requires PageAddress(a)
    ensures var e := PageEntry(a, user, write);
            IsPresent(e) && (IsWrite(e) <==> write) && (IsUser(e) <==> user) && Addr(e) == a
  {
    var low := 1 + (if user then 4 else 0) + if write then 2 else 0;
    assert PageEntry(a, user, write) == a + low by {
      LowFlags(a, 0);
      LowFlags(a, 1);
      LowFlags(a, 5);
    }
    assert IsPresent(low) && (IsWrite(low) <==> write) && (IsUser(low) <==> user);
    hide PageEntry, IsPresent, IsWrite, IsUser, Addr;
    LowBits(a, low);
  }

  // --------------------------------------------------------------- addresses

  function Span(k: nat): nat
    requires 1 <= k <= 4
  {
    if k == 1 then 0x1000 else if k == 2 then 0x20_0000 else if k == 3 then 0x4000_0000 else 0x80_0000_0000
  }

  /** The index a virtual address uses at level k. */
  function IndexAt(va: nat, k: nat): (i: nat)
    requires 1 <= k <= 4
    ensures i < 512
  {
    va / Span(k) % 512
  }

  /** split_addr_for_page_table: the page table's index first. */
  method SplitAddr(va: nat) returns (r: seq<nat>)
    ensures |r| == 4 && forall i | 0 <= i < 4 :: r[i] == IndexAt(va, i + 1)
  {
    r := [];
    var addr := va / 0x1000;
    var i := 0;
    while i < 4
      invariant 0 <= i <= 4 && |r| == i
      invariant i < 4 ==> addr == va / Span(i + 1)
      invariant forall k | 0 <= k < i :: r[k] == IndexAt(va, k + 1)
    {
      r := r + [addr % 512];
      addr := addr / 512;
      i := i + 1;
    }
  }

  // ----------------------------------------------------- the processor's walk

  datatype Translation = Translation(physical: nat, user: bool, write: bool)

  /** The walk from table `t` of level `k`; permissions are those of every entry on the way. */
  function WalkFrom(mem: map<nat, Table>, t: nat, k: nat, va: nat, user: bool, write: bool): Option<Translation>
    requires 1 <= k <= 4
    decreases k
  {
    if t !in mem then None
    else
      var e := mem[t][IndexAt(va, k)];
      var u := user && IsUser(e);
      var w := write && IsWrite(e);
      if !IsPresent(e) then None
      else if k == 1 then Some(Translation(Addr(e) + va % 0x1000, u, w))
      else if k < 4 && IsHuge(e) then Some(Translation(Addr(e) / Span(k) * Span(k) + va % Span(k), u, w))
      else WalkFrom(mem, Addr(e), k - 1, va, u, w)
  }

  function Walk(s: Space, va: nat): Option<Translation> {
    WalkFrom(s.mem, s.pml4, 4, va, true, true)
  }

  // --------------------------------------------------------------- the kernel

  function ZeroTable(): (t: Table)
    ensures forall i | 0 <= i < 512 :: t[i] == 0
  {
    seq(512, _ => 0)
  }

  /** A table's operator[]: the next table for index `i`, created at `address` when missing. */
  function Next(s: Space, t: nat, i: nat, address: nat): (r: (Space, nat))
    requires t in s.mem && t in s.level && s.level[t] > 0 && i < 512
  {
    if (t, i) in s.child then (s, s.child[(t, i)])
    else
      (Space(s.mem[t := s.mem[t][i := TableEntry(address)]][address := ZeroTable()],
             s.level[address := s.level[t] - 1],
             s.child[(t, i) := address],
             s.pml4),
       address)
  }

  /** The identity tables for the low 64 GiB: their PDPT, and the page directory of each gigabyte. */
  datatype Identity = Identity(pdpt: nat, pds: seq<nat>)

  function IdentityPdpte(id: Identity, g: nat): nat {
    if g < 64 && g < |id.pds| then SetWrite(SetPresent(id.pds[g]), true) else 0
  }

  function IdentityPde(g: nat, i: nat): nat { SetHuge(SetWrite(SetPresent(g * 0x4000_0000 + i * 0x20_0000), true)) }

  ghost predicate PdOk(s: Space, id: Identity, g: nat)
    requires g < |id.pds|
  {
    && PageAddress(id.pds[g]) && id.pds[g] in s.mem && id.pds[g] !in s.level
    && forall i | 0 <= i < 512 :: s.mem[id.pds[g]][i] == IdentityPde(g, i)
  }

  ghost predicate IdentityOk(s: Space, id: Identity) {
    && |id.pds| == 64
    && PageAddress(id.pdpt) && id.pdpt in s.mem && id.pdpt !in s.level
    && (forall g | 0 <= g < 512 :: s.mem[id.pdpt][g] == IdentityPdpte(id, g))
    && (forall g | 0 <= g < 64 :: PdOk(s, id, g))
  }

  // -------------------------------------------------------------- invariant

  ghost predicate TableOk(s: Space, t: nat) {
    t in s.mem && PageAddress(t) && t in s.level && 1 <= s.level[t] <= 4
  }

  ghost predicate LinkOk(s: Space, t: nat, i: nat) {
    && (t, i) in s.child && t in s.level && s.child[(t, i)] in s.level
    && i < 512 && s.level[t] > 1 && s.level[s.child[(t, i)]] == s.level[t] - 1
  }

  /** Upper entries mirror the resource arrays, except the slot that holds the identity tables. */
  ghost predicate EntryOk(s: Space, t: nat, i: nat)
    requires t in s.mem && i < 512
  {
    s.mem[t][i] == if (t, i) in s.child then TableEntry(s.child[(t, i)]) else 0
  }

  ghost predicate Tables(s: Space) {
    && (forall t | t in s.level :: TableOk(s, t))
    && s.pml4 in s.level && s.level[s.pml4] == 4
    && (forall t, i | (t, i) in s.child :: LinkOk(s, t, i))
  }

  ghost predicate OneParent(s: Space) {
    forall t, i, t', i' | (t, i) in s.child && (t', i') in s.child && s.child[(t, i)] == s.child[(t', i')] ::
        t == t' && i == i'
  }

  ghost predicate Entries(s: Space, id: Identity)
    requires Tables(s)
  {
    && (forall t, i | t in s.level && s.level[t] > 1 && 0 <= i < 512 && (t != s.pml4 || i != 0) :: EntryOk(s, t, i))
    && (s.pml4, 0) in s.child && s.mem[s.pml4][0] == TableEntry(id.pdpt)
  }

  ghost predicate Inv(s: Space, id: Identity) {
    Tables(s) && OneParent(s) && Entries(s, id) && IdentityOk(s, id)
  }

  /** The page table that holds the entry for `va`, if the kernel has built it. */
  function TableFor(s: Space, t: nat, k: nat, va: nat): Option<nat>
    requires 1 <= k <= 4
    decreases k
  {
    if k == 1 then Some(t)
    else if (t, IndexAt(va, k)) in s.child then TableFor(s, s.child[(t, IndexAt(va, k))], k - 1, va)
    else None
  }

  /** The kernel's entry for the page of `va`; 0 when there is none. */
  function EntryFrom(s: Space, t: nat, k: nat, va: nat): nat
    requires 1 <= k <= 4
    decreases k
  {
    if t !in s.mem then 0
    else if k == 1 then s.mem[t][IndexAt(va, 1)]
    else if (t, IndexAt(va, k)) in s.child then EntryFrom(s, s.child[(t, IndexAt(va, k))], k - 1, va)
    else 0
  }

  function EntryFor(s: Space, va: nat): nat { EntryFrom(s, s.pml4, 4, va) }

  /** What a last-level entry means for `va`. */
  function Decode(e: nat, va: nat): Option<Translation> {
    if IsPresent(e) then Some(Translation(Addr(e) + va % 0x1000, IsUser(e), IsWrite(e))) else None
  }

  /** Below a table, the processor sees what the kernel recorded. */
  lemma {:induction false} WalkSeesEntry(s: Space, id: Identity, t: nat, k: nat, va: nat)
    requires Inv(s, id) && t in s.level && s.level[t] == k
    requires t == s.pml4 ==> IndexAt(va, 4) != 0
    ensures WalkFrom(s.mem, t, k, va, true, true) == Decode(EntryFrom(s, t, k, va), va)
    decreases k
  {
    hide IdentityOk, OneParent;
    assert TableOk(s, t);
    var i := IndexAt(va, k);
    if k > 1 {
      assert EntryOk(s, t, i);
      if (t, i) in s.child {
        assert LinkOk(s, t, i);
        var c := s.child[(t, i)];
        assert TableOk(s, c);
        TableEntryReads(c);
        hide TableEntry, IsPresent, IsWrite, IsUser, IsHuge, Addr, IndexAt, PageAddress;
        WalkSeesEntry(s, id, c, k - 1, va);
      }
    }
  }
}
