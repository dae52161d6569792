/**
 The tables as the kernel updates them.  `operator new` is a parameter: each
 call is given the addresses it would use for the tables that are missing.
 */
module AddressSpace {
  import opened Collections
  import opened Paging
  import opened PagingMaps
  import opened PagingRuns

  ghost predicate IdentityFree(id: Identity) {
    && |id.pds| == 64 && PageAddress(id.pdpt)
    && (forall g | 0 <= g < 64 :: PageAddress(id.pds[g]) && id.pds[g] != id.pdpt)
    && NoDuplicates(id.pds)
  }

  /** The inner loop of get_identity_pdpt: one gigabyte's page directory. */
  method FillDirectory(g: nat) returns (t: Table)
    ensures forall i | 0 <= i < 512 :: t[i] == IdentityPde(g, i)
  {
    t := ZeroTable();
    var i: nat := 0;
    while i < 512
      invariant i <= 512
      invariant forall k | 0 <= k < i :: t[k] == IdentityPde(g, k)
    {
      t := t[i := SetHuge(SetWrite(SetPresent(g * 0x4000_0000 + i * 0x20_0000), true))];
      i := i + 1;
    }
  }

  /** get_identity_pdpt, on zeroed static tables at the addresses of `id`. */
  method BuildIdentity(id: Identity) returns (mem: map<nat, Table>)
    requires IdentityFree(id)
    ensures IdentityOk(Space(mem, map[], map[], 0), id)
    ensures forall a | a in mem :: a == id.pdpt || a in id.pds
  {
    hide PageAddress, IdentityPde, SetPresent, SetWrite;
    mem := map[id.pdpt := ZeroTable()];
    var g: nat := 0;
    while g < 64
      invariant g <= 64 && id.pdpt in mem
      invariant forall a | a in mem :: a == id.pdpt || a in id.pds
      invariant forall k | 0 <= k < 512 :: mem[id.pdpt][k] == if k < g then IdentityPdpte(id, k) else 0
      invariant forall k | 0 <= k < g :: PdOk(Space(mem, map[], map[], 0), id, k)
    {
      ghost var before := Space(mem, map[], map[], 0);
      var pd := FillDirectory(g);
      var pdpt := mem[id.pdpt][g := SetWrite(SetPresent(id.pds[g]), true)];
      mem := mem[id.pds[g] := pd][id.pdpt := pdpt];
      forall k | 0 <= k < g + 1 ensures PdOk(Space(mem, map[], map[], 0), id, k) {
        if k < g { assert PdOk(before, id, k); }
      }
      g := g + 1;
    }
  }

  /** A process's page tables. */
  class PageTables {
    var mem: map<nat, Table>
    var child: map<(nat, nat), nat>
    ghost var level: map<nat, nat>
    const pml4: nat

    ghost function View(): Space
      reads this
    {
      Space(mem, level, child, pml4)
    }

    constructor (tables: map<nat, Table>, id: Identity, root: nat, pdpt: nat)
      requires BootReady(tables, id, root, pdpt)
      ensures View() == Boot(tables, id, root, pdpt) && Inv(View(), id)
      ensures forall va :: EntryFor(View(), va) == 0
    {
      pml4 := root;
      mem := tables[root := ZeroTable()];
      level := map[root := 4];
      child := map[];
      new;
      var c := Subtable(root, 0, pdpt);
      mem := mem[root := mem[root][0 := TableEntry(id.pdpt)]];
      BootOk(tables, id, root, pdpt);
    }

    /** operator[] of the three upper structures. */
    method Subtable(t: nat, i: nat, address: nat) returns (c: nat)
      requires t in mem && t in level && level[t] > 0 && i < 512
      modifies this
      ensures (View(), c) == Next(old(View()), t, i, address)
    {
      if (t, i) !in child {
        child := child[(t, i) := address];
        mem := mem[t := mem[t][i := TableEntry(address)]][address := ZeroTable()];
        level := level[address := level[t] - 1];
      }
      c := child[(t, i)];
    }

    /** The three table lookups of map_virtual_to_physical. */
    method Locate(index: seq<nat>, spare: seq<nat>, ghost c: Call, ghost id: Identity) returns (pt: nat)
      requires Inv(View(), id) && CallOk(View(), c) && c.spare == spare
      requires |index| == 4 && forall i | 0 <= i < 4 :: index[i] == IndexAt(c.va, i + 1)
      modifies this
      ensures (View(), pt) == Descend(old(View()), id, c)
    {
      hide Inv, IndexAt, Next, PageAddress;
      ghost var s := View();
      PmlCanDescend(s, id, c);
      LevelOfRoot(s, id);
      NextOk(s, id, pml4, index[3], spare[0]);
      var pdpt := Subtable(pml4, index[3], spare[0]);
      NextOk(View(), id, pdpt, index[2], spare[1]);
      var pd := Subtable(pdpt, index[2], spare[1]);
      pt := Subtable(pd, index[1], spare[2]);
    }

    /** map_virtual_to_physical; bits 0 and 1 of `attr` ask for user and write access. */
    method MapVirtualToPhysical(va: nat, physical: nat, attr: nat, spare: seq<nat>, ghost id: Identity)
      requires Inv(View(), id) && CallOk(View(), Call(va, physical, attr % 2 == 1, attr / 2 % 2 == 1, spare))
      modifies this
      ensures Inv(View(), id)
      ensures View() == MapPage(old(View()), id, Call(va, physical, attr % 2 == 1, attr / 2 % 2 == 1, spare))
    {
      var user, write := attr % 2 == 1, attr / 2 % 2 == 1;
      ghost var c := Call(va, physical, user, write, spare);
      var entry := SetPresent(physical);
      entry := SetUser(entry, user);
      entry := SetWrite(entry, write);
      assert entry == PageEntry(physical, user, write);
      hide Inv, IndexAt, PageEntry, Descend, CallOk;
      MapPageOk(View(), id, c);
      DescendOk(View(), id, c);
      var index := SplitAddr(va);
      var pt := Locate(index, spare, c, id);
      mem := mem[pt := mem[pt][index[0] := entry]];
    }
  }
}
