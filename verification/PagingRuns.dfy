/**
 Whole runs of map calls on one process's tables.
 */
module PagingRuns {
  import opened Collections
  import opened Paging
  import opened PagingMaps

  // ------------------------------------------------------------ the low 64 GiB

  lemma SplitLow(va: nat)
    ensures va % 0x80_0000_0000 == IndexAt(va, 3) * 0x4000_0000 + IndexAt(va, 2) * 0x20_0000 + va % 0x20_0000
  {
    var x := va / 0x20_0000;
    var y := va / 0x4000_0000;
    assert y == x / 512;
    assert va / 0x80_0000_0000 == y / 512;
  }

  lemma IdentityPdpteReads(id: Identity, g: nat)
    requires g < 64 && |id.pds| == 64 && PageAddress(id.pds[g])
    ensures var e := IdentityPdpte(id, g);
            IsPresent(e) && IsWrite(e) && !IsUser(e) && !IsHuge(e) && Addr(e) == id.pds[g]
  {
    LowFlags(id.pds[g], 0);
    LowFlags(id.pds[g], 1);
    assert IdentityPdpte(id, g) == id.pds[g] + 3;
    LowBits(id.pds[g], 3);
  }

  lemma IdentityPdeReads(g: nat, i: nat)
    requires g < 64 && i < 512
    ensures var e := IdentityPde(g, i); var base := g * 0x4000_0000 + i * 0x20_0000;
            IsPresent(e) && IsWrite(e) && !IsUser(e) && IsHuge(e) && Addr(e) / 0x20_0000 * 0x20_0000 == base
  {
    hide IdentityPde, IsPresent, IsWrite, IsUser, IsHuge, Addr, PageAddress;
    HugeFrame(g, i);
    HugeEntry(g, i);
    HugeFlags();
    LowBits(g * 0x4000_0000 + i * 0x20_0000, 0x83);
  }

  lemma HugeFrame(g: nat, i: nat)
    requires g < 64 && i < 512
    ensures var base := g * 0x4000_0000 + i * 0x20_0000; PageAddress(base) && base / 0x20_0000 * 0x20_0000 == base
  {
    var base := g * 0x4000_0000 + i * 0x20_0000;
    assert base == 0x20_0000 * (512 * g + i) == 4096 * (512 * (512 * g + i));
  }

  lemma HugeEntry(g: nat, i: nat)
    requires g < 64 && i < 512
    ensures IdentityPde(g, i) == g * 0x4000_0000 + i * 0x20_0000 + 0x83
  {
    var base := g * 0x4000_0000 + i * 0x20_0000;
    HugeFrame(g, i);
    LowFlags(base, 0);
    LowFlags(base, 1);
    LowAddress(base, 3);
  }

  lemma HugeFlags()
    ensures IsPresent(0x83) && IsWrite(0x83) && !IsUser(0x83) && IsHuge(0x83)
  {
  }

  /** Slot 0, whatever has been mapped: the low 64 GiB onto themselves for the kernel only, and nothing above. */
  lemma WalkLow(s: Space, id: Identity, va: nat)
    requires Inv(s, id) && IndexAt(va, 4) == 0
    ensures var low := va % 0x80_0000_0000;
            Walk(s, va) == if low < 0x10_0000_0000 then Some(Translation(low, false, true)) else None
  {
    var g, i := IndexAt(va, 3), IndexAt(va, 2);
    assert TableOk(s, s.pml4);
    TableEntryReads(id.pdpt);
    assert s.mem[id.pdpt][g] == IdentityPdpte(id, g);
    SplitLow(va);
    if g < 64 {
      assert PdOk(s, id, g);
      IdentityPdpteReads(id, g);
      assert s.mem[id.pds[g]][i] == IdentityPde(g, i);
      IdentityPdeReads(g, i);
    }
    hide TableEntry, IsPresent, IsWrite, IsUser, IsHuge, Addr, IndexAt, PageAddress, IdentityPde, Tables, OneParent,
        PdOk;
    assert WalkFrom(s.mem, s.pml4, 4, va, true, true) == WalkFrom(s.mem, id.pdpt, 3, va, true, true);
    if g < 64 {
      hide IdentityPdpte;
      assert WalkFrom(s.mem, id.pdpt, 3, va, true, true) == WalkFrom(s.mem, id.pds[g], 2, va, false, true);
    }
  }

  // ----------------------------------------------------------------- boot

  /** Process::Process: an empty PML4, its own PDPT for slot 0, and the identity tables put in that slot. */
  function Boot(mem: map<nat, Table>, id: Identity, pml4: nat, pdpt: nat): Space {
    var s := Next(Space(mem[pml4 := ZeroTable()], map[pml4 := 4], map[], pml4), pml4, 0, pdpt).0;
    s.(mem := s.mem[pml4 := s.mem[pml4][0 := TableEntry(id.pdpt)]])
  }

  ghost predicate BootReady(mem: map<nat, Table>, id: Identity, pml4: nat, pdpt: nat) {
    && IdentityOk(Space(mem, map[], map[], 0), id)
    && PageAddress(pml4) && PageAddress(pdpt) && pml4 != pdpt && pml4 !in mem && pdpt !in mem
  }

  lemma BootOk(mem: map<nat, Table>, id: Identity, pml4: nat, pdpt: nat)
    requires BootReady(mem, id, pml4, pdpt)
    ensures Inv(Boot(mem, id, pml4, pdpt), id)
    ensures forall va :: EntryFor(Boot(mem, id, pml4, pdpt), va) == 0
  {
    hide TableEntry, PageAddress, IdentityPdpte, IdentityPde, IndexAt;
    var s := Boot(mem, id, pml4, pdpt);
    assert s.mem[pml4][0] == TableEntry(id.pdpt) && forall i | 1 <= i < 512 :: s.mem[pml4][i] == 0;
    assert s.mem[pdpt] == ZeroTable();
    assert forall t, i | (t, i) in s.child :: (t, i) == (pml4, 0);
    assert IdentityOk(s, id) by {
      forall g | 0 <= g < 64 ensures PdOk(s, id, g) { assert PdOk(Space(mem, map[], map[], 0), id, g); }
    }
    forall va ensures EntryFor(s, va) == 0 {
      if IndexAt(va, 4) == 0 {
        assert EntryFrom(s, pml4, 4, va) == EntryFrom(s, pdpt, 3, va) == 0;
      }
    }
  }

  // ------------------------------------------------------------------ a call

  ghost function MapPage(s: Space, id: Identity, c: Call): Space
    requires Inv(s, id) && CallOk(s, c)
  {
    DescendOk(s, id, c);
    var (s', p) := Descend(s, id, c);
    WithEntry(s', p, IndexAt(c.va, 1), PageEntry(c.physical, c.user, c.write))
  }

  lemma MapPageOk(s: Space, id: Identity, c: Call)
    requires Inv(s, id) && CallOk(s, c)
    ensures Inv(MapPage(s, id, c), id)
    ensures forall va :: EntryFor(MapPage(s, id, c), va) ==
                         if SamePage(c.va, va) then PageEntry(c.physical, c.user, c.write) else EntryFor(s, va)
  {
    hide Inv, Descend, TableFor, EntryFor, IndexAt, PageEntry, SamePage;
    DescendOk(s, id, c);
    var (s', p) := Descend(s, id, c);
    var e := PageEntry(c.physical, c.user, c.write);
    WriteOk(s', id, p, IndexAt(c.va, 1), e);
    forall va ensures EntryFor(MapPage(s, id, c), va) == if SamePage(c.va, va) then e else EntryFor(s, va) {
      WriteChangesOnePage(s', id, p, c.va, e, va);
      assert EntryFor(s', va) == EntryFor(s, va);
    }
  }

  // -------------------------------------------------------------------- runs

  /** The tables operator new hands out are fresh at every call, and every frame is a page address. */
  ghost predicate Admissible(s: Space, id: Identity, calls: seq<Call>)
    requires Inv(s, id)
    decreases |calls|
  {
    calls == [] || (CallOk(s, calls[0]) &&
        (MapPageOk(s, id, calls[0]); Admissible(MapPage(s, id, calls[0]), id, calls[1..])))
  }

  ghost function Run(s: Space, id: Identity, calls: seq<Call>): (r: Space)
    requires Inv(s, id) && Admissible(s, id, calls)
    ensures Inv(r, id)
    decreases |calls|
  {
    if calls == [] then s else
      MapPageOk(s, id, calls[0]);
      Run(MapPage(s, id, calls[0]), id, calls[1..])
  }

  /** The last call for `va`'s page. */
  function Latest(calls: seq<Call>, va: nat): Option<Call> {
    if calls == [] then None
    else if SamePage(calls[|calls| - 1].va, va) then Some(calls[|calls| - 1])
    else Latest(calls[..|calls| - 1], va)
  }

  ghost predicate NoneFrom(calls: seq<Call>, from: nat, va: nat) {
    forall i | from <= i < |calls| :: !SamePage(calls[i].va, va)
  }

  lemma {:induction false} LatestIsLast(calls: seq<Call>, va: nat, i: nat)
    requires i < |calls| && SamePage(calls[i].va, va) && NoneFrom(calls, i + 1, va)
    ensures Latest(calls, va) == Some(calls[i])
  {
    hide SamePage;
    if i + 1 < |calls| {
      LatestIsLast(calls[..|calls| - 1], va, i);
    }
  }

  lemma {:induction false} LatestOfNone(calls: seq<Call>, va: nat)
    requires NoneFrom(calls, 0, va)
    ensures Latest(calls, va) == None
  {
    hide SamePage;
    if calls != [] {
      LatestOfNone(calls[..|calls| - 1], va);
    }
  }

  lemma {:induction false} LatestOfRest(calls: seq<Call>, va: nat)
    requires calls != []
    ensures var rest := Latest(calls[1..], va);
            Latest(calls, va) == if rest.Some? then rest else if SamePage(calls[0].va, va) then Some(calls[0]) else None
  {
    hide SamePage;
    if |calls| > 1 {
      var front := calls[..|calls| - 1];
      assert calls[1..][..|calls| - 2] == front[1..];
      LatestOfRest(front, va);
    }
  }

  lemma {:induction false} RunEntries(s: Space, id: Identity, calls: seq<Call>, va: nat)
    requires Inv(s, id) && Admissible(s, id, calls)
    ensures var l := Latest(calls, va);
            EntryFor(Run(s, id, calls), va) ==
            if l.Some? then PageEntry(l.value.physical, l.value.user, l.value.write) else EntryFor(s, va)
    decreases |calls|
  {
    hide Inv, MapPage, EntryFor, PageEntry, SamePage;
    if calls != [] {
      MapPageOk(s, id, calls[0]);
      RunEntries(MapPage(s, id, calls[0]), id, calls[1..], va);
      LatestOfRest(calls, va);
    }
  }

  lemma {:induction false} LatestIsAdmissible(s: Space, id: Identity, calls: seq<Call>, va: nat)
    requires Inv(s, id) && Admissible(s, id, calls)
    ensures Latest(calls, va).Some? ==> PageAddress(Latest(calls, va).value.physical)
    decreases |calls|
  {
    hide Inv, MapPage, SamePage, PageAddress;
    if calls != [] {
      MapPageOk(s, id, calls[0]);
      LatestIsAdmissible(MapPage(s, id, calls[0]), id, calls[1..], va);
      LatestOfRest(calls, va);
    }
  }

  ghost predicate FromBoot(mem: map<nat, Table>, id: Identity, pml4: nat, pdpt: nat, calls: seq<Call>) {
    BootReady(mem, id, pml4, pdpt) && (BootOk(mem, id, pml4, pdpt); Admissible(Boot(mem, id, pml4, pdpt), id, calls))
  }

  /** The tables after a new process has made the calls. */
  ghost function After(mem: map<nat, Table>, id: Identity, pml4: nat, pdpt: nat, calls: seq<Call>): Space
    requires FromBoot(mem, id, pml4, pdpt, calls)
  {
    BootOk(mem, id, pml4, pdpt);
    Run(Boot(mem, id, pml4, pdpt), id, calls)
  }

  function IdentityTranslation(va: nat): Option<Translation> {
    var low := va % 0x80_0000_0000;
    if low < 0x10_0000_0000 then Some(Translation(low, false, true)) else None
  }

  /**
   After any run of map calls on a new process's tables the processor's walk
   of every address is known: outside slot 0 it is the last frame and rights
   mapped to the page, or not present when nothing was; inside slot 0 it is
   the identity map, whatever the calls were.
   */
  lemma RunTranslates(mem: map<nat, Table>, id: Identity, pml4: nat, pdpt: nat, calls: seq<Call>, va: nat)
    requires FromBoot(mem, id, pml4, pdpt, calls)
    ensures var l := Latest(calls, va);
            Walk(After(mem, id, pml4, pdpt, calls), va) ==
            if IndexAt(va, 4) == 0 then IdentityTranslation(va)
            else if l.Some? then Some(Translation(l.value.physical + va % 0x1000, l.value.user, l.value.write))
            else None
    ensures IndexAt(va, 4) != 0 && NoneFrom(calls, 0, va) ==> Walk(After(mem, id, pml4, pdpt, calls), va) == None
  {
    hide Inv, Admissible, Boot, BootReady, NoneFrom, Latest, Run, EntryFor, PageEntry, Walk, Decode, IndexAt,
        PageAddress;
    if NoneFrom(calls, 0, va) {
      LatestOfNone(calls, va);
    }
    BootOk(mem, id, pml4, pdpt);
    var s := Boot(mem, id, pml4, pdpt);
    var s' := Run(s, id, calls);
    var l := Latest(calls, va);
    RunEntries(s, id, calls, va);
    LatestIsAdmissible(s, id, calls, va);
    if IndexAt(va, 4) == 0 {
      WalkLow(s', id, va);
    } else {
      WalkIsEntry(s', id, va);
      if l.Some? { DecodePage(l.value, va); } else { DecodeNothing(va); }
    }
  }

  /** Outside slot 0 the processor sees the kernel's entry. */
  lemma WalkIsEntry(s: Space, id: Identity, va: nat)
    requires Inv(s, id) && IndexAt(va, 4) != 0
    ensures Walk(s, va) == Decode(EntryFor(s, va), va)
  {
    WalkSeesEntry(s, id, s.pml4, 4, va);
  }

  lemma DecodePage(c: Call, va: nat)
    requires PageAddress(c.physical)
    ensures Decode(PageEntry(c.physical, c.user, c.write), va) ==
            Some(Translation(c.physical + va % 0x1000, c.user, c.write))
  {
    PageEntryReads(c.physical, c.user, c.write);
    hide PageEntry, IsPresent, IsUser, IsWrite, Addr;
  }

  lemma DecodeNothing(va: nat)
    ensures Decode(0, va) == None
  {
  }

  /** In slot 0 no call ever gives a process access to a page. */
  lemma SlotZeroStaysClosed(mem: map<nat, Table>, id: Identity, pml4: nat, pdpt: nat, calls: seq<Call>, va: nat)
    requires FromBoot(mem, id, pml4, pdpt, calls) && IndexAt(va, 4) == 0
    ensures var w := Walk(After(mem, id, pml4, pdpt, calls), va); w.Some? ==> !w.value.user
  {
    hide FromBoot, After, Walk, Latest;
    RunTranslates(mem, id, pml4, pdpt, calls, va);
  }

  /**
   Whether a call gives the translation it asks for: always outside slot 0,
   and inside it only when it asks for what the identity tables say already.
   */
  lemma MapTakesEffectExactly(s: Space, id: Identity, c: Call)
    requires Inv(s, id) && CallOk(s, c)
    ensures var asked := Some(Translation(c.physical + c.va % 0x1000, c.user, c.write));
            Walk(MapPage(s, id, c), c.va) == asked <==> IndexAt(c.va, 4) != 0 || IdentityTranslation(c.va) == asked
  {
    hide Inv, MapPage, EntryFor, PageEntry, Walk, Decode, IndexAt, PageAddress;
    var s' := MapPage(s, id, c);
    MapPageOk(s, id, c);
    assert SamePage(c.va, c.va);
    if IndexAt(c.va, 4) == 0 {
      WalkLow(s', id, c.va);
    } else {
      WalkIsEntry(s', id, c.va);
      DecodePage(c, c.va);
    }
  }

  /** Two addresses share their four indices exactly when they lie in one page of the 48-bit space. */
  lemma SamePageExactly(va: nat, va': nat)
    ensures SamePage(va, va') <==> va / 0x1000 % 0x10_0000_0000 == va' / 0x1000 % 0x10_0000_0000
  {
    PageNumber(va);
    PageNumber(va');
    hide IndexAt;
    var a := [IndexAt(va, 4), IndexAt(va, 3), IndexAt(va, 2), IndexAt(va, 1)];
    var b := [IndexAt(va', 4), IndexAt(va', 3), IndexAt(va', 2), IndexAt(va', 1)];
    assert SamePage(va, va') <==> a == b by {
      assert a == b ==> a[0] == b[0] && a[1] == b[1] && a[2] == b[2] && a[3] == b[3];
    }
    DigitsUnique(a, b);
  }

  lemma DigitsUnique(a: seq<nat>, b: seq<nat>)
    requires |a| == |b| == 4
    requires forall i | 0 <= i < 4 :: a[i] < 512 && b[i] < 512
    ensures a == b <==>
            ((a[0] * 512 + a[1]) * 512 + a[2]) * 512 + a[3] == ((b[0] * 512 + b[1]) * 512 + b[2]) * 512 + b[3]
  {
  }

  lemma PageNumber(va: nat)
    ensures va / 0x1000 % 0x10_0000_0000 ==
            ((IndexAt(va, 4) * 512 + IndexAt(va, 3)) * 512 + IndexAt(va, 2)) * 512 + IndexAt(va, 1)
  {
    var p := va / 0x1000;
    assert va / 0x20_0000 == p / 512;
    assert va / 0x4000_0000 == p / 0x4_0000;
    assert va / 0x80_0000_0000 == p / 0x800_0000;
    PageDigits(p);
  }

  lemma PageDigits(p: nat)
    ensures p % 0x10_0000_0000 == ((p / 0x800_0000 % 512 * 512 + p / 0x4_0000 % 512) * 512 + p / 512 % 512) * 512 +
            p % 512
  {
    var a := p / 512;
    var b := a / 512;
    var c := b / 512;
    assert p / 0x4_0000 == b && p / 0x800_0000 == c;
    assert p / 0x10_0000_0000 == c / 512;
  }
}
