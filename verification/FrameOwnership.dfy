/**
 Owning frame handles: SmartFrameID, and SmartSingleFrameID as a handle whose
 length is always one.  Handles are named; a state is the bitmap and the
 handles that have been constructed and not yet destroyed.
 */
module FrameOwnership {
  import opened Collections
  import opened FrameAllocator

  datatype Handle = Handle(id: Option<nat>, frames: nat)

  datatype State = State(used: set<nat>, handles: map<nat, Handle>)

  function Owned(h: Handle): set<nat> {
    if h.id.Some? then Window(h.id.value, h.frames) else {}
  }

  /** free(): gives the frames back once. */
  function Released(used: set<nat>, h: Handle): set<nat> {
    if h.id.Some? then Marked(used, h.id.value, h.frames, false) else used
  }

  function Emptied(h: Handle): Handle { h.(id := None) }

  datatype Op =
    | Create(h: nat, junk: nat)          // default construction leaves `frames` unset
    | Allocate(h: nat, n: nat)           // the handle a successful allocation returns
    | MoveAssign(h: nat, from: nat)
    | Free(h: nat)
    | Destroy(h: nat)

  ghost predicate Enabled(s: State, op: Op) {
    match op
    case Create(h, _) => h !in s.handles
    case Allocate(h, _) => h !in s.handles
    case MoveAssign(h, from) => h in s.handles && from in s.handles
    case Free(h) => h in s.handles
    case Destroy(h) => h in s.handles
  }

  function FreeHandle(s: State, h: nat): State
    requires h in s.handles
  {
    State(Released(s.used, s.handles[h]), s.handles[h := Emptied(s.handles[h])])
  }

  ghost function Step(s: State, op: Op, first: nat, last: nat): State
    requires Enabled(s, op)
  {
    match op
    case Create(h, junk) => s.(handles := s.handles[h := Handle(None, junk)])
    case Allocate(h, n) =>
      var r := FirstFit(s.used, first, last, n);
      if r.None? then s else State(Marked(s.used, r.value, n, true), s.handles[h := Handle(r, n)])
    case MoveAssign(h, from) =>
      var f := FreeHandle(s, h);
      // swap(id, o.id); frames = o.frames
      f.(handles := f.handles[from := f.handles[from].(id := f.handles[h].id)]
                             [h := Handle(f.handles[from].id, f.handles[from].frames)])
    case Free(h) => FreeHandle(s, h)
    case Destroy(h) => var f := FreeHandle(s, h); f.(handles := f.handles - {h})
  }

  // -------------------------------------------------------------- invariant

  ghost predicate Apart(s: State) {
    forall h, k | h in s.handles && k in s.handles && h != k :: Owned(s.handles[h]) !! Owned(s.handles[k])
  }

  ghost predicate OwnedBySome(s: State, f: nat) {
    exists h | h in s.handles :: f in Owned(s.handles[h])
  }

  /** A bit is set exactly when the frame is reserved or owned, never both, and no frame has two owners. */
  ghost predicate Inv(s: State, reserved: set<nat>) {
    && Apart(s)
    && (forall f :: f in s.used <==> f in reserved || OwnedBySome(s, f))
    && (forall h | h in s.handles :: Owned(s.handles[h]) !! reserved)
  }

  lemma FreeOwners(s: State, reserved: set<nat>, h: nat, f: nat)
    requires Inv(s, reserved) && h in s.handles
    ensures OwnedBySome(FreeHandle(s, h), f) <==> OwnedBySome(s, f) && f !in Owned(s.handles[h])
  {
    var s' := FreeHandle(s, h);
    assert Owned(s'.handles[h]) == {};
    hide Owned, Window, Released;
    if OwnedBySome(s, f) && f !in Owned(s.handles[h]) {
      var k :| k in s.handles && f in Owned(s.handles[k]);
      assert f in Owned(s'.handles[k]);
    }
    if OwnedBySome(s', f) {
      var k :| k in s'.handles && f in Owned(s'.handles[k]);
      assert k != h && f in Owned(s.handles[k]);
      assert Owned(s.handles[k]) !! Owned(s.handles[h]);
    }
  }

  lemma FreeOk(s: State, reserved: set<nat>, h: nat)
    requires Inv(s, reserved) && h in s.handles
    ensures Inv(FreeHandle(s, h), reserved)
  {
    var s' := FreeHandle(s, h);
    assert Owned(s'.handles[h]) == {} && s'.used == s.used - Owned(s.handles[h]);
    hide Owned, Released;
    forall f ensures f in s'.used <==> f in reserved || OwnedBySome(s', f) { FreeOwners(s, reserved, h, f); }
    hide OwnedBySome;
  }

  ghost predicate Renamed(s: State, s': State, h: nat, from: nat) {
    && h in s.handles && from in s.handles && h != from && s'.used == s.used && s'.handles.Keys == s.handles.Keys
    && Owned(s.handles[h]) == {}
    && forall k | k in s.handles ::
         Owned(s'.handles[k]) ==
         if k == h then Owned(s.handles[from]) else if k == from then {} else Owned(s.handles[k])
  }

  lemma RenameSets(s: State, h: nat, from: nat)
    requires h in s.handles && from in s.handles && h != from && s.handles[h].id.None?
    ensures Renamed(s, s.(handles := s.handles[from := Emptied(s.handles[from])][h := s.handles[from]]), h, from)
  {
    hide Window;
  }

  lemma RenameApart(s: State, s': State, h: nat, from: nat)
    requires Renamed(s, s', h, from) && Apart(s)
    ensures Apart(s')
  {
    hide Owned;
    forall j, k | j in s'.handles && k in s'.handles && j != k ensures Owned(s'.handles[j]) !! Owned(s'.handles[k]) {
      var j', k' := if j == h then from else j, if k == h then from else k;
      assert Owned(s.handles[j]) !! Owned(s.handles[k]);
      if j' != k' { assert Owned(s.handles[j']) !! Owned(s.handles[k']); }
    }
  }

  lemma RenameOwners(s: State, s': State, h: nat, from: nat, f: nat)
    requires Renamed(s, s', h, from)
    ensures OwnedBySome(s', f) <==> OwnedBySome(s, f)
  {
    hide Owned;
    if OwnedBySome(s, f) {
      var k :| k in s.handles && f in Owned(s.handles[k]);
      assert f in Owned(s'.handles[if k == from then h else k]);
    }
    if OwnedBySome(s', f) {
      var k :| k in s'.handles && f in Owned(s'.handles[k]);
      assert f in Owned(s.handles[if k == h then from else k]);
    }
  }

  /** Handing one handle's frames to another name leaves every frame's account as it was. */
  lemma RenameOk(s: State, s': State, reserved: set<nat>, h: nat, from: nat)
    requires Inv(s, reserved) && Renamed(s, s', h, from)
    ensures Inv(s', reserved)
  {
    RenameApart(s, s', h, from);
    hide Owned, Apart;
    forall f ensures OwnedBySome(s', f) <==> OwnedBySome(s, f) { RenameOwners(s, s', h, from, f); }
    hide OwnedBySome;
  }

  lemma AllocateOk(s: State, reserved: set<nat>, h: nat, n: nat, first: nat, last: nat)
    requires Inv(s, reserved) && h !in s.handles
    ensures Inv(Step(s, Allocate(h, n), first, last), reserved)
  {
    var s' := Step(s, Allocate(h, n), first, last);
    var r := FirstFit(s.used, first, last, n);
    if r.Some? {
      var w := Window(r.value, n);
      assert w !! s.used by { assert Fits(s.used, r.value, last, n); }
      assert Owned(s'.handles[h]) == w;
      hide Owned, Window, FirstFit;
      forall k | k in s.handles ensures Owned(s.handles[k]) <= s.used {
        forall f | f in Owned(s.handles[k]) ensures f in s.used { assert OwnedBySome(s, f); }
      }
      forall f ensures f in s'.used <==> f in reserved || OwnedBySome(s', f) {
        if OwnedBySome(s, f) {
          var k :| k in s.handles && f in Owned(s.handles[k]);
          assert f in Owned(s'.handles[k]);
        }
        if f in w { assert f in Owned(s'.handles[h]); }
      }
    }
  }

  lemma DropOk(s: State, reserved: set<nat>, h: nat)
    requires Inv(s, reserved) && h in s.handles && s.handles[h].id.None?
    ensures Inv(s.(handles := s.handles - {h}), reserved)
  {
    var s' := s.(handles := s.handles - {h});
    assert Owned(s.handles[h]) == {};
    hide Owned;
    forall f ensures OwnedBySome(s', f) <==> OwnedBySome(s, f) {
      if OwnedBySome(s, f) {
        var k :| k in s.handles && f in Owned(s.handles[k]);
        assert k in s'.handles;
      }
    }
  }

  lemma CreateOk(s: State, reserved: set<nat>, h: nat, junk: nat)
    requires Inv(s, reserved) && h !in s.handles
    ensures Inv(s.(handles := s.handles[h := Handle(None, junk)]), reserved)
  {
    var s' := s.(handles := s.handles[h := Handle(None, junk)]);
    assert Owned(s'.handles[h]) == {};
    hide Owned;
    forall f ensures OwnedBySome(s', f) <==> OwnedBySome(s, f) {
      if OwnedBySome(s, f) {
        var k :| k in s.handles && f in Owned(s.handles[k]);
        assert k in s'.handles;
      }
    }
  }

  lemma StepOk(s: State, reserved: set<nat>, op: Op, first: nat, last: nat)
    requires Inv(s, reserved) && Enabled(s, op)
    ensures Inv(Step(s, op, first, last), reserved)
  {
    hide Inv;
    match op
    case Create(h, junk) => CreateOk(s, reserved, h, junk);
    case Allocate(h, n) => AllocateOk(s, reserved, h, n, first, last);
    case MoveAssign(h, from) =>
      var f := FreeHandle(s, h);
      FreeOk(s, reserved, h);
      if h == from {
        assert Step(s, op, first, last).handles == f.handles;
      } else {
        RenameSets(f, h, from);
        RenameOk(f, Step(s, op, first, last), reserved, h, from);
      }
    case Free(h) => FreeOk(s, reserved, h);
    case Destroy(h) =>
      FreeOk(s, reserved, h);
      DropOk(FreeHandle(s, h), reserved, h);
  }

  /** Every handle's frames lie between `first` and `limit`, so freeing them stays inside the bitmap. */
  ghost predicate Bounded(s: State, first: nat, limit: nat) {
    forall h | h in s.handles && s.handles[h].id.Some? ::
      first <= s.handles[h].id.value && s.handles[h].id.value + s.handles[h].frames <= limit
  }

  lemma StepBounded(s: State, op: Op, first: nat, last: nat, limit: nat)
    requires Bounded(s, first, limit) && Enabled(s, op) && first <= limit && last < limit
    ensures Bounded(Step(s, op, first, last), first, limit)
  {
    hide Marked, Released, FirstFit;
    if op.Allocate? {
      var r := FirstFit(s.used, first, last, op.n);
      assert r.Some? ==> Fits(s.used, r.value, last, op.n);
      EmptyFitsFirst(s.used, first, last);
    }
  }

  lemma EmptyFitsFirst(used: set<nat>, first: nat, last: nat)
    ensures FirstFit(used, first, last, 0) == Some(first)
  {
  }

  // -------------------------------------------------------------------- runs

  ghost predicate Admissible(s: State, ops: seq<Op>, first: nat, last: nat)
    decreases |ops|
  {
    ops == [] || (Enabled(s, ops[0]) && Admissible(Step(s, ops[0], first, last), ops[1..], first, last))
  }

  ghost function Run(s: State, ops: seq<Op>, first: nat, last: nat): State
    requires Admissible(s, ops, first, last)
    decreases |ops|
  {
    if ops == [] then s else Run(Step(s, ops[0], first, last), ops[1..], first, last)
  }

  lemma {:induction false} RunKeepsInv(s: State, reserved: set<nat>, ops: seq<Op>, first: nat, last: nat, limit: nat)
    requires Inv(s, reserved) && Admissible(s, ops, first, last)
    requires Bounded(s, first, limit) && first <= limit && last < limit
    ensures Inv(Run(s, ops, first, last), reserved) && Bounded(Run(s, ops, first, last), first, limit)
    decreases |ops|
  {
    hide Inv, Step, Enabled, Bounded;
    if ops != [] {
      StepOk(s, reserved, ops[0], first, last);
      StepBounded(s, ops[0], first, last, limit);
      RunKeepsInv(Step(s, ops[0], first, last), reserved, ops[1..], first, last, limit);
    }
  }

  /**
   From the bitmap the constructor leaves, after any run of handle operations:
   each frame's bit is set exactly when it was reserved at boot or one live
   handle owns it, every live handle can be freed, and once every handle is
   gone the bitmap is the boot one.
   */
  lemma OwnershipIsExact(m: seq<Descriptor>, ops: seq<Op>, first: nat, last: nat)
    requires first <= FRAMES && last < FRAMES
    requires Admissible(State(Reserved(m, |m|), map[]), ops, first, last)
    ensures var s := Run(State(Reserved(m, |m|), map[]), ops, first, last);
            && Inv(s, Reserved(m, |m|)) && Bounded(s, first, FRAMES)
            && ((forall h | h in s.handles :: s.handles[h].id.None?) ==> s.used == Reserved(m, |m|))
  {
    var s0 := State(Reserved(m, |m|), map[]);
    var s := Run(s0, ops, first, last);
    assert Inv(s0, s0.used) by { forall f ensures !OwnedBySome(s0, f) {} }
    RunKeepsInv(s0, s0.used, ops, first, last, FRAMES);
    if forall h | h in s.handles :: s.handles[h].id.None? {
      forall f ensures !OwnedBySome(s, f) {}
    }
  }

  // ------------------------------------------------- what is ever handed out

  ghost function AtBoot(m: seq<Descriptor>): State { State(Reserved(m, |m|), map[]) }

  /** Whatever is done with handles from boot on, a live handle owns available memory only. */
  ghost predicate GrantsOnlyAvailable(m: seq<Descriptor>) {
    forall ops, h, f: nat | Grants(m, ops, h, f) :: Covered(m, |m|, f)
  }

  /** After these operations handle `h` owns frame `f`. */
  ghost predicate Grants(m: seq<Descriptor>, ops: seq<Op>, h: nat, f: nat) {
    var last := AvailableEnd(m, |m|) / FRAME_SIZE;
    && Admissible(AtBoot(m), ops, 1, last)
    && var s := Run(AtBoot(m), ops, 1, last); h in s.handles && f in Owned(s.handles[h])
  }

  /**
   Every frame that handles ever come to own is available memory exactly when
   some descriptor ends after the last available one, or nothing is searched.
   */
  lemma GrantsOnlyAvailableExactly(m: seq<Descriptor>)
    requires MapOk(m) && AvailableEnd(m, |m|) < FRAMES * FRAME_SIZE
    ensures GrantsOnlyAvailable(m) <==> AvailableEnd(m, |m|) == 0 || Extent(m, |m|) > AvailableEnd(m, |m|)
  {
    var last := AvailableEnd(m, |m|) / FRAME_SIZE;
    AvailableWithin(m, |m|);
    RangeEndIsFreeExactly(m);
    if AvailableEnd(m, |m|) == 0 || Extent(m, |m|) > AvailableEnd(m, |m|) {
      forall ops, h, f: nat | Grants(m, ops, h, f) ensures Covered(m, |m|, f) {
        GrantIsFree(m, ops, h, f);
      }
    } else {
      hide Reserved, Covered, Step;
      var ops, h := TakeAll(AtBoot(m), last, 0);
      assert Grants(m, ops, h, last);
    }
  }

  /** An owned frame lies in the search range and was not reserved at boot. */
  lemma GrantIsFree(m: seq<Descriptor>, ops: seq<Op>, h: nat, f: nat)
    requires Grants(m, ops, h, f)
    ensures f !in Reserved(m, |m|) && 1 <= f <= AvailableEnd(m, |m|) / FRAME_SIZE
  {
    hide Run, Admissible, Reserved, AvailableEnd;
    var last := AvailableEnd(m, |m|) / FRAME_SIZE;
    var s0 := AtBoot(m);
    assert Inv(s0, s0.used) by { forall g ensures !OwnedBySome(s0, g) {} }
    RunKeepsInv(s0, s0.used, ops, 1, last, last + 1);
  }

  /** Single frames are taken one after the other, up to and including `last`, which is free. */
  lemma {:induction false} TakeAll(s: State, last: nat, h: nat) returns (ops: seq<Op>, at: nat)
    requires last >= 1 && last !in s.used && forall k | k in s.handles :: k < h
    ensures Admissible(s, ops, 1, last) && at in Run(s, ops, 1, last).handles
    ensures last in Owned(Run(s, ops, 1, last).handles[at])
    decreases |Window(1, last) - s.used|
  {
    hide Window;
    var op := Allocate(h, 1);
    var r := FirstFit(s.used, 1, last, 1);
    assert Fits(s.used, last, last, 1);
    assert r.Some? && r.value <= last && r.value !in s.used;
    var s' := Step(s, op, 1, last);
    assert [op][1..] == [];
    if r.value == last {
      ops, at := [op], h;
    } else {
      assert Window(1, last) - s'.used == Window(1, last) - s.used - {r.value};
      var rest;
      rest, at := TakeAll(s', last, h + 1);
      ops := [op] + rest;
      assert ops[1..] == rest;
    }
  }

  // -------------------------------------------------------- the handle itself

  class SmartFrameID {
    var id: Option<nat>
    var frames: nat

    function Value(): Handle
      reads this
    {
      Handle(id, frames)
    }

    constructor (i: Option<nat>, n: nat)
      ensures Value() == Handle(i, n)
    {
      id, frames := i, n;
    }

    method Free(m: BitmapMemoryManager)
      requires m.Valid() && (id.Some? ==> id.value + frames <= FRAMES)
      modifies this, m.lines
      ensures Value() == Emptied(old(Value()))
      ensures m.Used() == Released(old(m.Used()), old(Value()))
    {
      if id.Some? {
        m.Deallocate(id.value, frames);
        id := None;
      }
    }

    /** operator=(SmartFrameID&&), also when the source is the target itself. */
    method MoveAssign(o: SmartFrameID, m: BitmapMemoryManager)
      requires m.Valid() && (id.Some? ==> id.value + frames <= FRAMES)
      modifies this, o, m.lines
      ensures m.Used() == Released(old(m.Used()), old(Value()))
      ensures o != this ==> Value() == old(o.Value()) && o.Value() == Emptied(old(o.Value()))
      ensures o == this ==> Value() == Emptied(old(Value()))
    {
      Free(m);
      id, o.id := o.id, id;
      frames := o.frames;
    }
  }
}
