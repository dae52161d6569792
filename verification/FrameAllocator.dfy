/**
 The physical frame allocator: a bitmap of 64-bit lines, one bit a 4 KiB
 frame, searched first-fit between two inclusive bounds.
 */
module FrameAllocator {
  import opened Collections
  import Bits

  const FRAMES := 0x100_0000
  const LINES := 0x4_0000
  const FRAME_SIZE := 0x1000

  // --------------------------------------------------------------- the bitmap

  predicate Taken(lines: seq<bv64>, f: nat)
    requires |lines| == LINES && f < FRAMES
  {
    Bits.Get(lines[f / 64], f % 64)
  }

  /** The set of frames whose bit is set. */
  ghost function InUse(lines: seq<bv64>): (s: set<nat>)
    requires |lines| == LINES
    ensures forall f | 0 <= f < FRAMES :: f in s <==> Taken(lines, f)
  {
    set f | 0 <= f < FRAMES && Taken(lines, f)
  }

  lemma EmptyBitmap(lines: seq<bv64>)
    requires |lines| == LINES && forall i | 0 <= i < LINES :: lines[i] == 0
    ensures InUse(lines) == {}
  {
    forall f: nat | f < FRAMES ensures !Taken(lines, f) { Bits.GetZero(f % 64); }
  }

  function Window(start: nat, n: nat): (w: set<nat>)
    ensures forall f :: f in w <==> start <= f < start + n
  {
    if n == 0 then {} else Window(start, n - 1) + {start + n - 1}
  }

  /** The bitmap with a window set or cleared. */
  function Marked(used: set<nat>, start: nat, n: nat, flag: bool): set<nat> {
    if flag then used + Window(start, n) else used - Window(start, n)
  }

  lemma MarkedOne(used: set<nat>, start: nat, n: nat, flag: bool)
    ensures Marked(used, start, n + 1, flag) ==
            if flag then Marked(used, start, n, flag) + {start + n} else Marked(used, start, n, flag) - {start + n}
  {
  }

  ghost predicate Free(used: set<nat>, start: nat, n: nat) {
    forall f | start <= f < start + n :: f !in used
  }

  // ---------------------------------------------------------- naive first fit

  /** The lowest start from `from` on whose whole window lies below `last` and is free. */
  ghost function FirstFit(used: set<nat>, from: nat, last: nat, n: nat): (r: Option<nat>)
    ensures r.Some? ==> from <= r.value && Fits(used, r.value, last, n)
    ensures forall s | from <= s && Fits(used, s, last, n) :: r.Some? && r.value <= s
    decreases last + 1 - from
  {
    if Fits(used, from, last, n) then Some(from)
    else if from > last then None
    else FirstFit(used, from + 1, last, n)
  }

  ghost predicate Fits(used: set<nat>, s: nat, last: nat, n: nat) {
    (n == 0 || s + n <= last + 1) && Free(used, s, n)
  }

  /** A used frame rules out every start whose window reaches it. */
  lemma {:induction false} FitsSkip(used: set<nat>, from: nat, last: nat, n: nat, i: nat)
    requires i < n && from + i in used
    ensures FirstFit(used, from, last, n) == FirstFit(used, from + i + 1, last, n)
    decreases i
  {
    assert !Fits(used, from, last, n);
    if from > last {
      assert FirstFit(used, from + i + 1, last, n).None?;
    } else if i > 0 {
      FitsSkip(used, from + 1, last, n, i - 1);
    }
  }

  // ----------------------------------------------------------- the memory map

  /** A UEFI memory descriptor (section 7.2 of the UEFI specification): type, physical start, 4 KiB pages. */
  datatype Descriptor = Descriptor(kind: nat, start: nat, pages: nat)

  function End(d: Descriptor): nat { d.start + d.pages * FRAME_SIZE }

  /** Boot services code, boot services data and conventional memory. */
  predicate Available(kind: nat) { kind == 3 || kind == 4 || kind == 7 }

  /** Sorted, without overlap, page-aligned, below 64 GiB. */
  ghost predicate MapOk(m: seq<Descriptor>) {
    && (forall i | 0 <= i < |m| :: m[i].start % FRAME_SIZE == 0 && End(m[i]) <= FRAMES * FRAME_SIZE)
    && (forall i | 0 < i < |m| :: End(m[i - 1]) <= m[i].start)
  }

  ghost predicate Covers(d: Descriptor, f: nat) { d.start <= f * FRAME_SIZE < End(d) }

  /** Some available descriptor among the first n covers the frame. */
  ghost predicate Covered(m: seq<Descriptor>, n: nat, f: nat)
    requires n <= |m|
  {
    exists i | 0 <= i < n :: Available(m[i].kind) && Covers(m[i], f)
  }

  /** Where the last available one of the first n ends. */
  function AvailableEnd(m: seq<Descriptor>, n: nat): nat
    requires n <= |m|
  {
    if n == 0 then 0 else if Available(m[n - 1].kind) then End(m[n - 1]) else AvailableEnd(m, n - 1)
  }

  /** Where the first n end. */
  function Extent(m: seq<Descriptor>, n: nat): nat
    requires n <= |m|
  {
    if n == 0 then 0 else End(m[n - 1])
  }

  /** The frames below the end of the first n descriptors that no available one covers. */
  ghost function Reserved(m: seq<Descriptor>, n: nat): (r: set<nat>)
    requires n <= |m|
    ensures forall f: nat :: f in r <==> f < FRAMES && f * FRAME_SIZE < Extent(m, n) && !Covered(m, n, f)
  {
    set f: nat | f < FRAMES && f * FRAME_SIZE < Extent(m, n) && !Covered(m, n, f)
  }

  lemma {:induction false} AvailableWithin(m: seq<Descriptor>, n: nat)
    requires MapOk(m) && n <= |m|
    ensures AvailableEnd(m, n) <= Extent(m, n) <= FRAMES * FRAME_SIZE
    ensures AvailableEnd(m, n) % FRAME_SIZE == 0
    ensures n < |m| ==> Extent(m, n) <= m[n].start
    ensures forall f: nat | Covered(m, n, f) :: f * FRAME_SIZE < AvailableEnd(m, n)
  {
    if n > 0 {
      AvailableWithin(m, n - 1);
      Aligned(m[n - 1].start, m[n - 1].pages);
      forall f: nat | Covered(m, n, f) ensures f * FRAME_SIZE < AvailableEnd(m, n) {
        assert Covered(m, n - 1, f) || (Available(m[n - 1].kind) && Covers(m[n - 1], f));
      }
    }
  }

  lemma Aligned(start: nat, pages: nat)
    requires start % FRAME_SIZE == 0
    ensures (start + pages * FRAME_SIZE) % FRAME_SIZE == 0
  {
    assert start + pages * FRAME_SIZE == FRAME_SIZE * (start / FRAME_SIZE + pages);
  }

  /** What one turn of the constructor's loop marks: the gap before the descriptor, and itself when unavailable. */
  function MarkDescriptor(used: set<nat>, end: nat, d: Descriptor): set<nat> {
    var u := if end < d.start then Marked(used, end / FRAME_SIZE, (d.start - end) / FRAME_SIZE, true) else used;
    if Available(d.kind) then u else Marked(u, d.start / FRAME_SIZE, d.pages, true)
  }

  lemma FramesBetween(a: nat, b: nat)
    requires a % FRAME_SIZE == 0 && b % FRAME_SIZE == 0 && a <= b
    ensures a / FRAME_SIZE + (b - a) / FRAME_SIZE == b / FRAME_SIZE
    ensures forall f: nat :: f in Window(a / FRAME_SIZE, (b - a) / FRAME_SIZE) <==> a <= f * FRAME_SIZE < b
  {
  }

  lemma FramesOf(d: Descriptor)
    requires d.start % FRAME_SIZE == 0
    ensures d.start / FRAME_SIZE + d.pages == End(d) / FRAME_SIZE
    ensures forall f: nat :: f in Window(d.start / FRAME_SIZE, d.pages) <==> Covers(d, f)
  {
  }

  lemma MarkDescriptorOk(m: seq<Descriptor>, n: nat)
    requires MapOk(m) && n < |m|
    ensures MarkDescriptor(Reserved(m, n), AvailableEnd(m, n), m[n]) == Reserved(m, n + 1)
  {
    var d, end := m[n], AvailableEnd(m, n);
    AvailableWithin(m, n);
    FramesBetween(end, d.start);
    FramesOf(d);
    hide Window, MapOk, AvailableEnd;
    forall f: nat ensures f in MarkDescriptor(Reserved(m, n), end, d) <==> f in Reserved(m, n + 1) {
      assert Covered(m, n + 1, f) <==> Covered(m, n, f) || (Available(d.kind) && Covers(d, f));
    }
  }

  /** Inside the search range, a frame is free after boot exactly when an available descriptor covers it. */
  lemma BootIsExact(m: seq<Descriptor>, f: nat)
    requires MapOk(m) && 1 <= f < AvailableEnd(m, |m|) / FRAME_SIZE
    ensures f !in Reserved(m, |m|) <==> Covered(m, |m|, f)
  {
    AvailableWithin(m, |m|);
  }

  /**
   The type of the memory a frame belongs to decides: after boot it is free exactly for
   EfiBootServicesCode (3), EfiBootServicesData (4) and EfiConventionalMemory (7).
   */
  lemma TypeDecides(m: seq<Descriptor>, i: nat, f: nat)
    requires MapOk(m) && i < |m| && Covers(m[i], f)
    ensures f !in Reserved(m, |m|) <==> m[i].kind in {3, 4, 7}
  {
    Ordered(m, i, |m|);
    forall j | 0 <= j < |m| && Covers(m[j], f) ensures j == i {
      if j < i { Apart(m, j, i); }
      if i < j { Apart(m, i, j); }
    }
  }

  lemma {:induction false} Apart(m: seq<Descriptor>, i: nat, j: nat)
    requires MapOk(m) && i < j < |m|
    ensures End(m[i]) <= m[j].start
    decreases j
  {
    if i < j - 1 { Apart(m, i, j - 1); }
  }

  lemma {:induction false} Ordered(m: seq<Descriptor>, i: nat, n: nat)
    requires MapOk(m) && i < n <= |m|
    ensures End(m[i]) <= Extent(m, n)
    decreases n
  {
    AvailableWithin(m, n - 1);
    if i < n - 1 { Ordered(m, i, n - 1); }
  }

  /** The frame just past the last available one is free too, exactly when the map ends with that one. */
  lemma RangeEndIsFreeExactly(m: seq<Descriptor>)
    requires MapOk(m) && AvailableEnd(m, |m|) < FRAMES * FRAME_SIZE
    ensures var e := AvailableEnd(m, |m|) / FRAME_SIZE;
            !Covered(m, |m|, e) && (e !in Reserved(m, |m|) <==> Extent(m, |m|) == AvailableEnd(m, |m|))
  {
    AvailableWithin(m, |m|);
  }

  class BitmapMemoryManager {
    const lines: array<bv64>
    var rangeBegin: nat
    var rangeEnd: nat

    ghost predicate Valid()
      reads this
    {
      lines.Length == LINES && rangeBegin <= FRAMES && rangeEnd < FRAMES
    }

    ghost function Used(): set<nat>
      requires lines.Length == LINES
      reads this, lines
    {
      InUse(lines[..])
    }

    /** Marks what the memory map does not offer; the search range ends with the last offered frame's successor. */
    constructor (m: seq<Descriptor>)
      requires MapOk(m)
      ensures fresh(lines) && lines.Length == LINES
      ensures rangeBegin == 1 && rangeEnd == AvailableEnd(m, |m|) / FRAME_SIZE
      ensures Used() == Reserved(m, |m|)
    {
      lines := new bv64[LINES](_ => 0);
      rangeBegin, rangeEnd := 0, FRAMES;
      new;
      var availableEnd: nat := 0;
      var i: nat := 0;
      EmptyBitmap(lines[..]);
      assert Used() == Reserved(m, 0);
      hide Used, MarkDescriptor, Reserved;
      while i < |m|
        invariant i <= |m| && availableEnd == AvailableEnd(m, i)
        invariant Used() == Reserved(m, i)
      {
        AvailableWithin(m, i);
        MarkDescriptorOk(m, i);
        Reserve(availableEnd, m[i]);
        if Available(m[i].kind) {
          availableEnd := End(m[i]);
        }
        i := i + 1;
      }
      rangeBegin, rangeEnd := 1, availableEnd / FRAME_SIZE;
    }

    /** One turn of the constructor's loop. */
    method Reserve(availableEnd: nat, d: Descriptor)
      requires lines.Length == LINES && availableEnd % FRAME_SIZE == 0
      requires d.start % FRAME_SIZE == 0 && End(d) <= FRAMES * FRAME_SIZE
      modifies lines
      ensures Used() == MarkDescriptor(old(Used()), availableEnd, d)
    {
      hide Used, Marked;
      FramesOf(d);
      if availableEnd < d.start {
        FramesBetween(availableEnd, d.start);
        SetBits(availableEnd / FRAME_SIZE, (d.start - availableEnd) / FRAME_SIZE, true);
      }
      if !Available(d.kind) {
        SetBits(d.start / FRAME_SIZE, d.pages, true);
      }
    }

    method GetBit(f: nat) returns (b: bool)
      requires lines.Length == LINES && f < FRAMES
      ensures b <==> f in Used()
    {
      b := Bits.Get(lines[f / 64], f % 64);
    }

    method SetBit(f: nat, flag: bool)
      requires lines.Length == LINES && f < FRAMES
      modifies lines
      ensures Used() == if flag then old(Used()) + {f} else old(Used()) - {f}
    {
      ghost var before := lines[..];
      lines[f / 64] := Bits.Set(lines[f / 64], f % 64, flag);
      forall g | 0 <= g < FRAMES ensures Taken(lines[..], g) <==> if g == f then flag else Taken(before, g) {
        Bits.GetAfterSet(before[f / 64], f % 64, flag, g % 64);
      }
    }

    method SetBits(begin: nat, frames: nat, flag: bool)
      requires lines.Length == LINES && begin + frames <= FRAMES
      modifies lines
      ensures Used() == Marked(old(Used()), begin, frames, flag)
    {
      hide Used;
      var i: nat := 0;
      assert Marked(Used(), begin, 0, flag) == Used();
      hide Marked;
      while i < frames
        invariant i <= frames
        invariant Used() == Marked(old(Used()), begin, i, flag)
      {
        MarkedOne(old(Used()), begin, i, flag);
        SetBit(begin + i, flag);
        i := i + 1;
      }
    }

    /** The inner loop of allocate: how far the frames from `start` on are free. */
    method Probe(start: nat, frames: nat) returns (i: nat, exhausted: bool)
      requires Valid()
      ensures i <= frames && Free(Used(), start, i) && (i > 0 ==> start + i <= rangeEnd + 1)
      ensures exhausted <==> i < frames && start + i > rangeEnd
      ensures i < frames && !exhausted ==> start + i in Used()
    {
      hide Used;
      i := 0;
      exhausted := false;
      while i < frames
        invariant i <= frames && Free(Used(), start, i) && (i > 0 ==> start + i <= rangeEnd + 1)
      {
        if start + i > rangeEnd {
          exhausted := true;
          return;
        }
        var b := GetBit(start + i);
        if b { return; }
        i := i + 1;
      }
    }

    /** The skipping search finds what naive first fit finds, or finds nothing with it. */
    method Allocate(frames: nat) returns (r: Option<nat>)
      requires Valid()
      modifies lines
      ensures Valid()
      ensures r == FirstFit(old(Used()), rangeBegin, rangeEnd, frames)
      ensures Used() == if r.Some? then Marked(old(Used()), r.value, frames, true) else old(Used())
    {
      hide Used, Marked, Free;
      var start := rangeBegin;
      ghost var used := Used();
      while true
        invariant rangeBegin <= start && (frames == 0 ==> start == rangeBegin)
        invariant Used() == used
        invariant FirstFit(used, start, rangeEnd, frames) == FirstFit(used, rangeBegin, rangeEnd, frames)
        decreases rangeEnd + 2 - start
      {
        var i, exhausted := Probe(start, frames);
        if exhausted {
          return None;
        }
        if i == frames {
          SetBits(start, frames, true);
          return Some(start);
        }
        FitsSkip(used, start, rangeEnd, frames, i);
        start := start + i + 1;
      }
    }

    method AllocateSingle() returns (r: Option<nat>)
      requires Valid()
      modifies lines
      ensures Valid()
      ensures r == FirstFit(old(Used()), rangeBegin, rangeEnd, 1)
      ensures Used() == if r.Some? then Marked(old(Used()), r.value, 1, true) else old(Used())
    {
      hide Used;
      var i := rangeBegin;
      ghost var used := Used();
      while i <= rangeEnd
        invariant Used() == used
        invariant FirstFit(used, i, rangeEnd, 1) == FirstFit(used, rangeBegin, rangeEnd, 1)
      {
        var b := GetBit(i);
        if !b {
          SetBit(i, true);
          assert Window(i, 1) == {i};
          return Some(i);
        }
        FitsSkip(used, i, rangeEnd, 1, 0);
        i := i + 1;
      }
      r := None;
    }

    method Deallocate(begin: nat, frames: nat)
      requires Valid() && begin + frames <= FRAMES
      modifies lines
      ensures Used() == Marked(old(Used()), begin, frames, false)
    {
      SetBits(begin, frames, false);
    }
  }
}
