/**
 Exactly when the page cache keeps its promises: which partitions may share
 pages with their disk, and which writes may fail without changing a byte.
 */
module PageCacheExact {
  import opened Collections
  import opened Fat
  import opened PageCache

  // -------------------------------------------------------- shared partitions

  /** `count` sectors of a disk from sector `first` on, with the cache provider their device sets up. */
  function Partition(bytes: seq<Byte>, first: nat, count: nat, sector: nat): View
    requires 0 < sector <= PAGE
  {
    View(Disk(bytes), Offset(PartitionProvider(first / (PAGE / sector), DefaultProvider)), first, sector,
        sector * count)
  }

  ghost predicate OnDisk(total: nat, first: nat, count: nat, sector: nat) {
    0 < sector <= PAGE && PAGE / sector * sector == PAGE && first * sector + sector * count <= total
  }

  /** The page that the partition loads is the disk's page at that place of the shared cache. */
  ghost predicate Shows(bytes: seq<Byte>, first: nat, count: nat, sector: nat, p: nat, frame: seq<Byte>)
    requires OnDisk(|bytes|, first, count, sector) && |frame| == PAGE
  {
    var v := Partition(bytes, first, count, sector);
    p * PAGE < v.filesize ==>
      (PartitionInside(bytes, first, count, sector);
       LoadPage(v, p, frame).Ok? && Holds(v.medium, v.offset + p, LoadPage(v, p, frame).value))
  }

  lemma PartitionInside(bytes: seq<Byte>, first: nat, count: nat, sector: nat)
    requires OnDisk(|bytes|, first, count, sector)
    ensures Inside(Partition(bytes, first, count, sector))
  {
    DivMod(sector * count, sector, count, 0);
  }

  /** Whatever the disk holds and whatever is in the frames, every page shows the disk its own bytes. */
  ghost predicate SharesRightly(total: nat, first: nat, count: nat, sector: nat)
    requires OnDisk(total, first, count, sector)
  {
    forall bytes: seq<Byte>, p: nat, frame: seq<Byte> | |bytes| == total && |frame| == PAGE ::
      Shows(bytes, first, count, sector, p, frame)
  }

  /** The first sector starts a page, and the last one ends a page or the disk. */
  predicate PageAligned(total: nat, first: nat, count: nat, sector: nat)
    requires 0 < sector <= PAGE
  {
    && first % (PAGE / sector) == 0
    && (sector * count % PAGE == 0 || first * sector + sector * count == total)
  }

  /** A partition may share its disk's pages exactly when it is aligned to them (or empty). */
  lemma SharesExactly(total: nat, first: nat, count: nat, sector: nat)
    requires OnDisk(total, first, count, sector)
    ensures SharesRightly(total, first, count, sector) <==> count == 0 || PageAligned(total, first, count, sector)
  {
    if count == 0 || PageAligned(total, first, count, sector) {
      forall bytes: seq<Byte>, p: nat, frame: seq<Byte> | |bytes| == total && |frame| == PAGE
        ensures Shows(bytes, first, count, sector, p, frame)
      {
        AlignedShows(bytes, first, count, sector, p, frame);
      }
    } else if first % (PAGE / sector) != 0 {
      StartBreaks(total, first, count, sector);
    } else {
      EndBreaks(total, first, count, sector);
    }
  }

  /** Where the partition's provider and its driver start. */
  lemma Starts(first: nat, sector: nat)
    requires 0 < sector <= PAGE && PAGE / sector * sector == PAGE
    ensures first / (PAGE / sector) * PAGE == first * sector - first % (PAGE / sector) * sector
    ensures Offset(PartitionProvider(first / (PAGE / sector), DefaultProvider)) == first / (PAGE / sector)
  {
    var n := PAGE / sector;
    var q, r := first / n, first % n;
    assert first == q * n + r;
    assert (q * n + r) * sector == q * (n * sector) + r * sector;
  }

  lemma AlignedShows(bytes: seq<Byte>, first: nat, count: nat, sector: nat, p: nat, frame: seq<Byte>)
    requires OnDisk(|bytes|, first, count, sector) && |frame| == PAGE
    requires count == 0 || PageAligned(|bytes|, first, count, sector)
    ensures Shows(bytes, first, count, sector, p, frame)
  {
    var v := Partition(bytes, first, count, sector);
    PartitionInside(bytes, first, count, sector);
    Starts(first, sector);
    if p * PAGE < v.filesize {
      hide Inside, LoadPage, Holds;
      assert AlignedView(v);
      LoadOk(v, p, frame);
      LoadedHolds(v, p, frame);
    }
  }

  lemma LoadOk(v: View, p: nat, frame: seq<Byte>)
    requires Loadable(v, p) && |frame| == PAGE && v.medium.Disk?
    ensures LoadPage(v, p, frame).Ok?
  {
  }

  /** The first byte the partition loads lies further on than the page it is stored for. */
  lemma StartBreaks(total: nat, first: nat, count: nat, sector: nat)
    requires OnDisk(total, first, count, sector) && count > 0 && first % (PAGE / sector) != 0
    ensures !SharesRightly(total, first, count, sector)
  {
    var start := first * sector;
    var bytes: seq<Byte> := seq(total, i => if i == start then 1 else 0);
    var v := Partition(bytes, first, count, sector);
    PartitionInside(bytes, first, count, sector);
    hide LoadPage, Inside, BlockRange;
    StartsEarlier(total, first, count, sector);
    HeadIsRead(v);
    DiskBytes(v, 0, ZERO_FRAME);
    var loaded := LoadPage(v, 0, ZERO_FRAME).value;
    assert MediumByte(v.medium, start + 0) == Some(loaded[0]);
    assert MediumByte(v.medium, v.offset * PAGE) == Some(0);
    assert !Holds(v.medium, v.offset + 0, loaded);
    assert !Shows(bytes, first, count, sector, 0, ZERO_FRAME);
  }

  lemma StartsEarlier(total: nat, first: nat, count: nat, sector: nat)
    requires OnDisk(total, first, count, sector) && count > 0 && first % (PAGE / sector) != 0
    ensures Offset(PartitionProvider(first / (PAGE / sector), DefaultProvider)) * PAGE < first * sector < total
    ensures sector * count > 0
  {
    Starts(first, sector);
    MulMonotone(1, first % (PAGE / sector), sector);
    MulMonotone(1, count, sector);
  }

  lemma HeadIsRead(v: View)
    requires Loadable(v, 0)
    ensures BlockRange(v.filesize, v.size, 0).1 * v.size > 0
  {
    LoadRange(v.filesize, v.size, 0);
    MulMonotone(1, BlockRange(v.filesize, v.size, 0).1, v.size);
  }

  /** After the last sector the shared page keeps what the frame held. */
  lemma EndBreaks(total: nat, first: nat, count: nat, sector: nat)
    requires OnDisk(total, first, count, sector) && first % (PAGE / sector) == 0
    requires sector * count % PAGE != 0 && first * sector + sector * count != total
    ensures !SharesRightly(total, first, count, sector)
  {
    var bytes: seq<Byte> := seq(total, _ => 0);
    var frame: seq<Byte> := seq(PAGE, _ => 1);
    var v := Partition(bytes, first, count, sector);
    var p, rest := v.filesize / PAGE, v.filesize % PAGE;
    Starts(first, sector);
    PartitionInside(bytes, first, count, sector);
    var (begin, read) := BlockRange(v.filesize, v.size, p);
    BlocksInside(v, begin, read);
    assert (begin + v.first) * v.size == begin * v.size + v.first * v.size;
    DiskBytes(v, p, frame);
    var loaded := LoadPage(v, p, frame).value;
    hide LoadPage, Inside, BlockRange;
    assert loaded[rest] == frame[rest] by {
      assert loaded[read * v.size..][rest - read * v.size] == frame[read * v.size..][rest - read * v.size];
    }
    assert MediumByte(v.medium, (v.offset + p) * PAGE + rest) == Some(0);
    assert !Holds(v.medium, v.offset + p, loaded);
    assert !Shows(bytes, first, count, sector, p, frame);
  }

  // ------------------------------------------------------------ failed writes

  /**
   An absent page inside the range (`i`) is passed over without being read, and
   after it another absent page (`j`) is left at which the write may fail.
   */
  predicate Spoilable(v: View, cache: seq<CachePage>, begin: nat, end: nat)
    requires Ready(v, begin, end)
  {
    && v.size <= PAGE && (Absent(cache, v.offset, begin) ==> Readable(v, begin))
    && exists i: nat, j: nat :: begin < i < j < end && Absent(cache, v.offset, i) && Absent(cache, v.offset, j)
  }

  /**
   A write that fails changes no byte, whatever the frames hold and wherever it
   fails, exactly when the range is not `Spoilable` beforehand.
   */
  lemma FailedWriteHarmlessExactly(v: View, cache: seq<CachePage>, begin: nat, end: nat)
    requires AlignedView(v) && Ready(v, begin, end) && CacheOk(cache)
    ensures (forall turns, after, e | Leaves(v, cache, begin, end, HeadTail, turns, after, Some(e)) ::
               CacheOk(after) && Flat(v.medium, after) == Flat(v.medium, cache))
            <==> !Spoilable(v, cache, begin, end)
  {
    if Spoilable(v, cache, begin, end) {
      var i: nat, j: nat :| begin < i < j < end && Absent(cache, v.offset, i) && Absent(cache, v.offset, j);
      Spoils(v, cache, begin, end, i, j);
    } else {
      forall turns, after, e | Leaves(v, cache, begin, end, HeadTail, turns, after, Some(e))
        ensures CacheOk(after) && Flat(v.medium, after) == Flat(v.medium, cache)
      {
        FailureSpares(v, cache, begin, end, turns, after, e);
      }
    }
  }

  /** The first write to a disk or partition may spoil pages exactly when it spans three pages or more. */
  lemma FirstWriteSpoilsExactly(v: View, begin: nat, end: nat)
    requires Ready(v, begin, end) && v.medium.Disk? && v.size <= PAGE
    ensures Spoilable(v, [], begin, end) <==> begin + 2 < end
  {
    hide Inside;
    if begin + 2 < end {
      assert Absent([], v.offset, begin + 1) && Absent([], v.offset, begin + 2);
    }
  }

  lemma WidenedSame(v: View, cache: seq<CachePage>, size: nat)
    requires MediumOk(v.medium) && CacheOk(cache)
    ensures var wide := Widened(cache, size);
            && CacheOk(wide) && Flat(v.medium, wide) == Flat(v.medium, cache)
            && forall i: nat :: Present(wide, i) == Present(cache, i)
  {
    Grown(v.medium, cache, if |cache| < size then size else |cache|);
    AgreesIsFlat(v.medium, cache, Widened(cache, size), 0);
  }

  /** Page by page, what a preparation that has not failed yet has done. */
  ghost predicate At(v: View, cache: seq<CachePage>, begin: nat, end: nat, turns: seq<Turn>, after: seq<CachePage>,
                     p: nat)
    requires Ready(v, begin, end) && v.size <= PAGE && TurnsOk(turns) && |turns| <= end - begin
    requires v.offset + end <= |cache| == |after|
  {
    p < |cache| &&
    if Present(cache, p) || !(v.offset + begin <= p < v.offset + begin + |turns|) then after[p] == cache[p]
    else
      var made := Made(v, p - v.offset, Loads(begin, end, HeadTail, p - v.offset), turns[p - v.offset - begin]);
      made == Ok(after[p])
  }

  lemma {:induction false} PreparedAt(v: View, cache: seq<CachePage>, begin: nat, end: nat, turns: seq<Turn>, p: nat)
    requires Ready(v, begin, end) && v.size <= PAGE && TurnsOk(turns) && |turns| <= end - begin
    requires v.offset + end <= |cache|
    requires PreparedPages(v, cache, begin, end, HeadTail, turns).error.None? && p < |cache|
    ensures At(v, cache, begin, end, turns, PreparedPages(v, cache, begin, end, HeadTail, turns).cache, p)
    decreases |turns|
  {
    hide Inside, Made;
    if turns != [] {
      var n := |turns| - 1;
      PreparedAt(v, cache, begin, end, turns[..n], p);
    }
  }

  /** A failed preparation stopped at an absent page, with all turns before it gone well. */
  lemma {:induction false} FailedAt(v: View, cache: seq<CachePage>, begin: nat, end: nat, turns: seq<Turn>)
    returns (n: nat)
    requires Ready(v, begin, end) && v.size <= PAGE && TurnsOk(turns) && |turns| <= end - begin
    requires v.offset + end <= |cache|
    requires PreparedPages(v, cache, begin, end, HeadTail, turns).error.Some?
    ensures n < |turns| && PreparedPages(v, cache, begin, end, HeadTail, turns[..n]).error.None?
    ensures PreparedPages(v, cache, begin, end, HeadTail, turns[..n]).cache ==
            PreparedPages(v, cache, begin, end, HeadTail, turns).cache
    ensures Absent(PreparedPages(v, cache, begin, end, HeadTail, turns).cache, v.offset, begin + n)
    ensures Made(v, begin + n, Loads(begin, end, HeadTail, begin + n), turns[n]).Err?
    decreases |turns|
  {
    hide Inside, Made;
    n := |turns| - 1;
    if PreparedPages(v, cache, begin, end, HeadTail, turns[..n]).error.Some? {
      n := FailedAt(v, cache, begin, end, turns[..n]);
      assert turns[..|turns| - 1][..n] == turns[..n];
    }
  }

  lemma InsideMedium(v: View)
    requires Inside(v)
    ensures MediumOk(v.medium)
  {
  }

  /** If the head was absent and has been made, the medium can be read there. */
  lemma HeadReadable(v: View, cache: seq<CachePage>, begin: nat, end: nat, turns: seq<Turn>)
    requires Ready(v, begin, end) && v.size <= PAGE && TurnsOk(turns) && 0 < |turns| <= end - begin
    requires v.offset + end <= |cache|
    requires PreparedPages(v, cache, begin, end, HeadTail, turns).error.None? && Absent(cache, v.offset, begin)
    ensures Readable(v, begin)
  {
    hide PreparedPages, Inside, LoadPage, Readable;
    PreparedAt(v, cache, begin, end, turns, v.offset + begin);
    ReadableLoads(v, begin, turns[0].frame);
  }

  /** No absent page but the head has been passed. */
  ghost predicate OnlyHeadMade(cache: seq<CachePage>, offset: nat, begin: nat, n: nat) {
    forall p: nat | begin < p < begin + n :: !Absent(cache, offset, p)
  }

  /** Page `p` is as before, or was absent and now holds what the medium has there. */
  ghost predicate Filled(m: Medium, cache: seq<CachePage>, after: seq<CachePage>, p: nat)
    requires MediumOk(m) && p < |cache| == |after|
  {
    after[p] == cache[p] ||
    (!Present(cache, p) && after[p].state == Clean && |after[p].page| == PAGE && Holds(m, p, after[p].page))
  }

  lemma FilledIsFlat(m: Medium, cache: seq<CachePage>, after: seq<CachePage>)
    requires MediumOk(m) && CacheOk(cache) && |cache| == |after|
    requires forall p: nat | p < |cache| :: Filled(m, cache, after, p)
    ensures CacheOk(after) && Flat(m, after) == Flat(m, cache)
  {
    hide MediumOk, MediumSize, MediumByte;
    forall i | 0 <= i < |after| && !after[i].state.Uninitialized?
      ensures |after[i].page| == PAGE
    {
      assert Filled(m, cache, after, i);
    }
    forall x | 0 <= x < MediumSize(m)
      ensures ByteAt(m, after, x) == ByteAt(m, cache, x)
    {
      var p := x / PAGE;
      if p < |cache| {
        assert Filled(m, cache, after, p);
      }
    }
  }

  lemma HeadFilled(v: View, cache: seq<CachePage>, begin: nat, end: nat, turns: seq<Turn>, p: nat)
    requires AlignedView(v) && Ready(v, begin, end) && v.size <= PAGE && TurnsOk(turns) && |turns| <= end - begin
    requires v.offset + end <= |cache|
    requires OnlyHeadMade(cache, v.offset, begin, |turns|) && MediumOk(v.medium) && p < |cache|
    requires PreparedPages(v, cache, begin, end, HeadTail, turns).error.None?
    ensures Filled(v.medium, cache, PreparedPages(v, cache, begin, end, HeadTail, turns).cache, p)
  {
    hide PreparedPages, Inside, LoadPage, AlignedView, MediumOk, Holds;
    PreparedAt(v, cache, begin, end, turns, p);
    if !Present(cache, p) && v.offset + begin <= p < v.offset + begin + |turns| {
      assert Absent(cache, v.offset, p - v.offset);
      LoadedHolds(v, begin, turns[0].frame);
    }
  }

  lemma HeadSpares(v: View, cache: seq<CachePage>, begin: nat, end: nat, turns: seq<Turn>)
    requires AlignedView(v) && Ready(v, begin, end) && v.size <= PAGE && TurnsOk(turns) && |turns| <= end - begin
    requires v.offset + end <= |cache|
    requires CacheOk(cache) && OnlyHeadMade(cache, v.offset, begin, |turns|) && MediumOk(v.medium)
    requires PreparedPages(v, cache, begin, end, HeadTail, turns).error.None?
    ensures var after := PreparedPages(v, cache, begin, end, HeadTail, turns).cache;
            CacheOk(after) && Flat(v.medium, after) == Flat(v.medium, cache)
  {
    hide PreparedPages, Inside, LoadPage, AlignedView, MediumOk, Filled, OnlyHeadMade, Flat, CacheOk;
    var after := PreparedPages(v, cache, begin, end, HeadTail, turns).cache;
    forall p: nat | p < |cache|
      ensures Filled(v.medium, cache, after, p)
    {
      HeadFilled(v, cache, begin, end, turns, p);
    }
    FilledIsFlat(v.medium, cache, after);
  }

  lemma FailureSpares(v: View, cache: seq<CachePage>, begin: nat, end: nat, turns: seq<Turn>, after: seq<CachePage>,
                      e: Error)
    requires AlignedView(v) && Ready(v, begin, end) && CacheOk(cache) && !Spoilable(v, cache, begin, end)
    requires Leaves(v, cache, begin, end, HeadTail, turns, after, Some(e))
    ensures CacheOk(after) && Flat(v.medium, after) == Flat(v.medium, cache)
  {
    hide Inside, Made, MediumOk, CacheOk, Flat, AlignedView, PreparedPages, Readable;
    var wide := Widened(cache, v.offset + end);
    InsideMedium(v);
    WidenedSame(v, cache, v.offset + end);
    if v.size <= PAGE {
      var n := FailedAt(v, wide, begin, end, turns);
      PreparedAt(v, wide, begin, end, turns[..n], v.offset + begin + n);
      assert Absent(cache, v.offset, begin + n);
      if n > 0 && Absent(wide, v.offset, begin) {
        HeadReadable(v, wide, begin, end, turns[..n]);
      }
      assert Absent(cache, v.offset, begin) == Absent(wide, v.offset, begin);
      assert forall p: nat | begin < p < begin + n :: !Absent(cache, v.offset, p);
      assert forall p: nat :: Absent(wide, v.offset, p) == Absent(cache, v.offset, p);
      HeadSpares(v, wide, begin, end, turns[..n]);
    }
  }

  /** `n` turns that work, with the same bytes in every frame, and then no frame is left. */
  ghost function Spoiling(n: nat, size: nat, b: Byte): (r: seq<Turn>)
    ensures |r| == size && TurnsOk(r)
    ensures forall i | 0 <= i < size :: r[i] == if i < n then Works(seq(PAGE, _ => b)) else NoFrame
  {
    seq(size, i => if i < n then Works(seq(PAGE, _ => b)) else NoFrame)
  }

  lemma {:induction false} WorkingTurns(v: View, cache: seq<CachePage>, begin: nat, end: nat, turns: seq<Turn>)
    requires Ready(v, begin, end) && v.size <= PAGE && TurnsOk(turns) && |turns| < end - begin
    requires v.offset + end <= |cache|
    requires (Absent(cache, v.offset, begin) ==> Readable(v, begin)) && forall i | 0 <= i < |turns| :: turns[i].Works?
    ensures PreparedPages(v, cache, begin, end, HeadTail, turns).error.None?
    decreases |turns|
  {
    hide Inside, LoadPage, Readable;
    if turns != [] {
      var n := |turns| - 1;
      WorkingTurns(v, cache, begin, end, turns[..n]);
      if n == 0 && Absent(cache, v.offset, begin) {
        ReadableLoads(v, begin, turns[0].frame);
      }
    }
  }

  lemma Spoils(v: View, cache: seq<CachePage>, begin: nat, end: nat, i: nat, j: nat)
    requires AlignedView(v) && Ready(v, begin, end) && CacheOk(cache) && v.size <= PAGE
    requires Absent(cache, v.offset, begin) ==> Readable(v, begin)
    requires begin < i < j < end && Absent(cache, v.offset, i) && Absent(cache, v.offset, j)
    ensures exists turns, after, e :: Leaves(v, cache, begin, end, HeadTail, turns, after, Some(e)) &&
                                      !(CacheOk(after) && Flat(v.medium, after) == Flat(v.medium, cache))
  {
    hide Inside, LoadPage, Readable, PreparedPages, MediumByte;
    InsideMedium(v);
    var wide := Widened(cache, v.offset + end);
    var x := (v.offset + i) * PAGE;
    var b: Byte := if MediumByte(v.medium, x) == Some(0) then 1 else 0;
    var n := j - begin;
    var turns := Spoiling(n, end - begin, b);
    assert Absent(wide, v.offset, begin) ==> Readable(v, begin);
    WorkingTurns(v, wide, begin, end, turns[..n]);
    PreparedAt(v, wide, begin, end, turns[..n], v.offset + j);
    PreparedAt(v, wide, begin, end, turns[..n], v.offset + i);
    var after := PreparedPages(v, wide, begin, end, HeadTail, turns[..n]).cache;
    LastTurn(v, wide, begin, end, turns, n);
    assert Leaves(v, cache, begin, end, HeadTail, turns, after, Some(NoEnoughMemory));
    assert after[v.offset + i] == CachePage(Clean, seq(PAGE, _ => b));
    if CacheOk(after) {
      Differs(v, cache, after, i, b);
    }
  }

  lemma {:induction false} LastTurn(v: View, cache: seq<CachePage>, begin: nat, end: nat, turns: seq<Turn>, n: nat)
    requires Ready(v, begin, end) && v.size <= PAGE && TurnsOk(turns) && n < |turns| <= end - begin
    requires v.offset + end <= |cache|
    requires turns[n] == NoFrame && PreparedPages(v, cache, begin, end, HeadTail, turns[..n]).error.None?
    requires Absent(PreparedPages(v, cache, begin, end, HeadTail, turns[..n]).cache, v.offset, begin + n)
    ensures PreparedPages(v, cache, begin, end, HeadTail, turns) ==
            Progress(PreparedPages(v, cache, begin, end, HeadTail, turns[..n]).cache, Some(NoEnoughMemory))
  {
    hide Inside, LoadPage, PreparedPages;
    OneMoreTurn(v, cache, begin, end, HeadTail, turns, n,
        PreparedPages(v, cache, begin, end, HeadTail, turns[..n]).cache);
    FailureEnds(v, cache, begin, end, HeadTail, turns, n + 1);
  }

  lemma Differs(v: View, cache: seq<CachePage>, after: seq<CachePage>, i: nat, b: Byte)
    requires AlignedView(v) && CacheOk(cache) && CacheOk(after) && (i + 1) * PAGE < v.filesize
    requires Absent(cache, v.offset, i)
    requires v.offset + i < |after| && after[v.offset + i] == CachePage(Clean, seq(PAGE, _ => b))
    requires MediumByte(v.medium, (v.offset + i) * PAGE) != Some(b)
    ensures Flat(v.medium, after) != Flat(v.medium, cache)
  {
    hide MediumByte, Inside;
    var x := (v.offset + i) * PAGE;
    InsideMedium(v);
    assert x / PAGE == v.offset + i && x % PAGE == 0;
    assert Flat(v.medium, after)[x] == Some(b) && Flat(v.medium, cache)[x] == MediumByte(v.medium, x);
  }
}
