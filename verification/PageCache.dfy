/**
 The page cache: cached files, and several views (a disk and its partitions)
 sharing one cache, behave as one flat array of bytes.

 `Medium` is what lies behind a cache: a disk, or the clusters of a FAT file.
 Nothing is ever written back, so a medium never changes.  A medium byte is
 None where the medium has nothing to read.
 */
module PageCache {
  import opened Collections
  import opened Fat

  const PAGE := 4096

  datatype PageState = Uninitialized | Clean | Dirty

  const ZERO_FRAME: seq<Byte> := seq(PAGE, _ => 0)

  datatype CachePage = CachePage(state: PageState, page: seq<Byte>)

  const EMPTY_PAGE := CachePage(Uninitialized, [])

  // ------------------------------------------------------------------- media

  datatype Medium =
    | Disk(bytes: seq<Byte>)
    | FatFile(volume: Volume, start: nat, size: nat)

  ghost predicate MediumOk(m: Medium) {
    m.FatFile? ==> BpbOk(m.volume.bpb) && ClusterSize(m.volume.bpb) > 0
  }

  function MediumSize(m: Medium): nat {
    match m
    case Disk(bytes) => |bytes|
    case FatFile(_, _, size) => size
  }

  function MediumByte(m: Medium, x: nat): Option<Byte>
    requires MediumOk(m)
  {
    match m
    case Disk(bytes) => if x < |bytes| then Some(bytes[x]) else None
    case FatFile(v, start, _) =>
      var size := ClusterSize(v.bpb);
      match Block(v, start, x / size)
      case Ok(data) => Some(data[x % size])
      case Err(_) => None
  }

  // --------------------------------------------------------------- providers

  /** DefaultCacheProvider, or PartitionCacheProvider over another provider. */
  datatype CacheProvider = DefaultProvider | PartitionProvider(pageOffset: nat, base: CacheProvider)

  /** The index in the underlying vector that `at(index)` reaches. */
  function At(p: CacheProvider, index: nat): nat {
    match p
    case DefaultProvider => index
    case PartitionProvider(offset, base) => At(base, offset + index)
  }

  function Capacity(p: CacheProvider, cache: seq<CachePage>): nat {
    match p
    case DefaultProvider => |cache|
    case PartitionProvider(offset, base) =>
      var size := Capacity(base, cache);
      if size > offset then size - offset else 0
  }

  function Resize(cache: seq<CachePage>, size: nat): seq<CachePage> {
    if size <= |cache| then cache[..size] else cache + seq(size - |cache|, _ => EMPTY_PAGE)
  }

  function EnsureCapacity(p: CacheProvider, cache: seq<CachePage>, size: nat): seq<CachePage> {
    match p
    case DefaultProvider => Resize(cache, size)
    case PartitionProvider(offset, base) => EnsureCapacity(base, cache, offset + size)
  }

  /** The pages a provider skips in all. */
  function Offset(p: CacheProvider): nat {
    match p
    case DefaultProvider => 0
    case PartitionProvider(offset, base) => offset + Offset(base)
  }

  lemma {:induction false} ProviderShifts(p: CacheProvider, cache: seq<CachePage>, n: nat)
    ensures At(p, n) == Offset(p) + n
    ensures EnsureCapacity(p, cache, n) == Resize(cache, Offset(p) + n)
    ensures n > 0 ==> (Capacity(p, cache) < n <==> |cache| < Offset(p) + n)
    decreases p
  {
    match p
    case DefaultProvider =>
    case PartitionProvider(offset, base) => ProviderShifts(base, cache, offset + n);
  }

  /** Growing through any view drops no page: existing pages keep their place and content. */
  lemma GrowthKeepsPages(p: CacheProvider, cache: seq<CachePage>, n: nat)
    requires n > 0 && Capacity(p, cache) < n
    ensures var r := EnsureCapacity(p, cache, n);
            && |cache| < |r| == Offset(p) + n && r[..|cache|] == cache
            && forall i | |cache| <= i < |r| :: r[i] == EMPTY_PAGE
  {
    ProviderShifts(p, cache, n);
  }

  // ------------------------------------------------------------ the flat view

  ghost predicate CacheOk(cache: seq<CachePage>) {
    forall i | 0 <= i < |cache| :: !cache[i].state.Uninitialized? ==> |cache[i].page| == PAGE
  }

  predicate Present(cache: seq<CachePage>, i: nat) {
    i < |cache| && !cache[i].state.Uninitialized?
  }

  /** Byte `x` of the medium as seen through the cache. */
  function ByteAt(m: Medium, cache: seq<CachePage>, x: nat): Option<Byte>
    requires MediumOk(m) && CacheOk(cache)
  {
    if Present(cache, x / PAGE) then Some(cache[x / PAGE].page[x % PAGE]) else MediumByte(m, x)
  }

  /** The whole medium as seen through the cache. */
  function Flat(m: Medium, cache: seq<CachePage>): (r: seq<Option<Byte>>)
    requires MediumOk(m) && CacheOk(cache)
    ensures |r| == MediumSize(m) && forall x | 0 <= x < |r| :: r[x] == ByteAt(m, cache, x)
  {
    seq(MediumSize(m), x requires 0 <= x < MediumSize(m) => ByteAt(m, cache, x))
  }

  /** Pages already present keep their content, and no page is dropped. */
  ghost predicate Extends(a: seq<CachePage>, b: seq<CachePage>) {
    |a| <= |b| && forall i | 0 <= i < |a| :: Present(a, i) ==> b[i] == a[i]
  }

  ghost predicate AllPresent(cache: seq<CachePage>, lo: nat, hi: nat) {
    forall i | lo <= i < hi :: Present(cache, i)
  }

  lemma OneMorePresent(a: seq<CachePage>, b: seq<CachePage>, lo: nat, hi: nat)
    requires AllPresent(a, lo, hi) && hi < |a| == |b| && Present(b, hi)
    requires forall i | 0 <= i < |a| :: Present(a, i) ==> Present(b, i)
    ensures AllPresent(b, lo, hi + 1)
  {
  }

  /** Nothing seen through the cache changed, except in absent pages strictly between `lo` and `hi`. */
  ghost predicate Agrees(m: Medium, a: seq<CachePage>, b: seq<CachePage>, lo: int, hi: int)
    requires MediumOk(m) && CacheOk(a) && CacheOk(b)
  {
    forall x | 0 <= x < MediumSize(m) && (Present(a, x / PAGE) || !(lo < x / PAGE < hi)) ::
        ByteAt(m, b, x) == ByteAt(m, a, x)
  }

  /** The medium's bytes in page `i` are those of `page`. */
  ghost predicate Holds(m: Medium, i: nat, page: seq<Byte>)
    requires MediumOk(m) && |page| == PAGE
  {
    forall x | i * PAGE <= x < i * PAGE + PAGE && x < MediumSize(m) :: MediumByte(m, x) == Some(page[x - i * PAGE])
  }

  lemma PageAdded(m: Medium, a: seq<CachePage>, b: seq<CachePage>, i: nat, pg: CachePage, lo: int, hi: int)
    requires MediumOk(m) && CacheOk(a) && CacheOk(b) && Extends(a, b) && Agrees(m, a, b, lo, hi)
    requires i < |b| && !Present(b, i) && !pg.state.Uninitialized? && |pg.page| == PAGE
    requires lo < i < hi || Holds(m, i, pg.page)
    ensures CacheOk(b[i := pg]) && Extends(a, b[i := pg]) && Agrees(m, a, b[i := pg], lo, hi)
  {
    var c := b[i := pg];
    assert !Present(a, i);
    forall x | 0 <= x < MediumSize(m) && (Present(a, x / PAGE) || !(lo < x / PAGE < hi))
      ensures ByteAt(m, c, x) == ByteAt(m, a, x)
    {
      assert ByteAt(m, b, x) == ByteAt(m, a, x);
      if x / PAGE == i {
        assert x % PAGE == x - i * PAGE;
      }
    }
  }

  lemma Grown(m: Medium, a: seq<CachePage>, size: nat)
    requires MediumOk(m) && CacheOk(a) && |a| <= size
    ensures CacheOk(Resize(a, size)) && Extends(a, Resize(a, size)) && Agrees(m, a, Resize(a, size), 0, 0)
    ensures forall i: nat :: Present(Resize(a, size), i) == Present(a, i)
  {
  }

  function Wrapped(s: seq<Byte>): (r: seq<Option<Byte>>)
    ensures |r| == |s| && forall i | 0 <= i < |s| :: r[i] == Some(s[i])
  {
    seq(|s|, i requires 0 <= i < |s| => Some(s[i]))
  }

  // ------------------------------------------------------------ block sizes

  function Pow2(n: nat): (r: nat)
    ensures r > 0
  {
    if n == 0 then 1 else 2 * Pow2(n - 1)
  }

  lemma {:induction false} BlocksFillPage(exp: nat)
    requires Pow2(exp) <= PAGE
    ensures PAGE % Pow2(exp) == 0 && PAGE / Pow2(exp) * Pow2(exp) == PAGE && PAGE / Pow2(exp) > 0
  {
    if exp > 12 {
      Pow2Grows(13, exp);
    }
    assert Pow2(13) == 8192 by {
      assert Pow2(4) == 16 && Pow2(8) == 256 && Pow2(12) == 4096;
    }
    if exp <= 12 {
      assert Pow2(1) == 2 && Pow2(2) == 4 && Pow2(3) == 8 && Pow2(4) == 16 && Pow2(5) == 32 && Pow2(6) == 64;
      assert Pow2(7) == 128 && Pow2(8) == 256 && Pow2(9) == 512 && Pow2(10) == 1024 && Pow2(11) == 2048 &&
          Pow2(12) == 4096;
    }
  }

  lemma {:induction false} Pow2Grows(a: nat, b: nat)
    requires a <= b
    ensures Pow2(a) <= Pow2(b)
    decreases b
  {
    if a < b {
      Pow2Grows(a, b - 1);
    }
  }

  function Ceil(a: nat, b: nat): nat
    requires b > 0
  {
    (a + b - 1) / b
  }

  // -------------------------------------------------------------- FAT content

  /** Byte r of the q-th of `count` clusters. */
  lemma {:induction false} BlocksAt(v: Volume, start: nat, k: nat, count: nat, q: nat, r: nat, size: nat)
    requires BpbOk(v.bpb) && size == ClusterSize(v.bpb) && r < size && q < count
    requires Blocks(v, start, k, count).Ok?
    ensures q * size + r < count * size
    ensures Block(v, start, k + q).Ok?
    ensures Blocks(v, start, k, count).value[q * size + r] == Block(v, start, k + q).value[r]
    decreases count
  {
    hide Block, ClusterSize, BpbOk;
    assert count * size == (count - 1) * size + size;
    MulMonotone(q, count - 1, size);
    if q < count - 1 {
      BlocksAt(v, start, k, count - 1, q, r, size);
    }
  }

  /** The cluster a position falls in. */
  lemma Split(i: nat, count: nat, size: nat) returns (q: nat, r: nat)
    requires size > 0 && i < count * size
    ensures i == q * size + r && r < size && q < count
  {
    q, r := i / size, i % size;
    assert i == q * size + r;
    if q >= count {
      MulMonotone(count, q, size);
    }
  }

  lemma MediumBlocks(m: Medium, block: nat, count: nat, i: nat)
    requires m.FatFile? && MediumOk(m) && Blocks(m.volume, m.start, block, count).Ok?
    requires i < count * ClusterSize(m.volume.bpb)
    ensures MediumByte(m, block * ClusterSize(m.volume.bpb) + i) ==
            Some(Blocks(m.volume, m.start, block, count).value[i])
  {
    hide Block, Blocks, ClusterSize, BpbOk;
    var size := ClusterSize(m.volume.bpb);
    var q, r := Split(i, count, size);
    BlocksAt(m.volume, m.start, block, count, q, r, size);
    assert (block + q) * size == block * size + q * size;
    DivMod(block * size + i, size, block + q, r);
  }

  // ------------------------------------------------------ what the code loads

  /**
   A file over its medium: its pages are the cache's from `offset` on, its driver's blocks are
   `size` long and begin at `first`.
   */
  datatype View = View(medium: Medium, offset: nat, first: nat, size: nat, filesize: nat)

  /** The blocks of the file lie in its medium. */
  ghost predicate Inside(v: View) {
    && MediumOk(v.medium) && v.size > 0 && (v.size <= PAGE ==> PAGE / v.size * v.size == PAGE)
    && (v.medium.Disk? ==> v.filesize % v.size == 0 && v.first * v.size + v.filesize <= |v.medium.bytes|)
    && (v.medium.FatFile? ==> v.first == 0 && v.size == ClusterSize(v.medium.volume.bpb))
  }

  /**
   The view fits its medium: it starts on a page boundary, where its driver
   also starts reading, and it ends on one or with the medium.
   */
  ghost predicate AlignedView(v: View) {
    && Inside(v) && v.offset * PAGE == v.first * v.size
    && v.offset * PAGE + v.filesize <= MediumSize(v.medium)
    && (v.filesize % PAGE == 0 || v.offset * PAGE + v.filesize == MediumSize(v.medium))
  }

  ghost predicate Loadable(v: View, p: nat) {
    Inside(v) && v.size <= PAGE && p * PAGE < v.filesize
  }

  /** Page `p` as the driver fills it, into a frame that holds `frame`. */
  function LoadPage(v: View, p: nat, frame: seq<Byte>): (r: Result<seq<Byte>>)
    requires Loadable(v, p) && |frame| == PAGE
    ensures r.Ok? ==> |r.value| == PAGE
  {
    var (begin, count) := BlockRange(v.filesize, v.size, p);
    match v.medium
    case Disk(bytes) =>
      BlocksInside(v, begin, count);
      var from := (begin + v.first) * v.size;
      Ok(bytes[from..from + count * v.size] + frame[count * v.size..])
    case FatFile(volume, start, _) =>
      match Blocks(volume, start, begin, count)
      case Err(e) => Err(e)
      case Ok(data) => Ok(data + frame[|data|..])
  }

  lemma BlocksInside(v: View, begin: nat, count: nat)
    requires Inside(v) && v.medium.Disk? && begin + count <= Ceil(v.filesize, v.size)
    ensures (begin + v.first) * v.size + count * v.size <= v.first * v.size + v.filesize
  {
    WholeBlocks(v.filesize, v.size);
    MulMonotone(begin + count, Ceil(v.filesize, v.size), v.size);
    assert (begin + v.first) * v.size + count * v.size == v.first * v.size + (begin + count) * v.size;
  }

  /** An aligned view loads the bytes its medium has in that page of the cache. */
  lemma LoadedHolds(v: View, p: nat, frame: seq<Byte>)
    requires AlignedView(v) && Loadable(v, p) && |frame| == PAGE && LoadPage(v, p, frame).Ok?
    ensures Holds(v.medium, v.offset + p, LoadPage(v, p, frame).value)
  {
    hide Inside, LoadPage, MediumByte, BlockRange, Ceil, MediumOk, Holds;
    InsideShape(v);
    DriverBytes(v, p, frame);
    LoadCovers(v.offset * PAGE, v.filesize, MediumSize(v.medium), v.size, p);
    PageFilled(v.medium, v.offset + p, v.first * v.size + p * PAGE, BlockRange(v.filesize, v.size, p).1 * v.size,
        LoadPage(v, p, frame).value);
  }

  lemma InsideShape(v: View)
    requires Inside(v) && v.size <= PAGE
    ensures MediumOk(v.medium) && v.size > 0 && PAGE / v.size * v.size == PAGE
  {
  }

  /** The bytes the driver puts into the frame are the medium's from the view's block on. */
  lemma DriverBytes(v: View, p: nat, frame: seq<Byte>)
    requires Loadable(v, p) && |frame| == PAGE && LoadPage(v, p, frame).Ok?
    ensures var page, bytes := LoadPage(v, p, frame).value, BlockRange(v.filesize, v.size, p).1 * v.size;
            && page[bytes..] == frame[bytes..]
            && forall k | 0 <= k < bytes :: MediumByte(v.medium, v.first * v.size + p * PAGE + k) == Some(page[k])
  {
    hide ClusterSize, BpbOk, Block, Blocks, MediumByte, Ceil;
    var (begin, count) := BlockRange(v.filesize, v.size, p);
    if v.medium.FatFile? {
      forall k | 0 <= k < count * v.size
        ensures MediumByte(v.medium, v.first * v.size + p * PAGE + k) == Some(LoadPage(v, p, frame).value[k])
      {
        MediumBlocks(v.medium, begin, count, k);
      }
    } else {
      DiskBytes(v, p, frame);
    }
  }

  lemma DiskBytes(v: View, p: nat, frame: seq<Byte>)
    requires Loadable(v, p) && |frame| == PAGE && v.medium.Disk?
    ensures var page, bytes := LoadPage(v, p, frame).value, BlockRange(v.filesize, v.size, p).1 * v.size;
            && page[bytes..] == frame[bytes..] && v.first * v.size + p * PAGE + bytes <= MediumSize(v.medium)
            && forall k | 0 <= k < bytes :: MediumByte(v.medium, v.first * v.size + p * PAGE + k) == Some(page[k])
  {
    var (begin, count) := BlockRange(v.filesize, v.size, p);
    BlocksInside(v, begin, count);
    assert (begin + v.first) * v.size == v.first * v.size + begin * v.size;
  }

  // --------------------------------------------------- what preparing leaves

  datatype Initialize = All | HeadTail

  /**
   What happens to an absent page: no frame is left, the device fails, or all works; a new frame
   holds arbitrary bytes.
   */
  datatype Turn = NoFrame | DeviceFails(frame: seq<Byte>) | Works(frame: seq<Byte>)

  predicate TurnOk(t: Turn) {
    t.NoFrame? || |t.frame| == PAGE
  }

  predicate TurnsOk(turns: seq<Turn>) {
    forall i | 0 <= i < |turns| :: TurnOk(turns[i])
  }

  /** The page that a turn makes, or why it makes none. */
  function Made(v: View, p: nat, load: bool, t: Turn): (r: Result<CachePage>)
    requires Loadable(v, p) && TurnOk(t)
    ensures r.Ok? ==> r.value.state == Clean && |r.value.page| == PAGE
  {
    if t.NoFrame? then Err(NoEnoughMemory)
    else if !load then Ok(CachePage(Clean, t.frame))
    else if t.DeviceFails? then Err(IOError)
    else
      match LoadPage(v, p, t.frame)
      case Ok(page) => Ok(CachePage(Clean, page))
      case Err(e) => Err(e)
  }

  predicate Loads(begin: nat, end: nat, initialize: Initialize, p: nat) {
    initialize == All || p == begin || p == end - 1
  }

  datatype Progress = Progress(cache: seq<CachePage>, error: Option<Error>)

  function PreparedPage(v: View, cache: seq<CachePage>, p: nat, load: bool, t: Turn): (r: Progress)
    requires Loadable(v, p) && TurnOk(t) && v.offset + p < |cache|
    ensures |r.cache| == |cache|
  {
    if Present(cache, v.offset + p) then Progress(cache, None)
    else
      match Made(v, p, load, t)
      case Err(e) => Progress(cache, Some(e))
      case Ok(page) => Progress(cache[v.offset + p := page], None)
  }

  ghost predicate Ready(v: View, begin: nat, end: nat) {
    Inside(v) && begin < end && (end - 1) * PAGE < v.filesize
  }

  /** The pages from `begin` on, one turn each, up to the first failure. */
  function PreparedPages(v: View, cache: seq<CachePage>, begin: nat, end: nat, initialize: Initialize,
                         turns: seq<Turn>): (r: Progress)
    requires Ready(v, begin, end) && v.size <= PAGE && TurnsOk(turns) && |turns| <= end - begin
    requires v.offset + end <= |cache|
    ensures |r.cache| == |cache|
  {
    if turns == [] then Progress(cache, None)
    else
      var n := |turns| - 1;
      var r := PreparedPages(v, cache, begin, end, initialize, turns[..n]);
      if r.error.Some? then r
      else PreparedPage(v, r.cache, begin + n, Loads(begin, end, initialize, begin + n), turns[n])
  }

  /** One more page. */
  lemma {:induction false} OneMoreTurn(v: View, cache: seq<CachePage>, begin: nat, end: nat, initialize: Initialize,
                                       turns: seq<Turn>, n: nat, now: seq<CachePage>)
    requires Ready(v, begin, end) && v.size <= PAGE && TurnsOk(turns) && n < |turns| <= end - begin
    requires v.offset + end <= |cache|
    requires PreparedPages(v, cache, begin, end, initialize, turns[..n]) == Progress(now, None)
    ensures PreparedPages(v, cache, begin, end, initialize, turns[..n + 1]) ==
            PreparedPage(v, now, begin + n, Loads(begin, end, initialize, begin + n), turns[n])
  {
    hide Inside, PreparedPage, TurnOk;
    assert turns[..n + 1][..n] == turns[..n];
  }

  /** After the first failure nothing more happens. */
  lemma {:induction false} FailureEnds(v: View, cache: seq<CachePage>, begin: nat, end: nat, initialize: Initialize,
                                       turns: seq<Turn>, n: nat)
    requires Ready(v, begin, end) && v.size <= PAGE && TurnsOk(turns) && n <= |turns| <= end - begin
    requires v.offset + end <= |cache|
    requires PreparedPages(v, cache, begin, end, initialize, turns[..n]).error.Some?
    ensures PreparedPages(v, cache, begin, end, initialize, turns) ==
            PreparedPages(v, cache, begin, end, initialize, turns[..n])
    decreases |turns|
  {
    hide Inside, PreparedPage;
    if n == |turns| {
      assert turns[..n] == turns;
    } else {
      assert turns[..|turns| - 1][..n] == turns[..n];
      FailureEnds(v, cache, begin, end, initialize, turns[..|turns| - 1], n);
    }
  }

  function Widened(cache: seq<CachePage>, size: nat): (r: seq<CachePage>)
    ensures |r| >= size
  {
    if |cache| < size then Resize(cache, size) else cache
  }

  /** prepare_cache as a function of the cache and of what happens to each page. */
  function Prepared(v: View, cache: seq<CachePage>, begin: nat, end: nat, initialize: Initialize,
                    turns: seq<Turn>): Progress
    requires Ready(v, begin, end) && TurnsOk(turns) && |turns| <= end - begin
  {
    var wide := Widened(cache, v.offset + end);
    if v.size > PAGE then Progress(wide, Some(NotImplemented))
    else PreparedPages(v, wide, begin, end, initialize, turns)
  }

  /** With these turns the preparation takes the cache from `before` to `after`, and gives this error or none. */
  ghost predicate Leaves(v: View, before: seq<CachePage>, begin: nat, end: nat, initialize: Initialize,
                         turns: seq<Turn>, after: seq<CachePage>, error: Option<Error>) {
    && Ready(v, begin, end) && TurnsOk(turns) && |turns| == end - begin
    && Prepared(v, before, begin, end, initialize, turns) == Progress(after, error)
  }

  // -------------------------------------------------- when preparing succeeds

  predicate Absent(cache: seq<CachePage>, offset: nat, p: nat) {
    !Present(cache, offset + p)
  }

  /** The driver can read page `p`, as far as the medium is concerned. */
  predicate Readable(v: View, p: nat)
    requires Loadable(v, p)
  {
    v.medium.FatFile? ==>
      var (begin, count) := BlockRange(v.filesize, v.size, p);
      Blocks(v.medium.volume, v.medium.start, begin, count).Ok?
  }

  lemma ReadableLoads(v: View, p: nat, frame: seq<Byte>)
    requires Loadable(v, p) && |frame| == PAGE
    ensures LoadPage(v, p, frame).Ok? <==> Readable(v, p)
  {
  }

  /** An absent page cannot be made: no frame, or it must be read and the device fails or the medium has nothing. */
  predicate Blocked(v: View, p: nat, load: bool, t: Turn)
    requires Loadable(v, p)
  {
    t.NoFrame? || (load && (t.DeviceFails? || !Readable(v, p)))
  }

  /** Nothing stands in the way of any page of the range that is not there yet. */
  ghost predicate Servable(v: View, cache: seq<CachePage>, begin: nat, end: nat, initialize: Initialize,
                           turns: seq<Turn>)
    requires Ready(v, begin, end) && |turns| == end - begin
  {
    && v.size <= PAGE
    && forall p: nat | begin <= p < end && Absent(cache, v.offset, p) ::
         !Blocked(v, p, Loads(begin, end, initialize, p), turns[p - begin])
  }

  lemma {:induction false} PagesFailExactly(v: View, cache: seq<CachePage>, begin: nat, end: nat,
                                            initialize: Initialize, turns: seq<Turn>)
    requires Ready(v, begin, end) && v.size <= PAGE && TurnsOk(turns) && |turns| <= end - begin
    requires v.offset + end <= |cache|
    ensures var r := PreparedPages(v, cache, begin, end, initialize, turns);
            && (r.error.None? <==>
                forall p: nat | begin <= p < begin + |turns| && Absent(cache, v.offset, p) ::
                  !Blocked(v, p, Loads(begin, end, initialize, p), turns[p - begin]))
            && forall p: nat | begin + |turns| <= p :: Absent(r.cache, v.offset, p) == Absent(cache, v.offset, p)
    decreases |turns|
  {
    hide Inside, Blocked, Made;
    if turns != [] {
      var n := |turns| - 1;
      PagesFailExactly(v, cache, begin, end, initialize, turns[..n]);
      var load := Loads(begin, end, initialize, begin + n);
      MadeExactly(v, begin + n, load, turns[n]);
      assert Absent(PreparedPages(v, cache, begin, end, initialize, turns[..n]).cache, v.offset, begin + n) ==
             Absent(cache, v.offset, begin + n);
    }
  }

  lemma MadeExactly(v: View, p: nat, load: bool, t: Turn)
    requires Loadable(v, p) && TurnOk(t)
    ensures Made(v, p, load, t).Err? <==> Blocked(v, p, load, t)
  {
    if t.Works? { ReadableLoads(v, p, t.frame); }
  }

  /** Pages that are there need nothing. */
  lemma PresentIsServable(v: View, cache: seq<CachePage>, begin: nat, end: nat, initialize: Initialize,
                          turns: seq<Turn>)
    requires Ready(v, begin, end) && |turns| == end - begin && v.size <= PAGE
    requires AllPresent(cache, v.offset + begin, v.offset + end)
    ensures Servable(v, cache, begin, end, initialize, turns)
  {
    hide Inside, Blocked;
  }

  /** Preparing gives no error exactly when nothing stands in the way of an absent page. */
  lemma PreparedExactly(v: View, cache: seq<CachePage>, begin: nat, end: nat, initialize: Initialize,
                        turns: seq<Turn>)
    requires Ready(v, begin, end) && TurnsOk(turns) && |turns| == end - begin
    ensures Prepared(v, cache, begin, end, initialize, turns).error.None? <==>
            Servable(v, cache, begin, end, initialize, turns)
  {
    hide Inside, Blocked, PreparedPages, Loads;
    if v.size <= PAGE {
      var wide := Widened(cache, v.offset + end);
      assert forall p: nat :: Absent(wide, v.offset, p) == Absent(cache, v.offset, p);
      PagesFailExactly(v, wide, begin, end, initialize, turns);
    }
  }

  // ----------------------------------------------------------------- files

  /** DefaultCacheProvider's vector, with the medium it caches. */
  class Store {
    const medium: Medium
    var cache: seq<CachePage>

    constructor (medium: Medium)
      ensures this.medium == medium && cache == []
    {
      this.medium := medium;
      cache := [];
    }
  }

  class FileOperator {
    const store: Store
    const provider: CacheProvider
    const firstBlock: nat
    const filesize: nat
    const blocksizeExp: nat

    /** Where the file begins in the medium. */
    function Base(): nat {
      Offset(provider) * PAGE
    }

    /** The operator's file over its medium. */
    function AsView(): View {
      View(store.medium, Offset(provider), firstBlock, Pow2(blocksizeExp), filesize)
    }

    ghost predicate Aligned() {
      AlignedView(AsView())
    }

    /** What alignment asks of a file whose blocks are a power of two. */
    lemma AlignedExactly()
      ensures Aligned() <==>
              && MediumOk(store.medium) && Base() == firstBlock * Pow2(blocksizeExp)
              && Base() + filesize <= MediumSize(store.medium)
              && (filesize % PAGE == 0 || Base() + filesize == MediumSize(store.medium))
              && (store.medium.Disk? ==> filesize % Pow2(blocksizeExp) == 0)
              && (store.medium.FatFile? ==>
                  firstBlock == 0 && Pow2(blocksizeExp) == ClusterSize(store.medium.volume.bpb))
    {
      hide Pow2;
      if Pow2(blocksizeExp) <= PAGE {
        BlocksFillPage(blocksizeExp);
      }
    }

    ghost predicate Valid()
      reads store
    {
      MediumOk(store.medium) && CacheOk(store.cache) && Aligned()
    }

    /** Where the file lies in its medium. */
    lemma Extent()
      requires Aligned()
      ensures Base() + filesize <= MediumSize(store.medium)
      ensures filesize % PAGE == 0 || Base() + filesize == MediumSize(store.medium)
    {
    }

    ghost predicate HandleFits(h: HandleData) {
      MediumOk(store.medium) &&
      (store.medium.FatFile? ==> HandleOk(store.medium.volume, store.medium.start, h))
    }

    constructor (store: Store, provider: CacheProvider, firstBlock: nat, filesize: nat, blocksizeExp: nat)
      ensures this.store == store && this.provider == provider && this.firstBlock == firstBlock
      ensures this.filesize == filesize && this.blocksizeExp == blocksizeExp
    {
      this.store, this.provider, this.firstBlock := store, provider, firstBlock;
      this.filesize, this.blocksizeExp := filesize, blocksizeExp;
    }

    /** BlockDevice::read and PartitionBlockDevice::read; the device may fail. */
    method DiskRead(block: nat, count: nat, fails: bool) returns (r: Result<seq<Byte>>)
      requires Inside(AsView()) && store.medium.Disk? && block + count <= Ceil(filesize, Pow2(blocksizeExp))
      ensures var from := (block + firstBlock) * Pow2(blocksizeExp);
              && from + count * Pow2(blocksizeExp) <= |store.medium.bytes|
              && r == if fails then Err(IOError) else Ok(store.medium.bytes[from..from + count * Pow2(blocksizeExp)])
    {
      BlocksInside(AsView(), block, count);
      hide Pow2;
      if fails {
        return Err(IOError);
      }
      var from := (block + firstBlock) * Pow2(blocksizeExp);
      r := Ok(store.medium.bytes[from..from + count * Pow2(blocksizeExp)]);
    }

    /** The FAT driver's read; `fails` says whether the device fails it. */
    method FatRead(h: HandleData, block: nat, count: nat, fails: bool) returns (r: Result<seq<Byte>>, h': HandleData)
      requires MediumOk(store.medium) && HandleFits(h) && store.medium.FatFile?
      ensures HandleFits(h')
      ensures r.Err? ==> h' == h
      ensures r == if fails then Err(IOError) else Blocks(store.medium.volume, store.medium.start, block, count)
    {
      hide HandleOk, Blocks, ClusterSize, BpbOk;
      if fails {
        return Err(IOError), h;
      }
      r, h' := Read(store.medium.volume, {}, store.medium.start, h, block, count);
    }

    /** Fills the part of a frame that the file's blocks reach, as `LoadPage` says, unless the device fails. */
    method ReadPage(h: HandleData, p: nat, frame: seq<Byte>, fails: bool)
      returns (r: Result<seq<Byte>>, h': HandleData)
      requires HandleFits(h) && Loadable(AsView(), p) && |frame| == PAGE
      ensures HandleFits(h') && (r.Err? ==> h' == h)
      ensures r == if fails then Err(IOError) else LoadPage(AsView(), p, frame)
    {
      hide Pow2, MediumOk, HandleOk, Blocks, ClusterSize, BpbOk, Ceil;
      var (blockBegin, blocksRead) := BlockRange(filesize, Pow2(blocksizeExp), p);
      var data;
      if store.medium.Disk? {
        data := DiskRead(blockBegin, blocksRead, fails);
        h' := h;
      } else {
        data, h' := FatRead(h, blockBegin, blocksRead, fails);
      }
      if data.Err? {
        return Err(data.error), h';
      }
      r := Ok(data.value + frame[|data.value|..]);
    }

    /** A page for index `p`: allocation may fail, and a new frame holds arbitrary bytes. */
    method MakePage(h: HandleData, p: nat, load: bool, turn: Turn) returns (r: Result<CachePage>, h': HandleData)
      requires Aligned() && HandleFits(h) && Loadable(AsView(), p) && TurnOk(turn)
      ensures HandleFits(h') && (r.Err? || !load ==> h' == h)
      ensures r == Made(AsView(), p, load, turn)
      ensures r.Ok? && load ==> Holds(store.medium, Offset(provider) + p, r.value.page)
    {
      hide Pow2, MediumOk, HandleOk, Holds, LoadPage, Inside, AlignedView;
      if turn.NoFrame? {
        return Err(NoEnoughMemory), h;
      }
      if !load {
        return Ok(CachePage(Clean, turn.frame)), h;
      }
      var page;
      page, h' := ReadPage(h, p, turn.frame, turn.DeviceFails?);
      if page.Err? {
        return Err(page.error), h';
      }
      LoadedHolds(AsView(), p, turn.frame);
      r := Ok(CachePage(Clean, page.value));
    }

    /** The end of the pages that a partial preparation may leave unfilled. */
    ghost function BlankEnd(begin: nat, end: nat, initialize: Initialize, p: nat): int {
      if initialize == All then 0 else if p == end then Offset(provider) + end - 1 else Offset(provider) + p
    }

    /** One page of prepare_cache. */
    method PreparePage(h: HandleData, p: nat, begin: nat, end: nat, initialize: Initialize, turn: Turn,
                       ghost before: seq<CachePage>)
      returns (error: Option<Error>, h': HandleData)
      requires Valid() && HandleFits(h) && begin <= p < end && (end - 1) * PAGE < filesize && Pow2(blocksizeExp) <= PAGE
      requires CacheOk(before) && Extends(before, store.cache) && Offset(provider) + end <= |store.cache|
      requires TurnOk(turn)
      requires Agrees(store.medium, before, store.cache, Offset(provider) + begin, BlankEnd(begin, end, initialize, p))
      modifies store`cache
      ensures Valid() && HandleFits(h') && Extends(before, store.cache) && |store.cache| == old(|store.cache|)
      ensures error.Some? ==> store.cache == old(store.cache)
      ensures PreparedPage(AsView(), old(store.cache), p, Loads(begin, end, initialize, p), turn) ==
              Progress(store.cache, error)
      ensures error.None? ==> Present(store.cache, Offset(provider) + p) &&
                              (forall i | 0 <= i < |store.cache| ::
                                  Present(old(store.cache), i) ==> Present(store.cache, i)) &&
                              Agrees(store.medium, before, store.cache, Offset(provider) + begin,
                                  BlankEnd(begin, end, initialize, p + 1))
    {
      ProviderShifts(provider, store.cache, p);
      var i := At(provider, p);
      h', error := h, None;
      AgreesWider(store.medium, before, store.cache, Offset(provider) + begin, BlankEnd(begin, end, initialize, p),
          BlankEnd(begin, end, initialize, p + 1));
      hide Pow2, MediumOk, HandleOk, Holds, Agrees, Inside, AlignedView, Made;
      if store.cache[i].state.Uninitialized? {
        var load := (initialize == All || (initialize == HeadTail && (p == begin || p == end - 1))) &&
            p * PAGE < filesize;
        var made;
        made, h' := MakePage(h, p, load, turn);
        if made.Err? {
          return Some(made.error), h';
        }
        PageAdded(store.medium, before, store.cache, i, made.value, Offset(provider) + begin,
            BlankEnd(begin, end, initialize, p + 1));
        store.cache := store.cache[i := made.value];
      }
    }

    lemma NothingYet(begin: nat, end: nat, initialize: Initialize)
      requires Valid() && begin < end && (end - 1) * PAGE < filesize && Pow2(blocksizeExp) <= PAGE
      requires Offset(provider) + end <= |store.cache|
      ensures PreparedPages(AsView(), store.cache, begin, end, initialize, []) == Progress(store.cache, None)
      ensures TurnsOk([]) && AllPresent(store.cache, Offset(provider) + begin, Offset(provider) + begin)
    {
    }

    /** The loop of prepare_cache; `before` is the cache before it grew. */
    method PreparePages(h: HandleData, begin: nat, end: nat, initialize: Initialize, turns: seq<Turn>,
                        ghost before: seq<CachePage>)
      returns (error: Option<Error>, h': HandleData, ghost stopped: nat)
      requires Valid() && HandleFits(h) && begin < end && (end - 1) * PAGE < filesize && Pow2(blocksizeExp) <= PAGE
      requires CacheOk(before) && Extends(before, store.cache) && Offset(provider) + end <= |store.cache|
      requires TurnsOk(turns) && |turns| == end - begin
      requires Agrees(store.medium, before, store.cache, Offset(provider) + begin,
               BlankEnd(begin, end, initialize, begin))
      modifies store`cache
      ensures Valid() && HandleFits(h') && Extends(before, store.cache) && begin <= stopped <= end
      ensures error.None? <==> stopped == end
      ensures error.None? ==> AllPresent(store.cache, Offset(provider) + begin, Offset(provider) + end)
      ensures Agrees(store.medium, before, store.cache, Offset(provider) + begin,
              BlankEnd(begin, end, initialize, stopped))
      ensures PreparedPages(AsView(), old(store.cache), begin, end, initialize, turns) == Progress(store.cache, error)
    {
      h', stopped, error := h, begin, None;
      hide Pow2, MediumOk, HandleOk, Agrees, MediumSize, CacheOk, Inside, PreparedPage, PreparedPages, TurnOk,
          Extends, AllPresent;
      NothingYet(begin, end, initialize);
      var p := begin;
      assert turns[..0] == [];
      while p < end
        invariant begin <= p == stopped <= end && Offset(provider) + end <= |store.cache| && error.None?
        invariant Valid() && HandleFits(h') && Extends(before, store.cache)
        invariant PreparedPages(AsView(), old(store.cache), begin, end, initialize, turns[..p - begin]) ==
                  Progress(store.cache, None)
        invariant AllPresent(store.cache, Offset(provider) + begin, Offset(provider) + p)
        invariant Agrees(store.medium, before, store.cache, Offset(provider) + begin,
                  BlankEnd(begin, end, initialize, p))
      {
        ghost var atTurn := store.cache;
        error, h' := PreparePage(h', p, begin, end, initialize, turns[p - begin], before);
        OneMoreTurn(AsView(), old(store.cache), begin, end, initialize, turns, p - begin, atTurn);
        if error.Some? {
          FailureEnds(AsView(), old(store.cache), begin, end, initialize, turns, p - begin + 1);
          return;
        }
        OneMorePresent(atTurn, store.cache, Offset(provider) + begin, Offset(provider) + p);
        p := p + 1;
        stopped := p;
      }
      assert turns[..end - begin] == turns;
    }

    /**
     prepare_cache: makes the pages [begin, end) present.  `stopped` is the page
     it gave up at, or `end`.  Pages strictly between the first one and the last
     one reached are not filled when only head and tail are asked for.
     */
    method PrepareCache(h: HandleData, begin: nat, end: nat, initialize: Initialize, turns: seq<Turn>)
      returns (error: Option<Error>, h': HandleData, ghost stopped: nat)
      requires Valid() && HandleFits(h) && begin < end && (end - 1) * PAGE < filesize
      requires TurnsOk(turns) && |turns| == end - begin
      modifies store`cache
      ensures Valid() && HandleFits(h') && begin <= stopped <= end && (error.None? <==> stopped == end)
      ensures Extends(old(store.cache), store.cache)
      ensures error.None? ==> AllPresent(store.cache, Offset(provider) + begin, Offset(provider) + end)
      ensures Agrees(store.medium, old(store.cache), store.cache, Offset(provider) + begin,
              BlankEnd(begin, end, initialize, stopped))
      ensures Leaves(AsView(), old(store.cache), begin, end, initialize, turns, store.cache, error)
    {
      ghost var before := store.cache;
      ProviderShifts(provider, store.cache, end);
      Grown(store.medium, store.cache,
          if |store.cache| < Offset(provider) + end then Offset(provider) + end else |store.cache|);
      if Capacity(provider, store.cache) < end {
        store.cache := EnsureCapacity(provider, store.cache, end);
      }
      AgreesAnywhere(store.medium, before, store.cache, Offset(provider) + begin,
          BlankEnd(begin, end, initialize, begin));
      if Pow2(blocksizeExp) > PAGE {
        return Some(NotImplemented), h, begin;
      }
      hide Pow2, MediumOk, HandleOk, Agrees, MediumSize, CacheOk, PreparedPages;
      error, h', stopped := PreparePages(h, begin, end, initialize, turns, before);
    }

    // ---------------------------------------------------------------- copy

    /** One memcpy between the buffer and a page, in either direction. */
    method CopySegment(page: nat, inPage: nat, len: nat, buffer: array<Byte>, at: nat, write: bool)
      requires Valid() && inPage + len <= PAGE && at + len <= buffer.Length
      requires Present(store.cache, Offset(provider) + page)
      modifies store`cache, buffer
      ensures Valid() && |store.cache| == old(|store.cache|)
      ensures forall i: nat :: Present(store.cache, i) == Present(old(store.cache), i)
      ensures write ==> buffer[..] == old(buffer[..]) &&
                        var i := Offset(provider) + page;
                        store.cache == old(store.cache)[i := Overlay(old(store.cache)[i], inPage, buffer[at..at + len])]
      ensures !write ==> store.cache == old(store.cache) &&
                         buffer[..] == old(buffer[..at]) +
                             store.cache[Offset(provider) + page].page[inPage..inPage + len] + old(buffer[at + len..])
    {
      ProviderShifts(provider, store.cache, page);
      var i := At(provider, page);
      if write {
        store.cache := store.cache[i := Overlay(store.cache[i], inPage, buffer[at..at + len])];
      } else {
        CopyInto(buffer, at, store.cache[i].page[inPage..inPage + len]);
      }
    }

    /** One segment of the copy, with the part of the range it covers. */
    method Advance(page: nat, inPage: nat, len: nat, buffer: array<Byte>, done: nat, write: bool,
                   ghost prep: seq<CachePage>, ghost data: seq<Byte>, ghost g: nat)
      requires Valid() && CacheOk(prep) && inPage + len <= PAGE && done + len <= buffer.Length
      requires (Offset(provider) + page) * PAGE + inPage == g + done && Present(prep, Offset(provider) + page)
      requires g + done + len <= MediumSize(store.medium)
      requires Copied(store.medium, prep, store.cache, g, done, data, buffer[..], write)
      modifies store`cache, buffer
      ensures Valid()
      ensures Copied(store.medium, prep, store.cache, g, done + len, data, buffer[..], write)
    {
      ghost var cache, bytes := store.cache, buffer[..];
      assert Present(store.cache, Offset(provider) + page);
      hide MediumOk, MediumSize, CacheOk;
      CopySegment(page, inPage, len, buffer, done, write);
      if write {
        WriteSegment(store.medium, prep, cache, store.cache, Offset(provider) + page, inPage, g, done, len, data);
      } else {
        ReadSegment(store.medium, prep, Offset(provider) + page, inPage, g, done, len, data, bytes, buffer[..]);
      }
    }

    /** Whole pages and the rest, from a page boundary. */
    method CopyWhole(page0: nat, end: nat, done0: nat, size: nat, buffer: array<Byte>, write: bool,
                     ghost prep: seq<CachePage>, ghost data: seq<Byte>, ghost g: nat)
      requires Valid() && CacheOk(prep) && done0 <= size <= buffer.Length && g + size <= MediumSize(store.medium)
      requires done0 < size ==> (Offset(provider) + page0) * PAGE == g + done0
      requires AllPresent(prep, Offset(provider) + page0, Offset(provider) + end)
      requires g + size <= (Offset(provider) + end) * PAGE
      requires Copied(store.medium, prep, store.cache, g, done0, data, buffer[..], write)
      modifies store`cache, buffer
      ensures Valid()
      ensures Copied(store.medium, prep, store.cache, g, size, data, buffer[..], write)
    {
      hide MediumOk, MediumSize, CacheOk, Copied, Aligned, Present, AllPresent;
      var page: nat, done: nat := page0, done0;
      while size - done >= PAGE
        invariant Valid() && done0 <= done <= size && page0 <= page
        invariant done < size ==> (Offset(provider) + page) * PAGE == g + done
        invariant Copied(store.medium, prep, store.cache, g, done, data, buffer[..], write)
      {
        InSpan(prep, Offset(provider), page0, end, page);
        Advance(page, 0, PAGE, buffer, done, write, prep, data, g);
        done := done + PAGE;
        page := page + 1;
      }
      if done < size {
        InSpan(prep, Offset(provider), page0, end, page);
        Advance(page, 0, size - done, buffer, done, write, prep, data, g);
      }
    }

    /** The copy proper, once the pages are there: the rest of the first page, whole pages, the rest. */
    method CopyPages(offset: nat, size: nat, buffer: array<Byte>, write: bool)
      requires Valid() && 0 < size <= buffer.Length && offset + size <= filesize
      requires AllPresent(store.cache, Offset(provider) + offset / PAGE, Offset(provider) + Ceil(offset + size, PAGE))
      modifies store`cache, buffer
      ensures Valid()
      ensures Copied(store.medium, old(store.cache), store.cache, Base() + offset, size, old(buffer[..]), buffer[..],
              write)
    {
      ghost var prep, data, g := store.cache, buffer[..], Base() + offset;
      Extent();
      CopyStarts(store.medium, prep, g, data, write);
      PageSpan(offset, size);
      hide MediumOk, MediumSize, CacheOk, Copied, Aligned, Ceil, Present, AllPresent;
      var cacheBegin, cacheEnd, offsetInPage := offset / PAGE, Ceil(offset + size, PAGE), offset % PAGE;
      InSpan(prep, Offset(provider), cacheBegin, cacheEnd, cacheBegin);
      if offsetInPage != 0 {
        var sizeInPage := PAGE - offsetInPage;
        var len := if size <= sizeInPage then size else sizeInPage;
        Advance(cacheBegin, offsetInPage, len, buffer, 0, write, prep, data, g);
        LaterPresent(prep, Offset(provider) + cacheBegin, Offset(provider) + cacheEnd);
        CopyWhole(cacheBegin + 1, cacheEnd, len, size, buffer, write, prep, data, g);
      } else {
        CopyWhole(cacheBegin, cacheEnd, 0, size, buffer, write, prep, data, g);
      }
    }

    /** copy for a range inside the file: make the pages present, then copy. */
    method CopyInRange(h: HandleData, offset: nat, size: nat, buffer: array<Byte>, write: bool, turns: seq<Turn>)
      returns (error: Option<Error>, h': HandleData, ghost prepared: seq<CachePage>)
      requires Valid() && HandleFits(h) && 0 < size <= buffer.Length && offset + size <= filesize
      requires TurnsOk(turns) && |turns| == Span(offset, size)
      modifies store`cache, buffer
      ensures Valid() && HandleFits(h')
      ensures write || error.Some? ==> buffer[..] == old(buffer[..])
      ensures !write && error.Some? ==> Flat(store.medium, store.cache) == Flat(store.medium, old(store.cache))
      ensures !write && error.None? ==>
                ReadEffect(store.medium, old(store.cache), store.cache, Base() + offset, size, old(buffer[..]),
                    buffer[..])
      ensures write && error.None? ==>
                WriteEffect(store.medium, old(store.cache), store.cache, Base() + offset, size, buffer[..])
      ensures Leaves(AsView(), old(store.cache), offset / PAGE, Ceil(offset + size, PAGE), Needs(write), turns,
                  prepared, error)
      ensures error.Some? ==> store.cache == prepared
    {
      hide MediumOk, MediumSize, CacheOk, Copied, Agrees, Pow2, HandleOk, ReadEffect, WriteEffect, Flat, Aligned,
          Leaves;
      var cacheBegin, cacheEnd := offset / PAGE, Ceil(offset + size, PAGE);
      ghost var before, data, g := store.cache, buffer[..], Base() + offset;
      PageSpan(offset, size);
      ghost var stopped;
      error, h', stopped := PrepareCache(h, cacheBegin, cacheEnd, Needs(write), turns);
      prepared := store.cache;
      if !write {
        AgreesIsFlat(store.medium, before, store.cache, Offset(provider) + cacheBegin);
      }
      if error.Some? {
        return;
      }
      ghost var prep := store.cache;
      CopyPages(offset, size, buffer, write);
      if write {
        WriteDone(store.medium, before, prep, store.cache, Offset(provider), offset, size, data, buffer[..]);
      } else {
        ReadDone(store.medium, before, prep, store.cache, g, size, data, buffer[..]);
      }
    }

    /** What the range of a copy needs is there, or can be made. */
    ghost predicate CanServe(cache: seq<CachePage>, offset: nat, size: nat, write: bool, turns: seq<Turn>)
      requires Inside(AsView()) && 0 < size && offset + size <= filesize && |turns| == Span(offset, size)
    {
      PageSpan(offset, size);
      Servable(AsView(), cache, offset / PAGE, Ceil(offset + size, PAGE), Needs(write), turns)
    }

    /**
     FileOperator::copy on a cached file, with what happens to each absent page
     of the range.  It succeeds exactly when the range lies in the file and every
     page of it is there or can be made.  A read returns exactly the requested
     slice of the flat view and changes nothing in it; a write replaces exactly
     that slice; a failed read changes nothing; a failed write leaves what
     `Prepared` leaves.
     */
    method Copy(h: HandleData, offset: nat, size: nat, buffer: array<Byte>, write: bool, turns: seq<Turn>)
      returns (r: Result<nat>, h': HandleData)
      requires Valid() && HandleFits(h) && size <= buffer.Length
      requires TurnsOk(turns) && |turns| == Span(offset, size)
      modifies store`cache, buffer
      ensures Valid() && HandleFits(h')
      ensures r.Ok? ==> r.value == size
      ensures size == 0 ==> r == Ok(0)
      ensures size > 0 && offset + size > filesize ==> r == Err(IndexOutOfRange)
      ensures size > 0 && offset + size <= filesize ==>
                (r.Ok? <==> CanServe(old(store.cache), offset, size, write, turns))
      ensures size > 0 && offset + size <= filesize && Pow2(blocksizeExp) > PAGE ==> r == Err(NotImplemented)
      ensures size > 0 && offset + size <= filesize && Pow2(blocksizeExp) <= PAGE &&
              AllPresent(old(store.cache), Offset(provider) + offset / PAGE,
                  Offset(provider) + Ceil(offset + size, PAGE))
              ==> r.Ok?
      ensures size == 0 || offset + size > filesize ==> store.cache == old(store.cache)
      ensures write || r.Err? || size == 0 ==> buffer[..] == old(buffer[..])
      ensures !write && r.Err? ==> Flat(store.medium, store.cache) == Flat(store.medium, old(store.cache))
      ensures !write && r.Ok? && size > 0 ==>
                ReadEffect(store.medium, old(store.cache), store.cache, Base() + offset, size, old(buffer[..]),
                    buffer[..])
      ensures write && r.Ok? && size > 0 ==>
                WriteEffect(store.medium, old(store.cache), store.cache, Base() + offset, size, buffer[..])
      ensures r.Err? && 0 < size && offset + size <= filesize ==>
                Leaves(AsView(), old(store.cache), offset / PAGE, Ceil(offset + size, PAGE), Needs(write), turns,
                    store.cache, Some(r.error))
    {
      hide MediumOk, MediumSize, CacheOk, Agrees, Pow2, HandleOk, ReadEffect, WriteEffect, Flat, AlignedView, Leaves,
          Inside, Servable;
      if size == 0 {
        return Ok(0), h;
      }
      if offset + size > filesize {
        return Err(IndexOutOfRange), h;
      }
      ghost var before := store.cache;
      var error;
      ghost var prepared;
      error, h', prepared := CopyInRange(h, offset, size, buffer, write, turns);
      LeavesExactly(AsView(), before, offset / PAGE, Ceil(offset + size, PAGE), Needs(write), turns, prepared, error);
      r := if error.Some? then Err(error.value) else Ok(size);
      PresentServes(before, offset, size, write, turns);
    }

    lemma PresentServes(cache: seq<CachePage>, offset: nat, size: nat, write: bool, turns: seq<Turn>)
      requires Inside(AsView()) && 0 < size && offset + size <= filesize && |turns| == Span(offset, size)
      ensures Pow2(blocksizeExp) <= PAGE &&
              AllPresent(cache, Offset(provider) + offset / PAGE, Offset(provider) + Ceil(offset + size, PAGE))
              ==> CanServe(cache, offset, size, write, turns)
    {
      hide Inside, Servable, Pow2, AllPresent;
      PageSpan(offset, size);
      var begin, end := offset / PAGE, Ceil(offset + size, PAGE);
      if Pow2(blocksizeExp) <= PAGE && AllPresent(cache, Offset(provider) + begin, Offset(provider) + end) {
        PresentIsServable(AsView(), cache, begin, end, Needs(write), turns);
      }
    }
  }

  function Needs(write: bool): Initialize { if write then HeadTail else All }

  /** The pages that a range of bytes touches. */
  function Span(offset: nat, size: nat): nat {
    if size == 0 then 0 else PageSpan(offset, size); Ceil(offset + size, PAGE) - offset / PAGE
  }

  lemma LeavesExactly(v: View, before: seq<CachePage>, begin: nat, end: nat, initialize: Initialize,
                      turns: seq<Turn>, after: seq<CachePage>, error: Option<Error>)
    requires Leaves(v, before, begin, end, initialize, turns, after, error)
    ensures Ready(v, begin, end) && |turns| == end - begin
    ensures error.None? <==> Servable(v, before, begin, end, initialize, turns)
    ensures v.size > PAGE ==> error == Some(NotImplemented)
  {
    hide Inside, Servable, PreparedPages;
    PreparedExactly(v, before, begin, end, initialize, turns);
  }

  method CopyInto(buffer: array<Byte>, at: nat, data: seq<Byte>)
    requires at + |data| <= buffer.Length
    modifies buffer
    ensures buffer[..] == old(buffer[..at]) + data + old(buffer[at + |data|..])
  {
    ghost var all := buffer[..];
    var k := 0;
    while k < |data|
      invariant 0 <= k <= |data|
      invariant buffer[..] == all[..at] + data[..k] + all[at + k..]
    {
      buffer[at + k] := data[k];
      k := k + 1;
    }
  }

  /** A read delivered exactly the slice [g, g + size) of the flat view and left the view alone. */
  ghost predicate ReadEffect(m: Medium, before: seq<CachePage>, after: seq<CachePage>, g: nat, size: nat,
                             was: seq<Byte>, buffer: seq<Byte>)
    requires MediumOk(m) && CacheOk(before) && CacheOk(after)
  {
    && Flat(m, after) == Flat(m, before)
    && g + size <= MediumSize(m) && size <= |buffer| == |was|
    && Wrapped(buffer[..size]) == Flat(m, before)[g..g + size]
    && buffer[size..] == was[size..]
  }

  /** A write replaced exactly the slice [g, g + size) of the flat view. */
  ghost predicate WriteEffect(m: Medium, before: seq<CachePage>, after: seq<CachePage>, g: nat, size: nat,
                              buffer: seq<Byte>)
    requires MediumOk(m) && CacheOk(before) && CacheOk(after)
  {
    && g + size <= MediumSize(m) && size <= |buffer|
    && Flat(m, after) == Flat(m, before)[..g] + Wrapped(buffer[..size]) + Flat(m, before)[g + size..]
  }

  /** `done` bytes from `g` have been copied between the prepared cache and the buffer. */
  ghost predicate Copied(m: Medium, prep: seq<CachePage>, cache: seq<CachePage>, g: nat, done: nat, data: seq<Byte>,
                         buffer: seq<Byte>, write: bool)
    requires MediumOk(m) && CacheOk(prep) && CacheOk(cache)
  {
    && |cache| == |prep| && |buffer| == |data| && done <= |data| && g + done <= MediumSize(m)
    && (forall i: nat :: Present(cache, i) == Present(prep, i))
    && (write ==>
          && buffer == data
          && forall x | 0 <= x < MediumSize(m) ::
              ByteAt(m, cache, x) == if g <= x < g + done then Some(data[x - g]) else ByteAt(m, prep, x))
    && (!write ==>
          && cache == prep
          && forall k | 0 <= k < |data| ::
              if k < done then Some(buffer[k]) == ByteAt(m, prep, g + k) else buffer[k] == data[k])
  }

  lemma CopyStarts(m: Medium, prep: seq<CachePage>, g: nat, data: seq<Byte>, write: bool)
    requires MediumOk(m) && CacheOk(prep) && g <= MediumSize(m)
    ensures Copied(m, prep, prep, g, 0, data, data, write)
  {
  }

  lemma WriteSegment(m: Medium, prep: seq<CachePage>, a: seq<CachePage>, b: seq<CachePage>, i: nat, inPage: nat,
                     g: nat, done: nat, len: nat, data: seq<Byte>)
    requires MediumOk(m) && CacheOk(prep) && CacheOk(a) && Copied(m, prep, a, g, done, data, data, true)
    requires i * PAGE + inPage == g + done && inPage + len <= PAGE && done + len <= |data|
    requires g + done + len <= MediumSize(m)
    requires Present(a, i) && b == a[i := Overlay(a[i], inPage, data[done..done + len])]
    ensures CacheOk(b) && Copied(m, prep, b, g, done + len, data, data, true)
  {
    hide MediumByte, Overlay;
    forall x | 0 <= x < MediumSize(m)
      ensures ByteAt(m, b, x) == if g <= x < g + done + len then Some(data[x - g]) else ByteAt(m, prep, x)
    {
      assert ByteAt(m, a, x) == if g <= x < g + done then Some(data[x - g]) else ByteAt(m, prep, x);
      if x / PAGE == i {
        assert x % PAGE == x - i * PAGE;
        assert inPage <= x % PAGE < inPage + len <==> g + done <= x < g + done + len;
      } else {
        assert !(g + done <= x < g + done + len);
      }
    }
  }

  lemma ReadSegment(m: Medium, prep: seq<CachePage>, i: nat, inPage: nat, g: nat, done: nat, len: nat, data: seq<Byte>,
                    a: seq<Byte>, b: seq<Byte>)
    requires MediumOk(m) && CacheOk(prep) && Copied(m, prep, prep, g, done, data, a, false)
    requires i * PAGE + inPage == g + done && inPage + len <= PAGE && done + len <= |data|
    requires g + done + len <= MediumSize(m)
    requires Present(prep, i) && b == a[..done] + prep[i].page[inPage..inPage + len] + a[done + len..]
    ensures Copied(m, prep, prep, g, done + len, data, b, false)
  {
    hide MediumByte;
    forall k | 0 <= k < |data|
      ensures if k < done + len then Some(b[k]) == ByteAt(m, prep, g + k) else b[k] == data[k]
    {
      assert if k < done then Some(a[k]) == ByteAt(m, prep, g + k) else a[k] == data[k];
      if done <= k < done + len {
        DivMod(g + k, PAGE, i, inPage + k - done);
      }
    }
  }

  /** The pages of a range of bytes. */
  lemma PageSpan(offset: nat, size: nat)
    requires size > 0
    ensures offset / PAGE < Ceil(offset + size, PAGE)
    ensures (Ceil(offset + size, PAGE) - 1) * PAGE < offset + size <= Ceil(offset + size, PAGE) * PAGE
    ensures offset / PAGE * PAGE + offset % PAGE == offset
  {
  }

  lemma InSpan(cache: seq<CachePage>, off: nat, begin: nat, end: nat, page: nat)
    requires AllPresent(cache, off + begin, off + end) && begin <= page < end
    ensures Present(cache, off + page)
  {
  }

  lemma LaterPresent(cache: seq<CachePage>, lo: nat, hi: nat)
    requires AllPresent(cache, lo, hi)
    ensures AllPresent(cache, lo + 1, hi)
  {
  }

  /** A byte outside the range is in no page strictly inside it. */
  lemma OutsideIsKept(off: nat, offset: nat, size: nat, x: nat)
    requires size > 0 && !(off * PAGE + offset <= x < off * PAGE + offset + size)
    ensures !(off + offset / PAGE < x / PAGE < off + Ceil(offset + size, PAGE) - 1)
  {
    PageSpan(offset, size);
    hide Ceil;
  }

  lemma AgreesIsFlat(m: Medium, a: seq<CachePage>, b: seq<CachePage>, lo: nat)
    requires MediumOk(m) && CacheOk(a) && CacheOk(b) && Agrees(m, a, b, lo, 0)
    ensures Flat(m, b) == Flat(m, a)
  {
  }

  lemma ReadDone(m: Medium, before: seq<CachePage>, prep: seq<CachePage>, cache: seq<CachePage>, g: nat, size: nat,
                 data: seq<Byte>, buffer: seq<Byte>)
    requires MediumOk(m) && CacheOk(before) && CacheOk(prep) && CacheOk(cache)
    requires Copied(m, prep, cache, g, size, data, buffer, false) && Flat(m, prep) == Flat(m, before)
    ensures ReadEffect(m, before, cache, g, size, data, buffer)
  {
    assert forall k | 0 <= k < size :: Wrapped(buffer[..size])[k] == Flat(m, prep)[g + k];
  }

  lemma WriteDone(m: Medium, before: seq<CachePage>, prep: seq<CachePage>, cache: seq<CachePage>, off: nat,
                  offset: nat, size: nat, data: seq<Byte>, buffer: seq<Byte>)
    requires MediumOk(m) && CacheOk(before) && CacheOk(prep) && CacheOk(cache) && size > 0
    requires Copied(m, prep, cache, off * PAGE + offset, size, data, buffer, true)
    requires Agrees(m, before, prep, off + offset / PAGE, off + Ceil(offset + size, PAGE) - 1)
    ensures buffer == data && WriteEffect(m, before, cache, off * PAGE + offset, size, buffer)
  {
    hide ByteAt, Ceil, MediumOk, CacheOk, Present;
    var g := off * PAGE + offset;
    var want := Flat(m, before)[..g] + Wrapped(buffer[..size]) + Flat(m, before)[g + size..];
    forall x | 0 <= x < MediumSize(m)
      ensures Flat(m, cache)[x] == want[x]
    {
      assert ByteAt(m, cache, x) == if g <= x < g + size then Some(data[x - g]) else ByteAt(m, prep, x);
      if !(g <= x < g + size) {
        OutsideIsKept(off, offset, size, x);
        assert ByteAt(m, prep, x) == ByteAt(m, before, x);
      }
    }
    assert Flat(m, cache) == want;
  }

  /** A page with `data` written over it from `at`. */
  function Overlay(pg: CachePage, at: nat, data: seq<Byte>): (r: CachePage)
    requires |pg.page| == PAGE && at + |data| <= PAGE
    ensures r.state == pg.state && |r.page| == PAGE
    ensures forall k | 0 <= k < PAGE :: r.page[k] == if at <= k < at + |data| then data[k - at] else pg.page[k]
  {
    pg.(page := pg.page[..at] + data + pg.page[at + |data|..])
  }

  lemma AgreesAnywhere(m: Medium, a: seq<CachePage>, b: seq<CachePage>, lo: int, hi: int)
    requires MediumOk(m) && CacheOk(a) && CacheOk(b) && Agrees(m, a, b, 0, 0)
    ensures Agrees(m, a, b, lo, hi)
  {
    hide ByteAt, Present;
  }

  lemma AgreesWider(m: Medium, a: seq<CachePage>, b: seq<CachePage>, lo: int, hi: int, hi': int)
    requires MediumOk(m) && CacheOk(a) && CacheOk(b) && Agrees(m, a, b, lo, hi) && (hi <= hi' || hi <= lo + 1)
    ensures Agrees(m, a, b, lo, hi')
  {
    hide ByteAt, Present;
  }

  lemma PageFilled(m: Medium, i: nat, at: nat, n: nat, page: seq<Byte>)
    requires MediumOk(m) && n <= PAGE == |page| && at == i * PAGE
    requires forall k | 0 <= k < n :: MediumByte(m, at + k) == Some(page[k])
    requires n == PAGE || at + n >= MediumSize(m)
    ensures Holds(m, i, page)
  {
    hide MediumByte, MediumOk;
    forall x | i * PAGE <= x < i * PAGE + PAGE && x < MediumSize(m)
      ensures MediumByte(m, x) == Some(page[x - i * PAGE])
    {
      assert MediumByte(m, at + (x - at)) == Some(page[x - at]);
    }
  }

  lemma CeilCovers(a: nat, b: nat)
    requires b > 0
    ensures a <= Ceil(a, b) * b
  {
    var q := (a + b - 1) / b;
    assert a + b - 1 == q * b + (a + b - 1) % b;
  }

  /** The blocks of page `p`: its first one, and how many of them the file has. */
  function BlockRange(filesize: nat, size: nat, p: nat): (r: (nat, nat))
    requires size > 0 && PAGE / size * size == PAGE && p * PAGE < filesize
    ensures r.0 + r.1 <= Ceil(filesize, size) && r.0 * size == p * PAGE && r.1 * size <= PAGE
  {
    LoadRange(filesize, size, p);
    var blocksPerPage := PAGE / size;
    var filesizeBlocks := Ceil(filesize, size);
    var blockBegin := p * blocksPerPage;
    var blocksLeft := filesizeBlocks - blockBegin;
    var blocksRead := if blocksPerPage <= blocksLeft then blocksPerPage else blocksLeft;
    MulMonotone(blocksRead, blocksPerPage, size);
    (blockBegin, blocksRead)
  }

  /** The page begins inside the blocks of the file. */
  lemma LoadRange(filesize: nat, size: nat, p: nat)
    requires size > 0 && PAGE / size * size == PAGE && p * PAGE < filesize
    ensures p * (PAGE / size) * size == p * PAGE
    ensures p * (PAGE / size) < Ceil(filesize, size)
  {
    var n := PAGE / size;
    CeilCovers(filesize, size);
    assert p * n * size == p * (n * size);
    if p * n >= Ceil(filesize, size) {
      MulMonotone(Ceil(filesize, size), p * n, size);
    }
  }

  /** Every byte of the page that belongs to the medium is in its blocks. */
  lemma LoadCovers(base: nat, filesize: nat, total: nat, size: nat, p: nat)
    requires size > 0 && PAGE / size * size == PAGE && p * PAGE < filesize && base + filesize <= total
    requires filesize % PAGE == 0 || base + filesize == total
    ensures var count := BlockRange(filesize, size, p).1;
            count * size == PAGE || base + p * PAGE + count * size >= total
  {
    var n := PAGE / size;
    var count := BlockRange(filesize, size, p).1;
    CeilCovers(filesize, size);
    LoadRange(filesize, size, p);
    if count < n {
      assert count * size == Ceil(filesize, size) * size - p * n * size;
      assert count * size >= filesize - p * PAGE;
      assert filesize % PAGE == 0 ==> filesize >= p * PAGE + PAGE;
    }
  }

  lemma WholeBlocks(filesize: nat, size: nat)
    requires size > 0 && filesize % size == 0
    ensures Ceil(filesize, size) * size == filesize
  {
    var q := filesize / size;
    assert filesize == q * size;
    DivMod(filesize + size - 1, size, q, size - 1);
  }
}
