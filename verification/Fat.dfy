/**
 FAT32 cluster chains (section 4 "FAT" of the Microsoft FAT specification) as
 the driver walks them.  A volume is its bytes; `bad` is the set of positions
 the device fails to read during a call.
 */
module Fat {
  import opened Collections

  type Byte = b: int | 0 <= b < 256

  datatype Error =
    | IOError | IndexOutOfRange | EndOfFile | BrokenFATEntry | BadChecksum
    | NoEnoughMemory | NotImplemented | NotDirectory

  datatype Result<+T> = Ok(value: T) | Err(error: Error)

  const TWO32 := 0x1_0000_0000

  datatype Bpb = Bpb(
    bytesPerSector: nat, reservedSectors: nat, totalSectors: nat, fatSize: nat,
    rootCluster: nat, sectorsPerCluster: nat, numFats: nat)

  datatype Volume = Volume(bytes: seq<Byte>, bpb: Bpb)

  /** The fields fit their widths and a cluster is not empty. */
  predicate BpbOk(b: Bpb) {
    && 0 < b.bytesPerSector < 0x1_0000 && 0 < b.sectorsPerCluster < 0x100
    && b.reservedSectors < 0x1_0000 && b.numFats < 0x100
    && b.totalSectors < TWO32 && b.fatSize < TWO32 && b.rootCluster < TWO32
  }

  function ClusterSize(b: Bpb): nat {
    b.bytesPerSector * b.sectorsPerCluster
  }

  // ------------------------------------------------------------------ device

  /** device_io for reading. */
  function Fetch(bytes: seq<Byte>, bad: set<nat>, pos: nat, size: nat): (r: Result<seq<Byte>>)
    ensures r.Ok? ==> |r.value| == size && pos + size <= |bytes| && r.value == bytes[pos..pos + size]
    ensures bad == {} ==> (r.Ok? <==> pos + size <= |bytes|)
  {
    if pos + size > |bytes| then Err(IndexOutOfRange)
    else if exists x :: pos <= x < pos + size && x in bad then Err(IOError)
    else Ok(bytes[pos..pos + size])
  }

  /** The first sector of a cluster, in the source's 32-bit arithmetic. */
  function ClusterBegin(b: Bpb, cluster: nat): (s: nat) {
    var dataBegin := (b.reservedSectors + (b.fatSize * b.numFats) % TWO32) % TWO32;
    (dataBegin + ((cluster - 2) % TWO32) * b.sectorsPerCluster) % TWO32
  }

  /** copy_cluster for reading. */
  function CopyCluster(v: Volume, bad: set<nat>, cluster: nat, offset: nat, size: nat): (r: Result<seq<Byte>>)
    requires BpbOk(v.bpb)
    ensures r.Ok? ==> |r.value| == size
  {
    var begin := ClusterBegin(v.bpb, cluster);
    if (begin + size / v.bpb.bytesPerSector) % TWO32 >= v.bpb.totalSectors then Err(IndexOutOfRange)
    else Fetch(v.bytes, bad, (begin * v.bpb.bytesPerSector + offset) % TWO32, size)
  }

  function Word(s: seq<Byte>): nat
    requires |s| == 4
  {
    (s[0] as int) + 0x100 * (s[1] as int) + 0x1_0000 * (s[2] as int) + 0x100_0000 * (s[3] as int)
  }

  function ReadFatEntry(v: Volume, bad: set<nat>, cluster: nat): (r: Result<nat>)
    requires BpbOk(v.bpb)
    ensures r.Ok? ==> r.value < 0x1000_0000
  {
    var sector := v.bpb.reservedSectors + cluster * 4 / v.bpb.bytesPerSector;
    var offset := cluster * 4 % v.bpb.bytesPerSector;
    match Fetch(v.bytes, bad, sector * v.bpb.bytesPerSector + offset, 4)
    case Ok(data) => Ok(Word(data) % 0x1000_0000)
    case Err(e) => Err(e)
  }

  datatype EntryType = Free | Reserved | Used | Bad | Last

  function FatEntryType(entry: nat): EntryType {
    if entry == 0 then Free
    else if entry == 1 then Reserved
    else if entry == 0x0FFF_FFF7 then Bad
    else if 0x0FFF_FFF8 <= entry <= 0x0FFF_FFFF then Last
    else Used
  }

  function NextCluster(v: Volume, bad: set<nat>, cluster: nat): (r: Result<nat>)
    requires BpbOk(v.bpb)
    ensures r.Ok? ==> 2 <= r.value < 0x0FFF_FFF7
  {
    match ReadFatEntry(v, bad, cluster)
    case Err(e) => Err(e)
    case Ok(entry) =>
      match FatEntryType(entry)
      case Used => Ok(entry)
      case Last => Err(EndOfFile)
      case _ => Err(BrokenFATEntry)
  }

  // ------------------------------------------------------------------- chain

  /** The n-th cluster of the chain from `start`, on a device without faults. */
  function Chain(v: Volume, start: nat, n: nat): (r: Result<nat>)
    requires BpbOk(v.bpb)
  {
    if n == 0 then Ok(start)
    else
      match Chain(v, start, n - 1)
      case Err(e) => Err(e)
      case Ok(c) => NextCluster(v, {}, c)
  }

  /** A fault can only turn an answer into IOError. */
  lemma FaultsOnlyHide(v: Volume, bad: set<nat>, cluster: nat)
    requires BpbOk(v.bpb)
    ensures var r := NextCluster(v, bad, cluster);
            r == NextCluster(v, {}, cluster) || (r == Err(IOError) && bad != {})
  {
  }

  lemma {:induction false} ChainError(v: Volume, start: nat, n: nat, m: nat)
    requires BpbOk(v.bpb) && n <= m && Chain(v, start, n).Err?
    ensures Chain(v, start, m) == Chain(v, start, n)
    decreases m
  {
    if n < m {
      ChainError(v, start, n, m - 1);
    }
  }

  datatype HandleData = HandleData(cluster: nat, number: nat)

  /** The remembered position is what a walk from the start would reach. */
  predicate HandleOk(v: Volume, start: nat, h: HandleData)
    requires BpbOk(v.bpb)
  {
    Chain(v, start, h.number) == Ok(h.cluster)
  }

  /** seek_cluster_chain: resume from the remembered position, or start over when it is past the target. */
  method SeekClusterChain(v: Volume, bad: set<nat>, start: nat, h: HandleData, number: nat)
    returns (r: Result<HandleData>)
    requires BpbOk(v.bpb) && HandleOk(v, start, h)
    ensures r.Ok? ==> r.value.number == number && HandleOk(v, start, r.value)
    ensures r.Err? ==> (r.error == IOError && bad != {}) || Chain(v, start, number) == Err(r.error)
  {
    hide NextCluster;
    var cluster, current := h.cluster, h.number;
    if number < current {
      cluster, current := start, 0;
    }
    while current < number
      invariant current <= number && Chain(v, start, current) == Ok(cluster)
    {
      FaultsOnlyHide(v, bad, cluster);
      var next := NextCluster(v, bad, cluster);
      if next.Err? {
        if next == NextCluster(v, {}, cluster) {
          ChainError(v, start, current + 1, number);
        }
        return Err(next.error);
      }
      cluster := next.value;
      current := current + 1;
    }
    r := Ok(HandleData(cluster, current));
  }

  // ------------------------------------------------------------ file content

  /** The k-th cluster of a file's contents. */
  function Block(v: Volume, start: nat, k: nat): (r: Result<seq<Byte>>)
    requires BpbOk(v.bpb)
    ensures r.Ok? ==> |r.value| == ClusterSize(v.bpb)
  {
    match Chain(v, start, k)
    case Err(e) => Err(e)
    case Ok(c) => CopyCluster(v, {}, c, 0, ClusterSize(v.bpb))
  }

  /** The contents of `count` clusters from the k-th. */
  function Blocks(v: Volume, start: nat, k: nat, count: nat): (r: Result<seq<Byte>>)
    requires BpbOk(v.bpb)
    ensures r.Ok? ==> |r.value| == count * ClusterSize(v.bpb)
  {
    if count == 0 then Ok([])
    else
      match Blocks(v, start, k, count - 1)
      case Err(e) => Err(e)
      case Ok(s) =>
        match Block(v, start, k + count - 1)
        case Err(e) => Err(e)
        case Ok(t) =>
          assert count * ClusterSize(v.bpb) == (count - 1) * ClusterSize(v.bpb) + ClusterSize(v.bpb);
          Ok(s + t)
  }

  lemma {:induction false} BlocksError(v: Volume, start: nat, k: nat, n: nat, count: nat)
    requires BpbOk(v.bpb) && n <= count && Blocks(v, start, k, n).Err?
    ensures Blocks(v, start, k, count) == Blocks(v, start, k, n)
    decreases count
  {
    if n < count {
      BlocksError(v, start, k, n, count - 1);
    }
  }

  lemma CopyFaultsOnlyHide(v: Volume, bad: set<nat>, cluster: nat, offset: nat, size: nat)
    requires BpbOk(v.bpb)
    ensures var r := CopyCluster(v, bad, cluster, offset, size);
            r == CopyCluster(v, {}, cluster, offset, size) || (r == Err(IOError) && bad != {})
  {
  }

  /**
   The driver's read.  Whatever the handle was used for before, a successful
   read returns the clusters along the chain; a failed one leaves the handle.
   */
  method Read(v: Volume, bad: set<nat>, start: nat, h: HandleData, block: nat, count: nat)
    returns (r: Result<seq<Byte>>, h': HandleData)
    requires BpbOk(v.bpb) && HandleOk(v, start, h)
    ensures HandleOk(v, start, h')
    ensures r.Ok? && count > 0 ==> h'.number == block + count - 1
    ensures r.Err? ==> h' == h
    ensures r == Blocks(v, start, block, count) || (r == Err(IOError) && bad != {})
  {
    hide CopyCluster, ClusterSize, Chain;
    var handle := h;
    var buffer := [];
    var i := 0;
    while i < count
      invariant i <= count && HandleOk(v, start, handle)
      invariant Blocks(v, start, block, i) == Ok(buffer)
      invariant i > 0 ==> handle.number == block + i - 1
      invariant i == 0 ==> handle == h
    {
      var seek := SeekClusterChain(v, bad, start, handle, block + i);
      if seek.Err? {
        if Chain(v, start, block + i) == Err(seek.error) {
          BlocksError(v, start, block, i + 1, count);
        }
        return Err(seek.error), h;
      }
      handle := seek.value;
      CopyFaultsOnlyHide(v, bad, handle.cluster, 0, ClusterSize(v.bpb));
      var data := CopyCluster(v, bad, handle.cluster, 0, ClusterSize(v.bpb));
      if data.Err? {
        if data == CopyCluster(v, {}, handle.cluster, 0, ClusterSize(v.bpb)) {
          BlocksError(v, start, block, i + 1, count);
        }
        return Err(data.error), h;
      }
      buffer := buffer + data.value;
      i := i + 1;
    }
    return Ok(buffer), handle;
  }
}
