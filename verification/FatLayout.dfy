/**
 Where things lie on a FAT32 volume (sections 3.5 and 4 of the Microsoft FAT
 specification): the table of clusters, and the clusters themselves, as places in
 the volume's bytes.  Stated for clusters inside a volume of at most 4 GiB, where
 the driver's 32-bit sector arithmetic does not wrap.
 */
module FatLayout {
  import opened Collections
  import opened Fat

  function VolumeSize(b: Bpb): nat { b.totalSectors * b.bytesPerSector }

  /** The reserved sectors and the copies of the table come first. */
  function DataStart(b: Bpb): nat { (b.reservedSectors + b.fatSize * b.numFats) * b.bytesPerSector }

  /** Clusters are numbered from 2 and follow one another. */
  function ClusterStart(b: Bpb, cluster: nat): nat
    requires cluster >= 2
  {
    DataStart(b) + (cluster - 2) * ClusterSize(b)
  }

  ghost predicate InVolume(b: Bpb, cluster: nat) {
    && BpbOk(b) && cluster >= 2 && VolumeSize(b) <= TWO32
    && ClusterStart(b, cluster) + ClusterSize(b) <= VolumeSize(b)
  }

  /** The first one begins with the data, and each begins where the one before it ends. */
  lemma ClustersFollow(b: Bpb, cluster: nat)
    requires cluster >= 2
    ensures ClusterStart(b, 2) == DataStart(b)
    ensures ClusterStart(b, cluster + 1) == ClusterStart(b, cluster) + ClusterSize(b)
  {
    hide DataStart, ClusterSize;
    assert (cluster + 1 - 2) * ClusterSize(b) == (cluster - 2) * ClusterSize(b) + ClusterSize(b);
  }

  lemma {:induction false} LaterClusters(b: Bpb, c: nat, d: nat)
    requires 2 <= c < d
    ensures ClusterStart(b, c) + ClusterSize(b) <= ClusterStart(b, d)
    decreases d
  {
    hide DataStart, ClusterSize, ClusterStart;
    ClustersFollow(b, d - 1);
    if c < d - 1 { LaterClusters(b, c, d - 1); }
  }

  /** Different clusters share no byte. */
  lemma ClustersApart(b: Bpb, c: nat, d: nat, i: nat, j: nat)
    requires c >= 2 && d >= 2 && i < ClusterSize(b) && j < ClusterSize(b)
    ensures ClusterStart(b, c) + i == ClusterStart(b, d) + j <==> c == d && i == j
  {
    hide DataStart, ClusterSize, ClusterStart;
    if c < d { LaterClusters(b, c, d); }
    if d < c { LaterClusters(b, d, c); }
  }

  /** The driver's first sector, in bytes. */
  lemma BeginIsStart(b: Bpb, cluster: nat)
    requires InVolume(b, cluster)
    ensures ClusterBegin(b, cluster) * b.bytesPerSector == ClusterStart(b, cluster)
    ensures ClusterBegin(b, cluster) + b.sectorsPerCluster <= b.totalSectors
  {
    var fats, head, k := b.fatSize * b.numFats, b.reservedSectors + b.fatSize * b.numFats, cluster - 2;
    var begin := head + k * b.sectorsPerCluster;
    assert k * b.sectorsPerCluster * b.bytesPerSector == k * ClusterSize(b) by {
      Regroup(k, b.sectorsPerCluster, b.bytesPerSector);
    }
    assert begin * b.bytesPerSector == head * b.bytesPerSector + k * b.sectorsPerCluster * b.bytesPerSector;
    assert (begin + b.sectorsPerCluster) * b.bytesPerSector <= b.totalSectors * b.bytesPerSector by {
      assert (begin + b.sectorsPerCluster) * b.bytesPerSector == begin * b.bytesPerSector + ClusterSize(b);
    }
    MulOrder(begin + b.sectorsPerCluster, b.totalSectors, b.bytesPerSector);
    NoWrap(fats, head, k, b.sectorsPerCluster, begin);
  }

  lemma Regroup(k: nat, a: nat, b: nat)
    ensures k * a * b == k * (b * a)
  {
  }

  lemma NoWrap(fats: nat, head: nat, k: nat, per: nat, begin: nat)
    requires fats <= head && begin == head + k * per && begin < TWO32 && per > 0
    ensures fats % TWO32 == fats && head % TWO32 == head && k % TWO32 == k
    ensures (head + (k % TWO32) * per) % TWO32 == begin
  {
    assert k <= k * per;
  }

  /**
   copy_cluster reads the volume's bytes at the cluster's place.  It refuses a copy
   that, in whole sectors from the cluster's beginning, reaches the volume's end.
   */
  lemma CopyReadsItsPlace(v: Volume, bad: set<nat>, cluster: nat, offset: nat, size: nat)
    requires InVolume(v.bpb, cluster) && offset < ClusterSize(v.bpb) && offset + size <= ClusterSize(v.bpb)
    ensures CopyCluster(v, bad, cluster, offset, size) ==
            if ClusterStart(v.bpb, cluster) + size / v.bpb.bytesPerSector * v.bpb.bytesPerSector >= VolumeSize(v.bpb)
            then Err(IndexOutOfRange)
            else Fetch(v.bytes, bad, ClusterStart(v.bpb, cluster) + offset, size)
  {
    hide ClusterBegin, ClusterStart, Fetch, InVolume, VolumeSize, ClusterSize, BpbOk, TWO32;
    var b := v.bpb;
    InVolumeBounds(b, cluster);
    BeginIsStart(b, cluster);
    Sectors(ClusterBegin(b, cluster), size, b);
    Unwrapped(ClusterStart(b, cluster) + offset);
  }

  lemma Unwrapped(x: nat)
    ensures x < TWO32 ==> x % TWO32 == x
  {
  }

  lemma InVolumeBounds(b: Bpb, cluster: nat)
    requires InVolume(b, cluster)
    ensures BpbOk(b) && cluster >= 2 && ClusterStart(b, cluster) + ClusterSize(b) <= VolumeSize(b) <= TWO32
  {
  }

  /** The driver's test in sectors, as one in bytes. */
  lemma Sectors(begin: nat, size: nat, b: Bpb)
    requires BpbOk(b) && begin + b.sectorsPerCluster <= b.totalSectors && size <= ClusterSize(b)
    ensures (begin + size / b.bytesPerSector) % TWO32 >= b.totalSectors <==>
            begin * b.bytesPerSector + size / b.bytesPerSector * b.bytesPerSector >= VolumeSize(b)
  {
    var n := size / b.bytesPerSector;
    SectorsIn(size, b.bytesPerSector, b.sectorsPerCluster);
    MulOrder(b.totalSectors, begin + n, b.bytesPerSector);
    assert (begin + n) * b.bytesPerSector == begin * b.bytesPerSector + n * b.bytesPerSector;
  }

  lemma SectorsIn(size: nat, bps: nat, spc: nat)
    requires bps > 0 && size <= bps * spc
    ensures size / bps <= spc
  {
    assert size / bps * bps <= size;
    MulOrder(size / bps, spc, bps);
  }

  /** A cluster of a file, read whole, is the volume's slice at its place. */
  lemma BlockIsSlice(v: Volume, start: nat, k: nat, cluster: nat)
    requires BpbOk(v.bpb) && Chain(v, start, k) == Ok(cluster) && InVolume(v.bpb, cluster)
    ensures var at, size := ClusterStart(v.bpb, cluster), ClusterSize(v.bpb);
            && (Block(v, start, k).Ok? ==> at + size <= |v.bytes| && Block(v, start, k).value == v.bytes[at..at + size])
            && (Block(v, start, k).Ok? <==> at + size < VolumeSize(v.bpb) && at + size <= |v.bytes|)
  {
    var b := v.bpb;
    hide ClusterStart, Chain, CopyCluster;
    assert ClusterSize(b) > 0;
    DivMod(ClusterSize(b), b.bytesPerSector, b.sectorsPerCluster, 0);
    CopyReadsItsPlace(v, {}, cluster, 0, ClusterSize(b));
  }

  /** The last cluster of a volume, when it reaches the volume's end, is never read whole. */
  lemma LastClusterIsRefused(v: Volume, start: nat, k: nat, cluster: nat)
    requires BpbOk(v.bpb) && Chain(v, start, k) == Ok(cluster) && InVolume(v.bpb, cluster)
    requires ClusterStart(v.bpb, cluster) + ClusterSize(v.bpb) == VolumeSize(v.bpb)
    ensures Block(v, start, k) == Err(IndexOutOfRange)
  {
    var b := v.bpb;
    hide ClusterStart, Chain, CopyCluster, InVolume, VolumeSize;
    assert ClusterSize(b) > 0;
    DivMod(ClusterSize(b), b.bytesPerSector, b.sectorsPerCluster, 0);
    CopyReadsItsPlace(v, {}, cluster, 0, ClusterSize(b));
  }

  // ---------------------------------------------------------------- the table

  /** Where the table has the entry of a cluster. */
  function EntryStart(b: Bpb, cluster: nat): nat { b.reservedSectors * b.bytesPerSector + 4 * cluster }

  /** A number as the table stores it: four bytes, the lowest first. */
  function LittleEndian(n: nat): (r: seq<Byte>)
    ensures |r| == 4
  {
    [n % 0x100, n / 0x100 % 0x100, n / 0x1_0000 % 0x100, n / 0x100_0000 % 0x100]
  }

  lemma WordReads(n: nat)
    requires n < TWO32
    ensures Word(LittleEndian(n)) == n
  {
    var a := n / 0x100;
    var b := a / 0x100;
    assert n / 0x1_0000 == b && n / 0x100_0000 == b / 0x100;
    assert n == 0x100 * a + n % 0x100 && a == 0x100 * b + a % 0x100;
    assert b == 0x100 * (b / 0x100) + b % 0x100 && b / 0x100 < 0x100;
  }

  /** The entry is read at its place, whichever sector that is in; the upper four bits do not count. */
  lemma EntryReads(v: Volume, bad: set<nat>, cluster: nat)
    requires BpbOk(v.bpb)
    ensures ReadFatEntry(v, bad, cluster) ==
            match Fetch(v.bytes, bad, EntryStart(v.bpb, cluster), 4)
            case Ok(data) => Ok(Word(data) % 0x1000_0000)
            case Err(e) => Err(e)
  {
    var bps := v.bpb.bytesPerSector;
    var q, r := 4 * cluster / bps, 4 * cluster % bps;
    assert 4 * cluster == q * bps + r;
    assert (v.bpb.reservedSectors + q) * bps + r == v.bpb.reservedSectors * bps + 4 * cluster;
    hide Fetch, Word;
    assert cluster * 4 == 4 * cluster;
  }

  /**
   What a stored entry means for the chain: numbers from 2 to 0x0FFFFFF6 are the next
   cluster, from 0x0FFFFFF8 on the end, and all others are broken.
   */
  lemma StoredEntryLeads(v: Volume, cluster: nat, n: nat)
    requires BpbOk(v.bpb) && n < TWO32 && EntryStart(v.bpb, cluster) + 4 <= |v.bytes|
    requires v.bytes[EntryStart(v.bpb, cluster)..EntryStart(v.bpb, cluster) + 4] == LittleEndian(n)
    ensures var low := n % 0x1000_0000;
            NextCluster(v, {}, cluster) ==
            if 2 <= low < 0x0FFF_FFF7 then Ok(low)
            else if low >= 0x0FFF_FFF8 then Err(EndOfFile)
            else Err(BrokenFATEntry)
  {
    hide ReadFatEntry, LittleEndian, Word;
    EntryReads(v, {}, cluster);
    WordReads(n);
  }

  /** The clusters `cs` are chained in the table and the last one is marked as such. */
  ghost predicate ChainStored(v: Volume, cs: seq<nat>) {
    && cs != [] && BpbOk(v.bpb)
    && forall k | 0 <= k < |cs| ::
         && 2 <= cs[k] < 0x0FFF_FFF7 && EntryStart(v.bpb, cs[k]) + 4 <= |v.bytes|
         && v.bytes[EntryStart(v.bpb, cs[k])..EntryStart(v.bpb, cs[k]) + 4] ==
            LittleEndian(if k + 1 < |cs| then cs[k + 1] else 0x0FFF_FFFF)
  }

  lemma {:induction false} StoredChainReads(v: Volume, cs: seq<nat>, k: nat)
    requires ChainStored(v, cs)
    ensures Chain(v, cs[0], k) == if k < |cs| then Ok(cs[k]) else Err(EndOfFile)
  {
    hide LittleEndian, NextCluster;
    if 0 < k <= |cs| {
      StoredChainReads(v, cs, k - 1);
      StoredEntryLeads(v, cs[k - 1], if k < |cs| then cs[k] else 0x0FFF_FFFF);
    } else if k > |cs| {
      StoredChainReads(v, cs, k - 1);
    }
  }

  /** Every cluster of `cs` lies on the volume, and none is its very last. */
  ghost predicate Lie(v: Volume, cs: seq<nat>) {
    forall k | 0 <= k < |cs| ::
      && InVolume(v.bpb, cs[k]) && ClusterStart(v.bpb, cs[k]) + ClusterSize(v.bpb) <= |v.bytes|
      && ClusterStart(v.bpb, cs[k]) + ClusterSize(v.bpb) < VolumeSize(v.bpb)
  }

  /** What a file stored in the clusters `cs` holds: their bytes, one after another. */
  ghost function Contents(v: Volume, cs: seq<nat>): seq<Byte>
    requires Lie(v, cs)
  {
    if cs == [] then []
    else
      var n := |cs| - 1;
      var at := ClusterStart(v.bpb, cs[n]);
      Contents(v, cs[..n]) + v.bytes[at..at + ClusterSize(v.bpb)]
  }

  /** A stored file reads back: any blocks of it are the bytes of its clusters. */
  lemma {:induction false} StoredFileReads(v: Volume, cs: seq<nat>, k: nat, count: nat)
    requires ChainStored(v, cs) && Lie(v, cs) && k + count <= |cs|
    ensures Blocks(v, cs[0], k, count) == Ok(Contents(v, cs[k..k + count]))
    decreases count
  {
    hide ChainStored, InVolume, Block, ClusterStart;
    if count > 0 {
      var last := k + count - 1;
      StoredFileReads(v, cs, k, count - 1);
      StoredBlock(v, cs, last);
      assert cs[k..k + count][..count - 1] == cs[k..last] && cs[k..k + count][count - 1] == cs[last];
    }
  }

  lemma StoredBlock(v: Volume, cs: seq<nat>, k: nat)
    requires ChainStored(v, cs) && Lie(v, cs) && k < |cs|
    ensures cs[k] >= 2 && ClusterStart(v.bpb, cs[k]) + ClusterSize(v.bpb) <= |v.bytes|
    ensures Block(v, cs[0], k) ==
            Ok(v.bytes[ClusterStart(v.bpb, cs[k])..ClusterStart(v.bpb, cs[k]) + ClusterSize(v.bpb)])
  {
    hide Block, ClusterStart, VolumeSize, ClusterSize;
    StoredChainReads(v, cs, k);
    BlockIsSlice(v, cs[0], k, cs[k]);
  }
}
