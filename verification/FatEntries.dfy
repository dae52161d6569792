/**
 Short directory entries (section 6 "Directory Structure" of the Microsoft FAT
 specification): an entry is written field by field to the specified layout, and
 reading the directory gives the fields back.
 */
module FatEntries {
  import opened Collections
  import opened Fat
  import opened FatDirectory
  import opened FatLayout
  import opened FatNames

  const SPACE: Byte := 0x20

  function Spaced(s: seq<Byte>, n: nat): (r: seq<Byte>)
    requires |s| <= n
    ensures |r| == n
  {
    s + seq(n - |s|, _ => SPACE)
  }

  /** A file's fields; `other` is what the layout has for times and the like. */
  datatype File = File(base: seq<Byte>, ext: seq<Byte>, attr: Byte, cluster: nat, size: nat, other: seq<Byte>)

  predicate FileOk(f: File) {
    && 0 < |f.base| <= 8 && |f.ext| <= 3 && SPACE !in f.base && SPACE !in f.ext && f.base[0] != 0 && f.base[0] != 0xE5
    && f.cluster < TWO32 && f.size < TWO32 && |f.other| == 12
  }

  /** "base", or "base.ext". */
  function FileName(f: File): seq<Byte> { if f.ext == [] then f.base else f.base + [0x2E] + f.ext }

  /** Name 0-10, attribute 11, upper half of the cluster 20-21, lower half 26-27, size 28-31. */
  function ShortEntry(f: File): Entry
    requires FileOk(f)
  {
    Spaced(f.base, 8) + Spaced(f.ext, 3) + [f.attr] + f.other[..8]
    + LittleEndian(f.cluster)[2..] + f.other[8..] + LittleEndian(f.cluster)[..2] + LittleEndian(f.size)
  }

  lemma Fields(f: File)
    requires FileOk(f)
    ensures var e := ShortEntry(f);
            && e[..8] == Spaced(f.base, 8) && e[8..11] == Spaced(f.ext, 3) && e[11] == f.attr
            && e[20] == LittleEndian(f.cluster)[2] && e[21] == LittleEndian(f.cluster)[3]
            && e[26] == LittleEndian(f.cluster)[0] && e[27] == LittleEndian(f.cluster)[1]
            && e[28..32] == LittleEndian(f.size)
  {
    hide LittleEndian, Spaced;
  }

  lemma {:induction false} UntilSpaceReads(s: seq<Byte>, t: seq<Byte>)
    requires SPACE !in s && (t == [] || t[0] == SPACE)
    ensures UntilSpace(s + t) == s
  {
    if s == [] {
      assert s + t == t;
    } else {
      assert (s + t)[1..] == s[1..] + t;
      UntilSpaceReads(s[1..], t);
    }
  }

  lemma ShortTextReads(f: File)
    requires FileOk(f)
    ensures ShortText(ShortEntry(f)) == FileName(f)
  {
    Fields(f);
    hide ShortEntry, LittleEndian;
    UntilSpaceReads(f.base, seq(8 - |f.base|, _ => SPACE));
    UntilSpaceReads(f.ext, seq(3 - |f.ext|, _ => SPACE));
  }

  lemma ClusterReads(f: File)
    requires FileOk(f)
    ensures var e := ShortEntry(f); 0x1_0000 * Half(e[20], e[21]) + Half(e[26], e[27]) == f.cluster
  {
    Fields(f);
    WordReads(f.cluster);
    hide ShortEntry, LittleEndian;
  }

  /** What a stored entry says, when its checksum is not mistaken for a long name's. */
  lemma InfoReads(f: File, sum: nat, lfn: seq<nat>)
    requires FileOk(f)
    ensures var e := ShortEntry(f);
            InfoOf(e, sum, lfn) ==
            Info(f.cluster, f.size, if sum == ChecksumFrom(e[..11], 0) then Narrow(lfn) else FileName(f), f.attr)
  {
    Fields(f);
    ShortTextReads(f);
    ClusterReads(f);
    WordReads(f.size);
    hide ShortEntry, LittleEndian, ShortText, ChecksumFrom, Half, Word;
  }

  /** A stored file is listed as one exactly when none of the read-only, hidden, system and volume bits is set. */
  lemma ListedExactly(f: File)
    requires FileOk(f)
    ensures KindOf(ShortEntry(f)) == (if f.attr as int % 16 == 0 then Short else Long)
  {
    Fields(f);
    assert ShortEntry(f)[..8][0] == f.base[0];
    hide ShortEntry;
  }

  // -------------------------------------------------------------- round trips

  /** No long-name entry stands between the entry before the target and slot `d`. */
  ghost predicate NoLongName(v: Volume, start: nat, d: nat)
    requires DirOk(v)
  {
    forall i | 0 <= i < d && Count(v, start, i) == Count(v, start, d) && Slot(v, start, i).Ok? ::
      KindOf(Slot(v, start, i).value) != Long
  }

  lemma {:induction false} ScanPlain(v: Volume, start: nat, limit: nat, d: nat, k: nat)
    requires DirOk(v) && Ends(v, start, limit) && k <= d <= limit && NoLongName(v, start, d)
    requires forall i | 0 <= i < d :: !Terminal(v, start, i)
    ensures Scan(v, start, limit, k, Count(v, start, k), Count(v, start, d), 0, []) ==
            Scan(v, start, limit, d, Count(v, start, d), Count(v, start, d), 0, [])
    decreases d - k
  {
    hide Slot, InfoOf, Finish, LongChars, UntilNul;
    if k < d {
      assert !Terminal(v, start, k);
      CountStep(v, start, k + 1, d);
      CountStep(v, start, k, d);
      ScanPlain(v, start, limit, d, k + 1);
    }
  }

  /** The answer, or why the cluster after slot `d` could not be found. */
  ghost predicate Reports(v: Volume, start: nat, limit: nat, d: nat, target: nat, info: Info)
    requires DirOk(v) && Ends(v, start, limit)
  {
    var r := Fresh(v, start, limit, target);
    r == Ok(info) || var next := Chain(v, start, ClusterOf(v, d + 1)); next.Err? && r == Err(next.error)
  }

  /**
   Round trip: a file stored in slot `d` without a long name is reported with its
   cluster, size and attribute; and with its name exactly when the name's checksum is
   not 0, which the reader takes for that of an empty long name.
   */
  lemma ShortEntryRoundTrip(v: Volume, start: nat, limit: nat, d: nat, f: File)
    requires DirOk(v) && Ends(v, start, limit) && d <= limit && start != EOF_CLUSTER && FileOk(f)
    requires (forall i | 0 <= i < d :: !Terminal(v, start, i)) && NoLongName(v, start, d)
    requires Slot(v, start, d) == Ok(ShortEntry(f)) && f.attr as int % 16 == 0
    ensures var name := if ChecksumFrom(ShortEntry(f)[..11], 0) != 0 then FileName(f) else [];
            Reports(v, start, limit, d, Count(v, start, d), Info(f.cluster, f.size, name, f.attr))
  {
    hide Slot, KindOf, ChecksumFrom, ClusterOf, LastInCluster, Chain, Scan, ShortEntry, NoLongName;
    ListedExactly(f);
    InfoReads(f, 0, []);
    ScanPlain(v, start, limit, d, 0);
    LastStep(v, start, limit, d, Count(v, start, d), ShortEntry(f), 0, []);
    assert Narrow([]) == [];
  }

  /** The same with a long name in front of it: that name is reported, with the entry's cluster, size and attribute. */
  lemma LongNamedRoundTrip(v: Volume, start: nat, limit: nat, d: nat, name: seq<nat>, f: File)
    requires DirOk(v) && Ends(v, start, limit) && LongName(name) && d <= limit && start != EOF_CLUSTER && FileOk(f)
    requires (forall i | 0 <= i < d :: !Terminal(v, start, i)) && (d > 0 ==> IsShort(v, start, d - 1))
    requires Stored(v, start, d, name, PieceCount(name), ShortEntry(f)) && f.attr as int % 16 == 0
    ensures Reports(v, start, limit, d + PieceCount(name), Count(v, start, d),
                Info(f.cluster, f.size, Narrow(name), f.attr))
  {
    hide Slot, KindOf, IsShort, ChecksumFrom, ClusterOf, LastInCluster, Chain, Scan, Stored, ShortEntry, Fresh;
    LongNameRoundTrip(v, start, limit, d, name, ShortEntry(f));
    InfoReads(f, ChecksumFrom(ShortEntry(f)[..11], 0), name);
  }

  /** KERNEL.AA8: a name whose checksum is 0. */
  const NAMELESS := File([0x4B, 0x45, 0x52, 0x4E, 0x45, 0x4C], [0x41, 0x41, 0x38], 0, 5, 0, seq(12, _ => 0))

  lemma NamelessIsReported(v: Volume, start: nat, limit: nat, d: nat)
    requires DirOk(v) && Ends(v, start, limit) && d <= limit && start != EOF_CLUSTER
    requires (forall i | 0 <= i < d :: !Terminal(v, start, i)) && NoLongName(v, start, d)
    requires FileOk(NAMELESS) && Slot(v, start, d) == Ok(ShortEntry(NAMELESS))
    ensures Reports(v, start, limit, d, Count(v, start, d), Info(5, 0, [], 0))
  {
    ZeroChecksum();
    hide Slot, ChecksumFrom, ShortEntry, NoLongName, Reports, Ends, DirOk, Terminal;
    ShortEntryRoundTrip(v, start, limit, d, NAMELESS);
  }

  /** One character's turn of the checksum. */
  lemma Turn(n: seq<Byte>, i: nat, sum: nat, next: nat)
    requires i < |n| && next == (sum / 2 + sum * 128 + n[i] as int) % 256
    ensures ChecksumFrom(n[i..], sum) == ChecksumFrom(n[i + 1..], next)
  {
    assert n[i..][1..] == n[i + 1..];
  }

  lemma ZeroChecksum()
    ensures FileOk(NAMELESS) && ChecksumFrom(ShortEntry(NAMELESS)[..11], 0) == 0
  {
    hide ChecksumFrom, ShortEntry, FileOk;
    var n: seq<Byte> := [0x4B, 0x45, 0x52, 0x4E, 0x45, 0x4C, 0x20, 0x20, 0x41, 0x41, 0x38];
    NamelessName(n);
    ZeroSum(n);
  }

  lemma ZeroSum(n: seq<Byte>)
    requires |n| == 11 && n[0] == 0x4B && n[1] == 0x45 && n[2] == 0x52 && n[3] == 0x4E && n[4] == 0x45 && n[5] == 0x4C
    requires n[6] == 0x20 && n[7] == 0x20 && n[8] == 0x41 && n[9] == 0x41 && n[10] == 0x38
    ensures ChecksumFrom(n, 0) == 0
  {
    hide ChecksumFrom;
    assert n[0..] == n && n[11..] == [];
    Turn(n, 0, 0, 75); Turn(n, 1, 75, 234); Turn(n, 2, 234, 199); Turn(n, 3, 199, 49);
    Turn(n, 4, 49, 221); Turn(n, 5, 221, 58); Turn(n, 6, 58, 61); Turn(n, 7, 61, 190);
    Turn(n, 8, 190, 160); Turn(n, 9, 160, 145); Turn(n, 10, 145, 0);
    NothingLeft(0);
  }

  lemma NothingLeft(sum: nat)
    ensures ChecksumFrom([], sum) == sum
  {
  }

  lemma NamelessName(n: seq<Byte>)
    requires n == [0x4B, 0x45, 0x52, 0x4E, 0x45, 0x4C, 0x20, 0x20, 0x41, 0x41, 0x38]
    ensures FileOk(NAMELESS) && ShortEntry(NAMELESS)[..11] == n
  {
    Fields(NAMELESS);
    assert ShortEntry(NAMELESS)[..11] == ShortEntry(NAMELESS)[..8] + ShortEntry(NAMELESS)[8..11];
    hide ShortEntry;
    assert Spaced(NAMELESS.base, 8) == n[..8] && Spaced(NAMELESS.ext, 3) == n[8..];
  }
}
