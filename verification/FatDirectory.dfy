/**
 Directory reading (section 6 "Directory Structure" and section 7 "Long File
 Name" of the Microsoft FAT specification): a cursor remembered between calls
 gives what a scan from the start gives.
 */
module FatDirectory {
  import opened Collections
  import opened Fat

  const EOF_CLUSTER := 0x0FFF_FFF8

  type Entry = e: seq<Byte> | |e| == 32 witness seq(32, _ => 0)

  datatype Kind = Deleted | End | Long | Short

  /** As the driver classifies: any of the low four attribute bits makes a long-name entry. */
  function KindOf(e: Entry): Kind {
    if e[0] == 0xE5 then Deleted
    else if e[0] == 0 then End
    else if (e[11] as int) % 16 != 0 then Long
    else Short
  }

  // ------------------------------------------------------------------- names

  function Half(a: Byte, b: Byte): nat {
    (a as int) + 0x100 * (b as int)
  }

  /** The thirteen characters of a long-name entry, in its three fields. */
  function LongChars(e: Entry): (r: seq<nat>)
    ensures |r| == 13
  {
    [Half(e[1], e[2]), Half(e[3], e[4]), Half(e[5], e[6]), Half(e[7], e[8]), Half(e[9], e[10]),
     Half(e[14], e[15]), Half(e[16], e[17]), Half(e[18], e[19]),
     Half(e[20], e[21]), Half(e[22], e[23]), Half(e[24], e[25]),
     Half(e[28], e[29]), Half(e[30], e[31])]
  }

  function UntilNul(s: seq<nat>): (r: seq<nat>) {
    if s == [] || s[0] == 0 then [] else [s[0]] + UntilNul(s[1..])
  }

  /** LFNEntry::to_string. */
  method LongText(e: Entry) returns (r: seq<nat>)
    ensures r == UntilNul(LongChars(e))
  {
    r := [];
    var s := LongChars(e);
    var i := 0;
    while i < 13
      invariant 0 <= i <= 13
      invariant UntilNul(s) == r + UntilNul(s[i..])
    {
      assert s[i..][0] == s[i] && s[i..][1..] == s[i + 1..];
      if s[i] == 0 {
        return;
      }
      r := r + [s[i]];
      i := i + 1;
    }
  }

  function ChecksumFrom(name: seq<Byte>, sum: nat): nat
    decreases |name|
  {
    if name == [] then sum else ChecksumFrom(name[1..], (sum / 2 + sum * 128 + name[0] as int) % 256)
  }

  /** DirectoryEntry::calc_checksum: rotate right, add the next character, in eight bits. */
  method CalcChecksum(e: Entry) returns (sum: nat)
    ensures sum == ChecksumFrom(e[..11], 0)
  {
    sum := 0;
    var i := 0;
    while i < 11
      invariant 0 <= i <= 11
      invariant ChecksumFrom(e[..11], 0) == ChecksumFrom(e[i..11], sum)
    {
      assert e[i..11][0] == e[i] && e[i..11][1..] == e[i + 1..11];
      sum := (sum / 2 + sum * 128 + e[i] as int) % 256;
      i := i + 1;
    }
  }

  function UntilSpace(s: seq<Byte>): (r: seq<Byte>) {
    if s == [] || s[0] == 0x20 then [] else [s[0]] + UntilSpace(s[1..])
  }

  /** DirectoryEntry::to_string. */
  function ShortText(e: Entry): seq<Byte> {
    var base := UntilSpace(e[..8]);
    var ext := UntilSpace(e[8..11]);
    if ext == [] then base else base + [0x2E] + ext
  }

  /** u16tou8 keeps the low byte of each character. */
  function Narrow(s: seq<nat>): (r: seq<Byte>)
    ensures |r| == |s| && forall i | 0 <= i < |s| :: r[i] == s[i] % 256
  {
    seq(|s|, i requires 0 <= i < |s| => s[i] % 256)
  }

  datatype Info = Info(cluster: nat, size: nat, name: seq<Byte>, attr: nat)

  function InfoOf(e: Entry, sum: nat, lfn: seq<nat>): Info {
    Info(
      0x1_0000 * Half(e[20], e[21]) + Half(e[26], e[27]),
      Word(e[28..32]),
      if sum == ChecksumFrom(e[..11], 0) then Narrow(lfn) else ShortText(e),
      e[11] as int)
  }

  // ------------------------------------------------------------------- slots

  predicate DirOk(v: Volume) {
    BpbOk(v.bpb) && ClusterSize(v.bpb) % 32 == 0 && ClusterSize(v.bpb) > 0
  }

  function PerCluster(v: Volume): (n: nat)
    requires DirOk(v)
    ensures n > 0
  {
    ClusterSize(v.bpb) / 32
  }

  function ClusterOf(v: Volume, d: nat): nat
    requires DirOk(v)
  {
    d / PerCluster(v)
  }

  predicate LastInCluster(v: Volume, d: nat)
    requires DirOk(v)
  {
    (d + 1) % PerCluster(v) == 0
  }

  /** The d-th 32-byte slot of the directory. */
  function Slot(v: Volume, start: nat, d: nat): (r: Result<seq<Byte>>)
    requires DirOk(v)
    ensures r.Ok? ==> |r.value| == 32
  {
    match Chain(v, start, ClusterOf(v, d))
    case Err(e) => Err(e)
    case Ok(c) => CopyCluster(v, {}, c, d * 32 % ClusterSize(v.bpb), 32)
  }

  predicate Terminal(v: Volume, start: nat, d: nat)
    requires DirOk(v)
  {
    var s := Slot(v, start, d);
    s.Err? || KindOf(s.value) == End
  }

  predicate IsShort(v: Volume, start: nat, d: nat)
    requires DirOk(v)
  {
    var s := Slot(v, start, d);
    s.Ok? && KindOf(s.value) == Short
  }

  /** The directory has an end at or before slot `limit`; the driver counts slots in sixteen bits. */
  predicate Ends(v: Volume, start: nat, limit: nat)
    requires DirOk(v)
  {
    limit < 0x1_0000 && Terminal(v, start, limit)
  }

  /** What is reported when the wanted entry is in slot `d`: the next cluster is looked up first. */
  function Finish(v: Volume, start: nat, d: nat, info: Info): Result<Info>
    requires DirOk(v)
  {
    if !LastInCluster(v, d) then Ok(info)
    else
      match Chain(v, start, ClusterOf(v, d + 1))
      case Err(e) => if e == EndOfFile then Ok(info) else Err(e)
      case Ok(_) => Ok(info)
  }

  /** What one slot means to a scan for entry `target`. */
  datatype Look = Stop(error: Error) | More(index: nat, sum: nat, lfn: seq<nat>) | Hit(info: Info)

  function Examine(e: Entry, index: nat, target: nat, sum: nat, lfn: seq<nat>): Look {
    match KindOf(e)
    case End => Stop(EndOfFile)
    case Deleted => More(index, sum, lfn)
    case Long =>
      if index != target then More(index, sum, lfn)
      else if e[0] / 64 % 2 == 1 then More(index, e[13], UntilNul(LongChars(e)) + lfn)
      else if e[13] != sum then Stop(BadChecksum)
      else More(index, sum, UntilNul(LongChars(e)) + lfn)
    case Short =>
      if index != target then More(index + 1, sum, lfn) else Hit(InfoOf(e, sum, lfn))
  }

  /** The scan for entry `target` from slot `d`, `index` entries having been counted. */
  function Scan(v: Volume, start: nat, limit: nat, d: nat, index: nat, target: nat,
                sum: nat, lfn: seq<nat>): Result<Info>
    requires DirOk(v) && Ends(v, start, limit) && d <= limit
    decreases limit - d
  {
    var s := Slot(v, start, d);
    if s.Err? then Err(s.error)
    else
      match Examine(s.value, index, target, sum, lfn)
      case Stop(e) => Err(e)
      case Hit(info) => Finish(v, start, d, info)
      case More(i, c, l) => if d == limit then Err(EndOfFile) else Scan(v, start, limit, d + 1, i, target, c, l)
  }

  /** readdir on a fresh handle. */
  function Fresh(v: Volume, start: nat, limit: nat, target: nat): Result<Info>
    requires DirOk(v) && Ends(v, start, limit)
  {
    if start == EOF_CLUSTER then Err(EndOfFile) else Scan(v, start, limit, 0, 0, target, 0, [])
  }

  /** Counted entries before slot `d`. */
  function Count(v: Volume, start: nat, d: nat): (n: nat)
    requires DirOk(v)
    ensures n <= d
  {
    if d == 0 then 0
    else Count(v, start, d - 1) + if IsShort(v, start, d - 1) then 1 else 0
  }

  // ------------------------------------------------------------------ cursor

  datatype Cursor = Cursor(cluster: nat, index: nat, dentry: nat)

  /** A cursor as a successful readdir leaves it: just after a counted entry, or at the start. */
  predicate CursorOk(v: Volume, start: nat, c: Cursor)
    requires DirOk(v)
  {
    && (forall k | 0 <= k < c.dentry :: !Terminal(v, start, k))
    && c.index == Count(v, start, c.dentry)
    && (c.dentry > 0 ==> IsShort(v, start, c.dentry - 1))
    && (c.dentry == 0 ==> c.cluster == start) && (start == EOF_CLUSTER ==> c.dentry == 0)
    && var next := Chain(v, start, ClusterOf(v, c.dentry));
       || next == Ok(c.cluster)
       || (next == Err(EndOfFile) && c.cluster == EOF_CLUSTER)
  }

  function FreshCursor(start: nat): Cursor {
    Cursor(start, 0, 0)
  }

  lemma {:induction false} CountStep(v: Volume, start: nat, k: nat, d: nat)
    requires DirOk(v) && k <= d
    ensures Count(v, start, k) <= Count(v, start, d)
    decreases d
  {
    hide Slot, KindOf;
    if k < d {
      CountStep(v, start, k, d - 1);
    }
  }

  /** Before the cursor a scan for a later entry collects nothing. */
  lemma {:induction false} ScanSkips(v: Volume, start: nat, limit: nat, d: nat, target: nat, k: nat)
    requires DirOk(v) && Ends(v, start, limit) && k <= d <= limit
    requires forall i | 0 <= i < d :: !Terminal(v, start, i)
    requires d > 0 ==> Count(v, start, d - 1) < target
    ensures Scan(v, start, limit, k, Count(v, start, k), target, 0, []) ==
            Scan(v, start, limit, d, Count(v, start, d), target, 0, [])
    decreases d - k
  {
    hide Slot, InfoOf, Finish, LongChars, UntilNul;
    if k < d {
      assert !Terminal(v, start, k);
      CountStep(v, start, k, d - 1);
      ScanSkips(v, start, limit, d, target, k + 1);
    }
  }

  /** Resuming equals starting over, for every entry the cursor has not passed. */
  lemma ResumeIsFresh(v: Volume, start: nat, limit: nat, c: Cursor, target: nat)
    requires DirOk(v) && Ends(v, start, limit) && CursorOk(v, start, c) && c.index <= target && start != EOF_CLUSTER
    ensures c.dentry <= limit
    ensures Fresh(v, start, limit, target) == Scan(v, start, limit, c.dentry, c.index, target, 0, [])
  {
    hide Slot, KindOf, Scan, ClusterOf, Chain;
    assert Terminal(v, start, limit);
    ScanSkips(v, start, limit, c.dentry, target, 0);
  }

  // ----------------------------------------------------------------- readdir

  /** Where the scan stands: slot `d` is in `cluster` and nothing before it ended the directory. */
  ghost predicate At(v: Volume, start: nat, cluster: nat, index: nat, d: nat)
    requires DirOk(v)
  {
    && Chain(v, start, ClusterOf(v, d)) == Ok(cluster)
    && (forall k | 0 <= k < d :: !Terminal(v, start, k))
    && index == Count(v, start, d)
  }

  lemma NextCell(d: nat, n: nat)
    requires n > 0
    ensures (d + 1) % n == 0 ==> (d + 1) / n == d / n + 1
    ensures (d + 1) % n != 0 ==> (d + 1) / n == d / n
  {
    var q := d / n;
    assert d == q * n + d % n;
    if d % n == n - 1 {
      assert (q + 1) * n == q * n + n;
      DivMod(d + 1, n, q + 1, 0);
    } else {
      DivMod(d + 1, n, q, d % n + 1);
    }
  }

  lemma NextSlot(v: Volume, d: nat)
    requires DirOk(v)
    ensures ClusterOf(v, d + 1) == ClusterOf(v, d) + if LastInCluster(v, d) then 1 else 0
  {
    hide PerCluster;
    NextCell(d, PerCluster(v));
  }

  /** The cluster of the slot after `d`, as the driver finds it. */
  method Advance(v: Volume, bad: set<nat>, start: nat, cluster: nat, d: nat) returns (r: Result<nat>)
    requires DirOk(v) && Chain(v, start, ClusterOf(v, d)) == Ok(cluster)
    ensures r == Chain(v, start, ClusterOf(v, d + 1)) || (r == Err(IOError) && bad != {})
    ensures !LastInCluster(v, d) ==> r == Ok(cluster)
  {
    NextSlot(v, d);
    hide ClusterOf, NextCluster;
    if (d + 1) % PerCluster(v) != 0 {
      return Ok(cluster);
    }
    hide LastInCluster, PerCluster;
    assert Chain(v, cluster, 0) == Ok(cluster);
    assert Chain(v, cluster, 1) == NextCluster(v, {}, cluster);
    var seek := SeekClusterChain(v, bad, cluster, HandleData(cluster, 0), 1);
    r := if seek.Ok? then Ok(seek.value.cluster) else Err(seek.error);
  }

  /** readdir's answer: a parked cursor answers EndOfFile, any other one as a fresh handle would. */
  function Answer(v: Volume, start: nat, limit: nat, c: Cursor, target: nat): Result<Info>
    requires DirOk(v) && Ends(v, start, limit)
  {
    if c.cluster == EOF_CLUSTER then Err(EndOfFile) else Fresh(v, start, limit, target)
  }

  method LookAt(e: Entry, index: nat, target: nat, sum: nat, lfn: seq<nat>) returns (r: Look)
    ensures r == Examine(e, index, target, sum, lfn)
  {
    match KindOf(e) {
      case Deleted => r := More(index, sum, lfn);
      case End => r := Stop(EndOfFile);
      case Long =>
        var sum' := sum;
        if index != target {
          return More(index, sum, lfn);
        }
        if e[0] / 64 % 2 == 1 {
          sum' := e[13] as int;
        } else if e[13] as int != sum {
          return Stop(BadChecksum);
        }
        var text := LongText(e);
        r := More(index, sum', text + lfn);
      case Short =>
        if index != target {
          return More(index + 1, sum, lfn);
        }
        var checksum := CalcChecksum(e);
        var name := if sum == checksum then Narrow(lfn) else ShortText(e);
        r := Hit(Info(0x1_0000 * Half(e[20], e[21]) + Half(e[26], e[27]), Word(e[28..32]), name, e[11] as int));
    }
  }

  /** A slot the scan goes past, or finds its entry in, does not end the directory. */
  lemma NotStopped(v: Volume, start: nat, limit: nat, d: nat, index: nat, target: nat, sum: nat, lfn: seq<nat>)
    requires DirOk(v) && Ends(v, start, limit) && d <= limit && Slot(v, start, d).Ok?
    requires !Examine(Slot(v, start, d).value, index, target, sum, lfn).Stop?
    ensures d < limit && !Terminal(v, start, d)
  {
    hide Slot, InfoOf, LongChars, UntilNul;
  }

  /** One step of the scan: the next cluster has been looked up before the slot's verdict is used. */
  lemma ScanStep(v: Volume, start: nat, limit: nat, d: nat, index: nat, target: nat, sum: nat, lfn: seq<nat>)
    requires DirOk(v) && Ends(v, start, limit) && d <= limit && Chain(v, start, ClusterOf(v, d)).Ok?
    ensures var here := Scan(v, start, limit, d, index, target, sum, lfn);
            var s := Slot(v, start, d);
            if s.Err? then here == Err(s.error)
            else
              var look := Examine(s.value, index, target, sum, lfn);
              if look.Stop? then here == Err(look.error)
              else
                && d < limit
                && var next := Chain(v, start, ClusterOf(v, d + 1));
                   if look.Hit? then
                     here == if next.Ok? || next.error == EndOfFile then Ok(look.info) else Err(next.error)
                   else
                     && here == Scan(v, start, limit, d + 1, look.index, target, look.sum, look.lfn)
                     && (next.Err? ==> here == Err(next.error))
  {
    hide Examine, Slot, ClusterOf, Chain, LastInCluster, Ends;
    NextSlot(v, d);
    BrokenChain(v, start, d + 1);
    if Slot(v, start, d).Ok? && !Examine(Slot(v, start, d).value, index, target, sum, lfn).Stop? {
      NotStopped(v, start, limit, d, index, target, sum, lfn);
    }
  }

  /** An entry is counted exactly when it is a short one, and a hit is the wanted one. */
  lemma Looked(v: Volume, start: nat, d: nat, index: nat, target: nat, sum: nat, lfn: seq<nat>)
    requires DirOk(v) && Slot(v, start, d).Ok? && index == Count(v, start, d) && index <= target
    ensures var r := Examine(Slot(v, start, d).value, index, target, sum, lfn);
            && (r.More? ==> r.index == Count(v, start, d + 1) && r.index <= target)
            && (r.Hit? ==> index == target && IsShort(v, start, d) && Count(v, start, d + 1) == target + 1)
  {
    hide Slot, InfoOf, LongChars, UntilNul;
  }

  lemma BrokenChain(v: Volume, start: nat, d: nat)
    requires DirOk(v)
    ensures var next := Chain(v, start, ClusterOf(v, d)); next.Err? ==> Slot(v, start, d) == Err(next.error)
  {
  }

  /** The cursor readdir saves after finding its entry in slot `d`. */
  lemma SavedCursor(v: Volume, start: nat, cluster: nat, index: nat, d: nat, at: nat, target: nat)
    requires DirOk(v) && start != EOF_CLUSTER && At(v, start, cluster, index, d) && !Terminal(v, start, d)
    requires IsShort(v, start, d) && Count(v, start, d + 1) == target + 1
    requires var next := Chain(v, start, ClusterOf(v, d + 1));
             next == Ok(at) || (next == Err(EndOfFile) && at == EOF_CLUSTER)
    ensures CursorOk(v, start, Cursor(at, target + 1, d + 1))
  {
    hide Terminal, Chain, ClusterOf, IsShort;
  }

  lemma AtStep(v: Volume, start: nat, cluster: nat, index: nat, d: nat, cluster': nat, index': nat)
    requires DirOk(v) && At(v, start, cluster, index, d) && !Terminal(v, start, d)
    requires Chain(v, start, ClusterOf(v, d + 1)) == Ok(cluster') && index' == Count(v, start, d + 1)
    ensures At(v, start, cluster', index', d + 1)
  {
    hide Terminal, Chain, ClusterOf, Count;
  }

  method Readdir(v: Volume, bad: set<nat>, start: nat, c: Cursor, target: nat, ghost limit: nat)
    returns (r: Result<Info>, c': Cursor)
    requires DirOk(v) && Ends(v, start, limit) && CursorOk(v, start, c)
    ensures r == Answer(v, start, limit, c, target) || (r == Err(IOError) && bad != {})
    ensures r.Err? ==> c' == c
    ensures r.Ok? ==> CursorOk(v, start, c') && c'.index == target + 1
  {
    hide Ends, CursorOk, Slot, Examine, ClusterOf, LastInCluster, Chain, Fresh, Scan, Terminal, Count, IsShort;
    c' := c;
    if c.cluster == EOF_CLUSTER {
      return Err(EndOfFile), c;
    }
    var cluster: nat, index: nat, d: nat := c.cluster, c.index, c.dentry;
    StartAt(v, start, limit, c, target);
    if index > target {
      cluster, index, d := start, 0, 0;
    }
    var sum: nat, lfn: seq<nat> := 0, [];
    while true
      invariant d <= limit && index <= target && At(v, start, cluster, index, d)
      invariant Fresh(v, start, limit, target) == Scan(v, start, limit, d, index, target, sum, lfn)
      decreases limit - d
    {
      ScanStep(v, start, limit, d, index, target, sum, lfn);
      var slot := ReadSlot(v, bad, start, cluster, d);
      if slot.Err? {
        return Err(slot.error), c;
      }
      Looked(v, start, d, index, target, sum, lfn);
      var look := LookAt(slot.value, index, target, sum, lfn);
      if look.Stop? {
        return Err(look.error), c;
      }
      NotStopped(v, start, limit, d, index, target, sum, lfn);
      var next := Advance(v, bad, start, cluster, d);
      if next.Err? && !(look.Hit? && next.error == EndOfFile) {
        return Err(next.error), c;
      }
      if look.Hit? {
        var at := if next.Ok? then next.value else EOF_CLUSTER;
        SavedCursor(v, start, cluster, index, d, at, target);
        return Ok(look.info), Cursor(at, target + 1, d + 1);
      }
      AtStep(v, start, cluster, index, d, next.value, look.index);
      cluster, d := next.value, d + 1;
      index, sum, lfn := look.index, look.sum, look.lfn;
    }
  }

  /** Where readdir starts: at the cursor, or over again when the entry lies before it. */
  lemma StartAt(v: Volume, start: nat, limit: nat, c: Cursor, target: nat)
    requires DirOk(v) && Ends(v, start, limit) && CursorOk(v, start, c) && c.cluster != EOF_CLUSTER
    ensures start != EOF_CLUSTER
    ensures c.index <= target ==>
              && c.dentry <= limit && At(v, start, c.cluster, c.index, c.dentry)
              && Fresh(v, start, limit, target) == Scan(v, start, limit, c.dentry, c.index, target, 0, [])
    ensures At(v, start, start, 0, 0)
    ensures Fresh(v, start, limit, target) == Scan(v, start, limit, 0, 0, target, 0, [])
  {
    assert ClusterOf(v, 0) == 0;
    if c.index <= target {
      ResumeIsFresh(v, start, limit, c, target);
    }
  }

  method ReadSlot(v: Volume, bad: set<nat>, start: nat, cluster: nat, d: nat) returns (r: Result<seq<Byte>>)
    requires DirOk(v) && Chain(v, start, ClusterOf(v, d)) == Ok(cluster)
    ensures r == Slot(v, start, d) || (r == Err(IOError) && bad != {})
    ensures r.Ok? ==> |r.value| == 32
  {
    var offset := d * 32 % ClusterSize(v.bpb);
    CopyFaultsOnlyHide(v, bad, cluster, offset, 32);
    r := CopyCluster(v, bad, cluster, offset, 32);
  }
}
