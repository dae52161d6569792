/** Listing and searching a directory, and the names it yields. */
module FatListing {
  import opened Collections
  import opened Fat
  import opened FatDirectory

  /** Before an entry that exists, no slot answers EndOfFile. */
  lemma {:induction false} NoEarlyEnd(v: Volume, start: nat, limit: nat, k: nat, d: nat, target: nat, sum: nat,
                                      lfn: seq<nat>)
    requires DirOk(v) && Ends(v, start, limit) && k <= d <= limit
    requires forall i | 0 <= i < d :: !Terminal(v, start, i)
    requires Count(v, start, k) <= target < Count(v, start, d)
    ensures Scan(v, start, limit, k, Count(v, start, k), target, sum, lfn) != Err(EndOfFile)
    decreases d - k
  {
    hide Slot, InfoOf, LongChars, UntilNul, ClusterOf, LastInCluster;
    assert !Terminal(v, start, k);
    Looked(v, start, k, Count(v, start, k), target, sum, lfn);
    var look := Examine(Slot(v, start, k).value, Count(v, start, k), target, sum, lfn);
    if look.More? {
      NoEarlyEnd(v, start, limit, k + 1, d, target, look.sum, look.lfn);
    }
  }

  lemma ChainIsNotEof(v: Volume, start: nat, n: nat)
    requires BpbOk(v.bpb) && start != EOF_CLUSTER
    ensures Chain(v, start, n) != Ok(EOF_CLUSTER)
  {
  }

  /**
   A saved cursor answers as a fresh handle would, except when it is parked at
   the end of the chain and an entry before it is asked for.
   */
  lemma AnswersAsFresh(v: Volume, start: nat, limit: nat, c: Cursor, target: nat)
    requires DirOk(v) && Ends(v, start, limit) && CursorOk(v, start, c)
    ensures Answer(v, start, limit, c, target) == Fresh(v, start, limit, target) <==>
            c.cluster != EOF_CLUSTER || c.index <= target
  {
    if c.cluster == EOF_CLUSTER && start != EOF_CLUSTER {
      hide Slot, Scan, InfoOf;
      ChainIsNotEof(v, start, ClusterOf(v, c.dentry));
      BrokenChain(v, start, c.dentry);
      WithinLimit(v, start, limit, c);
      if c.index <= target {
        ResumeIsFresh(v, start, limit, c, target);
        FailedSlot(v, start, limit, c.dentry, c.index, target, 0, []);
      } else {
        NoEarlyEnd(v, start, limit, 0, c.dentry, target, 0, []);
      }
    }
  }

  /** A directory of one cluster, filled by its one entry. */
  function FullDirectory(): Volume {
    var fat: seq<Byte> := seq(8, _ => 0) + [0xF8, 0xFF, 0xFF, 0x0F] + seq(20, _ => 0);
    var entry: seq<Byte> := [0x41] + seq(31, _ => 0);
    Volume(fat + entry, Bpb(32, 0, 3, 1, 2, 1, 1))
  }

  lemma FullChainEnds()
    ensures var v := FullDirectory(); DirOk(v) && Chain(v, 2, 1) == Err(EndOfFile) && Slot(v, 2, 1) == Err(EndOfFile)
  {
    FullFat();
    hide NextCluster, ClusterBegin;
  }

  lemma FullFat()
    ensures var v := FullDirectory(); BpbOk(v.bpb) && NextCluster(v, {}, 2) == Err(EndOfFile)
  {
    var v := FullDirectory();
    assert v.bytes[8..12] == [0xF8, 0xFF, 0xFF, 0x0F];
    assert ReadFatEntry(v, {}, 2) == Ok(EOF_CLUSTER);
  }

  lemma FullSlotIsShort()
    ensures var v := FullDirectory(); DirOk(v) && IsShort(v, 2, 0) && ClusterOf(v, 1) == 1 && LastInCluster(v, 0)
  {
    var v := FullDirectory();
    hide NextCluster;
    assert ClusterBegin(v.bpb, 2) == 1;
    assert Slot(v, 2, 0) == Ok(v.bytes[32..64]);
  }

  /** There the cursor that has read the entry is parked, and the entry cannot be read again. */
  lemma ParkedCursorMisses()
    ensures var v, c := FullDirectory(), Cursor(EOF_CLUSTER, 1, 1);
            && DirOk(v) && Ends(v, 2, 1) && CursorOk(v, 2, c)
            && Fresh(v, 2, 1, 0).Ok? && Answer(v, 2, 1, c, 0) == Err(EndOfFile)
  {
    hide InfoOf, FullDirectory, Slot, DirOk, LastInCluster, ClusterOf;
    FullChainEnds();
    FullSlotIsShort();
    var v := FullDirectory();
    assert Terminal(v, 2, 1) && !Terminal(v, 2, 0);
    assert Count(v, 2, 1) == 1;
  }

  lemma WithinLimit(v: Volume, start: nat, limit: nat, c: Cursor)
    requires DirOk(v) && Ends(v, start, limit) && CursorOk(v, start, c)
    ensures c.dentry <= limit
  {
    hide Slot;
    assert Terminal(v, start, limit);
  }

  lemma FailedSlot(v: Volume, start: nat, limit: nat, d: nat, index: nat, target: nat, sum: nat, lfn: seq<nat>)
    requires DirOk(v) && Ends(v, start, limit) && d <= limit && Slot(v, start, d).Err?
    ensures Scan(v, start, limit, d, index, target, sum, lfn) == Err(Slot(v, start, d).error)
  {
    hide Slot;
  }

  // ----------------------------------------------------------------- listing

  /** `info` describes the entry in slot `d`; only its name depends on other slots. */
  ghost predicate Describes(v: Volume, start: nat, d: nat, info: Info)
    requires DirOk(v)
  {
    IsShort(v, start, d) && exists sum, lfn :: info == InfoOf(Slot(v, start, d).value, sum, lfn)
  }

  lemma {:induction false} ScanFinds(v: Volume, start: nat, limit: nat, d: nat, target: nat, sum: nat, lfn: seq<nat>)
    returns (at: nat)
    requires DirOk(v) && Ends(v, start, limit) && d <= limit && Count(v, start, d) <= target
    requires Scan(v, start, limit, d, Count(v, start, d), target, sum, lfn).Ok?
    ensures d <= at < limit && Count(v, start, at) == target && forall k | d <= k <= at :: !Terminal(v, start, k)
    ensures Describes(v, start, at, Scan(v, start, limit, d, Count(v, start, d), target, sum, lfn).value)
    decreases limit - d
  {
    hide Slot, InfoOf, LongChars, UntilNul, ClusterOf, LastInCluster, Chain;
    Looked(v, start, d, Count(v, start, d), target, sum, lfn);
    var look := Examine(Slot(v, start, d).value, Count(v, start, d), target, sum, lfn);
    if look.More? {
      at := ScanFinds(v, start, limit, d + 1, target, look.sum, look.lfn);
    } else {
      at := d;
    }
  }

  /** The target-th answer describes the target-th counted entry in disk order. */
  lemma FreshIsNth(v: Volume, start: nat, limit: nat, target: nat) returns (at: nat)
    requires DirOk(v) && Ends(v, start, limit) && Fresh(v, start, limit, target).Ok?
    ensures at < limit && Count(v, start, at) == target && forall k | 0 <= k <= at :: !Terminal(v, start, k)
    ensures Describes(v, start, at, Fresh(v, start, limit, target).value)
  {
    at := ScanFinds(v, start, limit, 0, target, 0, []);
  }

  /** Later answers come from later slots, so no entry is listed twice. */
  lemma {:induction false} NthIsOrdered(v: Volume, start: nat, a: nat, b: nat)
    requires DirOk(v) && IsShort(v, start, a) && IsShort(v, start, b)
    ensures Count(v, start, a) < Count(v, start, b) <==> a < b
  {
    hide IsShort;
    if a < b {
      CountStep(v, start, a + 1, b);
    } else {
      CountStep(v, start, b, a);
    }
  }

  /** The slots before `d` that hold counted entries, in disk order. */
  ghost function Entries(v: Volume, start: nat, d: nat): (r: seq<nat>)
    requires DirOk(v)
    ensures |r| == Count(v, start, d)
  {
    if d == 0 then []
    else Entries(v, start, d - 1) + if IsShort(v, start, d - 1) then [d - 1] else []
  }

  /** A counted entry stands in the list of entries at its number. */
  lemma {:induction false} EntryStandsAt(v: Volume, start: nat, d: nat, at: nat)
    requires DirOk(v) && at < d && IsShort(v, start, at)
    ensures Count(v, start, at) < Count(v, start, d) && Entries(v, start, d)[Count(v, start, at)] == at
    decreases d
  {
    hide IsShort;
    if at < d - 1 {
      EntryStandsAt(v, start, d - 1, at);
    }
  }

  /** The slot from `k` on at which the directory ends. */
  ghost function EndFrom(v: Volume, start: nat, limit: nat, k: nat): (end: nat)
    requires DirOk(v) && Ends(v, start, limit) && k <= limit
    ensures k <= end <= limit && Terminal(v, start, end) && forall i | k <= i < end :: !Terminal(v, start, i)
    decreases limit - k
  {
    if Terminal(v, start, k) then k else EndFrom(v, start, limit, k + 1)
  }

  /** All counted entries of the directory, in disk order. */
  ghost function AllEntries(v: Volume, start: nat, limit: nat): seq<nat>
    requires DirOk(v) && Ends(v, start, limit)
  {
    Entries(v, start, EndFrom(v, start, limit, 0))
  }

  lemma FreshIsEntry(v: Volume, start: nat, limit: nat, target: nat)
    requires DirOk(v) && Ends(v, start, limit) && Fresh(v, start, limit, target).Ok?
    ensures target < |AllEntries(v, start, limit)|
    ensures Describes(v, start, AllEntries(v, start, limit)[target], Fresh(v, start, limit, target).value)
  {
    hide Fresh, Entries, Terminal;
    var at := FreshIsNth(v, start, limit, target);
    EntryStandsAt(v, start, EndFrom(v, start, limit, 0), at);
  }

  /** The listing holds the directory's entries in order, from the first on. */
  ghost predicate Enumerates(v: Volume, start: nat, limit: nat, out: seq<Info>)
    requires DirOk(v) && Ends(v, start, limit)
  {
    var entries := AllEntries(v, start, limit);
    |out| <= |entries| && forall i | 0 <= i < |out| :: Describes(v, start, entries[i], out[i])
  }

  /** Asking for 0, 1, 2, ... until something fails lists each entry once, in order, and all if EndOfFile ended it. */
  lemma ListingEnumerates(v: Volume, start: nat, limit: nat, out: seq<Info>, error: Error)
    requires DirOk(v) && Ends(v, start, limit)
    requires forall i | 0 <= i < |out| :: Fresh(v, start, limit, i) == Ok(out[i])
    requires Fresh(v, start, limit, |out|) == Err(error)
    ensures Enumerates(v, start, limit, out)
    ensures error == EndOfFile && start != EOF_CLUSTER ==> |out| == |AllEntries(v, start, limit)|
  {
    hide Scan, Entries, Describes, Terminal;
    forall i | 0 <= i < |out|
      ensures i < |AllEntries(v, start, limit)| && Describes(v, start, AllEntries(v, start, limit)[i], out[i])
    {
      FreshIsEntry(v, start, limit, i);
    }
    if |out| > 0 {
      FreshIsEntry(v, start, limit, |out| - 1);
    }
    if |out| < |AllEntries(v, start, limit)| && start != EOF_CLUSTER {
      assert Count(v, start, 0) == 0;
      NoEarlyEnd(v, start, limit, 0, EndFrom(v, start, limit, 0), |out|, 0, []);
    }
  }

  lemma FreshFails(v: Volume, start: nat, limit: nat, target: nat)
    requires DirOk(v) && Ends(v, start, limit) && target >= limit
    ensures Fresh(v, start, limit, target).Err?
  {
    if Fresh(v, start, limit, target).Ok? {
      var at := FreshIsNth(v, start, limit, target);
    }
  }

  /** readdir called with 0, 1, 2, ... on one handle. */
  method List(v: Volume, start: nat, ghost limit: nat) returns (out: seq<Info>, error: Error)
    requires DirOk(v) && Ends(v, start, limit)
    ensures forall i | 0 <= i < |out| :: Fresh(v, start, limit, i) == Ok(out[i])
    ensures Fresh(v, start, limit, |out|) == Err(error)
    ensures Enumerates(v, start, limit, out)
    ensures error == EndOfFile && start != EOF_CLUSTER ==> |out| == |AllEntries(v, start, limit)|
  {
    var c := FreshCursor(start);
    FreshCursorOk(v, start);
    hide CursorOk, Fresh;
    out := [];
    while true
      invariant CursorOk(v, start, c) && c.index == |out| && |out| <= limit
      invariant forall i | 0 <= i < |out| :: Fresh(v, start, limit, i) == Ok(out[i])
      decreases limit - |out|
    {
      AnswersAsFresh(v, start, limit, c, |out|);
      if |out| == limit {
        FreshFails(v, start, limit, |out|);
      }
      var r;
      r, c := Readdir(v, {}, start, c, |out|, limit);
      if r.Err? {
        ListingEnumerates(v, start, limit, out, r.error);
        return out, r.error;
      }
      out := out + [r.value];
    }
  }

  lemma FreshCursorOk(v: Volume, start: nat)
    requires DirOk(v)
    ensures CursorOk(v, start, FreshCursor(start))
  {
    assert ClusterOf(v, 0) == 0;
  }

  /** The driver's find: the first entry with the name, or the error that ended the search. */
  method Find(v: Volume, bad: set<nat>, start: nat, name: seq<Byte>, ghost limit: nat) returns (r: Result<Info>, n: nat)
    requires DirOk(v) && Ends(v, start, limit)
    ensures forall i | 0 <= i < n :: Fresh(v, start, limit, i).Ok? && Fresh(v, start, limit, i).value.name != name
    ensures r.Ok? ==> r == Fresh(v, start, limit, n) && r.value.name == name
    ensures r.Err? ==> r == Fresh(v, start, limit, n) || (r == Err(IOError) && bad != {})
  {
    var c := FreshCursor(start);
    FreshCursorOk(v, start);
    hide CursorOk, Fresh;
    n := 0;
    while true
      invariant CursorOk(v, start, c) && c.index == n <= limit
      invariant forall i | 0 <= i < n :: Fresh(v, start, limit, i).Ok? && Fresh(v, start, limit, i).value.name != name
      decreases limit - n
    {
      AnswersAsFresh(v, start, limit, c, n);
      if n == limit {
        FreshFails(v, start, limit, n);
      }
      r, c := Readdir(v, bad, start, c, n, limit);
      if r.Err? || r.value.name == name {
        return;
      }
      n := n + 1;
    }
  }
}
