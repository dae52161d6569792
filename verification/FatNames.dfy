/**
 Long names (section 7 of the Microsoft FAT specification): a name is cut into
 pieces of thirteen characters, stored last piece first in front of the short
 entry whose checksum they carry.  Reading the directory puts it back together.
 */
module FatNames {
  import opened Collections
  import opened Fat
  import opened FatDirectory

  /** A name as the specification allows it: 16-bit characters, none of them NUL, at most 20 pieces. */
  predicate LongName(name: seq<nat>) {
    0 < |name| <= 255 && forall i | 0 <= i < |name| :: 0 < name[i] < 0x1_0000
  }

  function PieceCount(name: seq<nat>): nat {
    (|name| + 12) / 13
  }

  function PieceText(name: seq<nat>, k: nat): (r: seq<nat>)
    requires 13 * k < |name|
    ensures 0 < |r| <= 13
  {
    if 13 * k + 13 <= |name| then name[13 * k..13 * k + 13] else name[13 * k..]
  }

  /** A piece that does not fill its entry is closed with NUL and padded with 0xFFFF. */
  function Padded(s: seq<nat>): (r: seq<nat>)
    requires |s| <= 13
    ensures |r| == 13
  {
    if |s| == 13 then s else s + [0] + seq(12 - |s|, _ => 0xFFFF)
  }

  function Low(x: nat): Byte { x % 256 }
  function High(x: nat): Byte { x / 256 % 256 }

  /** Characters as little-endian pairs of bytes. */
  function Bytes(s: seq<nat>): (r: seq<Byte>)
    ensures |r| == 2 * |s|
    ensures forall i | 0 <= i < |s| :: r[2 * i] == Low(s[i]) && r[2 * i + 1] == High(s[i])
  {
    if s == [] then [] else [Low(s[0]), High(s[0])] + Bytes(s[1..])
  }

  /** The entry for piece `number` (from 1); the last piece of the name is flagged with 0x40. */
  function LongEntry(number: nat, last: bool, sum: Byte, c: seq<nat>): (e: Entry)
    requires 1 <= number <= 20 && |c| == 13
  {
    [(if last then number + 64 else number) as int] + Bytes(c[..5]) + [15, 0, sum] + Bytes(c[5..11]) + [0, 0] +
        Bytes(c[11..])
  }

  lemma HalfOfBytes(x: nat)
    requires x < 0x1_0000
    ensures Half(Low(x), High(x)) == x
  {
  }

  /** Reading back pairs of bytes found in an entry from position `at`. */
  lemma BytesRead(e: Entry, at: nat, s: seq<nat>)
    requires at + 2 * |s| <= 32 && e[at..at + 2 * |s|] == Bytes(s) && forall i | 0 <= i < |s| :: s[i] < 0x1_0000
    ensures forall i | 0 <= i < |s| :: Half(e[at + 2 * i], e[at + 1 + 2 * i]) == s[i]
  {
    hide Bytes, Half;
    forall i | 0 <= i < |s|
      ensures Half(e[at + 2 * i], e[at + 1 + 2 * i]) == s[i]
    {
      assert e[at..at + 2 * |s|][2 * i] == Low(s[i]) && e[at..at + 2 * |s|][2 * i + 1] == High(s[i]);
      HalfOfBytes(s[i]);
    }
  }

  lemma EntryFields(number: nat, last: bool, sum: Byte, c: seq<nat>)
    requires 1 <= number <= 20 && |c| == 13
    ensures var e := LongEntry(number, last, sum, c);
            && e[1..11] == Bytes(c[..5]) && e[14..26] == Bytes(c[5..11]) && e[28..32] == Bytes(c[11..])
            && e[0] as int == (if last then number + 64 else number) && e[11] == 15 && e[13] == sum
  {
    hide Bytes;
  }

  lemma LongEntryReads(number: nat, last: bool, sum: Byte, c: seq<nat>)
    requires 1 <= number <= 20 && |c| == 13 && forall i | 0 <= i < 13 :: c[i] < 0x1_0000
    ensures var e := LongEntry(number, last, sum, c);
            LongChars(e) == c && KindOf(e) == Long && e[13] == sum && ((e[0] as int) / 64 % 2 == 1 <==> last)
  {
    hide Bytes, LongEntry, LongChars, Half;
    var e := LongEntry(number, last, sum, c);
    EntryFields(number, last, sum, c);
    BytesRead(e, 1, c[..5]);
    BytesRead(e, 14, c[5..11]);
    BytesRead(e, 28, c[11..]);
    CharsFrom(e, c);
  }

  lemma CharsFrom(e: Entry, c: seq<nat>)
    requires |c| == 13
    requires forall i | 0 <= i < 5 :: Half(e[1 + 2 * i], e[2 + 2 * i]) == c[i]
    requires forall i | 0 <= i < 6 :: Half(e[14 + 2 * i], e[15 + 2 * i]) == c[5 + i]
    requires forall i | 0 <= i < 2 :: Half(e[28 + 2 * i], e[29 + 2 * i]) == c[11 + i]
    ensures LongChars(e) == c
  {
    hide Half;
    assert c[0] == Half(e[1 + 2 * 0], e[2 + 2 * 0]) && c[1] == Half(e[1 + 2 * 1], e[2 + 2 * 1]) &&
        c[2] == Half(e[1 + 2 * 2], e[2 + 2 * 2]);
    assert c[3] == Half(e[1 + 2 * 3], e[2 + 2 * 3]) && c[4] == Half(e[1 + 2 * 4], e[2 + 2 * 4]);
    assert c[5 + 0] == Half(e[14 + 2 * 0], e[15 + 2 * 0]) && c[5 + 1] == Half(e[14 + 2 * 1], e[15 + 2 * 1]) &&
        c[5 + 2] == Half(e[14 + 2 * 2], e[15 + 2 * 2]);
    assert c[5 + 3] == Half(e[14 + 2 * 3], e[15 + 2 * 3]) && c[5 + 4] == Half(e[14 + 2 * 4], e[15 + 2 * 4]) &&
        c[5 + 5] == Half(e[14 + 2 * 5], e[15 + 2 * 5]);
    assert c[11 + 0] == Half(e[28 + 2 * 0], e[29 + 2 * 0]) && c[11 + 1] == Half(e[28 + 2 * 1], e[29 + 2 * 1]);
  }

  lemma {:induction false} UntilNulStops(s: seq<nat>, t: seq<nat>)
    requires (forall i | 0 <= i < |s| :: s[i] != 0) && (t == [] || t[0] == 0)
    ensures UntilNul(s + t) == s
  {
    if s == [] {
      assert s + t == t;
    } else {
      assert (s + t)[1..] == s[1..] + t;
      UntilNulStops(s[1..], t);
    }
  }

  lemma PieceReads(name: seq<nat>, k: nat)
    requires LongName(name) && 13 * k < |name|
    ensures UntilNul(Padded(PieceText(name, k))) == PieceText(name, k)
    ensures forall i | 0 <= i < 13 :: Padded(PieceText(name, k))[i] < 0x1_0000
  {
    var s := PieceText(name, k);
    if |s| == 13 {
      UntilNulStops(s, []);
      assert s + [] == s;
    } else {
      UntilNulStops(s, [0] + seq(12 - |s|, _ => 0xFFFF));
      assert s + [0] + seq(12 - |s|, _ => 0xFFFF) == s + ([0] + seq(12 - |s|, _ => 0xFFFF));
    }
  }

  /** The entry for the n-th piece of `name`, in front of short entry `e`. */
  function PieceEntry(name: seq<nat>, n: nat, e: Entry): Entry
    requires LongName(name) && 0 < n <= PieceCount(name)
  {
    LongEntry(n, n == PieceCount(name), Low(ChecksumFrom(e[..11], 0)), Padded(PieceText(name, n - 1)))
  }

  /** The first n pieces of `name`, last one first, and then its short entry `e` occupy the slots from `d`. */
  ghost predicate Stored(v: Volume, start: nat, d: nat, name: seq<nat>, n: nat, e: Entry)
    requires DirOk(v) && LongName(name) && n <= PieceCount(name)
    decreases n
  {
    if n == 0 then KindOf(e) == Short && Slot(v, start, d) == Ok(e)
    else Slot(v, start, d) == Ok(PieceEntry(name, n, e)) && Stored(v, start, d + 1, name, n - 1, e)
  }

  lemma PieceEntryReads(name: seq<nat>, n: nat, e: Entry)
    requires LongName(name) && 0 < n <= PieceCount(name)
    ensures var p := PieceEntry(name, n, e);
            && UntilNul(LongChars(p)) == PieceText(name, n - 1) && KindOf(p) == Long
            && p[13] as int == ChecksumFrom(e[..11], 0) && ((p[0] as int) / 64 % 2 == 1 <==> n == PieceCount(name))
  {
    hide LongChars, KindOf, UntilNul, ChecksumFrom, LongEntry;
    ChecksumIsByte(e[..11], 0);
    PieceReads(name, n - 1);
    LongEntryReads(n, n == PieceCount(name), Low(ChecksumFrom(e[..11], 0)), Padded(PieceText(name, n - 1)));
  }

  lemma {:induction false} ChecksumIsByte(s: seq<Byte>, sum: nat)
    requires sum < 256
    ensures ChecksumFrom(s, sum) < 256
    decreases |s|
  {
    if s != [] {
      ChecksumIsByte(s[1..], (sum / 2 + sum * 128 + s[0] as int) % 256);
    }
  }

  /** What is left of the name after its first n pieces. */
  function Rest(name: seq<nat>, n: nat): seq<nat> {
    if 13 * n < |name| then name[13 * n..] else []
  }

  lemma NotTheEnd(v: Volume, start: nat, limit: nat, d: nat)
    requires DirOk(v) && Ends(v, start, limit) && d <= limit && !Terminal(v, start, d)
    ensures d < limit
  {
  }

  /** Reading one piece puts it in front of what has been read. */
  lemma PieceStep(v: Volume, start: nat, limit: nat, d: nat, target: nat, name: seq<nat>, n: nat, e: Entry, sum: nat)
    requires DirOk(v) && Ends(v, start, limit) && LongName(name) && 0 < n <= PieceCount(name) && d <= limit
    requires Slot(v, start, d) == Ok(PieceEntry(name, n, e))
    requires n < PieceCount(name) ==> sum == ChecksumFrom(e[..11], 0)
    ensures d < limit
    ensures Scan(v, start, limit, d, target, target, sum, Rest(name, n)) ==
            Scan(v, start, limit, d + 1, target, target, ChecksumFrom(e[..11], 0), Rest(name, n - 1))
  {
    hide Slot, InfoOf, LongChars, UntilNul, ChecksumFrom, PieceEntry, Rest, Finish, KindOf, PieceText, PieceCount,
        DirOk;
    PieceEntryReads(name, n, e);
    NotTheEnd(v, start, limit, d);
    RestStep(name, n);
  }

  lemma RestStep(name: seq<nat>, n: nat)
    requires LongName(name) && 0 < n <= PieceCount(name)
    ensures 13 * (n - 1) < |name| && PieceText(name, n - 1) + Rest(name, n) == Rest(name, n - 1)
  {
  }

  lemma LastStep(v: Volume, start: nat, limit: nat, d: nat, target: nat, e: Entry, sum: nat, lfn: seq<nat>)
    requires DirOk(v) && Ends(v, start, limit) && d <= limit && Slot(v, start, d) == Ok(e) && KindOf(e) == Short
    ensures Scan(v, start, limit, d, target, target, sum, lfn) == Finish(v, start, d, InfoOf(e, sum, lfn))
  {
    hide Slot, InfoOf, Finish;
  }

  /** Reading the stored pieces rebuilds the name. */
  lemma {:induction false} PiecesRead(v: Volume, start: nat, limit: nat, d: nat, target: nat, name: seq<nat>, n: nat,
                                      e: Entry, sum: nat)
    requires DirOk(v) && Ends(v, start, limit) && LongName(name) && n <= PieceCount(name) && d <= limit
    requires Stored(v, start, d, name, n, e)
    requires n < PieceCount(name) ==> sum == ChecksumFrom(e[..11], 0)
    ensures var checksum := if n == 0 then sum else ChecksumFrom(e[..11], 0);
            Scan(v, start, limit, d, target, target, sum, Rest(name, n)) ==
                Finish(v, start, d + n, InfoOf(e, checksum, name))
    decreases n
  {
    hide Scan, Slot, InfoOf, ChecksumFrom, PieceEntry, Finish, KindOf, Ends;
    if n == 0 {
      assert Rest(name, 0) == name;
      LastStep(v, start, limit, d, target, e, sum, name);
    } else {
      PieceStep(v, start, limit, d, target, name, n, e, sum);
      PiecesRead(v, start, limit, d + 1, target, name, n - 1, e, ChecksumFrom(e[..11], 0));
    }
  }

  /**
   Round trip: if the entry after `d` is stored with long name `name`, readdir
   reports that name (each character narrowed to a byte), unless the chain
   after it is broken.
   */
  lemma LongNameRoundTrip(v: Volume, start: nat, limit: nat, d: nat, name: seq<nat>, e: Entry)
    requires DirOk(v) && Ends(v, start, limit) && LongName(name) && d <= limit && start != EOF_CLUSTER
    requires (forall i | 0 <= i < d :: !Terminal(v, start, i)) && (d > 0 ==> IsShort(v, start, d - 1))
    requires Stored(v, start, d, name, PieceCount(name), e)
    ensures var r := Fresh(v, start, limit, Count(v, start, d));
            || (r == Ok(InfoOf(e, ChecksumFrom(e[..11], 0), name)) && r.value.name == Narrow(name))
            || var next := Chain(v, start, ClusterOf(v, d + PieceCount(name) + 1)); next.Err? && r == Err(next.error)
  {
    hide Slot, KindOf, IsShort, ChecksumFrom, ClusterOf, LastInCluster, Chain, Scan, Stored;
    var target := Count(v, start, d);
    ScanSkips(v, start, limit, d, target, 0);
    assert Rest(name, PieceCount(name)) == [];
    PiecesRead(v, start, limit, d, target, name, PieceCount(name), e, 0);
  }
}
