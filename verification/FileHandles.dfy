/**
 Open-handle counting: each file's read and write counts against the handles
 that are really open.  Where a name leads (driver lookup, children already
 opened, mount points) is a `World` given to each call.
 */
module FileHandles {
  import opened Collections

  datatype OpenLevel = Block | Single | Multi
  datatype Attributes = Attributes(readLevel: OpenLevel, writeLevel: OpenLevel, exclusive: bool)
  datatype Mode = Mode(read: bool, write: bool)
  datatype Count = Count(read: nat, write: nat)
  datatype Error = InvalidOpenMode | FileOpened | NoSuchFile

  datatype Result<T> = Ok(value: T) | Err(error: Error)

  const RO := Mode(true, false)

  /** The root, where each name in each directory leads, and every file's attributes. */
  datatype World = World(root: nat, child: map<(nat, string), nat>, attr: map<nat, Attributes>)

  ghost predicate WorldOk(w: World) {
    w.root in w.attr && forall k | k in w.child :: w.child[k] in w.attr
  }

  /** Counts of the files opened so far; a file not met yet has none. */
  type Counts = map<nat, Count>

  function CountOf(cs: Counts, f: nat): Count { if f in cs then cs[f] else Count(0, 0) }

  function Plus(c: Count, m: Mode): Count {
    Count(c.read + if m.read then 1 else 0, c.write + if m.write then 1 else 0)
  }

  /** What try_open objects to, if anything: reading first, then writing. */
  function Objection(a: Attributes, c: Count, m: Mode): Option<Error> {
    if m.read && a.readLevel.Block? then Some(InvalidOpenMode)
    else if m.read && a.readLevel.Single? && c.read != 0 then Some(FileOpened)
    else if m.read && a.exclusive && c.write != 0 then Some(FileOpened)
    else if m.write && a.writeLevel.Block? then Some(InvalidOpenMode)
    else if m.write && a.writeLevel.Single? && c.write != 0 then Some(FileOpened)
    else if m.write && a.exclusive && c.read != 0 then Some(FileOpened)
    else None
  }

  datatype Outcome = Outcome(counts: Counts, file: Result<nat>)

  function TryOpen(w: World, cs: Counts, f: nat, m: Mode): Outcome
    requires f in w.attr
  {
    var o := Objection(w.attr[f], CountOf(cs, f), m);
    if o.Some? then Outcome(cs, Err(o.value)) else Outcome(cs[f := Plus(CountOf(cs, f), m)], Ok(f))
  }

  /** Manager::close on an open handle; the driver gives its handle data back. */
  function CloseCount(cs: Counts, f: nat, m: Mode): Counts {
    var c := CountOf(cs, f);
    cs[f := Count(if m.read && c.read > 0 then c.read - 1 else c.read,
                  if m.write && c.write > 0 then c.write - 1 else c.write)]
  }

  function OpenChild(w: World, cs: Counts, dir: nat, name: string, m: Mode): Outcome
    requires WorldOk(w)
  {
    if (dir, name) !in w.child then Outcome(cs, Err(NoSuchFile)) else TryOpen(w, cs, w.child[(dir, name)], m)
  }

  /** open_parent_directory's loop: each directory is opened before the one above it is closed. */
  function WalkDirs(w: World, cs: Counts, dir: nat, names: seq<string>): Outcome
    requires WorldOk(w)
    decreases |names|
  {
    if names == [] then Outcome(cs, Ok(dir))
    else
      var o := OpenChild(w, cs, dir, names[0], RO);
      var cs' := CloseCount(o.counts, dir, RO);
      if o.file.Err? then Outcome(cs', o.file) else WalkDirs(w, cs', o.file.value, names[1..])
  }

  function Open(w: World, cs: Counts, names: seq<string>, m: Mode): Outcome
    requires WorldOk(w)
  {
    if names == [] then TryOpen(w, cs, w.root, m)
    else
      var r := TryOpen(w, cs, w.root, RO);
      if r.file.Err? then r
      else
        var p := WalkDirs(w, r.counts, w.root, names[..|names| - 1]);
        if p.file.Err? then p
        else
          var o := OpenChild(w, p.counts, p.file.value, names[|names| - 1], m);
          Outcome(CloseCount(o.counts, p.file.value, RO), o.file)
  }

  // ----------------------------------------------------------- no directory left

  /** The counts with one more handle on `f` than in `base`. */
  ghost predicate OneMore(base: Counts, cs: Counts, f: nat, m: Mode) {
    forall g: nat :: CountOf(cs, g) == if g == f then Plus(CountOf(base, g), m) else CountOf(base, g)
  }

  ghost predicate SameCounts(base: Counts, cs: Counts) { forall g: nat :: CountOf(cs, g) == CountOf(base, g) }

  /** Success counts the one file asked for; failure counts nothing. */
  ghost predicate Accounted(base: Counts, o: Outcome, m: Mode) {
    match o.file
    case Ok(f) => OneMore(base, o.counts, f, m)
    case Err(_) => SameCounts(base, o.counts)
  }

  /** Opening the next file and closing the directory leaves only the new file counted. */
  lemma OpenThenClose(base: Counts, w: World, cs: Counts, dir: nat, name: string, m: Mode)
    requires WorldOk(w) && OneMore(base, cs, dir, RO)
    ensures var o := OpenChild(w, cs, dir, name, m); Accounted(base, Outcome(CloseCount(o.counts, dir, RO), o.file), m)
  {
  }

  lemma {:induction false} WalkDirsAccounts(base: Counts, w: World, cs: Counts, dir: nat, names: seq<string>)
    requires WorldOk(w) && OneMore(base, cs, dir, RO)
    ensures Accounted(base, WalkDirs(w, cs, dir, names), RO)
    decreases |names|
  {
    if names != [] {
      OpenThenClose(base, w, cs, dir, names[0], RO);
      var o := OpenChild(w, cs, dir, names[0], RO);
      if o.file.Ok? {
        WalkDirsAccounts(base, w, CloseCount(o.counts, dir, RO), o.file.value, names[1..]);
      }
    }
  }

  /** Manager::open: whatever directories it passes through, only the file it returns stays counted. */
  lemma OpenAccounts(w: World, cs: Counts, names: seq<string>, m: Mode)
    requires WorldOk(w)
    ensures Accounted(cs, Open(w, cs, names, m), m)
  {
    if names != [] {
      var r := TryOpen(w, cs, w.root, RO);
      if r.file.Ok? {
        assert OneMore(cs, r.counts, w.root, RO);
        WalkDirsAccounts(cs, w, r.counts, w.root, names[..|names| - 1]);
        var p := WalkDirs(w, r.counts, w.root, names[..|names| - 1]);
        if p.file.Ok? {
          OpenThenClose(cs, w, p.counts, p.file.value, names[|names| - 1], m);
        }
      }
    }
  }

  // ------------------------------------------------------- where a path leads

  /** The file that the names lead to from `dir`, if every one of them exists. */
  function Follow(w: World, dir: nat, names: seq<string>): Option<nat>
    decreases |names|
  {
    if names == [] then Some(dir)
    else if (dir, names[0]) !in w.child then None
    else Follow(w, w.child[(dir, names[0])], names[1..])
  }

  lemma {:induction false} FollowLast(w: World, dir: nat, names: seq<string>, last: string)
    ensures var p := Follow(w, dir, names);
            Follow(w, dir, names + [last]) ==
            if p.Some? && (p.value, last) in w.child then Some(w.child[(p.value, last)]) else None
    decreases |names|
  {
    if names == [] {
      assert (names + [last])[1..] == [];
    } else {
      assert (names + [last])[1..] == names[1..] + [last];
      if (dir, names[0]) in w.child { FollowLast(w, w.child[(dir, names[0])], names[1..], last); }
    }
  }

  lemma {:induction false} WalkDirsFollows(w: World, cs: Counts, dir: nat, names: seq<string>)
    requires WorldOk(w)
    ensures WalkDirs(w, cs, dir, names).file.Ok? ==>
            Follow(w, dir, names) == Some(WalkDirs(w, cs, dir, names).file.value)
    ensures WalkDirs(w, cs, dir, names).file == Err(NoSuchFile) ==> Follow(w, dir, names).None?
    decreases |names|
  {
    if names != [] {
      var o := OpenChild(w, cs, dir, names[0], RO);
      if o.file.Ok? { WalkDirsFollows(w, CloseCount(o.counts, dir, RO), o.file.value, names[1..]); }
    }
  }

  /** What Manager::open returns is the file its path leads to; and it says NoSuchFile only when there is none. */
  lemma OpenFollowsPath(w: World, cs: Counts, names: seq<string>, m: Mode)
    requires WorldOk(w)
    ensures Open(w, cs, names, m).file.Ok? ==> Follow(w, w.root, names) == Some(Open(w, cs, names, m).file.value)
    ensures Open(w, cs, names, m).file == Err(NoSuchFile) ==> Follow(w, w.root, names).None?
  {
    if names != [] {
      var dirs, last := names[..|names| - 1], names[|names| - 1];
      assert names == dirs + [last];
      FollowLast(w, w.root, dirs, last);
      var r := TryOpen(w, cs, w.root, RO);
      if r.file.Ok? { WalkDirsFollows(w, r.counts, w.root, dirs); }
    }
  }
}
