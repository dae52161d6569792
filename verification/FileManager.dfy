/** fs::Manager and fs::Handle, updated in place. */
module FileManager {
  import opened Collections
  import opened FileHandles
  import Runs = FileHandleRuns

  class Manager {
    var counts: Counts

    constructor ()
      ensures counts == map[]
    {
      counts := map[];
    }

    method TryOpenFile(w: World, f: nat, m: Mode) returns (r: Result<nat>)
      requires f in w.attr
      modifies this
      ensures Outcome(counts, r) == TryOpen(w, old(counts), f, m)
    {
      var c := CountOf(counts, f);
      var a := w.attr[f];
      if m.read {
        if a.readLevel == Block { return Err(InvalidOpenMode); }
        if a.readLevel == Single && c.read != 0 { return Err(FileOpened); }
        if a.exclusive && c.write != 0 { return Err(FileOpened); }
      }
      if m.write {
        if a.writeLevel == Block { return Err(InvalidOpenMode); }
        if a.writeLevel == Single && c.write != 0 { return Err(FileOpened); }
        if a.exclusive && c.read != 0 { return Err(FileOpened); }
      }
      var readCount, writeCount := c.read, c.write;
      if m.read { readCount := readCount + 1; }
      if m.write { writeCount := writeCount + 1; }
      counts := counts[f := Count(readCount, writeCount)];
      return Ok(f);
    }

    method OpenIn(w: World, dir: nat, name: string, m: Mode) returns (r: Result<nat>)
      requires WorldOk(w)
      modifies this
      ensures Outcome(counts, r) == OpenChild(w, old(counts), dir, name, m)
    {
      if (dir, name) !in w.child { return Err(NoSuchFile); }
      r := TryOpenFile(w, w.child[(dir, name)], m);
    }

    method CloseFile(f: nat, m: Mode)
      modifies this
      ensures counts == CloseCount(old(counts), f, m)
    {
      var c := CountOf(counts, f);
      var readCount, writeCount := c.read, c.write;
      if m.read && readCount > 0 { readCount := readCount - 1; }
      if m.write && writeCount > 0 { writeCount := writeCount - 1; }
      counts := counts[f := Count(readCount, writeCount)];
    }

    /** The loop of open_parent_directory, from an open root. */
    method OpenDirectories(w: World, names: seq<string>) returns (r: Result<nat>)
      requires WorldOk(w)
      modifies this
      ensures Outcome(counts, r) == WalkDirs(w, old(counts), w.root, names)
    {
      hide OpenChild, CloseCount;
      r := Ok(w.root);
      var i := 0;
      assert names[0..] == names;
      while i < |names|
        invariant 0 <= i <= |names| && r.Ok?
        invariant WalkDirs(w, counts, r.value, names[i..]) == WalkDirs(w, old(counts), w.root, names)
      {
        var dir := r.value;
        assert names[i..][0] == names[i] && names[i..][1..] == names[i + 1..];
        r := OpenIn(w, dir, names[i], RO);
        CloseFile(dir, RO);
        if r.Err? { return; }
        i := i + 1;
      }
    }

    /** Manager::open: what stays counted afterwards is the file opened, and nothing when it fails. */
    method OpenPath(w: World, names: seq<string>, m: Mode) returns (r: Result<nat>)
      requires WorldOk(w)
      modifies this
      ensures Outcome(counts, r) == Open(w, old(counts), names, m)
      ensures Accounted(old(counts), Outcome(counts, r), m)
    {
      OpenAccounts(w, counts, names, m);
      hide OpenChild, WalkDirs, CloseCount, TryOpen, Accounted;
      if names == [] {
        r := TryOpenFile(w, w.root, m);
        return;
      }
      r := TryOpenFile(w, w.root, RO);
      if r.Err? { return; }
      r := OpenDirectories(w, names[..|names| - 1]);
      if r.Err? { return; }
      var parent := r.value;
      r := OpenIn(w, parent, names[|names| - 1], m);
      CloseFile(parent, RO);
    }
  }

  class Handle {
    var file: nat
    var mode: Mode
    var expired: bool

    function Value(): Runs.Handle
      reads this
    {
      Runs.Handle(file, mode, expired)
    }

    constructor (f: nat, m: Mode)
      ensures Value() == Runs.Handle(f, m, false)
    {
      file, mode, expired := f, m, false;
    }

    method Close(m: Manager)
      modifies this, m
      ensures Value() == old(Value()).(expired := true)
      ensures m.counts == if old(expired) then old(m.counts) else CloseCount(old(m.counts), old(file), old(mode))
    {
      var was := expired;
      expired := true;
      if was { return; }
      m.CloseFile(file, mode);
    }

    /** operator=(Handle&&), also onto itself. */
    method MoveAssign(o: Handle, m: Manager)
      modifies this, o, m
      ensures m.counts == if old(expired) then old(m.counts) else CloseCount(old(m.counts), old(file), old(mode))
      ensures o.Value() == old(o.Value()).(expired := true)
      ensures o != this ==> Value() == old(o.Value())
    {
      Close(m);
      file, mode := o.file, o.mode;
      var was := o.expired;
      o.expired := true;
      expired := was;
    }
  }
}
