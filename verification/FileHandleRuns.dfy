/** Every run of opening, moving, closing and destroying file handles. */
module FileHandleRuns {
  import opened Collections
  import opened FileHandles

  datatype Handle = Handle(file: nat, mode: Mode, expired: bool)

  datatype State = State(counts: Counts, handles: map<nat, Handle>)

  datatype Op =
    | Create(h: nat, junk: Handle)                                    // a default handle: expired, the rest unset
    | OpenPath(h: nat, world: World, names: seq<string>, mode: Mode)  // the handle a successful open returns
    | MoveAssign(h: nat, from: nat)
    | Close(h: nat)
    | Destroy(h: nat)

  ghost predicate Enabled(s: State, op: Op) {
    match op
    case Create(h, junk) => h !in s.handles && junk.expired
    case OpenPath(h, w, _, _) => h !in s.handles && WorldOk(w)
    case MoveAssign(h, from) => h in s.handles && from in s.handles
    case Close(h) => h in s.handles
    case Destroy(h) => h in s.handles
  }

  function CloseHandle(s: State, h: nat): State
    requires h in s.handles
  {
    var v := s.handles[h];
    if v.expired then s
    else State(CloseCount(s.counts, v.file, v.mode), s.handles[h := v.(expired := true)])
  }

  function Step(s: State, op: Op): State
    requires Enabled(s, op)
  {
    match op
    case Create(h, junk) => s.(handles := s.handles[h := junk])
    case OpenPath(h, w, names, m) =>
      var o := Open(w, s.counts, names, m);
      State(o.counts, if o.file.Ok? then s.handles[h := Handle(o.file.value, m, false)] else s.handles)
    case MoveAssign(h, from) =>
      var c := CloseHandle(s, h);
      var v := c.handles[from];
      c.(handles := c.handles[from := v.(expired := true)]
                             [h := Handle(v.file, v.mode, if h == from then true else v.expired)])
    case Close(h) => CloseHandle(s, h)
    case Destroy(h) => var c := CloseHandle(s, h); c.(handles := c.handles - {h})
  }

  // --------------------------------------------------------------- invariant

  predicate Counted(v: Handle, f: nat, write: bool) {
    !v.expired && v.file == f && if write then v.mode.write else v.mode.read
  }

  /** The live handles open on f for reading, or for writing. */
  ghost function Users(hs: map<nat, Handle>, f: nat, write: bool): (r: set<nat>)
    ensures forall h :: h in r <==> h in hs && Counted(hs[h], f, write)
  {
    set h | h in hs && Counted(hs[h], f, write)
  }

  ghost function Tally(hs: map<nat, Handle>, f: nat): Count {
    Count(|Users(hs, f, false)|, |Users(hs, f, true)|)
  }

  /** The counts are the numbers of live handles of each mode. */
  ghost predicate Inv(s: State) { forall f: nat :: CountOf(s.counts, f) == Tally(s.handles, f) }

  lemma Joins(a: set<nat>, b: set<nat>, h: nat)
    requires h !in a && b == a + {h}
    ensures |b| == |a| + 1
  {
  }

  lemma Leaves(a: set<nat>, b: set<nat>, h: nat)
    requires h in a && b == a - {h}
    ensures |b| == |a| - 1
  {
  }

  lemma Renames(a: set<nat>, b: set<nat>, h: nat, k: nat)
    requires h in a && k !in a && b == a - {h} + {k}
    ensures |b| == |a|
  {
    Leaves(a, a - {h}, h);
    Joins(a - {h}, b, k);
  }

  lemma UsersClose(hs: map<nat, Handle>, h: nat, f: nat, write: bool)
    requires h in hs
    ensures |Users(hs[h := hs[h].(expired := true)], f, write)| == |Users(hs, f, write)| -
            if Counted(hs[h], f, write) then 1 else 0
  {
    var u, u' := Users(hs, f, write), Users(hs[h := hs[h].(expired := true)], f, write);
    assert u' == u - {h};
    hide Users;
    if h in u { Leaves(u, u', h); } else { assert u' == u; }
  }

  lemma UsersOpen(hs: map<nat, Handle>, h: nat, v: Handle, f: nat, write: bool)
    requires h !in hs
    ensures |Users(hs[h := v], f, write)| == |Users(hs, f, write)| + if Counted(v, f, write) then 1 else 0
  {
    var u, u' := Users(hs, f, write), Users(hs[h := v], f, write);
    assert u' == if Counted(v, f, write) then u + {h} else u;
  }

  lemma UsersMove(hs: map<nat, Handle>, h: nat, from: nat, f: nat, write: bool)
    requires h in hs && from in hs && h != from && hs[h].expired
    ensures |Users(hs[from := hs[from].(expired := true)][h := hs[from]], f, write)| == |Users(hs, f, write)|
  {
    var u, u' := Users(hs, f, write), Users(hs[from := hs[from].(expired := true)][h := hs[from]], f, write);
    assert u' == if from in u then u - {from} + {h} else u;
    if from in u { Renames(u, u', from, h); }
  }

  lemma CloseOk(s: State, h: nat)
    requires Inv(s) && h in s.handles
    ensures Inv(CloseHandle(s, h)) && CloseHandle(s, h).handles[h].expired
  {
    hide Users;
    if !s.handles[h].expired {
      var s' := CloseHandle(s, h);
      forall f: nat ensures CountOf(s'.counts, f) == Tally(s'.handles, f) {
        UsersClose(s.handles, h, f, false);
        UsersClose(s.handles, h, f, true);
        assert CountOf(s.counts, f) == Tally(s.handles, f);
      }
    }
  }

  lemma OpenOk(s: State, h: nat, w: World, names: seq<string>, m: Mode)
    requires Inv(s) && h !in s.handles && WorldOk(w)
    ensures Inv(Step(s, OpenPath(h, w, names, m)))
  {
    hide Users, Open;
    OpenAccounts(w, s.counts, names, m);
    var o := Open(w, s.counts, names, m);
    var s' := Step(s, OpenPath(h, w, names, m));
    forall f: nat ensures CountOf(s'.counts, f) == Tally(s'.handles, f) {
      assert CountOf(s.counts, f) == Tally(s.handles, f);
      if o.file.Ok? {
        UsersOpen(s.handles, h, Handle(o.file.value, m, false), f, false);
        UsersOpen(s.handles, h, Handle(o.file.value, m, false), f, true);
      }
    }
  }

  lemma MoveOk(s: State, h: nat, from: nat)
    requires Inv(s) && h in s.handles && from in s.handles && h != from && s.handles[h].expired
    ensures Inv(s.(handles := s.handles[from := s.handles[from].(expired := true)][h := s.handles[from]]))
  {
    hide Users;
    forall f: nat
      ensures CountOf(s.counts, f) ==
              Tally(s.handles[from := s.handles[from].(expired := true)][h := s.handles[from]], f)
    {
      UsersMove(s.handles, h, from, f, false);
      UsersMove(s.handles, h, from, f, true);
    }
  }

  lemma SameLive(s: State, s': State)
    requires Inv(s) && s'.counts == s.counts
    requires forall f: nat, write :: Users(s'.handles, f, write) == Users(s.handles, f, write)
    ensures Inv(s')
  {
  }

  lemma StepOk(s: State, op: Op)
    requires Inv(s) && Enabled(s, op)
    ensures Inv(Step(s, op))
  {
    match op
    case Create(h, junk) =>
      SameLive(s, Step(s, op));
    case OpenPath(h, w, names, m) => OpenOk(s, h, w, names, m);
    case MoveAssign(h, from) =>
      CloseOk(s, h);
      if h == from {
        SameLive(CloseHandle(s, h), Step(s, op));
      } else {
        MoveOk(CloseHandle(s, h), h, from);
      }
    case Close(h) => CloseOk(s, h);
    case Destroy(h) =>
      CloseOk(s, h);
      SameLive(CloseHandle(s, h), Step(s, op));
  }

  /** Closing a closed handle changes nothing. */
  lemma CloseTwice(s: State, h: nat)
    requires h in s.handles
    ensures CloseHandle(CloseHandle(s, h), h) == CloseHandle(s, h)
  {
  }

  // ---------------------------------------------------------------- sharing

  lemma ObjectionGrows(a: Attributes, c: Count, c': Count, m: Mode)
    requires c.read <= c'.read && c.write <= c'.write && Objection(a, c', m).None?
    ensures Objection(a, c, m).None?
  {
  }

  /** An open that succeeds had nothing said against it by the counts it started from. */
  lemma OpenPassed(w: World, cs: Counts, names: seq<string>, m: Mode)
    requires WorldOk(w)
    ensures var o := Open(w, cs, names, m);
            o.file.Ok? ==> o.file.value in w.attr && Objection(w.attr[o.file.value], CountOf(cs, o.file.value), m).None?
  {
    if names != [] && Open(w, cs, names, m).file.Ok? {
      var r := TryOpen(w, cs, w.root, RO);
      assert OneMore(cs, r.counts, w.root, RO);
      var p := WalkDirs(w, r.counts, w.root, names[..|names| - 1]);
      WalkDirsAccounts(cs, w, r.counts, w.root, names[..|names| - 1]);
      var f := w.child[(p.file.value, names[|names| - 1])];
      ObjectionGrows(w.attr[f], CountOf(cs, f), CountOf(p.counts, f), m);
    }
  }

  predicate LevelOk(level: OpenLevel, n: nat) { (level.Block? ==> n == 0) && (level.Single? ==> n <= 1) }

  ghost predicate LevelsOk(hs: map<nat, Handle>, attr: map<nat, Attributes>) {
    forall f | f in attr ::
      LevelOk(attr[f].readLevel, |Users(hs, f, false)|) && LevelOk(attr[f].writeLevel, |Users(hs, f, true)|)
  }

  /** On an exclusive file, whoever reads and whoever writes are one and the same handle. */
  ghost predicate ExclusiveOk(hs: map<nat, Handle>, attr: map<nat, Attributes>) {
    forall f, h, k | f in attr && attr[f].exclusive && h in Users(hs, f, false) && k in Users(hs, f, true) :: h == k
  }

  ghost predicate Sharing(s: State, attr: map<nat, Attributes>) {
    Inv(s) && LevelsOk(s.handles, attr) && ExclusiveOk(s.handles, attr)
  }

  /** Handles that close, or stay closed, disturb nothing. */
  lemma FewerUsers(hs: map<nat, Handle>, hs': map<nat, Handle>, attr: map<nat, Attributes>)
    requires LevelsOk(hs, attr) && ExclusiveOk(hs, attr)
    requires forall f: nat, write :: Users(hs', f, write) <= Users(hs, f, write)
    ensures LevelsOk(hs', attr) && ExclusiveOk(hs', attr)
  {
    hide Users;
    forall f | f in attr
      ensures LevelOk(attr[f].readLevel, |Users(hs', f, false)|) && LevelOk(attr[f].writeLevel, |Users(hs', f, true)|)
    {
      SubsetSize(Users(hs', f, false), Users(hs, f, false));
      SubsetSize(Users(hs', f, true), Users(hs, f, true));
    }
  }

  lemma OpenSharing(s: State, attr: map<nat, Attributes>, h: nat, w: World, names: seq<string>, m: Mode)
    requires Sharing(s, attr) && h !in s.handles && WorldOk(w) && w.attr == attr
    ensures Sharing(Step(s, OpenPath(h, w, names, m)), attr)
  {
    hide Users, Open;
    OpenOk(s, h, w, names, m);
    OpenPassed(w, s.counts, names, m);
    var o := Open(w, s.counts, names, m);
    if o.file.Ok? {
      var g, v := o.file.value, Handle(o.file.value, m, false);
      var hs' := s.handles[h := v];
      assert CountOf(s.counts, g) == Tally(s.handles, g);
      forall f | f in attr
        ensures LevelOk(attr[f].readLevel, |Users(hs', f, false)|) && LevelOk(attr[f].writeLevel, |Users(hs', f, true)|)
      {
        UsersOpen(s.handles, h, v, f, false);
        UsersOpen(s.handles, h, v, f, true);
      }
      OpenExclusive(s.handles, attr, h, v);
    }
  }

  lemma OpenExclusive(hs: map<nat, Handle>, attr: map<nat, Attributes>, h: nat, v: Handle)
    requires ExclusiveOk(hs, attr) && h !in hs && v.file in attr
    requires attr[v.file].exclusive && v.mode.read ==> Users(hs, v.file, true) == {}
    requires attr[v.file].exclusive && v.mode.write ==> Users(hs, v.file, false) == {}
    ensures ExclusiveOk(hs[h := v], attr)
  {
    var hs' := hs[h := v];
    forall f, i, k | f in attr && attr[f].exclusive && i in Users(hs', f, false) && k in Users(hs', f, true)
      ensures i == k
    {
      if i != h { assert i in Users(hs, f, false); }
      if k != h { assert k in Users(hs, f, true); }
    }
  }

  lemma MoveSharing(s: State, attr: map<nat, Attributes>, h: nat, from: nat)
    requires Sharing(s, attr) && h in s.handles && from in s.handles && h != from && s.handles[h].expired
    ensures Sharing(s.(handles := s.handles[from := s.handles[from].(expired := true)][h := s.handles[from]]), attr)
  {
    var hs' := s.handles[from := s.handles[from].(expired := true)][h := s.handles[from]];
    MoveOk(s, h, from);
    forall f, i, k | f in attr && attr[f].exclusive && i in Users(hs', f, false) && k in Users(hs', f, true)
      ensures i == k
    {
      assert (if i == h then from else i) in Users(s.handles, f, false);
      assert (if k == h then from else k) in Users(s.handles, f, true);
    }
    hide Users;
    forall f | f in attr
      ensures LevelOk(attr[f].readLevel, |Users(hs', f, false)|) && LevelOk(attr[f].writeLevel, |Users(hs', f, true)|)
    {
      UsersMove(s.handles, h, from, f, false);
      UsersMove(s.handles, h, from, f, true);
    }
  }

  lemma CloseSharing(s: State, attr: map<nat, Attributes>, h: nat)
    requires Sharing(s, attr) && h in s.handles
    ensures Sharing(CloseHandle(s, h), attr)
  {
    CloseOk(s, h);
    FewerUsers(s.handles, CloseHandle(s, h).handles, attr);
  }

  lemma StepSharing(s: State, attr: map<nat, Attributes>, op: Op)
    requires Sharing(s, attr) && Enabled(s, op) && (op.OpenPath? ==> op.world.attr == attr)
    ensures Sharing(Step(s, op), attr)
  {
    StepOk(s, op);
    hide LevelsOk, ExclusiveOk, Open;
    match op
    case Create(h, junk) => FewerUsers(s.handles, Step(s, op).handles, attr);
    case OpenPath(h, w, names, m) => OpenSharing(s, attr, h, w, names, m);
    case MoveAssign(h, from) =>
      CloseSharing(s, attr, h);
      CloseOk(s, h);
      if h == from {
        FewerUsers(CloseHandle(s, h).handles, Step(s, op).handles, attr);
      } else {
        MoveSharing(CloseHandle(s, h), attr, h, from);
      }
    case Close(h) => CloseSharing(s, attr, h);
    case Destroy(h) =>
      CloseSharing(s, attr, h);
      FewerUsers(CloseHandle(s, h).handles, Step(s, op).handles, attr);
  }

  // -------------------------------------------------------------------- runs

  ghost predicate Admissible(s: State, attr: map<nat, Attributes>, ops: seq<Op>)
    decreases |ops|
  {
    ops == [] || (Enabled(s, ops[0]) && (ops[0].OpenPath? ==> ops[0].world.attr == attr) &&
        Admissible(Step(s, ops[0]), attr, ops[1..]))
  }

  ghost function Run(s: State, attr: map<nat, Attributes>, ops: seq<Op>): State
    requires Admissible(s, attr, ops)
    decreases |ops|
  {
    if ops == [] then s else Run(Step(s, ops[0]), attr, ops[1..])
  }

  lemma {:induction false} RunSharing(s: State, attr: map<nat, Attributes>, ops: seq<Op>)
    requires Sharing(s, attr) && Admissible(s, attr, ops)
    ensures Sharing(Run(s, attr, ops), attr)
    decreases |ops|
  {
    hide Sharing, Step, Enabled;
    if ops != [] {
      StepSharing(s, attr, ops[0]);
      RunSharing(Step(s, ops[0]), attr, ops[1..]);
    }
  }

  /**
   After any run from no handles at all: each count is the number of live
   handles of that mode; and a file that is exclusive and single-level both
   ways has at most one live handle on it.
   */
  lemma CountsAndSharing(attr: map<nat, Attributes>, ops: seq<Op>, f: nat, h: nat, k: nat)
    requires Admissible(State(map[], map[]), attr, ops)
    ensures var s := Run(State(map[], map[]), attr, ops);
            && CountOf(s.counts, f) == Tally(s.handles, f)
            && var users := Users(s.handles, f, false) + Users(s.handles, f, true);
               (f in attr && attr[f] == Attributes(Single, Single, true) && h in users && k in users ==> h == k)
  {
    var s0 := State(map[], map[]);
    assert Sharing(s0, attr) by {
      forall g: nat, write ensures Users(s0.handles, g, write) == {} {}
    }
    RunSharing(s0, attr, ops);
    var s := Run(s0, attr, ops);
    hide Users, Run, Admissible;
    if f in attr && attr[f] == Attributes(Single, Single, true) {
      AtMostOne(Users(s.handles, f, false), h, k);
      AtMostOne(Users(s.handles, f, true), h, k);
    }
  }

  /** After any run an open is granted exactly when the live handles leave room for it. */
  lemma OpensExactly(w: World, ops: seq<Op>, f: nat, m: Mode)
    requires Admissible(State(map[], map[]), w.attr, ops) && f in w.attr
    ensures var s, a := Run(State(map[], map[]), w.attr, ops), w.attr[f];
            var readers, writers := Users(s.handles, f, false), Users(s.handles, f, true);
            TryOpen(w, s.counts, f, m).file.Ok? <==>
            && (m.read ==>
                  && !a.readLevel.Block? && (a.readLevel.Single? ==> readers == {})
                  && (a.exclusive ==> writers == {}))
            && (m.write ==>
                  && !a.writeLevel.Block? && (a.writeLevel.Single? ==> writers == {})
                  && (a.exclusive ==> readers == {}))
  {
    CountsAndSharing(w.attr, ops, f, 0, 0);
    hide Users, Run, Admissible;
  }

  lemma AtMostOne(a: set<nat>, h: nat, k: nat)
    requires |a| <= 1
    ensures h in a && k in a ==> h == k
  {
    if h in a && k in a && h != k {
      SubsetSize({h, k}, a);
    }
  }
}
