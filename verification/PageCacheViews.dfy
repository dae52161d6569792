/**
 Any number of views of one medium (a disk handle, handles on its partitions)
 used in any order: every successful read and write is explained by one flat
 array of bytes shared by all of them.
 */
module PageCacheViews {
  import opened Collections
  import opened Fat
  import opened FatLayout
  import opened PageCache
  import opened PageCacheExact

  /** `turns` is what happens to the pages of the range that are absent. */
  datatype Op =
    | ReadOp(view: nat, offset: nat, size: nat, turns: seq<Turn>)
    | WriteOp(view: nat, offset: nat, data: seq<Byte>, turns: seq<Turn>)

  function Length(op: Op): nat { if op.ReadOp? then op.size else |op.data| }

  predicate OpOk(op: Op) { TurnsOk(op.turns) && |op.turns| == Span(op.offset, Length(op)) }

  /** Nothing can go wrong with the operation, whatever is cached. */
  ghost predicate Untroubled(view: FileOperator, op: Op)
    requires view.Aligned()
  {
    Length(op) > 0 ==>
      && op.offset + Length(op) <= view.filesize && Pow2(view.blocksizeExp) <= PAGE
      && (forall i | 0 <= i < |op.turns| :: op.turns[i].Works?)
      && forall p: nat | op.offset / PAGE <= p < Ceil(op.offset + Length(op), PAGE) && Loadable(view.AsView(), p) ::
           Readable(view.AsView(), p)
  }

  lemma UntroubledServes(view: FileOperator, cache: seq<CachePage>, op: Op)
    requires view.Aligned() && OpOk(op) && Untroubled(view, op) && Length(op) > 0
    ensures op.offset + Length(op) <= view.filesize
    ensures view.CanServe(cache, op.offset, Length(op), op.WriteOp?, op.turns)
  {
    hide Inside, Pow2, Readable;
    PageSpan(op.offset, Length(op));
    var begin, end := op.offset / PAGE, Ceil(op.offset + Length(op), PAGE);
    forall p: nat | begin <= p < end ensures Loadable(view.AsView(), p) {
      MulMonotone(p, end - 1, PAGE);
    }
  }

  datatype Outcome = Failed | Got(bytes: seq<Byte>) | Wrote

  /** The flat array after `data` has been written at `g`. */
  function Patched(flat: seq<Option<Byte>>, g: nat, data: seq<Byte>): (r: seq<Option<Byte>>)
    ensures |r| == |flat|
    ensures g + |data| <= |flat| ==>
              forall x | 0 <= x < |flat| :: r[x] == if g <= x < g + |data| then Some(data[x - g]) else flat[x]
  {
    if g + |data| <= |flat| then flat[..g] + Wrapped(data) + flat[g + |data|..] else flat
  }

  /** What an outcome says about the flat array at the time. */
  ghost predicate Honest(flat: seq<Option<Byte>>, bases: seq<nat>, op: Op, out: Outcome) {
    && op.view < |bases|
    && (out.Got? ==> op.ReadOp? && var g := bases[op.view] + op.offset;
                     |out.bytes| == op.size &&
                         (op.size > 0 ==> g + op.size <= |flat| && Wrapped(out.bytes) == flat[g..g + op.size]))
    && (op.WriteOp? ==> !out.Got?)
    && (out.Wrote? ==> op.WriteOp? && (op.data != [] ==> bases[op.view] + op.offset + |op.data| <= |flat|))
  }

  function Next(flat: seq<Option<Byte>>, bases: seq<nat>, op: Op, out: Outcome): (r: seq<Option<Byte>>)
    ensures |r| == |flat|
  {
    if out.Wrote? && op.WriteOp? && op.view < |bases| then Patched(flat, bases[op.view] + op.offset, op.data) else flat
  }

  /** The flat array after the first `k` operations. */
  function After(flat: seq<Option<Byte>>, bases: seq<nat>, ops: seq<Op>, outs: seq<Outcome>,
                 k: nat): (r: seq<Option<Byte>>)
    requires k <= |outs| <= |ops|
    ensures |r| == |flat|
  {
    if k == 0 then flat else Next(After(flat, bases, ops, outs, k - 1), bases, ops[k - 1], outs[k - 1])
  }

  function Final(flat: seq<Option<Byte>>, bases: seq<nat>, ops: seq<Op>, outs: seq<Outcome>): seq<Option<Byte>>
    requires |outs| <= |ops|
  {
    After(flat, bases, ops, outs, |outs|)
  }

  /** The outcomes of a whole run, explained on the flat array. */
  ghost predicate Explained(flat: seq<Option<Byte>>, bases: seq<nat>, ops: seq<Op>, outs: seq<Outcome>)
    requires |outs| <= |ops|
  {
    forall k | 0 <= k < |outs| :: Honest(After(flat, bases, ops, outs, k), bases, ops[k], outs[k])
  }

  lemma ExplainedNone(flat: seq<Option<Byte>>, bases: seq<nat>, ops: seq<Op>)
    ensures Explained(flat, bases, ops, []) && Final(flat, bases, ops, []) == flat
  {
  }

  lemma {:induction false} AfterPrefix(flat: seq<Option<Byte>>, bases: seq<nat>, ops: seq<Op>, outs: seq<Outcome>,
                                       out: Outcome, k: nat)
    requires k <= |outs| < |ops|
    ensures After(flat, bases, ops, outs + [out], k) == After(flat, bases, ops, outs, k)
  {
    if k > 0 {
      AfterPrefix(flat, bases, ops, outs, out, k - 1);
    }
  }

  lemma {:induction false} AfterUnfolds(flat: seq<Option<Byte>>, bases: seq<nat>, ops: seq<Op>, outs: seq<Outcome>,
                                        k: nat)
    requires 0 < k <= |outs| <= |ops|
    ensures After(flat, bases, ops, outs, k) ==
            Next(After(flat, bases, ops, outs, k - 1), bases, ops[k - 1], outs[k - 1])
  {
  }

  lemma ExplainedMore(flat: seq<Option<Byte>>, bases: seq<nat>, ops: seq<Op>, outs: seq<Outcome>, out: Outcome)
    requires |outs| < |ops| && Explained(flat, bases, ops, outs)
    requires Honest(Final(flat, bases, ops, outs), bases, ops[|outs|], out)
    ensures Explained(flat, bases, ops, outs + [out])
    ensures Final(flat, bases, ops, outs + [out]) == Next(Final(flat, bases, ops, outs), bases, ops[|outs|], out)
  {
    hide Honest, Next, After;
    var more := outs + [out];
    forall k | 0 <= k < |more|
      ensures Honest(After(flat, bases, ops, more, k), bases, ops[k], more[k])
    {
      AfterPrefix(flat, bases, ops, outs, out, k);
    }
    AfterPrefix(flat, bases, ops, outs, out, |outs|);
    AfterUnfolds(flat, bases, ops, more, |outs| + 1);
  }

  ghost predicate Shared(store: Store, views: seq<FileOperator>)
    reads store
  {
    && MediumOk(store.medium) && CacheOk(store.cache)
    && forall i | 0 <= i < |views| :: views[i].store == store && views[i].Aligned()
  }

  ghost predicate HandlesFit(store: Store, handles: seq<HandleData>) {
    && MediumOk(store.medium)
    && (store.medium.FatFile? ==>
          forall i | 0 <= i < |handles| :: HandleOk(store.medium.volume, store.medium.start, handles[i]))
  }

  ghost function Bases(views: seq<FileOperator>): (r: seq<nat>)
    ensures |r| == |views| && forall i | 0 <= i < |views| :: r[i] == views[i].Base()
  {
    seq(|views|, i requires 0 <= i < |views| => views[i].Base())
  }

  lemma ReadIsHonest(m: Medium, before: seq<CachePage>, after: seq<CachePage>, bases: seq<nat>, op: Op,
                     data: seq<Byte>, buffer: seq<Byte>)
    requires MediumOk(m) && CacheOk(before) && CacheOk(after) && op.ReadOp? && op.view < |bases| && |buffer| == op.size
    requires op.size > 0 ==> ReadEffect(m, before, after, bases[op.view] + op.offset, op.size, data, buffer)
    requires op.size == 0 ==> after == before
    ensures Honest(Flat(m, before), bases, op, Got(buffer))
    ensures Flat(m, after) == Next(Flat(m, before), bases, op, Got(buffer))
  {
    assert buffer[..op.size] == buffer;
  }

  lemma WriteIsHonest(m: Medium, before: seq<CachePage>, after: seq<CachePage>, bases: seq<nat>, op: Op)
    requires MediumOk(m) && CacheOk(before) && CacheOk(after) && op.WriteOp? && op.view < |bases|
    requires |op.data| > 0 ==> WriteEffect(m, before, after, bases[op.view] + op.offset, |op.data|, op.data)
    requires |op.data| == 0 ==> after == before
    ensures Honest(Flat(m, before), bases, op, Wrote)
    ensures Flat(m, after) == Next(Flat(m, before), bases, op, Wrote)
  {
    hide Flat, MediumOk, CacheOk, Patched;
    assert op.data[..|op.data|] == op.data;
    PatchedIs(Flat(m, before), bases[op.view] + op.offset, op.data);
  }

  lemma PatchedIs(flat: seq<Option<Byte>>, g: nat, data: seq<Byte>)
    ensures g + |data| <= |flat| ==> Patched(flat, g, data) == flat[..g] + Wrapped(data) + flat[g + |data|..]
    ensures data == [] ==> Patched(flat, g, data) == flat
  {
  }

  lemma FailedIsHonest(flat: seq<Option<Byte>>, bases: seq<nat>, op: Op)
    requires op.view < |bases|
    ensures Honest(flat, bases, op, Failed) && Next(flat, bases, op, Failed) == flat
  {
  }

  method NewBuffer(data: seq<Byte>) returns (buffer: array<Byte>)
    ensures fresh(buffer) && buffer[..] == data
  {
    buffer := new Byte[|data|](i requires 0 <= i < |data| => data[i]);
  }

  method PerformRead(store: Store, view: FileOperator, h: HandleData, op: Op, ghost bases: seq<nat>)
    returns (out: Outcome, h': HandleData)
    requires view.store == store && view.Valid() && view.HandleFits(h)
    requires op.ReadOp? && OpOk(op) && op.view < |bases| && bases[op.view] == view.Base()
    modifies store`cache
    ensures view.Valid() && view.HandleFits(h')
    ensures Honest(Flat(store.medium, old(store.cache)), bases, op, out)
    ensures Flat(store.medium, store.cache) == Next(Flat(store.medium, old(store.cache)), bases, op, out)
    ensures Untroubled(view, op) ==> !out.Failed?
  {
    var buffer := NewBuffer(seq(op.size, _ => 0));
    ghost var before, data := store.cache, buffer[..];
    var r;
    if Untroubled(view, op) && op.size > 0 { UntroubledServes(view, store.cache, op); }
    r, h' := view.Copy(h, op.offset, op.size, buffer, false, op.turns);
    hide MediumOk, CacheOk, HandleOk, Flat, ReadEffect, Untroubled;
    if r.Err? {
      return Failed, h';
    }
    out := Got(buffer[..]);
    ReadIsHonest(store.medium, before, store.cache, bases, op, data, buffer[..]);
  }

  /** A write that may spoil pages if it fails. */
  predicate Risky(view: FileOperator, cache: seq<CachePage>, op: Op)
    requires view.Aligned()
  {
    && op.WriteOp? && op.data != [] && op.offset + |op.data| <= view.filesize
    && (PageSpan(op.offset, |op.data|);
        Spoilable(view.AsView(), cache, op.offset / PAGE, Ceil(op.offset + |op.data|, PAGE)))
  }

  method PerformWrite(store: Store, view: FileOperator, h: HandleData, op: Op, ghost bases: seq<nat>)
    returns (out: Outcome, h': HandleData)
    requires view.store == store && view.Valid() && view.HandleFits(h)
    requires op.WriteOp? && OpOk(op) && op.view < |bases| && bases[op.view] == view.Base()
    modifies store`cache
    ensures view.Valid() && view.HandleFits(h')
    ensures Honest(Flat(store.medium, old(store.cache)), bases, op, out)
    ensures out.Wrote? || !Risky(view, old(store.cache), op) ==>
              Flat(store.medium, store.cache) == Next(Flat(store.medium, old(store.cache)), bases, op, out)
    ensures Untroubled(view, op) ==> !out.Failed?
  {
    var buffer := NewBuffer(op.data);
    ghost var before := store.cache;
    var r;
    hide MediumOk, CacheOk, HandleOk, Flat, WriteEffect, AlignedView, Leaves, Spoilable, Untroubled, TurnsOk, Inside,
        Pow2, Servable, Next;
    if Untroubled(view, op) && op.data != [] { UntroubledServes(view, store.cache, op); }
    r, h' := view.Copy(h, op.offset, |op.data|, buffer, true, op.turns);
    FailedIsHonest(Flat(store.medium, before), bases, op);
    if r.Err? {
      if op.data != [] && op.offset + |op.data| <= view.filesize && !Risky(view, before, op) {
        FailureSpares(view.AsView(), before, op.offset / PAGE, Ceil(op.offset + |op.data|, PAGE), op.turns, store.cache,
            r.error);
      }
      return Failed, h';
    }
    out := Wrote;
    WriteIsHonest(store.medium, before, store.cache, bases, op);
  }

  /** One operation through one view. */
  method Perform(store: Store, views: seq<FileOperator>, handles: seq<HandleData>, op: Op)
    returns (out: Outcome, handles': seq<HandleData>)
    requires Shared(store, views) && |handles| == |views| && HandlesFit(store, handles) && op.view < |views| && OpOk(op)
    modifies store`cache
    ensures Shared(store, views) && |handles'| == |views| && HandlesFit(store, handles')
    ensures Honest(Flat(store.medium, old(store.cache)), Bases(views), op, out)
    ensures out.Wrote? || !Risky(views[op.view], old(store.cache), op) ==>
              Flat(store.medium, store.cache) == Next(Flat(store.medium, old(store.cache)), Bases(views), op, out)
    ensures Untroubled(views[op.view], op) ==> !out.Failed?
  {
    var view := views[op.view];
    var h;
    hide MediumOk, CacheOk, HandleOk, Honest, Flat, Next, Untroubled, OpOk;
    if op.ReadOp? {
      out, h := PerformRead(store, view, handles[op.view], op, Bases(views));
    } else {
      out, h := PerformWrite(store, view, handles[op.view], op, Bases(views));
    }
    handles' := handles[op.view := h];
  }

  /** No operation that nothing troubles has failed. */
  ghost predicate Unfailing(views: seq<FileOperator>, ops: seq<Op>, outs: seq<Outcome>)
    requires |outs| <= |ops| && forall k | 0 <= k < |ops| :: ops[k].view < |views| && views[ops[k].view].Aligned()
  {
    forall k | 0 <= k < |outs| :: Untroubled(views[ops[k].view], ops[k]) ==> !outs[k].Failed?
  }

  lemma UnfailingNone(views: seq<FileOperator>, ops: seq<Op>)
    requires forall k | 0 <= k < |ops| :: ops[k].view < |views| && views[ops[k].view].Aligned()
    ensures Unfailing(views, ops, [])
  {
  }

  lemma UnfailingMore(views: seq<FileOperator>, ops: seq<Op>, outs: seq<Outcome>, out: Outcome)
    requires |outs| < |ops| && forall k | 0 <= k < |ops| :: ops[k].view < |views| && views[ops[k].view].Aligned()
    requires Unfailing(views, ops, outs) && (Untroubled(views[ops[|outs|].view], ops[|outs|]) ==> !out.Failed?)
    ensures Unfailing(views, ops, outs + [out])
  {
    hide Untroubled;
  }

  /**
   Any interleaving: all outcomes are explained by the flat array, which is what
   the cache then shows through every view.  The run ends early only if a write
   fails that may spoil pages of the cache as it was then (`last`), and an
   operation that nothing troubles does not fail.
   */
  method RunAll(store: Store, views: seq<FileOperator>, handles0: seq<HandleData>, ops: seq<Op>)
    returns (outs: seq<Outcome>, ghost last: seq<CachePage>)
    requires Shared(store, views) && |handles0| == |views| && HandlesFit(store, handles0)
    requires forall k | 0 <= k < |ops| :: ops[k].view < |views| && OpOk(ops[k])
    modifies store`cache
    ensures Shared(store, views) && |outs| <= |ops| && CacheOk(last)
    ensures Explained(Flat(store.medium, old(store.cache)), Bases(views), ops, outs)
    ensures Flat(store.medium, last) == Final(Flat(store.medium, old(store.cache)), Bases(views), ops, outs)
    ensures |outs| == |ops| ==> last == store.cache
    ensures |outs| < |ops| ==> Risky(views[ops[|outs|].view], last, ops[|outs|])
    ensures |outs| < |ops| ==> !Untroubled(views[ops[|outs|].view], ops[|outs|])
    ensures Unfailing(views, ops, outs)
  {
    outs, last := [], store.cache;
    var handles := handles0;
    ghost var flat := Flat(store.medium, store.cache);
    hide Honest, Next, Flat, CacheOk, Risky, Untroubled, OpOk, Explained, MediumOk, HandleOk, AlignedView, After,
        Unfailing;
    ExplainedNone(flat, Bases(views), ops);
    UnfailingNone(views, ops);
    while |outs| < |ops|
      invariant |outs| <= |ops| && Shared(store, views) && |handles| == |views| && HandlesFit(store, handles)
      invariant Explained(flat, Bases(views), ops, outs)
      invariant Unfailing(views, ops, outs)
      invariant last == store.cache && Flat(store.medium, last) == Final(flat, Bases(views), ops, outs)
      decreases |ops| - |outs|
    {
      var op := ops[|outs|];
      var risky := Risky(views[op.view], store.cache, op);
      var out;
      out, handles := Perform(store, views, handles, op);
      if risky && !out.Wrote? {
        return;
      }
      ExplainedMore(flat, Bases(views), ops, outs, out);
      UnfailingMore(views, ops, outs, out);
      outs, last := outs + [out], store.cache;
    }
  }

  // ------------------------------------------------------- what a reader sees

  /** Operation `k` wrote byte `x` of the medium, through whichever view. */
  predicate Writes(bases: seq<nat>, ops: seq<Op>, outs: seq<Outcome>, k: nat, x: nat)
    requires k < |outs| <= |ops|
  {
    && outs[k].Wrote? && ops[k].WriteOp? && ops[k].view < |bases|
    && bases[ops[k].view] + ops[k].offset <= x < bases[ops[k].view] + ops[k].offset + |ops[k].data|
  }

  /** The last write of byte `x` before operation `k`. */
  function Latest(bases: seq<nat>, ops: seq<Op>, outs: seq<Outcome>, k: nat, x: nat): (r: Option<nat>)
    requires k <= |outs| <= |ops|
    ensures r.Some? ==> r.value < k && Writes(bases, ops, outs, r.value, x)
    ensures forall j: nat | (if r.Some? then r.value else -1) < j < k :: !Writes(bases, ops, outs, j, x)
  {
    if k == 0 then None
    else if Writes(bases, ops, outs, k - 1, x) then Some(k - 1)
    else Latest(bases, ops, outs, k - 1, x)
  }

  /** What byte `x` holds before operation `k`: the last byte written there, or what it was at first. */
  function Standing(flat: seq<Option<Byte>>, bases: seq<nat>, ops: seq<Op>, outs: seq<Outcome>, k: nat,
                    x: nat): Option<Byte>
    requires k <= |outs| <= |ops| && x < |flat|
  {
    match Latest(bases, ops, outs, k, x)
    case None => flat[x]
    case Some(j) => Some(ops[j].data[x - bases[ops[j].view] - ops[j].offset])
  }

  /** One operation changes exactly the bytes it writes. */
  lemma NextAt(flat: seq<Option<Byte>>, bases: seq<nat>, ops: seq<Op>, outs: seq<Outcome>, k: nat, x: nat)
    requires k < |outs| <= |ops| && x < |flat| && Honest(flat, bases, ops[k], outs[k])
    ensures Next(flat, bases, ops[k], outs[k])[x] ==
            if Writes(bases, ops, outs, k, x) then Some(ops[k].data[x - bases[ops[k].view] - ops[k].offset])
            else flat[x]
  {
  }

  lemma {:induction false} AfterIsStanding(flat: seq<Option<Byte>>, bases: seq<nat>, ops: seq<Op>, outs: seq<Outcome>,
                                           k: nat, x: nat)
    requires k <= |outs| <= |ops| && x < |flat| && Explained(flat, bases, ops, outs)
    ensures After(flat, bases, ops, outs, k)[x] == Standing(flat, bases, ops, outs, k, x)
  {
    hide Honest, Next, Writes;
    if k > 0 {
      AfterIsStanding(flat, bases, ops, outs, k - 1, x);
      NextAt(After(flat, bases, ops, outs, k - 1), bases, ops, outs, k - 1, x);
    }
  }

  /** Every byte a read returns is the last one written there through any view, or else the medium's. */
  lemma ReadsSeeLatestWrite(flat: seq<Option<Byte>>, bases: seq<nat>, ops: seq<Op>, outs: seq<Outcome>, k: nat, i: nat)
    requires |outs| <= |ops| && Explained(flat, bases, ops, outs) && k < |outs| && outs[k].Got? && i < |outs[k].bytes|
    ensures ops[k].view < |bases| && bases[ops[k].view] + ops[k].offset + i < |flat|
    ensures Some(outs[k].bytes[i]) == Standing(flat, bases, ops, outs, k, bases[ops[k].view] + ops[k].offset + i)
  {
    var seen := After(flat, bases, ops, outs, k);
    assert Honest(seen, bases, ops[k], outs[k]);
    var g := bases[ops[k].view] + ops[k].offset;
    AfterIsStanding(flat, bases, ops, outs, k, g + i);
    assert Wrapped(outs[k].bytes)[i] == seen[g..g + ops[k].size][i];
  }

  /**
   A partition's byte x is the disk's byte first_sector * sector_size + x: a read
   through one and a later read of the same bytes through the other return the
   same, unless a write through some view changed them in between.
   */
  lemma ViewsCohere(views: seq<FileOperator>, flat: seq<Option<Byte>>, ops: seq<Op>, outs: seq<Outcome>, part: nat,
                    disk: nat, a: nat, b: nat)
    requires part < |views| && disk < |views| && views[part].Aligned() && views[disk].firstBlock == 0
    requires views[disk].Aligned()
    requires |outs| <= |ops| && Explained(flat, Bases(views), ops, outs) && a < |outs| && b < |outs| && outs[a].Got?
    requires outs[b].Got?
    requires ops[a].view == part && ops[b].view == disk && ops[a].size == ops[b].size
    requires ops[b].offset == views[part].firstBlock * Pow2(views[part].blocksizeExp) + ops[a].offset
    requires forall j: nat, x: nat | Between(a, j, b) && ops[b].offset <= x < ops[b].offset + ops[b].size ::
             !Writes(Bases(views), ops, outs, j, x)
    ensures outs[a].bytes == outs[b].bytes
  {
    hide Honest, Standing;
    var bases := Bases(views);
    assert bases[part] == views[part].firstBlock * Pow2(views[part].blocksizeExp) && bases[disk] == 0;
    assert |outs[a].bytes| == |outs[b].bytes| by {
      GotSize(flat, bases, ops, outs, a);
      GotSize(flat, bases, ops, outs, b);
    }
    forall i | 0 <= i < |outs[a].bytes|
      ensures outs[a].bytes[i] == outs[b].bytes[i]
    {
      GotSize(flat, bases, ops, outs, b);
      ReadsSeeLatestWrite(flat, bases, ops, outs, a, i);
      ReadsSeeLatestWrite(flat, bases, ops, outs, b, i);
      var x := ops[b].offset + i;
      Unwritten(flat, bases, ops, outs, a, b, x);
    }
  }

  predicate Between(a: nat, j: nat, b: nat) {
    a <= j < b || b <= j < a
  }

  lemma GotSize(flat: seq<Option<Byte>>, bases: seq<nat>, ops: seq<Op>, outs: seq<Outcome>, k: nat)
    requires |outs| <= |ops| && Explained(flat, bases, ops, outs) && k < |outs| && outs[k].Got?
    ensures ops[k].ReadOp? && |outs[k].bytes| == ops[k].size
  {
    assert Honest(After(flat, bases, ops, outs, k), bases, ops[k], outs[k]);
  }

  lemma {:induction false} Unwritten(flat: seq<Option<Byte>>, bases: seq<nat>, ops: seq<Op>, outs: seq<Outcome>,
                                     a: nat, b: nat, x: nat)
    requires a <= |outs| && b <= |outs| <= |ops| && x < |flat|
    requires forall j: nat | Between(a, j, b) :: !Writes(bases, ops, outs, j, x)
    ensures Standing(flat, bases, ops, outs, a, x) == Standing(flat, bases, ops, outs, b, x)
    decreases a + b
  {
    if a < b {
      assert Between(a, b - 1, b);
      Unwritten(flat, bases, ops, outs, a, b - 1, x);
    } else if b < a {
      assert Between(a, a - 1, b);
      Unwritten(flat, bases, ops, outs, a - 1, b, x);
    }
  }

  // --------------------------------------------------------------- FAT files

  /** An empty cache shows the medium itself. */
  lemma FreshShowsMedium(m: Medium, x: nat)
    requires MediumOk(m) && x < MediumSize(m)
    ensures Flat(m, [])[x] == MediumByte(m, x)
  {
  }

  /**
   Over any run of reads of a FAT file, whatever was read before on the handle,
   a successful read returns the bytes of the clusters along the file's chain
   (`MediumByte` of a FAT file is the byte of the cluster the chain puts there).
   */
  lemma ReadsFollowTheChain(m: Medium, bases: seq<nat>, ops: seq<Op>, outs: seq<Outcome>, k: nat, i: nat)
    requires m.FatFile? && MediumOk(m) && (forall j | 0 <= j < |ops| :: ops[j].ReadOp?)
    requires |outs| <= |ops| && Explained(Flat(m, []), bases, ops, outs) && k < |outs| && outs[k].Got?
    requires i < |outs[k].bytes|
    requires forall j | 0 <= j < |bases| :: bases[j] == 0
    ensures MediumByte(m, ops[k].offset + i) == Some(outs[k].bytes[i])
  {
    hide MediumByte, MediumOk;
    ReadsSeeLatestWrite(Flat(m, []), bases, ops, outs, k, i);
    FreshShowsMedium(m, ops[k].offset + i);
  }

  /**
   A stored file comes back: when the file's clusters are chained in the table, over
   any run of reads a successful one returns the volume's bytes at their places, byte
   r of the q-th cluster for position q * size + r of the file.
   */
  lemma StoredFileComesBack(m: Medium, cs: seq<nat>, bases: seq<nat>, ops: seq<Op>, outs: seq<Outcome>, k: nat, i: nat,
                            q: nat, r: nat)
    requires m.FatFile? && MediumOk(m) && (forall j | 0 <= j < |ops| :: ops[j].ReadOp?)
    requires |outs| <= |ops| && Explained(Flat(m, []), bases, ops, outs) && k < |outs| && outs[k].Got?
    requires i < |outs[k].bytes| && forall j | 0 <= j < |bases| :: bases[j] == 0
    requires ChainStored(m.volume, cs) && cs[0] == m.start && Lie(m.volume, cs)
    requires q < |cs| && r < ClusterSize(m.volume.bpb) && ops[k].offset + i == q * ClusterSize(m.volume.bpb) + r
    ensures cs[q] >= 2 && ClusterStart(m.volume.bpb, cs[q]) + r < |m.volume.bytes|
    ensures outs[k].bytes[i] == m.volume.bytes[ClusterStart(m.volume.bpb, cs[q]) + r]
  {
    hide MediumByte, MediumOk, ClusterStart, ChainStored, ClusterSize, Lie, Explained, Flat;
    StoredByte(m, cs, ops[k].offset + i, q, r);
    ReadsFollowTheChain(m, bases, ops, outs, k, i);
  }

  lemma StoredByte(m: Medium, cs: seq<nat>, x: nat, q: nat, r: nat)
    requires m.FatFile? && MediumOk(m) && ChainStored(m.volume, cs) && cs[0] == m.start && Lie(m.volume, cs)
    requires q < |cs| && r < ClusterSize(m.volume.bpb) && x == q * ClusterSize(m.volume.bpb) + r
    ensures cs[q] >= 2 && ClusterStart(m.volume.bpb, cs[q]) + r < |m.volume.bytes|
    ensures MediumByte(m, x) == Some(m.volume.bytes[ClusterStart(m.volume.bpb, cs[q]) + r])
  {
    hide Block, ClusterStart, ClusterSize, Lie, BpbOk, ChainStored;
    DivMod(x, ClusterSize(m.volume.bpb), q, r);
    StoredBlock(m.volume, cs, q);
  }
}
