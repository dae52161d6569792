/**
 Whole runs of a virtqueue, the driver against any device that completes each
 published request at most once, in any order.
 */
module VirtqueueRuns {
  import opened Collections
  import opened Virtqueue

  /**
   The queue and its history: how many requests were handed out, with what
   lengths, and published, which were completed in which order and with what lengths, and
   how many of those completions the driver has read.
   */
  datatype System = System(
    q: Queue, handed: nat, asked: seq<nat>, published: nat, completed: seq<nat>, lens: seq<nat>, read: nat)

  datatype Step = Take(len: nat) | Notify | Complete(j: nat, len: nat) | Read

  predicate Returned(s: System, j: nat)
    requires s.read <= |s.completed|
  {
    j in s.completed[..s.read]
  }

  /** Handed out and not yet given back by read_one_buffer. */
  predicate Live(s: System, j: nat)
    requires s.read <= |s.completed|
  {
    j < s.handed && !Returned(s, j)
  }

  /**
   The driver reuses descriptors round and round, so a request may only be
   handed out once the one half a queue before it has been read.  The
   device completes published requests once.  Reading is modelled for the
   first 65536 completions.
   */
  predicate Enabled(s: System, step: Step)
    requires Basic(s)
  {
    match step
    case Take(_) => s.handed < s.q.size / 2 || !Live(s, s.handed - s.q.size / 2)
    case Notify => true
    case Complete(j, _) => j < s.published && j !in s.completed
    case Read => s.read < TWO16
  }

  function Next(s: System, step: Step): System
    requires Basic(s)
  {
    match step
    case Take(len) => s.(q := HandOut(s.q, len).0, handed := s.handed + 1, asked := s.asked + [len])
    case Notify => s.(q := Publish(s.q, s.q.added), published := s.handed)
    case Complete(j, len) =>
      s.(q := s.q.(used := s.q.used[s.q.usedIndex % s.q.size := Elem(Head(s.q.size, j), len)],
                   usedIndex := (s.q.usedIndex + 1) % TWO16),
         completed := s.completed + [j], lens := s.lens + [len])
    case Read => s.(q := ReadOne(s.q).0, read := if ReadOne(s.q).1.Nothing? then s.read else s.read + 1)
  }

  // --------------------------------------------------------------- invariant

  predicate Basic(s: System) { Shape(s.q) && s.read <= |s.completed| == |s.lens| && |s.asked| == s.handed }

  ghost predicate Counters(s: System) {
    && s.q.freeHead == 2 * s.handed % TWO32
    && s.published <= s.handed && s.q.added == s.handed - s.published
    && s.q.availIndex == s.published % TWO16
    && s.q.usedIndex == |s.completed| % TWO16
    && s.read <= TWO16 && s.q.lastUsed == s.read
  }

  ghost predicate Window(s: System)
    requires Basic(s)
  {
    && (forall j: nat | Live(s, j) :: s.handed <= j + s.q.size / 2)
    && NoDuplicates(s.completed)
    && (forall k | 0 <= k < |s.completed| :: s.completed[k] < s.published)
  }

  ghost predicate AvailHolds(q: Queue, k: nat)
    requires Shape(q)
  {
    q.avail[k % q.size] == Head(q.size, k)
  }

  /** The available ring lists the published requests in order, for a device up to a whole queue behind. */
  ghost predicate AvailOk(s: System)
    requires Basic(s)
  {
    forall k: nat | k < s.published && s.handed <= k + s.q.size :: AvailHolds(s.q, k)
  }

  ghost predicate ChainOk(q: Queue, i: nat) {
    && i + 1 < |q.desc| && q.desc[i].flags == NEXT && q.desc[i].next == i + 1 && q.desc[i + 1].flags == WRITE &&
        q.desc[i + 1].len == FRAME
  }

  ghost predicate Chains(s: System)
    requires Basic(s)
  {
    forall j: nat | j < s.published :: ChainOk(s.q, Head(s.q.size, j))
  }

  ghost predicate LengthHolds(s: System, j: nat)
    requires Basic(s) && j < s.handed
  {
    var i := Head(s.q.size, j);
    i < |s.q.desc| && s.q.desc[i].len == s.asked[j]
  }

  /** A live request's descriptor still has the length it was handed out with. */
  ghost predicate Lengths(s: System)
    requires Basic(s)
  {
    forall j: nat | Live(s, j) :: LengthHolds(s, j)
  }

  ghost predicate Addresses(q: Queue, first: nat) {
    forall i | 0 <= i < |q.desc| :: q.desc[i].addr == first + i * FRAME
  }

  ghost predicate UsedHolds(s: System, k: nat)
    requires Basic(s) && k < |s.completed|
  {
    s.q.used[k % s.q.size] == Elem(Head(s.q.size, s.completed[k]), s.lens[k])
  }

  ghost predicate UsedOk(s: System)
    requires Basic(s)
  {
    forall k: nat | s.read <= k < |s.completed| :: UsedHolds(s, k)
  }

  ghost predicate Inv(s: System, first: nat) {
    Basic(s) && Counters(s) && Window(s) && AvailOk(s) && Chains(s) && Addresses(s.q, first) && UsedOk(s) && Lengths(s)
  }

  function FreshDescriptor(size: nat, first: nat, i: nat): Descriptor {
    Descriptor(first + i * FRAME, FRAME, 0, if i + 1 != size then i + 1 else 0)
  }

  function Start(size: nat, first: nat): System
    requires SizeOk(size)
  {
    System(Queue(size, seq(size, i requires 0 <= i < size => FreshDescriptor(size, first, i)),
                 seq(size, _ => 0), 0, 0, 0, 0, seq(size, _ => Elem(0, 0)), 0),
           0, [], 0, [], [], 0)
  }

  lemma StartOk(size: nat, first: nat)
    requires SizeOk(size)
    ensures Inv(Start(size, first), first)
  {
  }

  // ------------------------------------------------------------ consequences

  /** Unread completions, unpublished requests: never more than half a queue. */
  lemma Bounds(s: System, first: nat)
    requires Inv(s, first)
    ensures |s.completed| - s.read <= s.q.size / 2
    ensures s.handed - s.published <= s.q.size / 2
    ensures forall k | s.read <= k < |s.completed| :: Live(s, s.completed[k])
  {
    hide AvailOk, Chains, Addresses, UsedOk;
    var h := s.q.size / 2;
    forall k | s.read <= k < |s.completed| ensures Live(s, s.completed[k]) {}
    var unread := s.completed[s.read..];
    forall x | x in unread ensures s.handed - h <= x < s.handed {
      var k :| 0 <= k < |unread| && unread[k] == x;
      assert s.completed[s.read + k] == x;
    }
    assert NoDuplicates(unread);
    DistinctInRange(unread, s.handed - h, s.handed);
    if s.published < s.handed { assert Live(s, s.published); }
  }

  // ------------------------------------------------------------------- steps

  lemma CounterUp(x: nat)
    ensures (2 * x % TWO32 + 2) % TWO32 == 2 * (x + 1) % TWO32
  {
  }

  lemma Up16(x: nat)
    ensures (x % TWO16 + 1) % TWO16 == (x + 1) % TWO16
  {
  }

  lemma HandOutShape(q: Queue, len: nat)
    requires Shape(q)
    ensures var q' := HandOut(q, len).0;
            && q'.size == q.size && q'.avail == q.avail && q'.availIndex == q.availIndex && q'.lastUsed == q.lastUsed
            && q'.used == q.used && q'.usedIndex == q.usedIndex && |q'.desc| == |q.desc|
            && q'.freeHead == (q.freeHead + 2) % TWO32 && q'.added == (q.added + 1) % TWO32
            && (forall i | 0 <= i < |q.desc| :: q'.desc[i] == q.desc[i].(len := q'.desc[i].len))
            && forall i | 0 <= i < |q.desc| && i != q.freeHead % q.size :: q'.desc[i] == q.desc[i]
  {
    hide SizeOk;
  }

  lemma TakeCounters(s: System, first: nat, len: nat)
    requires Inv(s, first)
    ensures Counters(Next(s, Take(len))) && Basic(Next(s, Take(len)))
  {
    hide Window, AvailOk, Chains, Addresses, UsedOk, HandOut;
    HandOutShape(s.q, len);
    Bounds(s, first);
    HalfDivides(s.q.size);
    CounterUp(s.handed);
  }

  lemma TakeWindow(s: System, first: nat, len: nat)
    requires Inv(s, first) && Enabled(s, Take(len)) && Basic(Next(s, Take(len)))
    ensures Window(Next(s, Take(len)))
  {
    hide Counters, AvailOk, Chains, Addresses, UsedOk, HandOut;
    HandOutShape(s.q, len);
    var s' := Next(s, Take(len));
    forall j: nat | Live(s', j) ensures s'.handed <= j + s.q.size / 2 { if j < s.handed { assert Live(s, j); } }
  }

  lemma TakeRings(s: System, first: nat, len: nat)
    requires Inv(s, first) && Basic(Next(s, Take(len)))
    ensures AvailOk(Next(s, Take(len))) && Chains(Next(s, Take(len))) && UsedOk(Next(s, Take(len)))
    ensures Addresses(Next(s, Take(len)).q, first)
  {
    hide Window, HandOut, Head, SizeOk, Lengths;
    HandOutShape(s.q, len);
    HeadFromCounter(s.q.size, s.handed);
    HeadsAreEven(s.q.size, s.handed);
    var s' := Next(s, Take(len));
    forall k: nat | k < s'.published && s'.handed <= k + s.q.size ensures AvailHolds(s'.q, k) {
      assert AvailHolds(s.q, k);
    }
    forall j: nat | j < s'.published ensures ChainOk(s'.q, Head(s.q.size, j)) {
      HeadsAreEven(s.q.size, j);
      assert ChainOk(s.q, Head(s.q.size, j));
    }
    forall k: nat | s.read <= k < |s.completed| ensures UsedHolds(s', k) { assert UsedHolds(s, k); }
  }

  lemma TakeLengths(s: System, first: nat, len: nat)
    requires Inv(s, first) && Enabled(s, Take(len)) && Basic(Next(s, Take(len))) && Window(Next(s, Take(len)))
    ensures Lengths(Next(s, Take(len)))
  {
    hide AvailOk, Chains, Addresses, UsedOk, Window, Head, SizeOk;
    HeadFromCounter(s.q.size, s.handed);
    var s' := Next(s, Take(len));
    forall j: nat | Live(s', j) ensures LengthHolds(s', j) {
      HeadFromCounter(s.q.size, j);
      if j < s.handed {
        assert Live(s, j) && LengthHolds(s, j);
        assert Live(s', s.handed) by { TakenIsLive(s, len); }
        WindowHeadsDiffer(s', j, s.handed);
      }
    }
  }

  lemma TakenIsLive(s: System, len: nat)
    requires Basic(s) && Window(s) && Counters(s)
    ensures Basic(Next(s, Take(len))) ==> Live(Next(s, Take(len)), s.handed)
  {
    hide HandOut;
  }

  lemma WindowHeadsDiffer(s: System, i: nat, j: nat)
    requires Basic(s) && Window(s) && Live(s, i) && Live(s, j) && i < j
    ensures Head(s.q.size, i) != Head(s.q.size, j)
  {
    HeadsEqualExactly(s.q.size, i, j);
    DivMod(j - i, s.q.size / 2, 0, j - i);
  }

  lemma TakeOk(s: System, first: nat, len: nat)
    requires Inv(s, first) && Enabled(s, Take(len))
    ensures Inv(Next(s, Take(len)), first)
  {
    hide Counters, Window, AvailOk, Chains, Addresses, UsedOk, Lengths, HandOut;
    TakeCounters(s, first, len);
    TakeWindow(s, first, len);
    TakeRings(s, first, len);
    TakeLengths(s, first, len);
  }

  /** One turn of the publishing loop. */
  function OneMore(s: System): System
    requires Basic(s) && s.q.added > 0
  {
    s.(q := PublishOne(s.q), published := s.published + 1)
  }

  lemma OldestUnpublished(s: System)
    requires Basic(s) && Counters(s) && s.q.added > 0
    ensures Sub32(s.q.freeHead, s.q.added * 2) % s.q.size == Head(s.q.size, s.published)
    ensures (Head(s.q.size, s.published) + 1) % s.q.size == Head(s.q.size, s.published) + 1 < s.q.size
    ensures s.q.availIndex % s.q.size == s.published % s.q.size
  {
    HeadFromCounter(s.q.size, s.published);
    BackUp(s.handed, s.q.added);
    ModOfMod(s.published, TWO16, s.q.size);
    hide Head;
    DivMod(Head(s.q.size, s.published) + 1, s.q.size, 0, Head(s.q.size, s.published) + 1);
  }

  lemma BackUp(x: nat, d: nat)
    requires d <= x
    ensures Sub32(2 * x % TWO32, d * 2) == 2 * (x - d) % TWO32
  {
  }

  lemma PublishedChains(s: System)
    requires Basic(s) && Counters(s) && Chains(s) && s.q.added > 0
    ensures Chains(OneMore(s))
  {
    hide Counters, Head, SizeOk, Sub32;
    OldestUnpublished(s);
    var d := Head(s.q.size, s.published);
    forall j: nat | j < s.published + 1 ensures ChainOk(OneMore(s).q, Head(s.q.size, j)) {
      var i := Head(s.q.size, j);
      HeadsAreEven(s.q.size, j);
      HeadsAreEven(s.q.size, s.published);
      if i != d { assert ChainOk(s.q, i); }
    }
  }

  lemma HeadsAreEven(size: nat, j: nat)
    requires size >= 2
    ensures Head(size, j) % 2 == 0
  {
  }

  lemma PublishedAvail(s: System)
    requires Basic(s) && Counters(s) && AvailOk(s) && s.q.added > 0
    ensures AvailOk(OneMore(s))
  {
    OldestUnpublished(s);
    hide Head, SizeOk;
    var s' := OneMore(s);
    forall k: nat | k < s'.published && s'.handed <= k + s.q.size ensures AvailHolds(s'.q, k) {
      if k < s.published {
        NearbyDiffer(k, s.published, s.q.size);
        assert AvailHolds(s.q, k);
      }
    }
  }

  /** The part of the invariant about completions, where those and the device's ring are untouched. */
  lemma CompletionsKept(s: System, s': System)
    requires Basic(s) && Basic(s') && s'.handed == s.handed && s'.read == s.read && s'.completed == s.completed
    requires s'.lens == s.lens
    requires s'.published >= s.published && s'.q.size == s.q.size && s'.q.used == s.q.used
    ensures Window(s) ==> Window(s')
    ensures UsedOk(s) ==> UsedOk(s')
  {
    hide Head, SizeOk;
    assert forall j: nat :: Live(s', j) <==> Live(s, j);
    if UsedOk(s) {
      forall k: nat | s.read <= k < |s.completed| ensures UsedHolds(s', k) { assert UsedHolds(s, k); }
    }
  }

  lemma OneMoreCounters(s: System, first: nat)
    requires Basic(s) && Counters(s) && s.q.added > 0 && Addresses(s.q, first)
    ensures Basic(OneMore(s)) && Counters(OneMore(s)) && Addresses(OneMore(s).q, first)
  {
    hide Head, SizeOk, Sub32;
    Up16(s.published);
    OneMoreShape(s);
    hide PublishOne;
  }

  lemma OneMoreShape(s: System)
    requires Basic(s) && s.q.added > 0
    ensures var q, q' := s.q, OneMore(s).q;
            && q'.used == q.used && q'.size == q.size && q'.freeHead == q.freeHead && q'.added == q.added - 1
            && q'.availIndex == (q.availIndex + 1) % TWO16 && q'.usedIndex == q.usedIndex && q'.lastUsed == q.lastUsed
            && |q'.desc| == |q.desc| && |q'.avail| == |q.avail|
            && forall i | 0 <= i < |q.desc| :: q'.desc[i].addr == q.desc[i].addr
  {
    hide SizeOk, Sub32;
  }

  lemma OneMoreLengths(s: System)
    requires Basic(s) && Counters(s) && Lengths(s) && s.q.added > 0 && Basic(OneMore(s))
    ensures Lengths(OneMore(s))
  {
    hide Counters, Head, SizeOk, Sub32;
    OldestUnpublished(s);
    HeadsAreEven(s.q.size, s.published);
    var s' := OneMore(s);
    forall j: nat | Live(s', j) ensures LengthHolds(s', j) {
      assert Live(s, j) && LengthHolds(s, j);
      HeadsAreEven(s.q.size, j);
    }
  }

  lemma OneMoreOk(s: System, first: nat)
    requires Inv(s, first) && s.q.added > 0
    ensures Inv(OneMore(s), first)
  {
    hide Chains, AvailOk, Counters, Window, UsedOk, Addresses, Lengths, PublishOne;
    PublishedChains(s);
    PublishedAvail(s);
    OneMoreCounters(s, first);
    OneMoreShape(s);
    OneMoreLengths(s);
    CompletionsKept(s, OneMore(s));
  }

  lemma {:induction false} NotifyOk(s: System, first: nat, n: nat)
    requires Inv(s, first) && n <= s.q.added
    ensures Inv(s.(q := Publish(s.q, n), published := s.published + n), first)
    decreases n
  {
    hide Inv, PublishOne, Shape;
    InvBasic(s, first);
    if n == 0 {
      assert s == s.(q := Publish(s.q, n), published := s.published + n);
    } else {
      NotifyOk(s, first, n - 1);
      var s' := s.(q := Publish(s.q, n - 1), published := s.published + (n - 1));
      InvBasic(s', first);
      OneMoreOk(s', first);
    }
  }

  lemma InvBasic(s: System, first: nat)
    requires Inv(s, first)
    ensures Basic(s) && s.published <= s.handed && s.q.added == s.handed - s.published
  {
  }

  lemma CompletedWindow(s: System, first: nat, j: nat, len: nat)
    requires Inv(s, first) && Enabled(s, Complete(j, len))
    ensures Window(Next(s, Complete(j, len))) && Counters(Next(s, Complete(j, len)))
  {
    hide Head, SizeOk, Chains, AvailOk, UsedOk, Addresses;
    var s' := Next(s, Complete(j, len));
    Up16(|s.completed|);
    hide TWO16;
    assert s'.completed[..s.read] == s.completed[..s.read];
    assert forall i: nat :: Live(s', i) <==> Live(s, i);
    AppendKeepsDistinct(s.completed, j);
  }

  lemma CompletedUsed(s: System, first: nat, j: nat, len: nat)
    requires Inv(s, first) && Enabled(s, Complete(j, len))
    ensures UsedOk(Next(s, Complete(j, len)))
  {
    hide Chains, AvailOk, Addresses, Window, Head;
    var s' := Next(s, Complete(j, len));
    Bounds(s, first);
    ModOfMod(|s.completed|, TWO16, s.q.size);
    forall k: nat | s'.read <= k < |s'.completed| ensures UsedHolds(s', k) {
      if k < |s.completed| {
        NearbyDiffer(k, |s.completed|, s.q.size);
        assert UsedHolds(s, k);
      }
    }
  }

  lemma CompleteOk(s: System, first: nat, j: nat, len: nat)
    requires Inv(s, first) && Enabled(s, Complete(j, len))
    ensures Inv(Next(s, Complete(j, len)), first)
  {
    hide Chains, AvailOk, Counters, Window, UsedOk, Lengths, Head;
    CompletedWindow(s, first, j, len);
    CompletedUsed(s, first, j, len);
    assert Next(s, Complete(j, len)).completed[..s.read] == s.completed[..s.read];
    SameDescriptors(s, Next(s, Complete(j, len)));
  }

  lemma SameDescriptors(s: System, s': System)
    requires Basic(s) && Basic(s') && s'.q.desc == s.q.desc && s'.q.avail == s.q.avail && s'.q.size == s.q.size
    requires s'.published == s.published && s'.handed == s.handed && s'.asked == s.asked
    requires forall j: nat | Live(s', j) :: Live(s, j)
    ensures Chains(s) ==> Chains(s')
    ensures AvailOk(s) ==> AvailOk(s')
    ensures Lengths(s) ==> Lengths(s')
  {
    hide Head, SizeOk;
    if Lengths(s) {
      forall j: nat | Live(s', j) ensures LengthHolds(s', j) { assert Live(s, j) && LengthHolds(s, j); }
    }
    if Chains(s) {
      forall j: nat | j < s'.published ensures ChainOk(s'.q, Head(s.q.size, j)) {
        assert ChainOk(s.q, Head(s.q.size, j));
      }
    }
    if AvailOk(s) {
      forall k: nat | k < s'.published && s'.handed <= k + s.q.size ensures AvailHolds(s'.q, k) {
        assert AvailHolds(s.q, k);
      }
    }
  }

  // ----------------------------------------------------------------- reading

  /** Within the first 65536 completions the two counters agree exactly when nothing is unread. */
  lemma NothingExactly(s: System, first: nat)
    requires Inv(s, first) && s.read < TWO16
    ensures ReadOne(s.q).1.Nothing? <==> s.read == |s.completed|
  {
    hide Head, Chains, AvailOk, UsedOk, Addresses, Window, ChainResult;
    Bounds(s, first);
    HalfDivides(s.q.size);
    SmallCounter(|s.completed|);
  }

  lemma SmallCounter(u: nat)
    ensures u < TWO16 ==> u % TWO16 == u
    ensures TWO16 <= u < 2 * TWO16 ==> u % TWO16 == u - TWO16
  {
  }

  /** The answer for the published, still live request j: its two frames, or blanks when the length is bad. */
  ghost predicate GivesBack(a: Answer, s: System, first: nat, j: nat, len: nat)
    requires Basic(s)
  {
    var h := Head(s.q.size, j);
    && Live(s, j) && j < s.published
    && a == if len == 0 || len > FRAME then Blank else Pair(first + h * FRAME, Some(first + (h + 1) * FRAME))
  }

  /** What a read gives back: the two buffers of the request the device completed, or nothing of a bad length. */
  lemma ReadReturnsItsRequest(s: System, first: nat)
    requires Inv(s, first) && s.read < TWO16 && s.read < |s.completed|
    ensures GivesBack(ReadOne(s.q).1, s, first, s.completed[s.read], s.lens[s.read])
  {
    NothingExactly(s, first);
    Bounds(s, first);
    hide Head, SizeOk, AvailOk;
    var j := s.completed[s.read];
    var h := Head(s.q.size, j);
    assert UsedHolds(s, s.read);
    assert ChainOk(s.q, h);
    assert ChainResult(s.q.desc, h, 1) == ChainResult(s.q.desc, h + 1, 0);
  }

  lemma ReadOk(s: System, first: nat)
    requires Inv(s, first) && Enabled(s, Read)
    ensures Inv(Next(s, Read), first)
  {
    hide Head, SizeOk, Chains, AvailOk, UsedOk, Lengths, ReadOne, NoDuplicates;
    NothingExactly(s, first);
    ReadShape(s.q);
    var s' := Next(s, Read);
    if s.read < |s.completed| {
      assert s'.completed[..s'.read] == s.completed[..s.read] + [s.completed[s.read]];
      forall i: nat | Live(s', i) ensures s'.handed <= i + s.q.size / 2 { assert Live(s, i); }
      ReadKeepsUsed(s, s');
      SameDescriptors(s, s');
    }
  }

  lemma ReadShape(q: Queue)
    requires Shape(q)
    ensures ReadOne(q).0 == if ReadOne(q).1.Nothing? then q else q.(lastUsed := (q.lastUsed + 1) % TWO32)
  {
    hide ChainResult;
  }

  lemma ReadKeepsUsed(s: System, s': System)
    requires Basic(s) && Basic(s') && UsedOk(s) && s'.q.used == s.q.used && s'.q.size == s.q.size
    requires s'.completed == s.completed && s'.lens == s.lens && s'.read >= s.read
    ensures UsedOk(s')
  {
    hide Head, SizeOk;
    forall k: nat | s'.read <= k < |s'.completed| ensures UsedHolds(s', k) { assert UsedHolds(s, k); }
  }

  /**
   Why reading is modelled for the first 65536 completions: after L reads of
   U completions, with fewer than a queue unread, read_one_buffer tells
   whether any is left exactly when L is below 65536 or one is left anyway.
   */
  lemma ReadTellsExactly(q: Queue, done: nat, total: nat)
    requires Shape(q) && q.lastUsed == done < TWO32 && q.usedIndex == total % TWO16
    requires done <= total <= done + q.size / 2
    ensures (ReadOne(q).1.Nothing? <==> done == total) <==> done < TWO16 || done != total
  {
    hide ChainResult;
    HalfDivides(q.size);
    SmallCounter(total);
  }

  // -------------------------------------------------------------------- runs

  lemma StepOk(s: System, first: nat, step: Step)
    requires Inv(s, first) && Enabled(s, step)
    ensures Inv(Next(s, step), first)
  {
    hide Counters, Window, AvailOk, Chains, Addresses, UsedOk;
    match step
    case Take(len) => TakeOk(s, first, len);
    case Notify => InvBasic(s, first); NotifyOk(s, first, s.q.added);
    case Complete(j, len) => CompleteOk(s, first, j, len);
    case Read => ReadOk(s, first);
  }

  ghost predicate Admissible(s: System, first: nat, steps: seq<Step>)
    requires Inv(s, first)
    decreases |steps|
  {
    steps == [] || (Enabled(s, steps[0]) &&
        (StepOk(s, first, steps[0]); Admissible(Next(s, steps[0]), first, steps[1..])))
  }

  ghost function Run(s: System, first: nat, steps: seq<Step>): (r: System)
    requires Inv(s, first) && Admissible(s, first, steps)
    ensures Inv(r, first)
    decreases |steps|
  {
    if steps == [] then s else
      StepOk(s, first, steps[0]);
      Run(Next(s, steps[0]), first, steps[1..])
  }

  ghost predicate FromStart(size: nat, first: nat, steps: seq<Step>) {
    SizeOk(size) && (StartOk(size, first); Admissible(Start(size, first), first, steps))
  }

  ghost function After(size: nat, first: nat, steps: seq<Step>): (s: System)
    requires FromStart(size, first, steps)
    ensures Inv(s, first)
  {
    StartOk(size, first);
    Run(Start(size, first), first, steps)
  }

  /** The buffer handed out next is the frame of its own descriptor. */
  lemma HandOutGivesItsFrame(s: System, first: nat, len: nat)
    requires Inv(s, first)
    ensures HandOut(s.q, len).1 == first + Head(s.q.size, s.handed) * FRAME
  {
    hide Window, AvailOk, Chains, UsedOk, Lengths, Head;
    HeadFromCounter(s.q.size, s.handed);
  }

  /** Live requests never share a descriptor, and each starts on an even one. */
  lemma LiveHeadsDiffer(s: System, first: nat, i: nat, j: nat)
    requires Inv(s, first) && Live(s, i) && Live(s, j) && i < j
    ensures Head(s.q.size, i) != Head(s.q.size, j) && Head(s.q.size, i) % 2 == 0
  {
    hide Counters, Window, AvailOk, Chains, Addresses, UsedOk, Lengths, Head, SizeOk;
    WindowHeadsDiffer(s, i, j);
    HeadsAreEven(s.q.size, i);
  }

  /** After any run: live requests have descriptors of their own, and each completion reads back as its request. */
  lemma RunIsSound(size: nat, first: nat, steps: seq<Step>)
    requires FromStart(size, first, steps)
    ensures var s := After(size, first, steps);
            && (forall i: nat, j: nat | Live(s, i) && Live(s, j) && i < j :: Head(s.q.size, i) != Head(s.q.size, j))
            && (forall k: nat | k < s.published && s.handed <= k + s.q.size ::
                s.q.avail[k % s.q.size] == Head(s.q.size, k))
            && s.q.availIndex == s.published % TWO16
            && (forall j: nat | Live(s, j) :: LengthHolds(s, j))
            && (s.read < TWO16 ==> (ReadOne(s.q).1.Nothing? <==> s.read == |s.completed|))
            && (s.read < TWO16 && s.read < |s.completed| ==>
                GivesBack(ReadOne(s.q).1, s, first, s.completed[s.read], s.lens[s.read]))
  {
    var s := After(size, first, steps);
    hide Run, Admissible, FromStart, Head, SizeOk, Chains, UsedOk;
    forall i: nat, j: nat | Live(s, i) && Live(s, j) && i < j ensures Head(s.q.size, i) != Head(s.q.size, j) {
      LiveHeadsDiffer(s, first, i, j);
    }
    forall k: nat | k < s.published && s.handed <= k + s.q.size ensures s.q.avail[k % s.q.size] == Head(s.q.size, k) {
      assert AvailHolds(s.q, k);
    }
    if s.read < TWO16 { NothingExactly(s, first); }
    if s.read < TWO16 && s.read < |s.completed| { ReadReturnsItsRequest(s, first); }
  }

  // ----------------------------------------------- the limit of the counter

  ghost predicate Reaches(size: nat, first: nat, s: System) {
    exists steps :: FromStart(size, first, steps) && After(size, first, steps) == s
  }

  lemma {:induction false} RunThen(s: System, first: nat, steps: seq<Step>, step: Step)
    requires Inv(s, first) && Admissible(s, first, steps) && Basic(Run(s, first, steps))
    requires Enabled(Run(s, first, steps), step)
    ensures Admissible(s, first, steps + [step])
    ensures Run(s, first, steps + [step]) == Next(Run(s, first, steps), step)
    decreases |steps|
  {
    hide Inv, Enabled, Next, Basic;
    InvBasic(s, first);
    if steps == [] {
      assert (steps + [step])[1..] == [];
      StepOk(s, first, step);
    } else {
      assert (steps + [step])[1..] == steps[1..] + [step];
      StepOk(s, first, steps[0]);
      RunThen(Next(s, steps[0]), first, steps[1..], step);
    }
  }

  lemma Further(size: nat, first: nat, s: System, step: Step)
    requires Reaches(size, first, s) && Basic(s) && Enabled(s, step)
    ensures Inv(s, first) && Reaches(size, first, Next(s, step)) && Inv(Next(s, step), first)
  {
    hide Inv, Enabled, Next, Basic, Admissible, Run, Start;
    var steps :| FromStart(size, first, steps) && After(size, first, steps) == s;
    StartOk(size, first);
    RunThen(Start(size, first), first, steps, step);
    assert FromStart(size, first, steps + [step]);
    assert After(size, first, steps + [step]) == Next(s, step);
    StepOk(s, first, step);
  }

  /** `n` requests were handed out, published, completed in order and read. */
  ghost predicate Settled(s: System, n: nat) {
    Basic(s) && s.handed == s.published == s.read == |s.completed| == n && forall k | 0 <= k < n :: s.completed[k] == k
  }

  lemma RoundGoes(s: System, first: nat, n: nat)
    requires Inv(s, first) && Settled(s, n) && n < TWO16
    ensures Enabled(s, Take(8))
    ensures var s1 := Next(s, Take(8));
            Basic(s1) && var s2 := Next(s1, Notify);
            Basic(s2) && s2.published == n + 1 && s2.completed == s.completed && s2.read == n && s2.handed == n + 1
  {
    hide Counters, AvailOk, Chains, Addresses, UsedOk, Lengths;
    assert n >= s.q.size / 2 ==> n - s.q.size / 2 == s.completed[..n][n - s.q.size / 2];
    TakeOk(s, first, 8);
    InvBasic(Next(s, Take(8)), first);
    NotifyOk(Next(s, Take(8)), first, Next(s, Take(8)).q.added);
  }

  /** One request at a time, `n` of them. */
  lemma {:induction false} ReachesSettled(size: nat, first: nat, n: nat) returns (s: System)
    requires SizeOk(size) && n <= TWO16
    ensures Reaches(size, first, s) && Inv(s, first) && Settled(s, n)
    decreases n
  {
    StartOk(size, first);
    hide Inv, Reaches, HandOut, Publish, ReadOne, Shape, TWO16;
    if n == 0 {
      s := Start(size, first);
      StartReached(size, first);
    } else {
      var r := ReachesSettled(size, first, n - 1);
      RoundGoes(r, first, n - 1);
      var r1 := Next(r, Take(8));
      Further(size, first, r, Take(8));
      var r2 := Next(r1, Notify);
      Further(size, first, r1, Notify);
      var r3 := Next(r2, Complete(n - 1, 8));
      assert n - 1 !in r2.completed;
      Further(size, first, r2, Complete(n - 1, 8));
      InvBasic(r3, first);
      Further(size, first, r3, Read);
      NothingExactly(r3, first);
      s := Next(r3, Read);
      InvBasic(s, first);
    }
  }

  lemma StartReached(size: nat, first: nat)
    requires SizeOk(size)
    ensures Reaches(size, first, Start(size, first)) && Settled(Start(size, first), 0)
  {
    StartOk(size, first);
    assert FromStart(size, first, []) && After(size, first, []) == Start(size, first);
  }

  /** What the device shows at the time of a read. */
  datatype Shown = Shown(used: seq<Elem>, index: nat)

  predicate ShownOk(size: nat, shown: seq<Shown>) {
    forall i | 0 <= i < |shown| :: |shown[i].used| == size && shown[i].index < TWO16
  }

  /** The answers of one read after the other, each with what the device shows then. */
  function Answers(q: Queue, shown: seq<Shown>): (r: seq<Answer>)
    requires Shape(q) && ShownOk(q.size, shown)
    ensures |r| == |shown|
    decreases |shown|
  {
    if shown == [] then []
    else
      var (q', a) := ReadOne(q.(used := shown[0].used, usedIndex := shown[0].index));
      [a] + Answers(q', shown[1..])
  }

  /** Past 65535 the 32-bit count never equals the device's 16-bit one, until it wraps itself. */
  lemma {:induction false} NeverNothing(q: Queue, shown: seq<Shown>)
    requires Shape(q) && ShownOk(q.size, shown) && TWO16 <= q.lastUsed && q.lastUsed + |shown| <= TWO32
    ensures forall i | 0 <= i < |shown| :: !Answers(q, shown)[i].Nothing?
    decreases |shown|
  {
    hide ChainResult;
    if |shown| > 1 {
      NeverNothing(ReadOne(q.(used := shown[0].used, usedIndex := shown[0].index)).0, shown[1..]);
    }
  }

  /**
   After 65536 requests, made and read one at a time on a queue of any size,
   nothing is left to read, and all the same the next 2^32 - 65536 calls of
   read_one_buffer answer that something is, whatever the device does.
   */
  lemma ReadingNeverEnds(size: nat, first: nat, shown: seq<Shown>) returns (s: System)
    requires SizeOk(size) && ShownOk(size, shown) && |shown| <= TWO32 - TWO16
    ensures Reaches(size, first, s) && Basic(s) && s.q.size == size && s.read == |s.completed| == s.handed == TWO16
    ensures forall i | 0 <= i < |shown| :: !Answers(s.q, shown)[i].Nothing?
  {
    hide Reaches, Answers, AvailOk, Chains, Addresses, UsedOk, Lengths, Window;
    s := ReachesSettled(size, first, TWO16);
    ReachesSize(size, first, s);
    NeverNothing(s.q, shown);
  }

  lemma ReachesSize(size: nat, first: nat, s: System)
    requires Reaches(size, first, s)
    ensures s.q.size == size
  {
    var steps :| FromStart(size, first, steps) && After(size, first, steps) == s;
    StartOk(size, first);
    RunSize(Start(size, first), first, steps);
  }

  lemma {:induction false} RunSize(s: System, first: nat, steps: seq<Step>)
    requires Inv(s, first) && Admissible(s, first, steps)
    ensures Run(s, first, steps).q.size == s.q.size
    decreases |steps|
  {
    hide Inv, Enabled;
    InvBasic(s, first);
    if steps != [] {
      StepOk(s, first, steps[0]);
      RunSize(Next(s, steps[0]), first, steps[1..]);
    }
  }

  // --------------------------------------------------- the limit on hand-outs

  /**
   Handing out one more request takes descriptors away from a live one
   exactly when the request half a queue earlier is still live.  The number
   of live requests does not decide it.
   */
  lemma HandOutCollidesExactly(s: System, first: nat)
    requires Inv(s, first)
    ensures (exists j: nat :: Live(s, j) && Head(s.q.size, j) == Head(s.q.size, s.handed))
            <==> s.handed >= s.q.size / 2 && Live(s, s.handed - s.q.size / 2)
  {
    hide Counters, AvailOk, Chains, Addresses, UsedOk;
    var h := s.q.size / 2;
    forall j: nat | Live(s, j) ensures Head(s.q.size, j) == Head(s.q.size, s.handed) <==> j + h == s.handed {
      HeadsEqualExactly(s.q.size, j, s.handed);
      var d := s.handed - j;
      if d < h { DivMod(d, h, 0, d); } else { DivMod(d, h, 1, 0); }
    }
  }

  /** One live request on a queue of four, and no room all the same: the second of two was completed first. */
  lemma CountIsNotEnough(first: nat)
    ensures var s := Next(Next(Next(Next(Next(Start(4, first), Take(8)), Take(8)), Notify), Complete(1, 8)), Read);
            && Basic(s) && (forall j: nat :: Live(s, j) <==> j == 0)
            && s.handed == 2 && Head(4, 0) == Head(4, 2) && !Enabled(s, Take(8))
  {
    var s0 := Start(4, first);
    var s2 := Next(Next(s0, Take(8)), Take(8));
    assert s2.q.added == 2 && s2.handed == 2;
    var s3 := Next(s2, Notify);
    var s4 := Next(s3, Complete(1, 8));
    assert s4.q.lastUsed == 0 && s4.q.usedIndex == 1 && s4.completed == [1];
    hide ChainResult;
    var s5 := Next(s4, Read);
    assert s5.read == 1 && s5.completed[..1] == [1];
  }
}
