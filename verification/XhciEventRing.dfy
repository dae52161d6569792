/**
 The xHCI event ring (section 4.9.4 of the xHCI specification): the
 controller posts, the driver pops.  One segment, no link TRB.
 */
module XhciEventRing {
  import opened XhciTrb

  /** The driver's side: the segment, the dequeue pointer as an index, and its cycle bit. */
  datatype Reader = Reader(buf: seq<Trb>, dequeue: nat, cycle: bool)

  predicate ReaderOk(r: Reader) { r.dequeue < |r.buf| }

  predicate HasFront(r: Reader)
    requires ReaderOk(r)
  {
    Cycle(r.buf[r.dequeue][3]) == r.cycle
  }

  function Pop(r: Reader): Reader {
    if r.dequeue + 1 == |r.buf| then r.(dequeue := 0, cycle := !r.cycle) else r.(dequeue := r.dequeue + 1)
  }

  /** Both sides; `posted` and `popped` are the events without their cycle bits. */
  datatype System = System(reader: Reader, enqueue: nat, producer: bool, posted: seq<Trb>, popped: seq<Trb>)

  function Unread(s: System): seq<Trb> {
    if |s.popped| <= |s.posted| then s.posted[|s.popped|..] else []
  }

  datatype Step = Post(event: Trb) | Take

  /** The controller posts where the driver has made room; the driver pops what has_front shows it. */
  predicate Enabled(s: System, step: Step)
    requires ReaderOk(s.reader)
  {
    match step
    case Post(_) => |Unread(s)| < |s.reader.buf|
    case Take => HasFront(s.reader)
  }

  function Next(s: System, step: Step): System
    requires ReaderOk(s.reader) && s.enqueue < |s.reader.buf|
  {
    match step
    case Post(event) =>
      var buf := s.reader.buf[s.enqueue := event[3 := WithCycle(event[3], s.producer)]];
      var wrap := s.enqueue + 1 == |buf|;
      System(s.reader.(buf := buf), if wrap then 0 else s.enqueue + 1, if wrap then !s.producer else s.producer,
             s.posted + [Strip(event)], s.popped)
    case Take =>
      s.(reader := Pop(s.reader), popped := s.popped + [Strip(s.reader.buf[s.reader.dequeue])])
  }

  function Start(count: nat): System {
    System(Reader(seq(count, _ => [0, 0, 0, 0]), 0, true), 0, true, [], [])
  }

  // --------------------------------------------------------------- invariant

  ghost predicate Holds(s: System, i: nat, j: int, c: bool) {
    && i < |s.reader.buf| && 0 <= j < |Unread(s)|
    && Strip(s.reader.buf[i]) == Unread(s)[j] && Cycle(s.reader.buf[i][3]) == c
  }

  ghost predicate ThisLap(s: System, i: nat) { Holds(s, i, i - s.reader.dequeue, s.reader.cycle) }

  ghost predicate NextLap(s: System, i: nat) { Holds(s, i, |s.reader.buf| - s.reader.dequeue + i, !s.reader.cycle) }

  ghost predicate SameLap(s: System) {
    var r := s.reader;
    && r.cycle == s.producer && r.dequeue <= s.enqueue && |Unread(s)| == s.enqueue - r.dequeue && s.enqueue < |r.buf|
    && (forall i | 0 <= i < r.dequeue :: Cycle(r.buf[i][3]) == s.producer)
    && (forall i | r.dequeue <= i < s.enqueue :: ThisLap(s, i))
    && (forall i | s.enqueue <= i < |r.buf| :: Cycle(r.buf[i][3]) != s.producer)
  }

  ghost predicate LapBehind(s: System) {
    var r := s.reader;
    && r.cycle != s.producer && s.enqueue <= r.dequeue < |r.buf| && |Unread(s)| == |r.buf| - r.dequeue + s.enqueue
    && (forall i | r.dequeue <= i < |r.buf| :: ThisLap(s, i))
    && (forall i | 0 <= i < s.enqueue :: NextLap(s, i))
    && (forall i | s.enqueue <= i < r.dequeue :: Cycle(r.buf[i][3]) == r.cycle)
  }

  ghost predicate InOrder(s: System) { |s.popped| <= |s.posted| && s.popped == s.posted[..|s.popped|] }

  ghost predicate Inv(s: System) {
    ReaderOk(s.reader) && s.enqueue < |s.reader.buf| && InOrder(s) && (SameLap(s) || LapBehind(s))
  }

  lemma StartOk(count: nat)
    requires count >= 1
    ensures Inv(Start(count))
  {
  }

  /** has_front holds exactly when an event is unread, and the event at the front is the oldest of them. */
  lemma FrontIsOldest(s: System)
    requires Inv(s)
    ensures HasFront(s.reader) <==> Unread(s) != []
    ensures Unread(s) != [] ==> Strip(s.reader.buf[s.reader.dequeue]) == Unread(s)[0]
  {
    hide Cycle, Strip, Unread, InOrder;
    if Unread(s) != [] { assert ThisLap(s, s.reader.dequeue); }
  }

  lemma TakeInOrder(s: System)
    requires Inv(s) && Unread(s) != []
    ensures InOrder(Next(s, Take)) && Unread(Next(s, Take)) == Unread(s)[1..]
  {
    FrontIsOldest(s);
    hide Cycle, Strip, SameLap, LapBehind;
  }

  lemma TakeSame(s: System)
    requires Inv(s) && SameLap(s) && Unread(s) != []
    ensures Inv(Next(s, Take))
  {
    hide Cycle, Strip, Unread, InOrder;
    var s' := Next(s, Take);
    TakeInOrder(s);
    assert ThisLap(s, s.reader.dequeue);
    forall i | s'.reader.dequeue <= i < s'.enqueue ensures ThisLap(s', i) { assert ThisLap(s, i); }
  }

  lemma TakeBehind(s: System)
    requires Inv(s) && LapBehind(s)
    ensures Inv(Next(s, Take))
  {
    hide Cycle, Strip, Unread, InOrder;
    var s' := Next(s, Take);
    TakeInOrder(s);
    assert ThisLap(s, s.reader.dequeue);
    if s'.reader.dequeue == 0 {
      forall i | 0 <= i < s'.enqueue ensures ThisLap(s', i) { assert NextLap(s, i); }
    } else {
      forall i | s'.reader.dequeue <= i < |s.reader.buf| ensures ThisLap(s', i) { assert ThisLap(s, i); }
      forall i | 0 <= i < s'.enqueue ensures NextLap(s', i) { assert NextLap(s, i); }
    }
  }

  lemma EventDone(event: Trb, c: bool)
    ensures var t := event[3 := WithCycle(event[3], c)]; Strip(t) == Strip(event) && Cycle(t[3]) == c
  {
    ControlWord(event[3], c);
  }

  lemma PostInOrder(s: System, event: Trb)
    requires Inv(s)
    ensures InOrder(Next(s, Post(event))) && Unread(Next(s, Post(event))) == Unread(s) + [Strip(event)]
  {
    hide Cycle, Strip, SameLap, LapBehind, WithCycle;
  }

  lemma PostSame(s: System, event: Trb)
    requires Inv(s) && SameLap(s)
    ensures Inv(Next(s, Post(event)))
  {
    hide Cycle, Strip, Unread, InOrder, WithCycle;
    var s' := Next(s, Post(event));
    EventDone(event, s.producer);
    PostInOrder(s, event);
    var top := if s'.enqueue == 0 then |s.reader.buf| else s'.enqueue;
    forall i | s'.reader.dequeue <= i < top ensures ThisLap(s', i) { if i < s.enqueue { assert ThisLap(s, i); } }
  }

  lemma PostBehind(s: System, event: Trb)
    requires Inv(s) && LapBehind(s) && |Unread(s)| < |s.reader.buf|
    ensures Inv(Next(s, Post(event)))
  {
    hide Cycle, Strip, Unread, InOrder, WithCycle;
    var s' := Next(s, Post(event));
    EventDone(event, s.producer);
    PostInOrder(s, event);
    forall i | s'.reader.dequeue <= i < |s.reader.buf| ensures ThisLap(s', i) { assert ThisLap(s, i); }
    forall i | 0 <= i < s'.enqueue ensures NextLap(s', i) { if i < s.enqueue { assert NextLap(s, i); } }
  }

  lemma StepOk(s: System, step: Step)
    requires Inv(s) && Enabled(s, step)
    ensures Inv(Next(s, step))
  {
    hide SameLap, LapBehind, Next, HasFront;
    FrontIsOldest(s);
    match step
    case Post(event) => if SameLap(s) { PostSame(s, event); } else { PostBehind(s, event); }
    case Take => if SameLap(s) { TakeSame(s); } else { TakeBehind(s); }
  }

  // -------------------------------------------------------------------- runs

  ghost predicate Admissible(s: System, steps: seq<Step>)
    requires Inv(s)
    decreases |steps|
  {
    steps == [] || (Enabled(s, steps[0]) && (StepOk(s, steps[0]); Admissible(Next(s, steps[0]), steps[1..])))
  }

  ghost function Run(s: System, steps: seq<Step>): (r: System)
    requires Inv(s) && Admissible(s, steps)
    ensures Inv(r)
    decreases |steps|
  {
    hide Inv, Next, Enabled;
    if steps == [] then s else
      StepOk(s, steps[0]);
      Run(Next(s, steps[0]), steps[1..])
  }

  function Posts(steps: seq<Step>): seq<Trb> {
    if steps == [] then [] else (if steps[0].Post? then [Strip(steps[0].event)] else []) + Posts(steps[1..])
  }

  lemma {:induction false} RunPosts(s: System, steps: seq<Step>)
    requires Inv(s) && Admissible(s, steps)
    ensures Run(s, steps).posted == s.posted + Posts(steps)
    decreases |steps|
  {
    hide Strip, HasFront, SameLap, LapBehind, WithCycle;
    if steps != [] {
      StepOk(s, steps[0]);
      var s' := Next(s, steps[0]);
      RunPosts(s', steps[1..]);
      assert s'.posted == s.posted + if steps[0].Post? then [Strip(steps[0].event)] else [];
    }
  }

  ghost predicate FromStart(count: nat, steps: seq<Step>) {
    count >= 1 && (StartOk(count); Admissible(Start(count), steps))
  }

  ghost function After(count: nat, steps: seq<Step>): (s: System)
    requires FromStart(count, steps)
    ensures Inv(s)
  {
    StartOk(count);
    Run(Start(count), steps)
  }

  /**
   After any run of posts and pops: the driver has popped a prefix of the
   events posted, in posting order; has_front tells whether any is left; and
   the front is the next of them.
   */
  lemma EventsArriveInOrder(count: nat, steps: seq<Step>)
    requires FromStart(count, steps)
    ensures var s := After(count, steps);
            && s.popped <= Posts(steps)
            && (HasFront(s.reader) <==> |s.popped| < |Posts(steps)|)
            && (HasFront(s.reader) ==> Strip(s.reader.buf[s.reader.dequeue]) == Posts(steps)[|s.popped|])
  {
    hide Inv, Admissible, Run, HasFront;
    StartOk(count);
    RunPosts(Start(count), steps);
    var s := Run(Start(count), steps);
    assert Start(count).posted + Posts(steps) == Posts(steps);
    FrontOf(s);
  }

  lemma FrontOf(s: System)
    requires Inv(s)
    ensures ReaderOk(s.reader) && s.popped <= s.posted && (HasFront(s.reader) <==> |s.popped| < |s.posted|)
    ensures |s.popped| < |s.posted| ==> Strip(s.reader.buf[s.reader.dequeue]) == s.posted[|s.popped|]
  {
    hide SameLap, LapBehind, HasFront, Strip;
    FrontIsOldest(s);
  }

  // -------------------------------------------------------------- the driver

  class EventRing {
    const buffer: array<Trb>
    var dequeue: nat
    var cycleBit: bool

    ghost predicate Valid()
      reads this
    {
      dequeue < buffer.Length
    }

    ghost function View(): Reader
      reads this, buffer
    {
      Reader(buffer[..], dequeue, cycleBit)
    }

    constructor (count: nat)
      requires count >= 1
      ensures Valid() && fresh(buffer) && View() == Start(count).reader
    {
      buffer := new Trb[count](_ => [0, 0, 0, 0]);
      dequeue, cycleBit := 0, true;
    }

    method Front() returns (has: bool, front: Trb)
      requires Valid()
      ensures has <==> HasFront(View())
      ensures front == buffer[dequeue]
    {
      front := buffer[dequeue];
      has := Cycle(front[3]) == cycleBit;
    }

    method Drop()
      requires Valid()
      modifies this
      ensures Valid() && View() == Pop(old(View()))
    {
      var p := dequeue + 1;
      if p == buffer.Length {
        p := 0;
        cycleBit := !cycleBit;
      }
      dequeue := p;
    }
  }
}
