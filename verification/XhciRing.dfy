/**
 The xHCI command and transfer ring (sections 4.9.2 and 6.4.4.1 of the xHCI
 specification).  The driver writes a TRB word by word; the controller may
 look at the ring between any two of those writes.
 */
module XhciRing {
  import opened XhciTrb

  // ---------------------------------------------------------------- the driver

  /** buffer_count is |buf|; the last slot is the link's. */
  datatype Ring = Ring(buf: seq<Trb>, writeIndex: nat, cycle: bool)

  predicate RingOk(r: Ring) { |r.buf| >= 2 && r.writeIndex < |r.buf| }

  /** One word of copy_to_last; the last takes the ring's cycle bit. */
  function WriteWord(r: Ring, data: Trb, k: nat): Ring
    requires RingOk(r) && k < 4
  {
    var word := if k < 3 then data[k] else WithCycle(data[3], r.cycle);
    r.(buf := r.buf[r.writeIndex := r.buf[r.writeIndex][k := word]])
  }

  function Advance(r: Ring): Ring { r.(writeIndex := r.writeIndex + 1) }

  function Wrap(r: Ring): Ring { r.(writeIndex := 0, cycle := !r.cycle) }

  // ------------------------------------------------------------- both sides

  /** Where push has got to: words of the TRB, then words of the link when the lap is over. */
  datatype Pc = Idle | Writing(data: Trb, k: nat) | Linking(k: nat)

  datatype System = System(
    ring: Ring, pc: Pc,
    index: nat, state: bool,              // the controller's dequeue index and consumer cycle state
    pushed: seq<Trb>, consumed: seq<Trb>) // stripped, in order

  datatype Step = Push(data: Trb) | Driver | Controller

  function Pending(s: System): seq<Trb> {
    if |s.consumed| <= |s.pushed| then s.pushed[|s.consumed|..] else []
  }

  function Underway(s: System): seq<Trb> { if s.pc.Writing? then [Strip(s.pc.data)] else [] }

  /** How many TRBs may be waiting: one less while the controller stands at the link. */
  function Limit(s: System): int { if s.index == |s.ring.buf| - 1 then |s.ring.buf| - 2 else |s.ring.buf| - 1 }

  /** A push starts on a ring with room for it; TRBs pushed by the driver are never links. */
  predicate Enabled(s: System, step: Step) {
    match step
    case Push(data) => s.pc.Idle? && !IsLink(data) && |Pending(s)| + 1 <= Limit(s)
    case Driver => !s.pc.Idle?
    case Controller => true
  }

  function DriverStep(s: System, link: Trb): System
    requires RingOk(s.ring)
  {
    match s.pc
    case Idle => s
    case Writing(data, k) =>
      if k < 3 then s.(ring := WriteWord(s.ring, data, k), pc := Writing(data, k + 1))
      else
        var r := Advance(WriteWord(s.ring, data, 3));
        s.(ring := r, pushed := s.pushed + [Strip(data)],
            pc := if r.writeIndex == |r.buf| - 1 then Linking(0) else Idle)
    case Linking(k) =>
      if k < 3 then s.(ring := WriteWord(s.ring, link, k), pc := Linking(k + 1))
      else s.(ring := Wrap(WriteWord(s.ring, link, 3)), pc := Idle)
  }

  /** The controller's dequeue: take a TRB whose cycle bit matches; a link leads to the first slot and may toggle. */
  function ControllerStep(s: System): System
    requires s.index < |s.ring.buf|
  {
    var t := s.ring.buf[s.index];
    if Cycle(t[3]) != s.state then s
    else if IsLink(t) then s.(index := 0, state := if Toggles(t[3]) then !s.state else s.state)
    else s.(index := s.index + 1, consumed := s.consumed + [Strip(t)])
  }

  function Next(s: System, step: Step, link: Trb): System
    requires RingOk(s.ring) && s.index < |s.ring.buf|
  {
    match step
    case Push(data) => s.(pc := Writing(data, 0))
    case Driver => DriverStep(s, link)
    case Controller => ControllerStep(s)
  }

  function Start(count: nat): System {
    System(Ring(seq(count, _ => [0, 0, 0, 0]), 0, true), Idle, 0, true, [], [])
  }

  // --------------------------------------------------------------- invariant

  ghost predicate Holds(s: System, i: nat, j: int, c: bool) {
    && i < |s.ring.buf| && 0 <= j < |Pending(s)|
    && Strip(s.ring.buf[i]) == Pending(s)[j] && Cycle(s.ring.buf[i][3]) == c && !IsLink(s.ring.buf[i])
  }

  /** Slot i is the controller's to read in its own lap. */
  ghost predicate Ahead(s: System, i: nat) { Holds(s, i, i - s.index, s.state) }

  /** Slot i is the controller's to read once it has crossed the link. */
  ghost predicate BeyondLink(s: System, i: nat) { Holds(s, i, |s.ring.buf| - 1 - s.index + i, !s.state) }

  /** The controller is in the driver's lap. */
  ghost predicate SameLap(s: System)
    requires RingOk(s.ring)
  {
    && s.state == s.ring.cycle && s.index <= s.ring.writeIndex && |Pending(s)| == s.ring.writeIndex - s.index
    && (forall i | 0 <= i < s.index :: Cycle(s.ring.buf[i][3]) == s.ring.cycle)
    && (forall i | s.index <= i < s.ring.writeIndex :: Ahead(s, i))
    && (forall i | s.ring.writeIndex <= i < |s.ring.buf| :: Cycle(s.ring.buf[i][3]) != s.ring.cycle)
  }

  /** The controller is still in the lap before, with the link ahead of it. */
  ghost predicate LapBehind(s: System)
    requires RingOk(s.ring)
  {
    var n := |s.ring.buf| - 1;
    && s.state != s.ring.cycle && s.ring.writeIndex <= s.index <= n && |Pending(s)| == n - s.index + s.ring.writeIndex
    && (forall i | s.index <= i < n :: Ahead(s, i))
    && LinkTrb(s.ring.buf[n]) && Cycle(s.ring.buf[n][3]) == s.state
    && (forall i | 0 <= i < s.ring.writeIndex :: BeyondLink(s, i))
    && (forall i | s.ring.writeIndex <= i < s.index :: Cycle(s.ring.buf[i][3]) == s.state)
  }

  /** What push has written of the slot it is on. */
  ghost predicate PartWritten(s: System, link: Trb)
    requires RingOk(s.ring)
  {
    match s.pc
    case Idle => s.ring.writeIndex < |s.ring.buf| - 1
    case Writing(data, k) =>
      && k <= 3 && s.ring.writeIndex < |s.ring.buf| - 1 && !IsLink(data)
      && s.ring.buf[s.ring.writeIndex][..k] == data[..k]
    case Linking(k) =>
      k <= 3 && s.ring.writeIndex == |s.ring.buf| - 1 && s.ring.buf[s.ring.writeIndex][..k] == link[..k]
  }

  ghost predicate Inv(s: System, link: Trb) {
    && RingOk(s.ring) && s.index < |s.ring.buf| && LinkTrb(link)
    && InOrder(s)
    && (SameLap(s) || LapBehind(s))
    && |Pending(s)| + |Underway(s)| <= Limit(s)
    && PartWritten(s, link)
  }

  lemma StartOk(count: nat, link: Trb)
    requires count >= 2 && LinkTrb(link)
    ensures Inv(Start(count), link)
  {
  }

  ghost predicate InOrder(s: System) { |s.consumed| <= |s.pushed| && s.consumed == s.pushed[..|s.consumed|] }

  /** Taking the oldest pending TRB keeps the order. */
  lemma TakeInOrder(s: System, s': System)
    requires InOrder(s) && Pending(s) != [] && s'.pushed == s.pushed && s'.consumed == s.consumed + [Pending(s)[0]]
    ensures InOrder(s') && Pending(s') == Pending(s)[1..]
  {
  }

  lemma ControllerSame(s: System)
    requires RingOk(s.ring) && s.index < |s.ring.buf| && InOrder(s) && SameLap(s)
    ensures var s' := ControllerStep(s);
            && SameLap(s') && InOrder(s') && s'.index < |s.ring.buf|
            && Pending(s') == if Pending(s) == [] then [] else Pending(s)[1..]
  {
    hide Strip, IsLink, Cycle, LinkTrb, Toggles, Pending, InOrder;
    var s' := ControllerStep(s);
    if s.index < s.ring.writeIndex {
      assert Ahead(s, s.index);
      TakeInOrder(s, s');
      forall i | s'.index <= i < s'.ring.writeIndex ensures Ahead(s', i) { assert Ahead(s, i); }
    }
  }

  lemma ControllerBehind(s: System)
    requires RingOk(s.ring) && InOrder(s) && LapBehind(s) && s.index < |s.ring.buf| - 1
    ensures var s' := ControllerStep(s);
            LapBehind(s') && InOrder(s') && Pending(s) != [] && Pending(s') == Pending(s)[1..]
  {
    hide Strip, IsLink, Cycle, Toggles, Pending, InOrder, LinkTrb;
    var s' := ControllerStep(s);
    assert Ahead(s, s.index);
    TakeInOrder(s, s');
    forall i | s'.index <= i < |s.ring.buf| - 1 ensures Ahead(s', i) { assert Ahead(s, i); }
    forall i | 0 <= i < s'.ring.writeIndex ensures BeyondLink(s', i) { assert BeyondLink(s, i); }
  }

  lemma ControllerCrosses(s: System)
    requires RingOk(s.ring) && LapBehind(s) && s.index == |s.ring.buf| - 1
    ensures var s' := ControllerStep(s);
            SameLap(s') && s' == s.(index := 0, state := !s.state)
  {
    hide Strip, IsLink, Cycle, Toggles;
    var s' := ControllerStep(s);
    forall i | 0 <= i < s'.ring.writeIndex ensures Ahead(s', i) { assert BeyondLink(s, i); }
  }

  /** How many reads the controller is from the end of what was pushed. */
  ghost function Distance(s: System): nat
    requires RingOk(s.ring)
  {
    |Pending(s)| + if SameLap(s) then 0 else 1
  }

  lemma ControllerOk(s: System, link: Trb)
    requires Inv(s, link)
    ensures Inv(ControllerStep(s), link)
    ensures ControllerStep(s).pushed == s.pushed
    ensures Distance(ControllerStep(s)) < Distance(s) || Distance(ControllerStep(s)) == Distance(s) == 0
  {
    hide SameLap, LapBehind, Strip, IsLink, Cycle, Toggles, LinkTrb;
    if SameLap(s) {
      ControllerSame(s);
    } else if s.index < |s.ring.buf| - 1 {
      ControllerBehind(s);
    } else {
      ControllerCrosses(s);
    }
  }

  /** The two systems differ at most in the slot push is on, and there not in the cycle bit. */
  ghost predicate SameToController(s: System, s': System) {
    && RingOk(s.ring) && s'.ring == s.ring.(buf := s'.ring.buf) && |s'.ring.buf| == |s.ring.buf|
    && s'.index == s.index && s'.state == s.state && Pending(s') == Pending(s)
    && (forall i | 0 <= i < |s.ring.buf| && i != s.ring.writeIndex :: s'.ring.buf[i] == s.ring.buf[i])
    && Cycle(s'.ring.buf[s.ring.writeIndex][3]) == Cycle(s.ring.buf[s.ring.writeIndex][3])
  }

  lemma SameLapUnseen(s: System, s': System)
    requires SameToController(s, s') && SameLap(s)
    ensures SameLap(s')
  {
    hide Strip, IsLink, Cycle, Pending;
    forall i | s.index <= i < s.ring.writeIndex ensures Ahead(s', i) { assert Ahead(s, i); }
  }

  lemma LapBehindUnseen(s: System, s': System)
    requires SameToController(s, s') && LapBehind(s) && (s.ring.writeIndex < s.index || s'.ring == s.ring)
    ensures LapBehind(s')
  {
    hide Strip, IsLink, Cycle, Pending, LinkTrb;
    forall i | s.index <= i < |s.ring.buf| - 1 ensures Ahead(s', i) { assert Ahead(s, i); }
    forall i | 0 <= i < s.ring.writeIndex ensures BeyondLink(s', i) { assert BeyondLink(s, i); }
  }

  lemma Unseen(s: System, s': System)
    requires SameToController(s, s') && (LapBehind(s) ==> s.ring.writeIndex < s.index || s'.ring == s.ring)
    ensures SameLap(s) ==> SameLap(s')
    ensures LapBehind(s) ==> LapBehind(s')
  {
    hide SameLap, LapBehind;
    if SameLap(s) { SameLapUnseen(s, s'); }
    if LapBehind(s) { LapBehindUnseen(s, s'); }
  }

  /** Words before the control word do not show: the slot is not the controller's yet. */
  lemma WordOk(s: System, link: Trb)
    requires Inv(s, link) && !s.pc.Idle? && s.pc.k < 3
    ensures Inv(DriverStep(s, link), link)
  {
    hide Cycle, SameLap, LapBehind, IsLink, LinkTrb, Strip, WithCycle;
    var s' := DriverStep(s, link);
    var w := s.ring.writeIndex;
    assert Pending(s') == Pending(s) && InOrder(s') && |Underway(s')| == |Underway(s)|;
    hide Pending, InOrder, Underway;
    assert s'.ring.buf[w][3] == s.ring.buf[w][3];
    assert PartWritten(s', link) by { WordsSoFar(s.ring.buf[w], if s.pc.Writing? then s.pc.data else link, s.pc.k); }
    if LapBehind(s) { RoomBehind(s, link); }
    Unseen(s, s');
  }

  /** A push in the lap ahead of the controller is on a slot that has been read. */
  lemma RoomBehind(s: System, link: Trb)
    requires Inv(s, link) && LapBehind(s) && !s.pc.Idle?
    ensures s.pc.Writing? && s.ring.writeIndex < s.index
    ensures s.index == |s.ring.buf| - 1 ==> s.ring.writeIndex + 1 < s.index
  {
  }

  lemma WordsSoFar(slot: Trb, data: Trb, k: nat)
    requires k < 3 && slot[..k] == data[..k]
    ensures slot[k := data[k]][..k + 1] == data[..k + 1]
  {
    assert data[..k + 1] == data[..k] + [data[k]];
    assert slot[k := data[k]][..k + 1] == slot[..k] + [data[k]];
  }

  /** What the control word's write makes of the slot. */
  lemma SlotDone(slot: Trb, data: Trb, c: bool)
    requires slot[..3] == data[..3]
    ensures var t := slot[3 := WithCycle(data[3], c)];
            && Strip(t) == Strip(data) && Cycle(t[3]) == c
            && (IsLink(t) <==> IsLink(data)) && (LinkTrb(t) <==> LinkTrb(data))
  {
    ControlWord(data[3], c);
    hide WithCycle, Kind, Toggles, Cycle;
    var t: Trb := slot[3 := WithCycle(data[3], c)];
    assert forall i | 0 <= i < 3 :: t[i] == slot[..3][i] == data[..3][i] == data[i];
  }

  /** The slot push was on now holds `t`, and push has moved past it. */
  ghost predicate Published(s: System, s': System, t: Trb) {
    var w := s.ring.writeIndex;
    && RingOk(s.ring) && |s'.ring.buf| == |s.ring.buf| && w + 1 < |s.ring.buf| && s'.ring.writeIndex == w + 1
    && s'.ring.cycle == s.ring.cycle && s'.index == s.index && s'.state == s.state && Pending(s') == Pending(s) + [t]
    && (forall i | 0 <= i < |s.ring.buf| && i != w :: s'.ring.buf[i] == s.ring.buf[i])
    && Strip(s'.ring.buf[w]) == t && Cycle(s'.ring.buf[w][3]) == s.ring.cycle && !IsLink(s'.ring.buf[w])
  }

  lemma PublishSame(s: System, s': System, t: Trb)
    requires Published(s, s', t) && SameLap(s)
    ensures SameLap(s')
  {
    hide Strip, IsLink, Cycle, Pending;
    forall i | s'.index <= i < s'.ring.writeIndex ensures Ahead(s', i) {
      if i < s.ring.writeIndex { assert Ahead(s, i); }
    }
  }

  lemma PublishBehind(s: System, s': System, t: Trb)
    requires Published(s, s', t) && LapBehind(s) && s.ring.writeIndex < s.index
    ensures LapBehind(s')
  {
    hide Strip, IsLink, Cycle, Pending, LinkTrb;
    forall i | s'.index <= i < |s.ring.buf| - 1 ensures Ahead(s', i) { assert Ahead(s, i); }
    forall i | 0 <= i < s'.ring.writeIndex ensures BeyondLink(s', i) {
      if i < s.ring.writeIndex { assert BeyondLink(s, i); }
    }
  }

  lemma CommitOk(s: System, link: Trb)
    requires Inv(s, link) && s.pc.Writing? && s.pc.k == 3
    ensures Inv(DriverStep(s, link), link)
  {
    var s' := DriverStep(s, link);
    hide SameLap, LapBehind;
    SlotDone(s.ring.buf[s.ring.writeIndex], s.pc.data, s.ring.cycle);
    hide Strip, IsLink, Cycle, WithCycle, LinkTrb;
    var t := Strip(s.pc.data);
    assert Pending(s') == Pending(s) + [t];
    if SameLap(s) {
      PublishSame(s, s', t);
    } else {
      RoomBehind(s, link);
      PublishBehind(s, s', t);
    }
  }

  lemma LinkCommitLaps(s: System, s': System)
    requires RingOk(s.ring) && SameLap(s) && s.ring.writeIndex == |s.ring.buf| - 1
    requires |s'.ring.buf| == |s.ring.buf| && s'.ring.writeIndex == 0 && s'.ring.cycle == !s.ring.cycle
    requires s'.index == s.index && s'.state == s.state && Pending(s') == Pending(s)
    requires forall i | 0 <= i < |s.ring.buf| - 1 :: s'.ring.buf[i] == s.ring.buf[i]
    requires var t := s'.ring.buf[|s.ring.buf| - 1]; LinkTrb(t) && Cycle(t[3]) == s.ring.cycle
    ensures LapBehind(s')
  {
    hide Strip, IsLink, Cycle, Pending, LinkTrb;
    forall i | s'.index <= i < |s.ring.buf| - 1 ensures Ahead(s', i) { assert Ahead(s, i); }
  }

  lemma LinkCommitOk(s: System, link: Trb)
    requires Inv(s, link) && s.pc.Linking? && s.pc.k == 3
    ensures Inv(DriverStep(s, link), link)
  {
    var s' := DriverStep(s, link);
    var n := |s.ring.buf| - 1;
    SlotDone(s.ring.buf[n], link, s.ring.cycle);
    hide Strip, IsLink, Cycle, WithCycle, LinkTrb;
    if LapBehind(s) { RoomBehind(s, link); }
    hide SameLap, LapBehind;
    LinkCommitLaps(s, s');
  }

  lemma StepOk(s: System, step: Step, link: Trb)
    requires Inv(s, link) && Enabled(s, step)
    ensures Inv(Next(s, step, link), link) && |Next(s, step, link).ring.buf| == |s.ring.buf|
    ensures var s' := Next(s, step, link);
            s'.pushed + Underway(s') == s.pushed + Underway(s) + if step.Push? then [Strip(step.data)] else []
  {
    NextShape(s, step, link);
    hide SameLap, LapBehind, DriverStep, ControllerStep;
    match step
    case Push(data) => PushStarts(s, data, link);
    case Driver =>
      if s.pc.k < 3 { WordOk(s, link); } else if s.pc.Writing? { CommitOk(s, link); } else { LinkCommitOk(s, link); }
    case Controller => ControllerOk(s, link);
  }

  lemma NextShape(s: System, step: Step, link: Trb)
    requires RingOk(s.ring) && s.index < |s.ring.buf| && Enabled(s, step)
    ensures var s' := Next(s, step, link);
            && |s'.ring.buf| == |s.ring.buf|
            && s'.pushed + Underway(s') == s.pushed + Underway(s) + if step.Push? then [Strip(step.data)] else []
  {
    hide Strip, IsLink, Cycle, Toggles, WithCycle;
  }

  lemma PushStarts(s: System, data: Trb, link: Trb)
    requires Inv(s, link) && Enabled(s, Push(data))
    ensures Inv(s.(pc := Writing(data, 0)), link)
  {
    hide Cycle, SameLap, LapBehind, IsLink, LinkTrb, Strip;
    Unseen(s, s.(pc := Writing(data, 0)));
  }

  // -------------------------------------------------------------------- runs

  ghost predicate Admissible(s: System, steps: seq<Step>, link: Trb)
    requires Inv(s, link)
    decreases |steps|
  {
    steps == [] || (Enabled(s, steps[0]) &&
        (StepOk(s, steps[0], link); Admissible(Next(s, steps[0], link), steps[1..], link)))
  }

  ghost function Run(s: System, steps: seq<Step>, link: Trb): (r: System)
    requires Inv(s, link) && Admissible(s, steps, link)
    ensures Inv(r, link) && |r.ring.buf| == |s.ring.buf|
    decreases |steps|
  {
    hide Inv, Enabled, Next;
    if steps == [] then s else
      StepOk(s, steps[0], link);
      Run(Next(s, steps[0], link), steps[1..], link)
  }

  lemma RunStep(s: System, steps: seq<Step>, link: Trb)
    requires Inv(s, link) && steps != [] && Admissible(s, steps, link)
    ensures RingOk(s.ring) && s.index < |s.ring.buf| && Enabled(s, steps[0])
    ensures var s' := Next(s, steps[0], link);
            Inv(s', link) && Admissible(s', steps[1..], link) && Run(s, steps, link) == Run(s', steps[1..], link)
  {
    StepOk(s, steps[0], link);
    hide Inv, Enabled, Next;
  }

  /** Within k reads, with the driver at rest, the controller has consumed everything pushed. */
  ghost predicate DrainsIn(s: System, k: nat)
    decreases k
  {
    s.consumed == s.pushed || (k > 0 && s.index < |s.ring.buf| && DrainsIn(ControllerStep(s), k - 1))
  }

  lemma Drained(s: System, link: Trb)
    requires Inv(s, link) && Distance(s) == 0
    ensures s.consumed == s.pushed
  {
    hide SameLap, LapBehind;
  }

  /** Left to itself, the controller reads everything that was pushed. */
  lemma {:induction false} Drains(s: System, link: Trb, k: nat)
    requires Inv(s, link) && k >= Distance(s)
    ensures DrainsIn(s, k)
    decreases k
  {
    hide Inv, Distance, ControllerStep, RingOk;
    InvShape(s, link);
    if Distance(s) == 0 {
      Drained(s, link);
    } else {
      ControllerOk(s, link);
      Drains(ControllerStep(s), link, k - 1);
    }
  }

  /** A controller that makes no progress never drains the ring. */
  lemma {:induction false} Stalled(s: System, k: nat)
    requires s.index < |s.ring.buf| && ControllerStep(s) == s && s.consumed != s.pushed
    ensures !DrainsIn(s, k)
  {
    if k > 0 {
      Stalled(s, k - 1);
    }
  }

  lemma InvShape(s: System, link: Trb)
    requires Inv(s, link)
    ensures RingOk(s.ring) && s.index < |s.ring.buf| && s.consumed <= s.pushed && Distance(s) <= |s.ring.buf|
  {
    hide SameLap, LapBehind, PartWritten, LinkTrb;
  }

  /** Every push of a run, from the steps that start one. */
  function Pushes(steps: seq<Step>): seq<Trb> {
    if steps == [] then [] else
      (if steps[0].Push? then [Strip(steps[0].data)] else []) + Pushes(steps[1..])
  }

  lemma {:induction false} RunPushes(s: System, steps: seq<Step>, link: Trb)
    requires Inv(s, link) && Admissible(s, steps, link)
    ensures var r := Run(s, steps, link); r.pushed + Underway(r) == s.pushed + Underway(s) + Pushes(steps)
    decreases |steps|
  {
    hide Inv, Strip, Underway, Next, Enabled, Admissible;
    if steps == [] {
      assert Run(s, steps, link) == s;
    } else {
      hide Run;
      RunStep(s, steps, link);
      StepOk(s, steps[0], link);
      var s' := Next(s, steps[0], link);
      RunPushes(s', steps[1..], link);
      var first := if steps[0].Push? then [Strip(steps[0].data)] else [];
      calc {
        Run(s, steps, link).pushed + Underway(Run(s, steps, link));
        s'.pushed + Underway(s') + Pushes(steps[1..]);
        s.pushed + Underway(s) + first + Pushes(steps[1..]);
        s.pushed + Underway(s) + (first + Pushes(steps[1..]));
      }
    }
  }

  ghost predicate FromStart(count: nat, steps: seq<Step>, link: Trb) {
    count >= 2 && LinkTrb(link) && (StartOk(count, link); Admissible(Start(count), steps, link))
  }

  ghost function After(count: nat, steps: seq<Step>, link: Trb): (s: System)
    requires FromStart(count, steps, link)
    ensures Inv(s, link) && |s.ring.buf| == count
  {
    StartOk(count, link);
    Run(Start(count), steps, link)
  }

  /**
   FIFO over every interleaving of the driver's word writes and the
   controller's reads, across any number of laps: what the controller has
   consumed is a prefix of what the run pushed, and left to itself it goes
   on to consume all of it.
   */
  lemma RingIsFifo(count: nat, steps: seq<Step>, link: Trb)
    requires FromStart(count, steps, link)
    ensures var s := After(count, steps, link);
            && s.pushed + Underway(s) == Pushes(steps)
            && s.consumed <= Pushes(steps)
            && s.index < count
            && DrainsIn(s, count + 1)
  {
    hide Inv, Admissible, Run, DrainsIn, Distance, RingOk, Strip, LinkTrb;
    StartOk(count, link);
    RunPushes(Start(count), steps, link);
    var s := After(count, steps, link);
    InvShape(s, link);
    assert Start(count).pushed + Underway(Start(count)) + Pushes(steps) == Pushes(steps);
    Drains(s, link, count + 1);
  }

  // ---------------------------------------------------- push without a peer

  function WriteAll(r: Ring, data: Trb): Ring
    requires RingOk(r)
  {
    r.(buf := r.buf[r.writeIndex := data[3 := WithCycle(data[3], r.cycle)]])
  }

  function PushAll(r: Ring, data: Trb, link: Trb): Ring
    requires RingOk(r) && r.writeIndex < |r.buf| - 1
  {
    var r' := Advance(WriteAll(r, data));
    if r'.writeIndex == |r.buf| - 1 then Wrap(WriteAll(r', link)) else r'
  }

  lemma WordsMakeWhole(r: Ring, data: Trb)
    requires RingOk(r)
    ensures WriteWord(WriteWord(WriteWord(WriteWord(r, data, 0), data, 1), data, 2), data, 3) == WriteAll(r, data)
  {
    hide WithCycle;
    var words := WriteWord(WriteWord(WriteWord(WriteWord(r, data, 0), data, 1), data, 2), data, 3);
    assert words.buf[r.writeIndex] == data[3 := WithCycle(data[3], r.cycle)];
    assert words.buf == WriteAll(r, data).buf;
  }

  function Driver4(s: System, link: Trb): (r: System)
    requires RingOk(s.ring) && !s.pc.Idle? && s.pc.k == 0 && (s.pc.Writing? ==> s.ring.writeIndex < |s.ring.buf| - 1)
    ensures RingOk(r.ring)
  {
    DriverStep(DriverStep(DriverStep(DriverStep(s, link), link), link), link)
  }

  /** The system after a whole push. */
  function PushDone(s: System, data: Trb, link: Trb): System
    requires RingOk(s.ring) && s.ring.writeIndex < |s.ring.buf| - 1
  {
    s.(ring := PushAll(s.ring, data, link), pushed := s.pushed + [Strip(data)])
  }

  /** Undisturbed, a push's writes come to one TRB in place, and at the end of a lap the link. */
  lemma PushIsItsWords(s: System, data: Trb, link: Trb)
    requires RingOk(s.ring) && s.ring.writeIndex < |s.ring.buf| - 1 && s.pc.Idle?
    ensures var s' := Driver4(s.(pc := Writing(data, 0)), link);
            if s'.pc.Idle? then s' == PushDone(s, data, link)
            else s'.pc == Linking(0) && Driver4(s', link) == PushDone(s, data, link)
  {
    hide WithCycle, WriteWord, Strip;
    WordsMakeWhole(s.ring, data);
    if s.ring.writeIndex == |s.ring.buf| - 2 {
      WordsMakeWhole(Advance(WriteAll(s.ring, data)), link);
    }
  }

  lemma Driver4Ok(s: System, link: Trb)
    requires Inv(s, link) && !s.pc.Idle? && s.pc.k == 0
    ensures RingOk(s.ring) && (s.pc.Writing? ==> s.ring.writeIndex < |s.ring.buf| - 1)
    ensures Inv(Driver4(s, link), link)
  {
    hide SameLap, LapBehind, WriteWord, Advance, Wrap, Strip, LinkTrb, IsLink;
    var s1 := DriverStep(s, link);
    WordOk(s, link);
    var s2 := DriverStep(s1, link);
    WordOk(s1, link);
    var s3 := DriverStep(s2, link);
    WordOk(s2, link);
    if s3.pc.Writing? { CommitOk(s3, link); } else { LinkCommitOk(s3, link); }
  }

  lemma PushDoneOk(s: System, data: Trb, link: Trb)
    requires Inv(s, link) && Enabled(s, Push(data))
    ensures RingOk(s.ring) && s.ring.writeIndex < |s.ring.buf| - 1 && Inv(PushDone(s, data, link), link)
  {
    assert RingOk(s.ring) && s.ring.writeIndex < |s.ring.buf| - 1;
    PushStarts(s, data, link);
    hide Inv, Driver4, PushDone, Enabled;
    var s0 := s.(pc := Writing(data, 0));
    PushIsItsWords(s, data, link);
    Driver4Ok(s0, link);
    var s' := Driver4(s0, link);
    if !s'.pc.Idle? {
      Driver4Ok(s', link);
    }
  }

  /** The last push of a lap leaves the link with the driver's old cycle bit. */
  lemma LapEndsAtLink(r: Ring, data: Trb, link: Trb)
    requires RingOk(r) && r.writeIndex == |r.buf| - 2
    ensures Cycle(PushAll(r, data, link).buf[|r.buf| - 1][3]) == r.cycle
  {
    ControlWord(link[3], r.cycle);
    hide Cycle, WithCycle;
  }

  /**
   What the ring can take, exactly: one more TRB is read in the end if and only
   if no more than `Limit` are then waiting.  Beyond it the push rewrites the
   slot or the link the controller stands at for the next lap, and the
   controller reads nothing as long as the driver pushes nothing more.
   */
  lemma OneMoreExactly(s: System, data: Trb, link: Trb)
    requires Inv(s, link) && s.pc.Idle? && !IsLink(data)
    ensures RingOk(s.ring) && s.ring.writeIndex < |s.ring.buf| - 1
    ensures (exists k: nat :: DrainsIn(PushDone(s, data, link), k)) <==> |Pending(s)| + 1 <= Limit(s)
    ensures Inv(PushDone(s, data, link), link) <==> |Pending(s)| + 1 <= Limit(s)
    ensures |Pending(s)| + 1 > Limit(s) ==> ControllerStep(PushDone(s, data, link)) == PushDone(s, data, link)
  {
    if |Pending(s)| + 1 <= Limit(s) {
      PushDoneOk(s, data, link);
      Drains(PushDone(s, data, link), link, Distance(PushDone(s, data, link)));
    } else {
      if s.index == |s.ring.buf| - 1 { FullAtLink(s, data, link); } else { FullAtSlot(s, data, link); }
      var s' := PushDone(s, data, link);
      forall k: nat
        ensures !DrainsIn(s', k)
      {
        Stalled(s', k);
      }
      if Inv(s', link) {
        Drains(s', link, Distance(s'));
      }
    }
  }

  /** The controller stands at the link, and the lap before it is full. */
  lemma FullAtLink(s: System, data: Trb, link: Trb)
    requires Inv(s, link) && s.pc.Idle? && |Pending(s)| + 1 > Limit(s) && s.index == |s.ring.buf| - 1
    ensures s.ring.writeIndex < |s.ring.buf| - 1
    ensures var s' := PushDone(s, data, link); s'.consumed != s'.pushed && ControllerStep(s') == s'
  {
    hide Cycle, WithCycle, IsLink, Strip, LinkTrb;
    LapEndsAtLink(s.ring, data, link);
  }

  /** The driver has come round to the slot the controller stands at. */
  lemma FullAtSlot(s: System, data: Trb, link: Trb)
    requires Inv(s, link) && s.pc.Idle? && |Pending(s)| + 1 > Limit(s) && s.index < |s.ring.buf| - 1
    ensures s.ring.writeIndex < |s.ring.buf| - 1
    ensures var s' := PushDone(s, data, link); s'.consumed != s'.pushed && ControllerStep(s') == s'
  {
    ControlWord(data[3], s.ring.cycle);
    hide Cycle, WithCycle, IsLink, Strip, LinkTrb;
    assert s.ring.writeIndex == s.index && s.state != s.ring.cycle;
  }

  // ------------------------------------------------- a full ring is reached

  ghost predicate Reaches(count: nat, link: Trb, s: System) {
    exists steps :: FromStart(count, steps, link) && After(count, steps, link) == s
  }

  lemma {:induction false} RunThen(s: System, steps: seq<Step>, link: Trb, step: Step)
    requires Inv(s, link) && Admissible(s, steps, link) && Enabled(Run(s, steps, link), step)
    ensures RingOk(Run(s, steps, link).ring) && Run(s, steps, link).index < |Run(s, steps, link).ring.buf|
    ensures Admissible(s, steps + [step], link)
    ensures Run(s, steps + [step], link) == Next(Run(s, steps, link), step, link)
    decreases |steps|
  {
    hide Enabled, Next;
    assert RingOk(Run(s, steps, link).ring);
    hide Inv;
    if steps == [] {
      assert (steps + [step])[1..] == [];
      StepOk(s, step, link);
    } else {
      assert (steps + [step])[1..] == steps[1..] + [step];
      StepOk(s, steps[0], link);
      RunThen(Next(s, steps[0], link), steps[1..], link, step);
    }
  }

  lemma Further(count: nat, link: Trb, s: System, step: Step)
    requires Reaches(count, link, s) && Enabled(s, step)
    ensures Inv(s, link) && |s.ring.buf| == count && RingOk(s.ring) && s.index < |s.ring.buf|
    ensures Reaches(count, link, Next(s, step, link))
  {
    hide Enabled, Next, Admissible, Run, Start;
    var steps :| FromStart(count, steps, link) && After(count, steps, link) == s;
    StartOk(count, link);
    RunThen(Start(count), steps, link, step);
    assert FromStart(count, steps + [step], link);
    assert After(count, steps + [step], link) == Next(s, step, link);
  }

  /** The driver's next four word writes. */
  lemma FurtherWords(count: nat, link: Trb, s: System)
    requires Reaches(count, link, s) && !s.pc.Idle? && s.pc.k == 0 && Inv(s, link)
    ensures RingOk(s.ring) && (s.pc.Writing? ==> s.ring.writeIndex < |s.ring.buf| - 1)
    ensures Reaches(count, link, Driver4(s, link))
  {
    hide Reaches, SameLap, LapBehind, WriteWord, Advance, Wrap, Strip, LinkTrb, IsLink;
    var s1 := DriverStep(s, link);
    WordOk(s, link);
    Further(count, link, s, Driver);
    var s2 := DriverStep(s1, link);
    WordOk(s1, link);
    Further(count, link, s1, Driver);
    var s3 := DriverStep(s2, link);
    WordOk(s2, link);
    Further(count, link, s2, Driver);
    Further(count, link, s3, Driver);
  }

  lemma FurtherPush(count: nat, link: Trb, s: System, data: Trb)
    requires Reaches(count, link, s) && Enabled(s, Push(data))
    ensures Inv(s, link) && RingOk(s.ring) && s.ring.writeIndex < |s.ring.buf| - 1 && |s.ring.buf| == count
    ensures Inv(PushDone(s, data, link), link) && Reaches(count, link, PushDone(s, data, link))
  {
    hide Reaches;
    Further(count, link, s, Push(data));
    PushDoneOk(s, data, link);
    PushStarts(s, data, link);
    hide Inv, Driver4, PushDone;
    var s0 := s.(pc := Writing(data, 0));
    FurtherWords(count, link, s0);
    PushIsItsWords(s, data, link);
    var s' := Driver4(s0, link);
    if !s'.pc.Idle? {
      Driver4Ok(s0, link);
      FurtherWords(count, link, s');
    }
  }

  /** The driver is at rest, everything is read, and the controller is at slot `i`. */
  ghost predicate AllRead(s: System, i: nat) {
    s.pc.Idle? && Pending(s) == [] && s.index == i
  }

  lemma ReadsNext(s: System, link: Trb)
    requires Inv(s, link) && Pending(s) != [] && s.index < |s.ring.buf| - 1
    ensures ControllerStep(s).index == s.index + 1 && Pending(ControllerStep(s)) == Pending(s)[1..]
  {
    hide Strip, IsLink, Cycle, Toggles, LinkTrb, Pending, InOrder, PartWritten;
    assert Ahead(s, s.index);
    if SameLap(s) { ControllerSame(s); } else { ControllerBehind(s); }
  }

  /** One TRB pushed and read after the other takes the controller to slot `i`. */
  lemma {:induction false} ReachesSlot(count: nat, link: Trb, data: Trb, i: nat) returns (s: System)
    requires 2 <= count && i < count && LinkTrb(link) && !IsLink(data)
    ensures Reaches(count, link, s) && Inv(s, link) && |s.ring.buf| == count && AllRead(s, i)
    decreases i
  {
    hide Reaches, Inv, PushDone, ControllerStep;
    if i == 0 {
      s := Start(count);
      StartOk(count, link);
      StartReached(count, link);
    } else {
      var r := ReachesSlot(count, link, data, i - 1);
      FurtherPush(count, link, r, data);
      var w := PushDone(r, data, link);
      PushedOne(r, data, link);
      Further(count, link, w, Controller);
      ReadsNext(w, link);
      ControllerOk(w, link);
      s := ControllerStep(w);
      ControllerKeepsPc(w);
    }
  }

  lemma StartReached(count: nat, link: Trb)
    requires 2 <= count && LinkTrb(link)
    ensures Reaches(count, link, Start(count)) && AllRead(Start(count), 0) && |Start(count).ring.buf| == count
  {
    StartOk(count, link);
    assert FromStart(count, [], link) && After(count, [], link) == Start(count);
  }

  lemma ControllerKeepsPc(s: System)
    requires s.index < |s.ring.buf|
    ensures ControllerStep(s).pc == s.pc && ControllerStep(s).ring == s.ring
  {
  }

  lemma PushedOne(s: System, data: Trb, link: Trb)
    requires Inv(s, link) && RingOk(s.ring) && s.ring.writeIndex < |s.ring.buf| - 1
    ensures var s' := PushDone(s, data, link);
            && Pending(s') == Pending(s) + [Strip(data)] && s'.pc == s.pc && s'.index == s.index
            && |s'.ring.buf| == |s.ring.buf|
  {
    hide SameLap, LapBehind, Strip, WithCycle;
  }

  /** From there the driver can get `k` TRBs ahead, as long as there is room. */
  lemma {:induction false} ReachesFull(count: nat, link: Trb, data: Trb, k: nat) returns (s: System)
    requires 2 <= count && k <= count - 2 && LinkTrb(link) && !IsLink(data)
    ensures Reaches(count, link, s) && Inv(s, link) && |s.ring.buf| == count
    ensures s.pc.Idle? && s.index == count - 1 && |Pending(s)| == k
    decreases k
  {
    hide Reaches, Inv, PushDone;
    if k == 0 {
      s := ReachesSlot(count, link, data, count - 1);
    } else {
      var r := ReachesFull(count, link, data, k - 1);
      FurtherPush(count, link, r, data);
      PushedOne(r, data, link);
      s := PushDone(r, data, link);
    }
  }

  /** In a ring of any size a run leads to a push after which the controller reads nothing more. */
  lemma RingStalls(count: nat, link: Trb, data: Trb) returns (s: System)
    requires 2 <= count && LinkTrb(link) && !IsLink(data)
    ensures Reaches(count, link, s) && Inv(s, link) && s.pc.Idle? && |s.ring.buf| == count
    ensures s.ring.writeIndex < count - 1 && |Pending(s)| == count - 2
    ensures forall k: nat :: !DrainsIn(PushDone(s, data, link), k)
  {
    hide Reaches, Inv, PushDone, DrainsIn;
    s := ReachesFull(count, link, data, count - 2);
    OneMoreExactly(s, data, link);
  }

  class CommandRing {
    var buffer: array<Trb>
    var writeIndex: nat
    var cycleBit: bool

    ghost predicate Valid()
      reads this
    {
      buffer.Length >= 2 && writeIndex < buffer.Length
    }

    ghost function View(): Ring
      reads this, buffer
    {
      Ring(buffer[..], writeIndex, cycleBit)
    }

    constructor (count: nat)
      requires count >= 2
      ensures Valid() && fresh(buffer) && View() == Start(count).ring
    {
      buffer := new Trb[count](_ => [0, 0, 0, 0]);
      writeIndex, cycleBit := 0, true;
    }

    method CopyToLast(data: Trb)
      requires Valid()
      modifies buffer
      ensures View() == WriteAll(old(View()), data)
    {
      hide WithCycle;
      var i := 0;
      while i < 3
        invariant 0 <= i <= 3
        invariant buffer[writeIndex][..i] == data[..i]
        invariant forall k | 0 <= k < buffer.Length && k != writeIndex :: buffer[k] == old(buffer[k])
      {
        buffer[writeIndex] := buffer[writeIndex][i := data[i]];
        i := i + 1;
      }
      var part := buffer[writeIndex];
      buffer[writeIndex] := part[3 := WithCycle(data[3], cycleBit)];
      assert buffer[writeIndex] == data[3 := WithCycle(data[3], cycleBit)];
      assert buffer[..] == WriteAll(old(View()), data).buf;
    }

    method Push(data: Trb, link: Trb) returns (position: nat)
      requires Valid() && writeIndex < buffer.Length - 1
      modifies this, buffer
      ensures Valid() && buffer == old(buffer) && writeIndex < buffer.Length - 1
      ensures View() == PushAll(old(View()), data, link) && position == old(writeIndex)
    {
      hide WithCycle;
      position := writeIndex;
      CopyToLast(data);
      writeIndex := writeIndex + 1;
      if writeIndex == buffer.Length - 1 {
        CopyToLast(link);
        writeIndex := 0;
        cycleBit := !cycleBit;
      }
    }
  }
}
