/**
 Bringing up USB ports one at a time (section 4.3 of the xHCI specification):
 the driver's phase for each port, against events in any order.  What the
 driver reads from registers and device contexts is part of the event.
 */
module XhciPorts {
  import opened Collections

  datatype Phase = NotConnected | WaitingAddressed | ResettingPort | EnablingSlot | AddressingDevice
                 | InitializingDevice | ConfiguringEndpoints | Configured

  function Rank(p: Phase): nat {
    match p
    case NotConnected => 0
    case WaitingAddressed => 1
    case ResettingPort => 2
    case EnablingSlot => 3
    case AddressingDevice => 4
    case InitializingDevice => 5
    case ConfiguringEndpoints => 6
    case Configured => 7
  }

  /** Holding the default address: at most one port may. */
  predicate Busy(p: Phase) { p.ResettingPort? || p.EnablingSlot? || p.AddressingDevice? }

  datatype Code = Success | InvalidPhase | InvalidSlotID | Failed

  datatype State = State(phase: seq<Phase>, addressing: nat)

  /** `device` is the root hub port the device's context names, when there is such a device. */
  datatype Event =
    | ConfigurePort(port: nat, connected: set<nat>)
    | PortStatus(port: nat, connected: set<nat>, resetDone: bool)
    | Transfer(device: Option<nat>, accepted: bool, initialized: bool, prepared: bool)
    | SlotEnabled(prepared: bool)
    | DeviceAddressed(device: Option<nat>, connected: set<nat>, started: bool)
    | EndpointsConfigured(device: Option<nat>, accepted: bool)
    | OtherCompletion

  predicate EventOk(e: Event, ports: nat) {
    match e
    case ConfigurePort(p, _) => 1 <= p <= ports
    case PortStatus(p, _, _) => 1 <= p <= ports
    case Transfer(d, _, _, _) => d.Some? ==> d.value < 256
    case DeviceAddressed(d, _, _) => d.Some? ==> d.value < 256
    case EndpointsConfigured(d, _) => d.Some? ==> d.value < 256
    case _ => true
  }

  predicate Shape(s: State) { |s.phase| == 256 && s.addressing < 256 }

  function ResetPort(s: State, p: nat, connected: set<nat>): (State, Code)
    requires Shape(s) && p < 256
  {
    if p !in connected then (s, Success)
    else if s.addressing != 0 then (s.(phase := s.phase[p := WaitingAddressed]), Success)
    else if !s.phase[p].NotConnected? && !s.phase[p].WaitingAddressed? then (s, InvalidPhase)
    else (State(s.phase[p := ResettingPort], p), Success)
  }

  /** The first port that waits, from i on. */
  function FirstWaiting(phase: seq<Phase>, i: nat): (r: Option<nat>)
    ensures r.Some? ==> i <= r.value < |phase| && phase[r.value].WaitingAddressed?
    ensures forall k | i <= k < (if r.Some? then r.value else |phase|) :: !phase[k].WaitingAddressed?
    decreases |phase| - i
  {
    if i >= |phase| then None else if phase[i].WaitingAddressed? then Some(i) else FirstWaiting(phase, i + 1)
  }

  /** After one port is addressed the first waiting one is tried, and no other. */
  function HandOver(s: State, connected: set<nat>): (State, Code)
    requires Shape(s)
  {
    var w := FirstWaiting(s.phase, 0);
    if w.None? then (s, Success) else ResetPort(s, w.value, connected)
  }

  function Step(s: State, e: Event): (State, Code)
    requires Shape(s) && EventOk(e, 255)
  {
    match e
    case ConfigurePort(p, connected) =>
      if s.phase[p].NotConnected? then ResetPort(s, p, connected) else (s, Success)
    case PortStatus(p, connected, resetDone) =>
      if s.phase[p].NotConnected? then ResetPort(s, p, connected)
      else if s.phase[p].ResettingPort? then (if resetDone then s.(phase := s.phase[p := EnablingSlot]) else s, Success)
      else (s, InvalidPhase)
    case Transfer(d, accepted, initialized, prepared) =>
      if d.None? then (s, InvalidSlotID)
      else if !accepted then (s, Failed)
      else if !(initialized && s.phase[d.value].InitializingDevice?) then (s, Success)
      else if !prepared then (s, Failed)
      else (s.(phase := s.phase[d.value := ConfiguringEndpoints]), Success)
    case SlotEnabled(prepared) =>
      if !s.phase[s.addressing].EnablingSlot? then (s, InvalidPhase)
      else if !prepared then (s, Failed)
      else (s.(phase := s.phase[s.addressing := AddressingDevice]), Success)
    case DeviceAddressed(d, connected, started) =>
      if d.None? then (s, InvalidSlotID)
      else if d.value != s.addressing || !s.phase[d.value].AddressingDevice? then (s, InvalidPhase)
      else
        var h := HandOver(s.(addressing := 0), connected);
        if h.1 != Success then h
        else (h.0.(phase := h.0.phase[d.value := InitializingDevice]), if started then Success else Failed)
    case EndpointsConfigured(d, accepted) =>
      if d.None? then (s, InvalidSlotID)
      else if !s.phase[d.value].ConfiguringEndpoints? then (s, InvalidPhase)
      else if !accepted then (s, Failed)
      else (s.(phase := s.phase[d.value := Configured]), Success)
    case OtherCompletion => (s, InvalidPhase)
  }

  // --------------------------------------------------------------- invariant

  /** The ports in the middle of addressing are the addressing port and no other. */
  ghost predicate Inv(s: State) {
    && Shape(s) && s.phase[0].NotConnected?
    && (forall p | 0 <= p < 256 :: Busy(s.phase[p]) <==> p == s.addressing && s.addressing != 0)
  }

  ghost predicate NotBackwards(s: State, s': State) {
    |s'.phase| == |s.phase| && forall p | 0 <= p < |s.phase| :: Rank(s.phase[p]) <= Rank(s'.phase[p])
  }

  function Boot(): (s: State)
    ensures Inv(s)
  {
    State(seq(256, _ => NotConnected), 0)
  }

  lemma ResetPortOk(s: State, p: nat, connected: set<nat>)
    requires Inv(s) && 1 <= p < 256 && (s.phase[p].NotConnected? || (s.phase[p].WaitingAddressed? && s.addressing == 0))
    ensures var (s', c) := ResetPort(s, p, connected);
            && Inv(s') && c == Success && NotBackwards(s, s')
            && forall k | 0 <= k < 256 && k != p :: s'.phase[k] == s.phase[k]
  {
  }

  lemma AddressedOk(s: State, d: nat, connected: set<nat>, started: bool)
    requires Inv(s) && d < 256
    ensures var s' := Step(s, DeviceAddressed(Some(d), connected, started)).0; Inv(s') && NotBackwards(s, s')
  {
    if d == s.addressing && s.phase[d].AddressingDevice? {
      // The port leaves the busy phases first here; the driver does so last, with the same outcome.
      var done := State(s.phase[d := InitializingDevice], 0);
      assert Inv(done);
      SameFirst(s.phase, d, InitializingDevice, 0);
      var w := FirstWaiting(s.phase, 0);
      if w.Some? {
        ResetPortOk(done, w.value, connected);
        assert s.phase[w.value := ResettingPort][d := InitializingDevice] ==
            s.phase[d := InitializingDevice][w.value := ResettingPort];
      }
    }
  }

  lemma {:induction false} SameFirst(phase: seq<Phase>, a: nat, now: Phase, i: nat)
    requires a < |phase| && !phase[a].WaitingAddressed? && !now.WaitingAddressed?
    ensures FirstWaiting(phase[a := now], i) == FirstWaiting(phase, i)
    decreases |phase| - i
  {
    if i < |phase| { SameFirst(phase, a, now, i + 1); }
  }

  /** Every event keeps one port at most in addressing, and moves no port backwards. */
  lemma StepOk(s: State, e: Event)
    requires Inv(s) && EventOk(e, 255)
    ensures Inv(Step(s, e).0) && NotBackwards(s, Step(s, e).0)
  {
    match e
    case ConfigurePort(p, connected) => if s.phase[p].NotConnected? { ResetPortOk(s, p, connected); }
    case PortStatus(p, connected, _) => if s.phase[p].NotConnected? { ResetPortOk(s, p, connected); }
    case DeviceAddressed(d, connected, started) => if d.Some? { AddressedOk(s, d.value, connected, started); }
    case _ =>
  }

  // -------------------------------------------------------------------- runs

  ghost predicate EventsOk(events: seq<Event>, ports: nat) {
    ports <= 255 && forall i | 0 <= i < |events| :: EventOk(events[i], ports)
  }

  ghost function Run(s: State, events: seq<Event>): (r: State)
    requires Inv(s) && EventsOk(events, 255)
    ensures Inv(r) && NotBackwards(s, r)
    decreases |events|
  {
    if events == [] then s else
      StepOk(s, events[0]);
      Run(Step(s, events[0]).0, events[1..])
  }

  /** Over any run from boot: at most one port is being addressed, and it is addressing_port. */
  lemma OnePortAtATime(events: seq<Event>, p: nat, q: nat)
    requires EventsOk(events, 255) && p < 256 && q < 256
    ensures var s := Run(Boot(), events);
            && (Busy(s.phase[p]) <==> p == s.addressing && p != 0)
            && (Busy(s.phase[p]) && Busy(s.phase[q]) ==> p == q)
  {
  }

  // ------------------------------------------------------------- coming up

  /** The events of an undisturbed bring-up of port p. */
  function BringUp(p: nat, connected: set<nat>): seq<Event> {
    [PortStatus(p, connected, false), PortStatus(p, connected, true), SlotEnabled(true),
     DeviceAddressed(Some(p), connected, true), Transfer(Some(p), true, true, true), EndpointsConfigured(Some(p), true)]
  }

  /** The state after n of those events. */
  function Coming(s: State, p: nat, n: nat): State
    requires p < |s.phase|
  {
    State(s.phase[p := Reached(n)], if 1 <= n <= 3 then p else 0)
  }

  lemma ComingNext(s: State, p: nat, connected: set<nat>, n: nat)
    requires Inv(s) && 1 <= p < 256 && p in connected && FirstWaiting(s.phase, 0).None? && n < 6
    ensures Step(Coming(s, p, n), BringUp(p, connected)[n]).0 == Coming(s, p, n + 1)
  {
    SameFirst(s.phase, p, Reached(n), 0);
    var r := Coming(s, p, n);
    assert r.phase[p] == Reached(n) && r.phase[p := Reached(n + 1)] == s.phase[p := Reached(n + 1)];
  }

  /**
   A connected port that nobody is ahead of goes through every phase in turn to Configured, and no
   other port moves.
   */
  lemma {:induction false} PortComesUp(s: State, p: nat, connected: set<nat>, n: nat)
    requires Inv(s) && 1 <= p < 256 && p in connected && s.addressing == 0 && s.phase[p].NotConnected?
    requires FirstWaiting(s.phase, 0).None? && n <= 6
    ensures EventsOk(BringUp(p, connected)[..n], 255)
    ensures Run(s, BringUp(p, connected)[..n]) == Coming(s, p, n)
    decreases n
  {
    hide Step, FirstWaiting;
    if n == 0 {
      assert s.phase[p := NotConnected] == s.phase;
    } else {
      PortComesUp(s, p, connected, n - 1);
      var events := BringUp(p, connected);
      assert events[..n] == events[..n - 1] + [events[n - 1]];
      RunThen(s, events[..n - 1], events[n - 1]);
      ComingNext(s, p, connected, n - 1);
    }
  }

  /** The phase after n of those events. */
  function Reached(n: nat): Phase {
    if n == 0 then NotConnected else if n == 1 then ResettingPort else if n == 2 then EnablingSlot
    else if n == 3 then AddressingDevice else if n == 4 then InitializingDevice
    else if n == 5 then ConfiguringEndpoints else Configured
  }

  lemma {:induction false} RunThen(s: State, events: seq<Event>, e: Event)
    requires Inv(s) && EventsOk(events, 255) && EventOk(e, 255)
    ensures EventsOk(events + [e], 255) && Run(s, events + [e]) == Step(Run(s, events), e).0
    decreases |events|
  {
    hide Step, EventOk;
    if events == [] {
      assert (events + [e])[1..] == [];
    } else {
      StepOk(s, events[0]);
      assert (events + [e])[1..] == events[1..] + [e];
      RunThen(Step(s, events[0]).0, events[1..], e);
    }
  }

  // -------------------------------------------------------------- handing over

  /** When a port has been addressed, the next one starts exactly when the first waiting port is connected. */
  lemma HandOverExactly(s: State, d: nat, connected: set<nat>, started: bool)
    requires Inv(s) && d < 256 && d == s.addressing && s.phase[d].AddressingDevice?
    ensures var s' := Step(s, DeviceAddressed(Some(d), connected, started)).0;
            var w := FirstWaiting(s.phase, 0);
            && s'.phase[d] == InitializingDevice
            && (s'.addressing != 0 <==> w.Some? && w.value in connected)
            && (s'.addressing != 0 ==> s'.addressing == w.value && s'.phase[w.value] == ResettingPort)
  {
  }

  /**
   What starting a port comes to: one that is connected and has not begun is reset, or
   waits when another is being addressed; nothing else changes, and nothing at all for
   a port that is not connected or has begun.
   */
  lemma ConfigureStarts(s: State, p: nat, connected: set<nat>)
    requires Inv(s) && 1 <= p < 256
    ensures var (s', c) := Step(s, ConfigurePort(p, connected));
            && c == Success && (forall k | 0 <= k < 256 && k != p :: s'.phase[k] == s.phase[k])
            && (s.phase[p].NotConnected? && p in connected ==>
                  if s.addressing == 0 then s'.phase[p].ResettingPort? && s'.addressing == p
                  else s'.phase[p].WaitingAddressed? && s'.addressing == s.addressing)
            && (!s.phase[p].NotConnected? || p !in connected ==> s' == s)
  {
  }

  /** No port is being addressed, and none of the controller's ports can start. */
  ghost predicate Stalled(s: State, ports: nat) {
    Inv(s) && ports <= 255 && s.addressing == 0 && forall p | 1 <= p <= ports :: !s.phase[p].NotConnected?
  }

  lemma {:induction false} StalledForever(s: State, events: seq<Event>, ports: nat, p: nat)
    requires Stalled(s, ports) && EventsOk(events, ports) && p < 256 && s.phase[p].WaitingAddressed?
    ensures EventsOk(events, 255) && Stalled(Run(s, events), ports) && Run(s, events).phase[p].WaitingAddressed?
    decreases |events|
  {
    if events != [] {
      var s' := Step(s, events[0]).0;
      StepOk(s, events[0]);
      assert Stalled(s', ports) && s'.phase[p].WaitingAddressed?;
      StalledForever(s', events[1..], ports, p);
    }
  }

  // ------------------------------------------------------ who can still start

  ghost predicate OnlyPorts(s: State, ports: nat) {
    ports <= 255 && |s.phase| == 256 && forall p | ports < p < 256 :: s.phase[p].NotConnected?
  }

  /** These events, from the controller's own ports, start port `p`. */
  ghost predicate StartedBy(s: State, ports: nat, p: nat, events: seq<Event>)
    requires Inv(s) && p < 256
  {
    EventsOk(events, ports) && EventsOk(events, 255) && Run(s, events).phase[p].ResettingPort?
  }

  /** What is left before the addressing port's device can be addressed. */
  function Remaining(s: State): seq<Event>
    requires Shape(s)
  {
    var a := s.addressing;
    (if s.phase[a].ResettingPort? then [PortStatus(a, {}, true)] else [])
    + (if s.phase[a].AddressingDevice? then [] else [SlotEnabled(true)])
  }

  lemma RemainingRun(s: State, ports: nat)
    requires Inv(s) && 1 <= s.addressing <= ports <= 255
    ensures EventsOk(Remaining(s), ports) && EventsOk(Remaining(s), 255)
    ensures Run(s, Remaining(s)) == s.(phase := s.phase[s.addressing := AddressingDevice])
  {
    var a := s.addressing;
    assert Busy(s.phase[a]);
    var s1 := s.(phase := s.phase[a := EnablingSlot]);
    var s2 := s.(phase := s.phase[a := AddressingDevice]);
    var status := PortStatus(a, {}, true);
    assert Run(s2, []) == s2;
    assert Step(s1, SlotEnabled(true)).0 == s2;
    StepOk(s1, SlotEnabled(true));
    OneEvent(s1, SlotEnabled(true));
    if s.phase[a].ResettingPort? {
      assert Step(s, status).0 == s1;
      StepOk(s, status);
      assert [status] + [SlotEnabled(true)] == [status, SlotEnabled(true)];
      assert [status, SlotEnabled(true)][1..] == [SlotEnabled(true)];
    } else if s.phase[a].EnablingSlot? {
      assert s == s1;
    } else {
      assert s == s2;
    }
  }

  lemma OneEvent(s: State, e: Event)
    requires Inv(s) && EventOk(e, 255)
    ensures EventsOk([e], 255) && Run(s, [e]) == Step(s, e).0
  {
    StepOk(s, e);
    assert [e][1..] == [];
  }

  lemma {:induction false} RunBoth(s: State, a: seq<Event>, b: seq<Event>)
    requires Inv(s) && EventsOk(a, 255) && EventsOk(b, 255)
    ensures EventsOk(a + b, 255) && Run(s, a + b) == Run(Run(s, a), b)
    decreases |a|
  {
    hide Step, EventOk;
    if a == [] {
      assert a + b == b;
    } else {
      StepOk(s, a[0]);
      assert (a + b)[1..] == a[1..] + b;
      RunBoth(Step(s, a[0]).0, a[1..], b);
    }
  }

  lemma FirstIsFirst(phase: seq<Phase>, i: nat, p: nat)
    requires i <= p < |phase| && phase[p].WaitingAddressed?
    ensures FirstWaiting(phase, i).Some? && FirstWaiting(phase, i).value <= p
    decreases |phase| - i
  {
  }

  /** The addressing port finishes, and the first port that waits takes over. */
  lemma NextTurn(s: State, ports: nat, p: nat) returns (events: seq<Event>, s': State)
    requires Inv(s) && OnlyPorts(s, ports) && 1 <= s.addressing <= ports && p < 256 && s.phase[p].WaitingAddressed?
    ensures EventsOk(events, ports) && EventsOk(events, 255) && s' == Run(s, events)
    ensures var w := FirstWaiting(s.phase, 0);
            && w.Some? && w.value <= p && s'.addressing == w.value && s'.phase[w.value].ResettingPort?
            && (forall k | 0 <= k < 256 && k != s.addressing && k != w.value :: s'.phase[k] == s.phase[k])
            && !s'.phase[s.addressing].WaitingAddressed? && !s'.phase[s.addressing].NotConnected?
  {
    var a := s.addressing;
    assert Busy(s.phase[a]);
    RemainingRun(s, ports);
    var ready := s.(phase := s.phase[a := AddressingDevice]);
    FirstIsFirst(s.phase, 0, p);
    SameFirst(s.phase, a, AddressingDevice, 0);
    var connected := {FirstWaiting(s.phase, 0).value};
    var done := DeviceAddressed(Some(a), connected, true);
    HandOverExactly(ready, a, connected, true);
    events, s' := Remaining(s) + [done], Step(ready, done).0;
    OneEvent(ready, done);
    RunBoth(s, Remaining(s), [done]);
  }

  /** While some port is being addressed, every waiting port gets its turn. */
  lemma {:induction false} WaitingStarts(s: State, ports: nat, p: nat) returns (events: seq<Event>)
    requires Inv(s) && OnlyPorts(s, ports) && 1 <= s.addressing <= ports && p < 256 && s.phase[p].WaitingAddressed?
    ensures StartedBy(s, ports, p, events)
    decreases p - (if FirstWaiting(s.phase, 0).Some? then FirstWaiting(s.phase, 0).value else p)
  {
    FirstIsFirst(s.phase, 0, p);
    var s';
    events, s' := NextTurn(s, ports, p);
    var w := FirstWaiting(s.phase, 0).value;
    hide Run, FirstWaiting;
    if w != p {
      assert s'.phase[p] == s.phase[p] by { assert p != s.addressing by { assert Busy(s.phase[s.addressing]); } }
      FirstIsFirst(s'.phase, 0, p);
      var rest := WaitingStarts(s', ports, p);
      RunBoth(s, events, rest);
      events := events + rest;
    }
  }

  /** A waiting port can still start, with suitable events, exactly when the controller is not stalled. */
  lemma WaitingStartsExactly(s: State, ports: nat, p: nat)
    requires Inv(s) && OnlyPorts(s, ports) && s.addressing <= ports && p < 256 && s.phase[p].WaitingAddressed?
    ensures (exists events :: StartedBy(s, ports, p, events)) <==> !Stalled(s, ports)
  {
    if Stalled(s, ports) {
      forall events | EventsOk(events, ports) ensures !StartedBy(s, ports, p, events) {
        StalledForever(s, events, ports, p);
      }
    } else if s.addressing != 0 {
      var events := WaitingStarts(s, ports, p);
    } else {
      var q: nat :| 1 <= q <= ports && s.phase[q].NotConnected?;
      var first := PortStatus(q, {q}, false);
      StepOk(s, first);
      var s' := Step(s, first).0;
      assert s' == State(s.phase[q := ResettingPort], q);
      var rest := WaitingStarts(s', ports, p);
      OneEvent(s, first);
      RunBoth(s, [first], rest);
      assert StartedBy(s, ports, p, [first] + rest);
    }
  }

  /** Three connected ports report in; the first is reset and given the default address. */
  function ThreePorts(): (r: State)
    ensures Shape(r)
  {
    var all := {1, 2, 3};
    Step(Step(Step(Boot(), PortStatus(1, all, false)).0, PortStatus(2, all, false)).0, PortStatus(3, all, false)).0
  }

  /** The first is addressed at a moment when the second is unplugged. */
  function Unplugged(): (r: State)
    ensures Shape(r)
  {
    Step(Step(Step(ThreePorts(), PortStatus(1, {1, 2, 3}, true)).0, SlotEnabled(true)).0,
         DeviceAddressed(Some(1), {1, 3}, true)).0
  }

  lemma UnpluggedStalls()
    ensures Stalled(Unplugged(), 3) && Unplugged().phase[3] == WaitingAddressed
  {
    var s := ThreePorts();
    assert s == State(Boot().phase[1 := ResettingPort][2 := WaitingAddressed][3 := WaitingAddressed], 1);
    assert Inv(s);
    hide ThreePorts;
    var s5 := State(s.phase[1 := AddressingDevice], 1);
    assert Step(Step(s, PortStatus(1, {1, 2, 3}, true)).0, SlotEnabled(true)).0.phase == s5.phase;
    assert Inv(s5);
    assert FirstWaiting(s5.phase, 0) == FirstWaiting(s5.phase, 1) == FirstWaiting(s5.phase, 2) == Some(2);
    HandOverExactly(s5, 1, {1, 3}, true);
    AddressedOk(s5, 1, {1, 3}, true);
  }

  /**
   A waiting port that is unplugged at the wrong moment keeps the others out
   for good: the third port waits through every later run, connected or not.
   */
  lemma ThirdPortNeverStarts(later: seq<Event>)
    requires EventsOk(later, 3)
    ensures Inv(Unplugged()) && EventsOk(later, 255) && Run(Unplugged(), later).phase[3] == WaitingAddressed
  {
    hide Unplugged, Run;
    UnpluggedStalls();
    StalledForever(Unplugged(), later, 3, 3);
  }

  // ----------------------------------------------------------- the controller

  /** port_config_phase and addressing_port, as the handlers update them. */
  class Controller {
    const phase: array<Phase>
    var addressing: nat

    ghost predicate Valid()
      reads this
    {
      phase.Length == 256 && addressing < 256
    }

    ghost function View(): State
      reads this, phase
    {
      State(phase[..], addressing)
    }

    constructor ()
      ensures Valid() && fresh(phase) && View() == Boot()
    {
      phase := new Phase[256](_ => NotConnected);
      addressing := 0;
    }

    method Reset(p: nat, connected: set<nat>) returns (c: Code)
      requires Valid() && p < 256
      modifies this, phase
      ensures Valid() && (View(), c) == ResetPort(old(View()), p, connected)
    {
      if p !in connected { return Success; }
      if addressing != 0 {
        phase[p] := WaitingAddressed;
      } else {
        if phase[p] != NotConnected && phase[p] != WaitingAddressed { return InvalidPhase; }
        addressing := p;
        phase[p] := ResettingPort;
      }
      return Success;
    }

    method Configure(p: nat, connected: set<nat>) returns (c: Code)
      requires Valid() && 1 <= p < 256
      modifies this, phase
      ensures Valid() && (View(), c) == Step(old(View()), ConfigurePort(p, connected))
    {
      c := Success;
      if phase[p] == NotConnected { c := Reset(p, connected); }
    }

    method OnPortStatus(p: nat, connected: set<nat>, resetDone: bool) returns (c: Code)
      requires Valid() && 1 <= p < 256
      modifies this, phase
      ensures Valid() && (View(), c) == Step(old(View()), PortStatus(p, connected, resetDone))
    {
      match phase[p]
      case NotConnected => c := Reset(p, connected);
      case ResettingPort =>
        if resetDone { phase[p] := EnablingSlot; }
        c := Success;
      case _ => c := InvalidPhase;
    }

    method OnTransfer(device: Option<nat>, accepted: bool, initialized: bool, prepared: bool) returns (c: Code)
      requires Valid() && (device.Some? ==> device.value < 256)
      modifies phase
      ensures Valid() && (View(), c) == Step(old(View()), Transfer(device, accepted, initialized, prepared))
    {
      if device.None? { return InvalidSlotID; }
      if !accepted { return Failed; }
      if initialized && phase[device.value] == InitializingDevice {
        if !prepared { return Failed; }
        phase[device.value] := ConfiguringEndpoints;
      }
      return Success;
    }

    method OnSlotEnabled(prepared: bool) returns (c: Code)
      requires Valid()
      modifies phase
      ensures Valid() && (View(), c) == Step(old(View()), SlotEnabled(prepared))
    {
      if phase[addressing] != EnablingSlot { return InvalidPhase; }
      if !prepared { return Failed; }
      phase[addressing] := AddressingDevice;
      return Success;
    }

    /** The loop over all ports, which stops at the first that waits. */
    method ResetFirstWaiting(connected: set<nat>) returns (c: Code)
      requires Valid()
      modifies this, phase
      ensures Valid() && (View(), c) == HandOver(old(View()), connected)
    {
      var i := 0;
      while i < phase.Length
        invariant 0 <= i <= phase.Length
        invariant View() == old(View())
        invariant FirstWaiting(phase[..], i) == FirstWaiting(phase[..], 0)
      {
        if phase[i] == WaitingAddressed {
          c := Reset(i, connected);
          return;
        }
        i := i + 1;
      }
      c := Success;
    }

    method OnDeviceAddressed(device: Option<nat>, connected: set<nat>, started: bool) returns (c: Code)
      requires Valid() && (device.Some? ==> device.value < 256)
      modifies this, phase
      ensures Valid() && (View(), c) == Step(old(View()), DeviceAddressed(device, connected, started))
    {
      if device.None? { return InvalidSlotID; }
      if device.value != addressing || phase[device.value] != AddressingDevice { return InvalidPhase; }
      addressing := 0;
      c := ResetFirstWaiting(connected);
      if c == Success {
        phase[device.value] := InitializingDevice;
        if !started { c := Failed; }
      }
    }

    method OnEndpointsConfigured(device: Option<nat>, accepted: bool) returns (c: Code)
      requires Valid() && (device.Some? ==> device.value < 256)
      modifies phase
      ensures Valid() && (View(), c) == Step(old(View()), EndpointsConfigured(device, accepted))
    {
      if device.None? { return InvalidSlotID; }
      if phase[device.value] != ConfiguringEndpoints { return InvalidPhase; }
      if !accepted { return Failed; }
      phase[device.value] := Configured;
      return Success;
    }
  }
}
