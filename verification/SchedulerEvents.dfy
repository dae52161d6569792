/** Waiting, notifying and cancelling keep the waiter lists and the threads' own lists mirrored. */
module SchedulerEvents {
  import opened Collections
  import opened Scheduler
  import opened SchedulerInvariant
  import opened SchedulerSteps

  /** Queues do not depend on what threads wait for. */
  lemma CoreKept(s: State, r: State)
    requires Core(s) && SameIdentity(s, r) && r.locals == s.locals
    requires forall p | p in s.threads ::
               && r.threads[p].runningOn == s.threads[p].runningOn && r.threads[p].nice == s.threads[p].nice
               && r.threads[p].suspendFrom == s.threads[p].suspendFrom
    ensures Core(r)
  {
    hide QueuesOk, CurrentOk, IdleOk;
    QueuesKept(s, r);
    CurrentKept(s, r);
    IdleKept(s, r);
  }

  /** One waiter list and one thread's list change together. */
  lemma EditEvents(s: State, r: State, e: nat, p: Ptr)
    requires EventsOk(s) && Alive(s, p) && p in r.threads
    requires r.threads == s.threads[p := s.threads[p].(events := r.threads[p].events)]
    requires forall e': nat | e' != e :: Waiters(r, e') == Waiters(s, e')
    requires forall e': nat | e' != e :: multiset(r.threads[p].events)[e'] == multiset(s.threads[p].events)[e']
    requires forall q | q in Waiters(r, e) :: q == p || q in Waiters(s, e)
    requires forall q | q != p :: multiset(Waiters(r, e))[q] == multiset(Waiters(s, e))[q]
    requires multiset(Waiters(r, e))[p] == multiset(r.threads[p].events)[e]
    ensures EventsOk(r)
  {
    forall e': nat, q | WaitsFor(r, q, e')
      ensures Alive(r, q)
    {
      assert q == p || WaitsFor(s, q, e');
    }
    forall q | Alive(r, q)
      ensures Mirrored(r, q)
    {
      assert Mirrored(s, q);
      forall e': nat
        ensures multiset(Waiters(r, e'))[q] == multiset(r.threads[q].events)[e']
      {
        assert multiset(Waiters(s, e'))[q] == multiset(s.threads[q].events)[e'];
      }
    }
  }

  lemma PushWaiterEvents(s: State, e: nat, p: Ptr)
    requires EventsOk(s) && HasEvent(s, e) && Alive(s, p)
    ensures EventsOk(PushWaiter(s, e, p))
  {
    assert Mirrored(s, p);
    assert multiset(Waiters(s, e))[p] == multiset(s.threads[p].events)[e];
    hide EventsOk, Mirrored;
    EditEvents(s, PushWaiter(s, e, p), e, p);
  }

  lemma PushWaiterOk(s: State, e: nat, p: Ptr, exiting: set<Ptr>)
    requires Core(s) && Lists(s, exiting) && HasEvent(s, e) && Alive(s, p)
    ensures Core(PushWaiter(s, e, p)) && Lists(PushWaiter(s, e, p), exiting)
    ensures Alive(PushWaiter(s, e, p), p)
  {
    hide QueuesOk, CurrentOk, IdleOk, EventsOk, TableOk;
    PushWaiterEvents(s, e, p);
    CoreKept(s, PushWaiter(s, e, p));
    TableKept(s, PushWaiter(s, e, p));
  }

  lemma {:induction false} PushWaitersOk(s: State, es: seq<nat>, p: Ptr)
    requires Inv(s) && Alive(s, p)
    ensures Inv(PushWaiters(s, es, p).0) && Alive(PushWaiters(s, es, p).0, p)
    ensures PushWaiters(s, es, p).0.threads.Keys == s.threads.Keys
    ensures PushWaiters(s, es, p).0.threads[p].entry == s.threads[p].entry
    decreases |es|
  {
    hide QueuesOk, CurrentOk, IdleOk, Lists;
    if es != [] && HasEvent(s, es[0]) {
      PushWaiterOk(s, es[0], p, {});
      PushWaitersOk(PushWaiter(s, es[0], p), es[1..], p);
    }
  }

  lemma UnwaitEvents(s: State, e: nat, p: Ptr)
    requires EventsOk(s) && HasEvent(s, e) && Alive(s, p)
    ensures EventsOk(Unwait(s, e, p))
  {
    hide EventsOk, EraseAll;
    var r := Unwait(s, e, p);
    assert Waiters(r, e) == EraseAll(Waiters(s, e), p);
    EditEvents(s, r, e, p);
  }

  lemma UnwaitOk(s: State, e: nat, p: Ptr)
    requires Inv(s) && HasEvent(s, e) && Alive(s, p)
    ensures Inv(Unwait(s, e, p)) && Alive(Unwait(s, e, p), p)
  {
    hide QueuesOk, CurrentOk, IdleOk, EventsOk, TableOk;
    UnwaitEvents(s, e, p);
    CoreKept(s, Unwait(s, e, p));
    TableKept(s, Unwait(s, e, p));
  }

  lemma {:induction false} UnwaitAllOk(s: State, es: seq<nat>, p: Ptr)
    requires Inv(s) && Alive(s, p)
    ensures Inv(UnwaitAll(s, es, p).0)
    decreases |es|
  {
    hide Core, Lists;
    if es != [] && HasEvent(s, es[0]) {
      UnwaitOk(s, es[0], p);
      UnwaitAllOk(Unwait(s, es[0], p), es[1..], p);
    }
  }

  // ------------------------------------------------------------------- exit

  function MarkZombie(s: State, p: Ptr): (r: State)
    requires p in s.threads
  {
    SetThread(s, p, s.threads[p].(zombie := true))
  }

  lemma CancelEvents(s: State, p: Ptr)
    requires EventsOk(s) && Alive(s, p)
    ensures EventsOk(Cancel(MarkZombie(s, p), p))
  {
    var r := Cancel(MarkZombie(s, p), p);
    assert forall e: nat :: Waiters(r, e) == EraseAll(Waiters(s, e), p);
    forall e: nat, q | WaitsFor(r, q, e)
      ensures Alive(r, q)
    {
      assert WaitsFor(s, q, e);
    }
    forall q | Alive(r, q)
      ensures Mirrored(r, q)
    {
      assert Mirrored(s, q);
    }
  }

  /** A thread that starts exiting is no longer waited for anywhere. */
  lemma CancelOk(s: State, p: Ptr)
    requires Inv(s) && Alive(s, p) && p != s.eventProcessor && !IsIdle(s, p)
    ensures var r := Cancel(MarkZombie(s, p), p); Core(r) && Lists(r, {p})
  {
    var m := MarkZombie(s, p);
    var r := Cancel(m, p);
    hide QueuesOk, CurrentOk, EventsOk, IdleOk, TableOk;
    CancelEvents(s, p);
    QueuesKept(s, r);
    CurrentKept(s, r);
    ZombieIdle(s, p);
    assert IdleOk(r) by { IdleKept(m, r); }
    ZombieTable(s, p);
    assert TableOk(r) by { TableKept(m, r); }
  }

  lemma ZombieIdle(s: State, p: Ptr)
    requires IdleOk(s) && p in s.threads && !IsIdle(s, p)
    ensures IdleOk(MarkZombie(s, p))
  {
    var m := MarkZombie(s, p);
    forall c | 0 <= c < |m.locals| && m.locals[c].current.Some?
      ensures HasIdle(m, c)
    {
      assert HasIdle(s, c);
      var q :| IdleOn(s, q, c);
      assert IdleOn(m, q, c);
    }
  }

  lemma ZombieTable(s: State, p: Ptr)
    requires TableOk(s) && p in s.threads
    ensures TableOk(MarkZombie(s, p))
  {
    assert forall pid, tid, q :: Slot(MarkZombie(s, p), pid, tid, q) <==> Slot(s, pid, tid, q);
  }

  // ----------------------------------------------------------------- notify

  /** While `rest` is being woken, event `e` has no waiters and only they may still list it. */
  ghost predicate Notifying(s: State, e: nat, rest: seq<Ptr>) {
    && Waiters(s, e) == []
    && (forall p | p in rest :: Alive(s, p))
    && (forall e': nat, p | WaitsFor(s, p, e') :: Alive(s, p))
    && (forall p, e': nat | Alive(s, p) && (e' != e || p !in rest) ::
          multiset(Waiters(s, e'))[p] == multiset(s.threads[p].events)[e'])
  }

  /** Notifying is about lists alone, so waking a thread keeps it. */
  lemma NotifyingKept(s: State, r: State, e: nat, rest: seq<Ptr>)
    requires Notifying(s, e, rest) && SameIdentity(s, r) && SameLists(s, r)
    ensures Notifying(r, e, rest)
  {
    assert forall e': nat :: Waiters(r, e') == Waiters(s, e');
    assert forall e': nat, q :: WaitsFor(r, q, e') == WaitsFor(s, q, e');
    assert forall q :: Alive(r, q) == Alive(s, q);
  }

  lemma NotifyingNext(s: State, e: nat, rest: seq<Ptr>)
    requires Notifying(s, e, rest) && rest != [] && rest[0] in s.threads
    ensures var t := s.threads[rest[0]];
            Notifying(SetThread(s, rest[0], t.(events := EraseAll(t.events, e))), e, rest[1..])
  {
    var p := rest[0];
    var r := SetThread(s, p, s.threads[p].(events := EraseAll(s.threads[p].events, e)));
    assert forall e': nat :: Waiters(r, e') == Waiters(s, e');
    assert forall e': nat, q :: WaitsFor(r, q, e') == WaitsFor(s, q, e');
    assert forall q :: Alive(r, q) == Alive(s, q);
    forall q, e': nat | Alive(r, q) && (e' != e || q !in rest[1..])
      ensures multiset(Waiters(r, e'))[q] == multiset(r.threads[q].events)[e']
    {
      if e' == e && q == p {
        assert multiset(Waiters(r, e))[q] == 0;
      } else {
        assert q in rest ==> q == p || q in rest[1..];
      }
    }
  }

  ghost predicate ListsBut(s: State, exiting: set<Ptr>) {
    TableOk(s) && ZombiesOk(s, exiting) && Alive(s, s.eventProcessor)
  }

  lemma WakeupCore(s: State, c: nat, p: Ptr, exiting: set<Ptr>)
    requires Core(s) && ListsBut(s, exiting) && c < |s.locals| && Alive(s, p)
    ensures var r := Wakeup(s, c, p);
            Core(r) && ListsBut(r, exiting) && SameIdentity(s, r) && SameLists(s, r) && |r.locals| == |s.locals|
  {
    hide QueuesOk, CurrentOk, IdleOk, TableOk;
    var r := Wakeup(s, c, p);
    WakeupQueues(s, c, p);
    CurrentKept(s, r);
    IdleKept(s, r);
    TableKept(s, r);
  }

  lemma DropEventOk(s: State, p: Ptr, e: nat, exiting: set<Ptr>)
    requires Core(s) && ListsBut(s, exiting) && p in s.threads
    ensures var r := SetThread(s, p, s.threads[p].(events := EraseAll(s.threads[p].events, e)));
            Core(r) && ListsBut(r, exiting)
  {
    hide QueuesOk, CurrentOk, IdleOk, TableOk, EraseAll;
    var r := SetThread(s, p, s.threads[p].(events := EraseAll(s.threads[p].events, e)));
    CoreKept(s, r);
    TableKept(s, r);
  }

  /** One waiter: its event is dropped and it is woken. */
  lemma WakeupEachStep(s: State, c: nat, e: nat, rest: seq<Ptr>, exiting: set<Ptr>) returns (r: State)
    requires Core(s) && ListsBut(s, exiting) && Notifying(s, e, rest) && c < |s.locals| && rest != []
    ensures Core(r) && ListsBut(r, exiting) && Notifying(r, e, rest[1..]) && c < |r.locals|
    ensures forall p | p in rest :: p in s.threads
    ensures WakeupEach(s, c, e, rest) == WakeupEach(r, c, e, rest[1..])
  {
    assert Alive(s, rest[0]);
    assert forall p | p in rest :: p in s.threads;
    hide Core, ListsBut, Notifying, Wakeup, EraseAll;
    var t := s.threads[rest[0]];
    var s1 := SetThread(s, rest[0], t.(events := EraseAll(t.events, e)));
    r := Wakeup(s1, c, rest[0]);
    NotifyingNext(s, e, rest);
    DropEventOk(s, rest[0], e, exiting);
    WakeupCore(s1, c, rest[0], exiting);
    NotifyingKept(s1, r, e, rest[1..]);
  }

  lemma {:induction false} WakeupEachOk(s: State, c: nat, e: nat, rest: seq<Ptr>, exiting: set<Ptr>)
    requires Core(s) && ListsBut(s, exiting) && Notifying(s, e, rest) && c < |s.locals|
    ensures Core(WakeupEach(s, c, e, rest)) && Lists(WakeupEach(s, c, e, rest), exiting)
    decreases |rest|
  {
    hide Core, QueuesOk, CurrentOk, IdleOk, TableOk, EventsOk;
    if rest == [] {
      NotifiedEvents(s, e);
    } else {
      var r := WakeupEachStep(s, c, e, rest, exiting);
      WakeupEachOk(r, c, e, rest[1..], exiting);
    }
  }

  lemma NotifiedEvents(s: State, e: nat)
    requires Notifying(s, e, [])
    ensures EventsOk(s)
  {
    forall p | Alive(s, p)
      ensures Mirrored(s, p)
    {
    }
  }

  lemma NotifyStarts(s: State, e: nat)
    requires EventsOk(s) && HasEvent(s, e)
    ensures Notifying(s.(events := s.events[e := Some([])]), e, s.events[e].value)
  {
    var r := s.(events := s.events[e := Some([])]);
    var rest := s.events[e].value;
    assert forall p | p in rest :: WaitsFor(s, p, e);
    assert forall e': nat :: Waiters(r, e') == if e' == e then [] else Waiters(s, e');
    assert forall e': nat, q | WaitsFor(r, q, e') :: WaitsFor(s, q, e');
    forall p, e': nat | Alive(r, p) && (e' != e || p !in rest)
      ensures multiset(Waiters(r, e'))[p] == multiset(r.threads[p].events)[e']
    {
      assert Mirrored(s, p);
      assert multiset(Waiters(s, e'))[p] == multiset(s.threads[p].events)[e'];
    }
  }

  lemma WaitersAreThreads(s: State, e: nat)
    requires EventsOk(s)
    ensures forall p | p in Waiters(s, e) :: p in s.threads
  {
    assert forall p | p in Waiters(s, e) :: WaitsFor(s, p, e);
  }

  /** Notifying keeps the invariant, even in the middle of an exit. */
  lemma NotifyOk(s: State, c: nat, e: nat, exiting: set<Ptr>)
    requires Core(s) && Lists(s, exiting) && c < |s.locals|
    ensures forall p | p in Waiters(s, e) :: p in s.threads
    ensures Core(Notify(s, c, e).0) && Lists(Notify(s, c, e).0, exiting)
  {
    WaitersAreThreads(s, e);
    if HasEvent(s, e) {
      var r := s.(events := s.events[e := Some([])]);
      NotifyStarts(s, e);
      CoreKept(s, r);
      TableKept(s, r);
      WakeupEachOk(r, c, e, s.events[e].value, exiting);
    }
  }
}
