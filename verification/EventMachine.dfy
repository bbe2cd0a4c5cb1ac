/** The event base as a machine: what the loop does between callbacks, what
    callbacks and other threads do under the lock, and what every run keeps. */
module EventMachine {
  import Queues
  import opened Timevals
  import opened EventModel
  import EventLists
  import opened EventOps
  import opened Options
  import opened EventKeeps
  import opened EventSteps
  import EventRuns

  /* ----- starting a callback ----- */

  /** event_process_active_single_queue takes the first callback off: an event
      that is neither persistent nor being finalized is deleted altogether. */
  function TakeOff(s: Base, e: nat): (r: Base)
    requires Known(s, e)
    ensures Kept(s, r, e)
  {
    var ev := s.evs[e];
    if ev.init && !ev.persist && !ev.finalizing then Del(s, e, false) else RemoveActive(s, e)
  }

  /** event_persist_closure, up to the call of the user's function. */
  function Rearm(s: Base, e: nat, now: Timeval, mapOk: bool): Base
    requires Known(s, e)
  {
    var ev := s.evs[e];
    if ev.closure == OnPersist && ev.ioTimeout != ZERO then
      Add(s, e, Some(NextRun(ev.at, ev.ioTimeout, TimedOut in ev.res, now, |s.lists|)), true, now, mapOk).base
    else s
  }

  function Start(s: Base, p: nat, now: Timeval, mapOk: bool): Base
    requires p < |s.active| && s.active[p] != [] && Known(s, s.active[p][0])
  {
    var e := s.active[p][0];
    Rearm(TakeOff(if IsTimer(s, e) then s.(firing := e) else s, e), e, now, mapOk)
  }

  lemma {:induction false} HeadKnown(s: Base, p: nat)
    requires Inv(s) && p < |s.active| && s.active[p] != []
    ensures var e := s.active[p][0]; Known(s, e) && s.evs[e].active && s.evs[e].pri == p
  {
    hide CountsOk, ListsOk, ListAt, HeapAt, DueOk, TimeOk, High;
    assert EventAt(s, s.active[p][0]);
  }

  lemma {:induction false} FiringKeeps(s: Base, t: nat)
    requires Inv(s) && s.firing == -1
    ensures Inv(s.(firing := t))
  {
    hide ActiveAt, ListAt, HeapAt, Sane, Sorted, TimerOk, LE, Real, Coded;
    var r := s.(firing := t);
    forall e: nat ensures EventAt(r, e) { assert EventAt(s, e); }
    forall i: nat ensures ListOk(r, i, -1) { assert ListOk(s, i, -1); }
  }

  lemma {:induction false} FiringCovers(s: Base, t: nat)
    requires InvBut(s, t) && s.firing == t
    ensures Inv(s)
  {
    hide FlagsOk, CountsOk, Sorted, TimerOk, Coded, LE, Real;
    forall i: nat ensures ListOk(s, i, -1) { assert ListOk(s, i, t); }
  }

  lemma {:induction false} TakeOffKeeps(s: Base, e: nat)
    requires Inv(s) && Known(s, e) && s.evs[e].active && (IsTimer(s, e) ==> s.firing == e)
    ensures Inv(TakeOff(s, e)) && SameTimers(s, TakeOff(s, e))
    ensures var nv := TakeOff(s, e).evs[e];
            nv == s.evs[e].(active := false, later := false, timeout := nv.timeout, inserted := nv.inserted)
    ensures IsTimer(s, e) ==> s.evs[e].closure == OnEvent
  {
    hide InvBut, SameTimers, Del, IsTimer, Sane;
    var skip := EventRuns.SkipFor(s, e);
    EventRuns.Weaken(s, skip);
    SaneIn(s, e, -1);
    DelKeeps(s, e, false, skip);
    RemoveActiveKeeps(s, e, skip);
    if IsTimer(s, e) {
      TimerIn(s, e, -1);
      FiringStays(s, TakeOff(s, e));
      FiringCovers(TakeOff(s, e), e);
    }
  }

  lemma {:induction false} FiringStays(s: Base, r: Base)
    requires SameTimers(s, r)
    ensures r.firing == s.firing
  {
  }

  lemma {:induction false} RearmKeeps(s: Base, e: nat, now: Timeval, mapOk: bool)
    requires Inv(s) && Known(s, e) && Normal(now) && (s.evs[e].closure == OnPersist ==> !IsTimer(s, e))
    ensures Inv(Rearm(s, e, now, mapOk)) && SameTimers(s, Rearm(s, e, now, mapOk))
  {
    hide InvBut, SameTimers, IsTimer, Add, NextRun, High, DueOk, TimeOk;
    SameTimersSelf(s);
    var ev := s.evs[e];
    if ev.closure == OnPersist && ev.ioTimeout != ZERO {
      SaneIn(s, e, -1);
      NextRunOk(ev.at, ev.ioTimeout, TimedOut in ev.res, now, |s.lists|);
      DueTime(NextRun(ev.at, ev.ioTimeout, TimedOut in ev.res, now, |s.lists|), |s.lists|);
      EventRuns.AddKeeps(s, e, Some(NextRun(ev.at, ev.ioTimeout, TimedOut in ev.res, now, |s.lists|)), true, now, mapOk);
    }
  }

  lemma {:induction false} DueTime(at: Timeval, n: nat)
    requires DueOk(at, n)
    ensures TimeOk(at, n)
  {
  }

  lemma {:induction false} StartKeeps(s: Base, p: nat, now: Timeval, mapOk: bool)
    requires Inv(s) && p < |s.active| && s.active[p] != [] && Normal(now) && s.firing == -1
    ensures Known(s, s.active[p][0]) && Inv(Start(s, p, now, mapOk))
  {
    hide InvBut, SameTimers, TakeOff, Rearm;
    HeadKnown(s, p);
    var e := s.active[p][0];
    FiringKeeps(s, e);
    var s0 := if IsTimer(s, e) then s.(firing := e) else s;
    TakeOffKeeps(s0, e);
    TimersStay(s0, TakeOff(s0, e), e);
    RearmKeeps(TakeOff(s0, e), e, now, mapOk);
  }

  lemma {:induction false} TimersStay(s: Base, r: Base, e: nat)
    requires SameTimers(s, r)
    ensures IsTimer(r, e) <==> IsTimer(s, e)
  {
  }

  /* ----- the callback of a list's timer ----- */

  /** common_timeout_callback's last act, with the lock still held. */
  function Finish(s: Base, i: nat): Base
    requires i < |s.lists| && Known(s, s.lists[i].timer)
  {
    (if s.lists[i].events != [] then Schedule(s, i) else s).(firing := -1)
  }

  lemma {:induction false} Unfire(s: Base, i: nat)
    requires Inv(s) && i < |s.lists| && s.firing == s.lists[i].timer
    requires s.lists[i].events != [] ==>
      var t := Ev(s.evs, s.lists[i].timer); t.timeout && LE(t.at, Real(Ev(s.evs, s.lists[i].events[0]).at))
    ensures Inv(s.(firing := -1))
  {
    hide ActiveAt, ListAt, HeapAt, Sane, Sorted, TimerOk, LE, Real, Coded;
    var r := s.(firing := -1);
    forall e: nat ensures EventAt(r, e) { assert EventAt(s, e); }
    forall k: nat ensures ListOk(r, k, -1) {
      assert ListOk(s, k, -1);
      assert k < |s.lists| && k != i ==> s.lists[k].timer != s.lists[i].timer;
    }
  }

  lemma {:induction false} FinishKeeps(s: Base, i: nat)
    requires Inv(s) && i < |s.lists| && s.firing == s.lists[i].timer
    ensures Known(s, s.lists[i].timer) && Inv(Finish(s, i))
  {
    hide InvBut, Schedule, SameTimers, LE, Real;
    var t := s.lists[i].timer;
    assert IsTimer(s, t);
    TimerIn(s, t, -1);
    SaneIn(s, t, -1);
    if s.lists[i].events != [] {
      EventRuns.Weaken(s, t);
      ScheduleKeeps(s, i);
      HeadApart(s, i);
      FiringStays(s, Schedule(s, i));
      HeadIn(s, i);
      SameLE(Real(Ev(s.evs, s.lists[i].events[0]).at));
      Unfire(Schedule(s, i), i);
    } else {
      Unfire(s, i);
    }
  }

  lemma {:induction false} SameLE(a: Timeval)
    ensures LE(a, a)
  {
  }

  lemma {:induction false} HeadIn(s: Base, i: nat)
    requires Inv(s) && i < |s.lists| && s.lists[i].events != []
    ensures s.lists[i].events[0] < |s.evs| && Known(s, s.lists[i].events[0]) && s.evs[s.lists[i].events[0]].timeout
  {
    hide FlagsOk, CountsOk, ListsOk, DueOk, TimeOk, High, IsCommon, Index;
    EventLists.SlotMember(s, i, s.lists[i].events[0]);
    SaneOf(s, s.lists[i].events[0]);
  }

  /* ----- new events and new lists ----- */

  /** event_assign, event_callback_init_ and event_deferred_cb_init_ make an
      event that is on no queue. */
  predicate Unused(ev: Event) {
    !ev.inserted && !ev.timeout && !ev.active && !ev.later && !ev.finalizing && ev.at == ZERO && ev.ioTimeout == ZERO
  }

  function New(s: Base, ev: Event): Base {
    s.(evs := s.evs + [ev])
  }

  lemma {:induction false} NewFlags(s: Base, ev: Event)
    requires FlagsOk(s) && Unused(ev) && ev.pri < |s.active|
    ensures FlagsOk(New(s, ev))
  {
    hide Queues.Count, IsCommon, Index, High;
    var r := New(s, ev);
    forall e: nat ensures EventAt(r, e) { assert EventAt(s, e); }
  }

  lemma {:induction false} NewCounts(s: Base, ev: Event)
    requires CountsOk(s) && Unused(ev)
    ensures CountsOk(New(s, ev))
  {
    hide Queues.Total;
    assert Weights(s.evs + [ev]) == Weights(s.evs) + [Weight(ev) as int];
    Queues.SumAppend(Weights(s.evs), 0);
  }

  lemma {:induction false} NewKeeps(s: Base, ev: Event)
    requires Inv(s) && Unused(ev) && ev.pri < |s.active|
    ensures Inv(New(s, ev)) && Usable(New(s, ev), |s.evs|)
  {
    hide FlagsOk, CountsOk, LE, Real, Coded, Sorted;
    NewFlags(s, ev);
    NewCounts(s, ev);
    var r := New(s, ev);
    forall i: nat ensures ListOk(r, i, -1) {
      assert ListOk(s, i, -1);
      if i < |s.lists| {
        var l := s.lists[i];
        ListKnown(s, i);
        EventLists.SortedSame(l.events, s.evs, r.evs);
      }
    }
    forall i | 0 <= i < |s.lists| ensures s.lists[i].timer < |s.evs| {
      assert ListOk(s, i, -1);
    }
  }

  lemma {:induction false} ListKnown(s: Base, i: nat)
    requires FlagsOk(s) && i < |s.lists|
    ensures forall x | x in s.lists[i].events :: x < |s.evs|
  {
    hide IsCommon, Index, High, FlagsOk, TimeOk;
    forall x | x in s.lists[i].events ensures x < |s.evs| {
      EventLists.SlotMember(s, i, x);
    }
  }

  /* ----- event_base_init_common_timeout ----- */

  /** The duration asked for, without a slot and with its seconds carried. */
  function Plainly(s: Base, d: Timeval): Timeval {
    if d.usec > MILLION then
      var u := if IsCommon(d, |s.lists|) then Micros(d) else d.usec;
      Timeval(d.sec + u / MILLION, u % MILLION)
    else d
  }

  /** It is as long as the duration asked for. */
  lemma {:induction false} PlainlyTotal(s: Base, d: Timeval)
    ensures IsCommon(d, |s.lists|) && d.usec > MILLION ==> Microseconds(Plainly(s, d)) == Microseconds(Real(d))
    ensures !IsCommon(d, |s.lists|) ==> Microseconds(Plainly(s, d)) == Microseconds(d)
  {
    hide IsCommon;
    var u := if IsCommon(d, |s.lists|) then Micros(d) else d.usec;
    assert u == u / MILLION * MILLION + u % MILLION;
  }

  /** The first list with this duration, or the number of lists. */
  function FindDuration(lists: seq<CommonList>, d: Timeval): (i: nat)
    ensures i <= |lists| && (i < |lists| ==> Real(lists[i].duration) == d)
    ensures forall k | 0 <= k < i :: Real(lists[k].duration) != d
  {
    if lists == [] || Real(lists[0].duration) == d then 0 else 1 + FindDuration(lists[1..], d)
  }

  function TimerEvent(): Event {
    Event(true, false, false, false, OnEvent, 0, true, false, false, false, false, false, {}, ZERO, ZERO)
  }

  /** code is the slot, or -1 when there are too many lists. */
  function InitCommon(s: Base, d: Timeval): Outcome {
    var plain := Plainly(s, d);
    var i := FindDuration(s.lists, plain);
    if i < |s.lists| then Outcome(i, s)
    else if |s.lists| == MAX_COMMON_TIMEOUTS then Outcome(-1, s)
    else
      var l := CommonList(Tagged(plain, MAGIC + |s.lists|), [], |s.evs|);
      Outcome(|s.lists|, New(s, TimerEvent()).(lists := s.lists + [l]))
  }

  lemma {:induction false} MoreLists(at: Timeval, n: nat)
    requires TimeOk(at, n) && n < MAX_COMMON_TIMEOUTS
    ensures TimeOk(at, n + 1) && (IsCommon(at, n + 1) <==> IsCommon(at, n))
    ensures IsCommon(at, n) ==> Index(at) < n
  {
    CommonWhenCoded(at, n);
    CommonWhenCoded(at, n + 1);
  }

  /** One more list, empty: every event stays where it is. */
  lemma {:induction false} MoreListsFlags(s: Base, l: CommonList)
    requires FlagsOk(s) && |s.lists| < MAX_COMMON_TIMEOUTS && l.events == []
    ensures FlagsOk(s.(lists := s.lists + [l]))
  {
    hide IsCommon, Index, High, TimeOk, ActiveAt;
    var r := s.(lists := s.lists + [l]);
    forall e: nat ensures EventAt(r, e) {
      assert EventAt(s, e);
      BlankTime(|s.lists|);
      MoreLists(Ev(s.evs, e).at, |s.lists|);
      if e < |s.evs| {
        MoreLists(s.evs[e].ioTimeout, |s.lists|);
      }
    }
  }

  lemma {:induction false} BlankTime(n: nat)
    ensures TimeOk(ZERO, n) && TimeOk(BLANK.at, n)
  {
  }

  lemma {:induction false} InitCommonKeeps(s: Base, d: Timeval)
    requires Inv(s)
    ensures var r := InitCommon(s, d);
            && Inv(r.base)
            && (r.code >= 0 ==>
                  && r.code < |r.base.lists|
                  && var c := r.base.lists[r.code].duration;
                  && IsCommon(c, |r.base.lists|) && Index(c) == r.code && Real(c) == Plainly(s, d))
            && (r.code == -1 <==> |s.lists| == MAX_COMMON_TIMEOUTS && forall k | 0 <= k < |s.lists| :: Real(s.lists[k].duration) != Plainly(s, d))
  {
    hide InvBut, IsCommon, Index, Real, Plainly, Tagged, Coded;
    var plain := Plainly(s, d);
    PlainlySmall(s, d);
    var i := FindDuration(s.lists, plain);
    EventRuns.CommonBound(s);
    if i < |s.lists| {
      SlotDuration(s, i);
    } else if |s.lists| < MAX_COMMON_TIMEOUTS {
      SlotRoundTrip(plain, |s.lists|, |s.lists| + 1);
      NewKeeps(s, TimerEvent());
      var l := CommonList(Tagged(plain, MAGIC + |s.lists|), [], |s.evs|);
      MoreListsKeeps(New(s, TimerEvent()), l);
    }
  }

  lemma {:induction false} PlainlySmall(s: Base, d: Timeval)
    ensures Plainly(s, d).usec <= MILLION
  {
    hide IsCommon, Micros;
  }

  lemma {:induction false} SlotDuration(s: Base, i: nat)
    requires Inv(s) && i < |s.lists|
    ensures IsCommon(s.lists[i].duration, |s.lists|) && Index(s.lists[i].duration) == i
  {
    hide FlagsOk, CountsOk, Sorted, Covered;
    assert ListOk(s, i, -1);
    EventRuns.CommonBound(s);
    CommonWhenCoded(s.lists[i].duration, |s.lists|);
  }

  lemma {:induction false} MoreListsKeeps(s: Base, l: CommonList)
    requires Inv(s) && |s.lists| < MAX_COMMON_TIMEOUTS && l.events == []
    requires l.timer < |s.evs| && !IsTimer(s, l.timer) && TimerOk(s.evs[l.timer])
    requires Coded(l.duration, |s.lists| + 1) && Index(l.duration) == |s.lists|
    ensures Inv(s.(lists := s.lists + [l]))
  {
    hide FlagsOk, CountsOk, Sorted, LE, Real, TimerOk, Index;
    var r := s.(lists := s.lists + [l]);
    MoreListsFlags(s, l);
    assert CountsOk(r) by { CountsSame(s, r); }
    forall i: nat ensures ListOk(r, i, -1) {
      if i < |s.lists| {
        assert ListOk(s, i, -1);
      }
      SortedNone(s.evs);
    }
  }

  lemma {:induction false} SortedNone(evs: seq<Event>)
    ensures Sorted([], evs)
  {
  }

  lemma {:induction false} CountsSame(s: Base, r: Base)
    requires CountsOk(s) && r.evs == s.evs && r.active == s.active && r.later == s.later && r.nActive == s.nActive && r.count == s.count
    ensures CountsOk(r)
  {
  }

  /* ----- a new base ----- */

  function Empty(nQueues: nat): Base {
    Base([], {}, seq(nQueues, i => []), [], {}, [], 0, 0, -1, -1, false, false)
  }

  lemma {:induction false} EmptyOk(nQueues: nat)
    requires nQueues > 0
    ensures Inv(Empty(nQueues))
  {
    hide IsCommon, High, Index;
    var s := Empty(nQueues);
    TotalNone(s.active);
    assert Weights([]) == [];
    forall e: nat ensures EventAt(s, e) { }
    forall i: nat ensures ListOk(s, i, -1) { }
  }

  lemma {:induction false} TotalNone(qs: seq<seq<nat>>)
    requires forall i | 0 <= i < |qs| :: qs[i] == []
    ensures Queues.Total(qs) == 0
  {
    if qs != [] {
      TotalNone(qs[1..]);
    }
  }
}
