/** What an operation does to the event it is called for, said field by field, and
    that it does nothing to the others. */
module EventEffects {
  import opened Options
  import opened Queues
  import opened Timevals
  import opened EventModel
  import EventLemmas
  import opened EventOps
  import opened EventSteps
  import opened EventRuns
  import opened EventMachine

  /* ----- where an event is ----- */

  /** Where the flags say an event is, there it is, and nowhere else. */
  ghost predicate Placed(s: Base, e: nat) {
    && e < |s.evs|
    && (forall p | 0 <= p < |s.active| :: e in s.active[p] <==> s.evs[e].active && s.evs[e].pri == p)
    && (e in s.later <==> s.evs[e].later) && (e in s.fds <==> s.evs[e].inserted)
    && (e in s.heap <==> s.evs[e].timeout && !IsCommon(s.evs[e].at, |s.lists|))
    && (forall i | 0 <= i < |s.lists| ::
          e in s.lists[i].events <==> s.evs[e].timeout && IsCommon(s.evs[e].at, |s.lists|) && Index(s.evs[e].at) == i)
  }

  lemma {:induction false} IsPlaced(s: Base, e: nat)
    requires Inv(s) && e < |s.evs|
    ensures Placed(s, e)
  {
    hide CountsOk, ListsOk, DueOk, TimeOk, High, IsCommon, Index;
    assert EventAt(s, e);
  }

  /* ----- the order of the queues ----- */

  /** An event joins its queue at the end. */
  function Joined(active: seq<seq<nat>>, p: nat, e: nat): seq<seq<nat>>
    requires p < |active|
  {
    active[p := active[p] + [e]]
  }

  /** The others of its queue stay in order when it leaves. */
  function Parted(active: seq<seq<nat>>, p: nat, e: nat): seq<seq<nat>>
    requires p < |active|
  {
    active[p := RemoveOne(active[p], e)]
  }

  lemma {:induction false} CallbackActivateQueues(s: Base, e: nat)
    requires Known(s, e)
    ensures var r, ev := CallbackActivate(s, e).base, s.evs[e];
            && r.active == (if ev.finalizing || ev.active then s.active else Joined(s.active, ev.pri, e))
            && r.later == (if !ev.finalizing && !ev.active && ev.later then RemoveOne(s.later, e) else s.later)
            && r.heap == s.heap && r.lists == s.lists && r.fds == s.fds
  {
    hide RemoveOne;
  }

  lemma {:induction false} ActiveQueues(s: Base, e: nat, res: set<Reason>)
    requires Known(s, e)
    ensures var r, ev := Active(s, e, res), s.evs[e];
            && r.active == (if ev.finalizing || ev.active then s.active else Joined(s.active, ev.pri, e))
            && r.later == (if !ev.finalizing && !ev.active && ev.later then RemoveOne(s.later, e) else s.later)
            && r.heap == s.heap && r.lists == s.lists && r.fds == s.fds
  {
    hide RemoveOne, CallbackActivate;
    var ev := s.evs[e];
    CallbackActivateQueues(Noted(s, e, if ev.later then ev.res + res else res), e);
  }

  lemma {:induction false} ActiveLaterQueues(s: Base, e: nat, res: set<Reason>)
    requires Known(s, e)
    ensures var r, ev := ActiveLater(s, e, res), s.evs[e];
            && r.later == (if ev.active || ev.later then s.later else s.later + [e])
            && r.active == s.active && r.heap == s.heap && r.lists == s.lists && r.fds == s.fds
  {
  }

  lemma {:induction false} DropQueues(s: Base, e: nat)
    requires Known(s, e)
    ensures var r, ev := DropActive(s, e), s.evs[e];
            && r.active == (if ev.active then Parted(s.active, ev.pri, e) else s.active)
            && r.later == (if !ev.active && ev.later then RemoveOne(s.later, e) else s.later)
    ensures DropTimeout(s, e).active == s.active && DropTimeout(s, e).later == s.later
    ensures DropInserted(s, e).active == s.active && DropInserted(s, e).later == s.later
  {
    hide RemoveOne, RemoveTimeout, InsertTimeout;
    EventLemmas.TimeoutShape(s, e);
  }

  lemma {:induction false} DelQueues(s: Base, e: nat, even: bool)
    requires Known(s, e) && (even || !s.evs[e].finalizing)
    ensures var r, ev := Del(s, e, even), s.evs[e];
            && r.active == (if ev.active then Parted(s.active, ev.pri, e) else s.active)
            && r.later == (if !ev.active && ev.later then RemoveOne(s.later, e) else s.later)
  {
    hide RemoveOne, DropTimeout, DropActive, DropInserted;
    var s1 := DropTimeout(s, e);
    DropTimeoutShape(s, e);
    DropQueues(s, e);
    DropQueues(s1, e);
    DropQueues(DropActive(s1, e), e);
  }

  /* ----- event_add_nolock_ ----- */

  /** An event that is to go onto the event map. */
  predicate Wants(ev: Event) {
    (ev.io || ev.signal) && !ev.inserted && !ev.active && !ev.later
  }

  /** The timer of the list that a deadline belongs to, or -1. */
  function TimerOf(s: Base, at: Timeval): int {
    if IsCommon(at, |s.lists|) then s.lists[Index(at)].timer else -1
  }

  /** Only event t, if there is one, has changed. */
  ghost predicate OnlyThese(s: Base, r: Base, t: int) {
    |r.evs| == |s.evs| && forall x | 0 <= x < |s.evs| && x != t :: r.evs[x] == s.evs[x]
  }

  /** What a successful add does. */
  ghost predicate AddedTo(s: Base, r: Base, e: nat, tv: Option<Timeval>, absolute: bool, now: Timeval)
    requires e < |s.evs|
  {
    && |r.evs| == |s.evs|
    && var ev, nv := s.evs[e], r.evs[e];
    && nv.inserted == (ev.inserted || Wants(ev))
    && (tv.None? ==> r.evs == s.evs[e := ev.(inserted := nv.inserted)])
    && (tv.Some? ==>
          && nv == Timed(ev, nv.at, if ev.closure == OnPersist && !absolute then tv.value else ev.ioTimeout).(inserted := nv.inserted)
          && Real(nv.at) == (if absolute then Real(tv.value) else Plus(now, Real(tv.value)))
          && High(nv.at) == High(tv.value)
          && forall x | 0 <= x < |s.evs| && x != e && x != TimerOf(s, nv.at) :: r.evs[x] == s.evs[x])
  }

  lemma {:induction false} DropTimeoutShape(s: Base, e: nat)
    requires Known(s, e)
    ensures DropTimeout(s, e).evs == s.evs[e := s.evs[e].(timeout := false)]
  {
    hide RemoveTimeout, InsertTimeout;
    EventLemmas.TimeoutShape(s, e);
    assert !s.evs[e].timeout ==> s.evs[e := s.evs[e].(timeout := false)] == s.evs;
  }

  lemma {:induction false} RemoveActiveShape(s: Base, e: nat)
    requires Known(s, e)
    ensures RemoveActive(s, e).evs == s.evs[e := s.evs[e].(active := false)]
  {
    hide RemoveOne;
  }

  /** Off the active queue when a timeout put it there. */
  function Unfired(ev: Event): Event {
    ev.(active := ev.active && TimedOut !in ev.res)
  }

  lemma {:induction false} UnhookShape(s: Base, e: nat)
    requires Known(s, e)
    ensures Unhook(s, e).evs == s.evs[e := Unfired(s.evs[e].(timeout := false))]
  {
    hide DropTimeout, RemoveActive;
    var s1, ev := DropTimeout(s, e), s.evs[e].(timeout := false);
    DropTimeoutShape(s, e);
    RemoveActiveShape(s1, e);
    assert s1.evs[e] == ev;
    if ev.active && TimedOut in ev.res {
      assert Unfired(ev) == ev.(active := false);
    } else {
      assert Unfired(ev) == ev;
    }
  }

  lemma {:induction false} AddTimeoutShape(s: Base, e: nat, at: Timeval, io: Timeval)
    requires Known(s, e)
    ensures AddTimeout(s, e, at, io).evs == s.evs[e := Timed(s.evs[e], at, io)]
  {
    hide Unhook, InsertTimeout, RemoveTimeout, EventLemmas.SetAt, Unfired;
    UnhookShape(s, e);
    var s2 := Unhook(s, e);
    SetAtShape(s2, e, at, io);
    var s3 := EventLemmas.SetAt(s2, e, at, io);
    EventLemmas.TimeoutShape(s3, e);
    TimedParts(s.evs[e], at, io);
  }

  /** An event given a deadline and an interval. */
  function Timed(ev: Event, at: Timeval, io: Timeval): Event {
    ev.(timeout := true, active := ev.active && TimedOut !in ev.res, at := at, ioTimeout := io)
  }

  lemma {:induction false} TimedParts(ev: Event, at: Timeval, io: Timeval)
    ensures Unfired(ev.(timeout := false)).(at := at, ioTimeout := io).(timeout := true) == Timed(ev, at, io)
  {
  }

  lemma {:induction false} TimedInserted(ev: Event, inserted: bool, at: Timeval, io: Timeval)
    ensures Timed(ev.(inserted := inserted), at, io) == Timed(ev, at, io).(inserted := inserted)
    ensures Timed(ev.(inserted := inserted), at, io).at == at && Timed(ev, at, io).at == at
  {
  }

  /** Setting the timer of the list that a deadline belongs to. */
  lemma {:induction false} SettleShape(s: Base, e: nat)
    requires Known(s, e) && e != TimerOf(s, s.evs[e].at)
    ensures OnlyThese(s, Settle(s, e), TimerOf(s, s.evs[e].at))
    ensures |Settle(s, e).evs| == |s.evs| && Settle(s, e).evs[e] == s.evs[e]
  {
    hide IsCommon, Index, AddTimeout, Real, Timed;
    var i := Index(s.evs[e].at);
    CommonIndex(s.evs[e].at, |s.lists|);
    if IsCommon(s.evs[e].at, |s.lists|) && s.lists[i].events != [] && s.lists[i].events[0] == e && Known(s, s.lists[i].timer) {
      var t := s.lists[i].timer;
      AddTimeoutShape(s, t, Real(Ev(s.evs, s.lists[i].events[0]).at), s.evs[t].ioTimeout);
    }
  }

  lemma {:induction false} AddInsertedShape(s: Base, e: nat, mapOk: bool)
    requires Known(s, e)
    ensures var o := AddInserted(s, e, mapOk);
            && o.code == (if Wants(s.evs[e]) && !mapOk then -1 else 0)
            && (o.code == 0 ==> o.base.evs == s.evs[e := s.evs[e].(inserted := s.evs[e].inserted || Wants(s.evs[e]))])
            && o.base.lists == s.lists
  {
    var ev := s.evs[e];
    assert !Wants(ev) ==> s.evs[e := ev.(inserted := ev.inserted || Wants(ev))] == s.evs;
  }

  /** The deadline of an add, as a time and as a slot. */
  lemma {:induction false} DeadlineAt(s: Base, e: nat, tv: Timeval, absolute: bool, now: Timeval)
    requires Inv(s) && Known(s, e) && TimeAsked(s, e, tv, absolute, now)
    ensures var at := Deadline(s, tv, absolute, now);
            Real(at) == (if absolute then Real(tv) else Plus(now, Real(tv))) && High(at) == High(tv)
  {
    hide InvBut, High, DueOk, TimeOk, After, Real, Plus;
    CommonBound(s);
    AfterOk(now, tv, |s.lists|);
  }

  /** The lists keep their timers. */
  ghost predicate SameListTimers(s: Base, r: Base) {
    |r.lists| == |s.lists| && forall i | 0 <= i < |s.lists| :: r.lists[i].timer == s.lists[i].timer
  }

  lemma {:induction false} TimeoutTimers(s: Base, e: nat)
    requires Known(s, e)
    ensures SameListTimers(s, InsertTimeout(s, e)) && SameListTimers(s, DropTimeout(s, e))
  {
    hide IsCommon, Index, RemoveOne, InsertOrdered;
    CommonIndex(s.evs[e].at, |s.lists|);
  }

  lemma {:induction false} AddTimeoutTimers(s: Base, e: nat, at: Timeval, io: Timeval)
    requires Known(s, e)
    ensures SameListTimers(s, AddTimeout(s, e, at, io))
  {
    hide DropTimeout, InsertTimeout, RemoveOne;
    TimeoutTimers(s, e);
    TimeoutTimers(EventLemmas.SetAt(Unhook(s, e), e, at, io), e);
  }

  lemma {:induction false} NotItsTimer(s: Base, m: Base, e: nat, at: Timeval)
    requires Usable(s, e) && SameListTimers(s, m)
    ensures TimerOf(m, at) == TimerOf(s, at) != e
  {
    hide IsCommon, Index;
    CommonIndex(at, |s.lists|);
  }

  /** The part of an add about the time, after the part about the map. */
  lemma {:induction false} TimedEffect(s: Base, o: Base, e: nat, inserted: bool, at: Timeval, io: Timeval)
    requires Usable(s, e) && Known(o, e) && o.evs == s.evs[e := s.evs[e].(inserted := inserted)] && o.lists == s.lists
    ensures var r := Settle(AddTimeout(o, e, at, io), e);
            && |r.evs| == |s.evs| && r.evs[e] == Timed(s.evs[e], at, io).(inserted := inserted) && r.evs[e].at == at
            && forall x | 0 <= x < |s.evs| && x != e && x != TimerOf(s, at) :: r.evs[x] == s.evs[x]
  {
    hide IsTimer, AddTimeout, Settle, Timed, TimerOf;
    AddTimeoutShape(o, e, at, io);
    TimedInserted(s.evs[e], inserted, at, io);
    AddTimeoutTimers(o, e, at, io);
    var m := AddTimeout(o, e, at, io);
    NotItsTimer(s, m, e, at);
    SettleShape(m, e);
  }

  lemma {:induction false} AddedTimed(s: Base, r: Base, e: nat, tv: Timeval, absolute: bool, now: Timeval, at: Timeval)
    requires e < |s.evs| == |r.evs|
    requires var ev := s.evs[e];
             r.evs[e] == Timed(ev, at, NewIoTimeout(ev, tv, absolute)).(inserted := ev.inserted || Wants(ev)) && r.evs[e].at == at
    requires forall x | 0 <= x < |s.evs| && x != e && x != TimerOf(s, at) :: r.evs[x] == s.evs[x]
    requires Real(at) == (if absolute then Real(tv) else Plus(now, Real(tv))) && High(at) == High(tv)
    ensures AddedTo(s, r, e, Some(tv), absolute, now)
  {
    hide Timed, Wants, TimerOf, Real, Plus, High;
  }

  lemma {:induction false} AddedPlain(s: Base, r: Base, e: nat, absolute: bool, now: Timeval)
    requires e < |s.evs| && r.evs == s.evs[e := s.evs[e].(inserted := s.evs[e].inserted || Wants(s.evs[e]))]
    ensures AddedTo(s, r, e, None, absolute, now)
  {
    hide Timed, Wants, TimerOf;
  }

  /** event_add_nolock_: refused exactly when finalizing or when the map refuses an
      event that is to go there, and then nothing changes. Otherwise the event is
      on the map if it was or is to be; with a time given it has a timeout for
      that time, or for as long after now; a persistent event keeps a relative
      time as its interval; and nothing else changes but the timer of a list. */
  lemma {:induction false} AddEffect(s: Base, e: nat, tv: Option<Timeval>, absolute: bool, now: Timeval, mapOk: bool)
    requires Inv(s) && Usable(s, e) && (tv.Some? ==> TimeAsked(s, e, tv.value, absolute, now))
    ensures var r, ev := Add(s, e, tv, absolute, now, mapOk), s.evs[e];
            && r.code == (if ev.finalizing || (Wants(ev) && !mapOk) then -1 else 0)
            && (r.code == -1 ==> r.base == s)
            && (r.code == 0 ==> AddedTo(s, r.base, e, tv, absolute, now))
  {
    hide InvBut, IsTimer, AddTimeout, Settle, AddInserted, TimeOk, High, Wants, Timed, Deadline, Real, Plus, TimerOf, Usable;
    hide AddedTo, NewIoTimeout;
    AddKeeps(s, e, tv, absolute, now, mapOk);
    UsableAllowed(s, e);
    AddInsertedShape(s, e, mapOk);
    var ev, o := s.evs[e], AddInserted(s, e, mapOk);
    if !ev.finalizing && o.code == 0 {
      if tv.Some? {
        var at := Deadline(s, tv.value, absolute, now);
        DeadlineAt(s, e, tv.value, absolute, now);
        TimedEffect(s, o.base, e, ev.inserted || Wants(ev), at, NewIoTimeout(ev, tv.value, absolute));
        AddedTimed(s, Add(s, e, tv, absolute, now, mapOk).base, e, tv.value, absolute, now, at);
      } else {
        AddedPlain(s, o.base, e, absolute, now);
      }
    }
  }

  lemma {:induction false} AddSize(s: Base, e: nat, tv: Option<Timeval>, absolute: bool, now: Timeval, mapOk: bool)
    requires Inv(s) && Usable(s, e) && (tv.Some? ==> TimeAsked(s, e, tv.value, absolute, now))
    ensures |Add(s, e, tv, absolute, now, mapOk).base.evs| == |s.evs|
  {
    hide InvBut, Add, IsTimer, TimeOk, High, Wants, Timed, Real, Plus, TimerOf;
    AddEffect(s, e, tv, absolute, now, mapOk);
  }

  /* ----- event_process_active_single_queue and event_persist_closure ----- */

  /** An event taken off to be run: one that is neither persistent nor being
      finalized is deleted altogether. */
  function Begun(ev: Event): Event {
    if ev.init && !ev.persist && !ev.finalizing
    then ev.(active := false, later := false, timeout := false, inserted := false)
    else ev.(active := false)
  }

  lemma {:induction false} DropActiveShape(s: Base, e: nat)
    requires Known(s, e) && s.evs[e].active && !s.evs[e].later
    ensures DropActive(s, e).evs == s.evs[e := s.evs[e].(active := false, later := false)]
  {
    hide RemoveActive;
    RemoveActiveShape(s, e);
    assert s.evs[e].(active := false) == s.evs[e].(active := false, later := false);
  }

  lemma {:induction false} DropInsertedShape(s: Base, e: nat)
    requires Known(s, e)
    ensures DropInserted(s, e).evs == s.evs[e := s.evs[e].(inserted := false)]
  {
    assert !s.evs[e].inserted ==> s.evs[e := s.evs[e].(inserted := false)] == s.evs;
  }

  lemma {:induction false} TakeOffShape(s: Base, e: nat)
    requires Known(s, e) && s.evs[e].active && !s.evs[e].later
    ensures TakeOff(s, e).evs == s.evs[e := Begun(s.evs[e])]
  {
    hide DropTimeout, DropActive, DropInserted, RemoveActive;
    var s1 := DropTimeout(s, e);
    DropTimeoutShape(s, e);
    DropActiveShape(s1, e);
    DropInsertedShape(DropActive(s1, e), e);
    RemoveActiveShape(s, e);
  }

  /** When a persistent event runs next: an interval after it was due, if it ran for
      its timeout and that is not past, else an interval after now. */
  function NextDue(ev: Event, now: Timeval): Timeval {
    var due := Plus(Real(ev.at), Real(ev.ioTimeout));
    if TimedOut in ev.res && LE(now, due) then due else Plus(now, Real(ev.ioTimeout))
  }

  /** It has an interval, and event_add will not be refused. */
  predicate RunsAgain(ev: Event, mapOk: bool) {
    ev.closure == OnPersist && ev.ioTimeout != ZERO && !ev.finalizing && !(Wants(ev) && !mapOk)
  }

  /** What becomes of an event taken off its queue. */
  ghost predicate Rearmed(ev: Event, nv: Event, now: Timeval, mapOk: bool) {
    if RunsAgain(ev, mapOk) then
      && nv == Timed(ev, nv.at, ev.ioTimeout).(inserted := ev.inserted || Wants(ev))
      && Real(nv.at) == NextDue(ev, now) && High(nv.at) == High(ev.ioTimeout)
    else nv == ev
  }

  lemma {:induction false} RearmEffect(s: Base, e: nat, now: Timeval, mapOk: bool)
    requires Inv(s) && Known(s, e) && Normal(now) && (s.evs[e].closure == OnPersist ==> !IsTimer(s, e))
    ensures var r := Rearm(s, e, now, mapOk);
            && |r.evs| == |s.evs| && Rearmed(s.evs[e], r.evs[e], now, mapOk)
            && forall x | 0 <= x < |s.evs| && x != e && x != TimerOf(s, r.evs[e].at) :: r.evs[x] == s.evs[x]
  {
    hide InvBut, IsTimer, Add, NextRun, High, DueOk, TimeOk, Wants, Timed, TimerOf, Real, Plus, LE;
    var ev := s.evs[e];
    if ev.closure == OnPersist && ev.ioTimeout != ZERO {
      SaneIn(s, e, -1);
      CommonBound(s);
      var at := NextRun(ev.at, ev.ioTimeout, TimedOut in ev.res, now, |s.lists|);
      NextRunOk(ev.at, ev.ioTimeout, TimedOut in ev.res, now, |s.lists|);
      DueTime(at, |s.lists|);
      AddEffect(s, e, Some(at), true, now, mapOk);
    }
  }

  /** What the start of a callback does to its event. */
  ghost predicate StartedAs(s: Base, r: Base, e: nat, now: Timeval, mapOk: bool)
    requires e < |s.evs|
  {
    && |r.evs| == |s.evs| && Rearmed(Begun(s.evs[e]), r.evs[e], now, mapOk)
    && forall x | 0 <= x < |s.evs| && x != e && x != TimerOf(s, r.evs[e].at) :: r.evs[x] == s.evs[x]
  }

  lemma {:induction false} StartEffect(s: Base, p: nat, now: Timeval, mapOk: bool)
    requires Inv(s) && p < |s.active| && s.active[p] != [] && Normal(now) && s.firing == -1
    ensures var e := s.active[p][0]; Known(s, e) && StartedAs(s, Start(s, p, now, mapOk), e, now, mapOk)
  {
    hide InvBut, TakeOff, Rearm, IsTimer, Begun, Rearmed, TimerOf, Sane;
    HeadKnown(s, p);
    var e := s.active[p][0];
    HeadNotLater(s, e);
    FiringKeeps(s, e);
    var s0 := if IsTimer(s, e) then s.(firing := e) else s;
    TakeOffKeeps(s0, e);
    TakeOffShape(s0, e);
    var m := TakeOff(s0, e);
    TimersStay(s0, m, e);
    TakeOffTimers(s0, e);
    RearmEffect(m, e, now, mapOk);
    SameTimerOf(s, m, Rearm(m, e, now, mapOk).evs[e].at);
  }

  lemma {:induction false} HeadNotLater(s: Base, e: nat)
    requires Inv(s) && Known(s, e) && s.evs[e].active
    ensures !s.evs[e].later
  {
    hide CountsOk, ListsOk, ActiveAt, ListAt, HeapAt, DueOk, TimeOk, High;
    assert EventAt(s, e);
  }

  lemma {:induction false} TakeOffTimers(s: Base, e: nat)
    requires Known(s, e)
    ensures SameListTimers(s, TakeOff(s, e))
  {
    hide DropTimeout, RemoveOne;
    TimeoutTimers(s, e);
  }

  lemma {:induction false} SameTimerOf(s: Base, m: Base, at: Timeval)
    requires SameListTimers(s, m)
    ensures TimerOf(m, at) == TimerOf(s, at)
  {
    hide IsCommon, Index;
    CommonIndex(at, |s.lists|);
  }
}
