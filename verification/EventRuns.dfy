/** Whole runs of an event base: every step of every thread, taken one locked
    section at a time, keeps the base invariant. */
module EventRuns {
  import Queues
  import opened Timevals
  import opened EventModel
  import EventLemmas
  import EventLists
  import opened EventOps
  import opened Options
  import opened EventKeeps
  import opened EventSteps

  lemma {:induction false} AddKeeps(s: Base, e: nat, tv: Option<Timeval>, absolute: bool, now: Timeval, mapOk: bool)
    requires Inv(s) && Usable(s, e) && (tv.Some? ==> TimeAsked(s, e, tv.value, absolute, now))
    ensures var r := Add(s, e, tv, absolute, now, mapOk);
            && Inv(r.base) && SameTimers(s, r.base)
            && (r.code == -1 ==> r.base == s)
            && (r.code == -1 <==> s.evs[e].finalizing || (!mapOk && AddInserted(s, e, mapOk).code == -1))
  {
    hide InvBut, IsTimer, AddTimeout, IsCommon, High, DueOk, TimeOk, Index, Schedule, SameTimers, InsertInserted, Settle;
    SameTimersSelf(s);
    if !s.evs[e].finalizing {
      AddInsertedKeeps(s, e, mapOk);
      var o := AddInserted(s, e, mapOk);
      if o.code != -1 && tv.Some? {
        var at, io := Deadline(s, tv.value, absolute, now), NewIoTimeout(s.evs[e], tv.value, absolute);
        DeadlineOk(s, e, tv.value, absolute, now);
        AddTimed(o.base, e, at, io);
        SameTimersThen(s, o.base, Settle(AddTimeout(o.base, e, at, io), e));
      }
    }
  }

  lemma {:induction false} SameTimersThen(s: Base, m: Base, r: Base)
    requires SameTimers(s, m) && SameTimers(m, r)
    ensures SameTimers(s, r)
  {
  }

  lemma {:induction false} AddTimed(s: Base, e: nat, at: Timeval, io: Timeval)
    requires Inv(s) && Usable(s, e) && !s.evs[e].finalizing
    requires DueOk(at, |s.lists|) && TimeOk(io, |s.lists|)
    requires s.evs[e].closure == OnPersist ==> High(at) == High(io)
    ensures var r := Settle(AddTimeout(s, e, at, io), e); Inv(r) && SameTimers(s, r)
  {
    hide InvBut, IsTimer, AddTimeout, IsCommon, High, Index, Schedule, SameTimers, Coded;
    if IsCommon(at, |s.lists|) {
      AddTimeoutCommon(s, e, at, io);
    } else {
      CommonBound(s);
      CommonWhenCoded(at, |s.lists|);
      AddTimeoutHeap(s, e, at, io, -1);
    }
  }

  /** common_timeout_schedule calls event_add_nolock_ on the timer, which is
      never on the map and never has a common deadline. */
  lemma {:induction false} ScheduleIsAdd(s: Base, i: nat, now: Timeval, mapOk: bool)
    requires Inv(s) && i < |s.lists| && s.lists[i].events != []
    ensures var t, head := s.lists[i].timer, s.lists[i].events[0];
            && Known(s, t)
            && Add(s, t, Some(Real(Ev(s.evs, head).at)), true, now, mapOk) == Outcome(0, Schedule(s, i))
  {
    hide InvBut, IsCommon, Index, Normal, Real, AddTimeout;
    var t := s.lists[i].timer;
    Weaken(s, t);
    ScheduleKeeps(s, i);
    HeadApart(s, i);
    assert IsTimer(s, t);
    TimerIn(s, t, -1);
    NormalNotCommon(Real(Ev(s.evs, s.lists[i].events[0]).at), |s.lists|);
  }

  lemma {:induction false} CommonBound(s: Base)
    requires Inv(s)
    ensures |s.lists| <= MAX_COMMON_TIMEOUTS && |s.active| > 0
  {
    hide CountsOk, ListsOk, EventAt;
  }

  lemma {:induction false} AddInsertedKeeps(s: Base, e: nat, mapOk: bool)
    requires Inv(s) && Usable(s, e) && !s.evs[e].finalizing
    ensures var o := AddInserted(s, e, mapOk);
            && Inv(o.base) && SameTimers(s, o.base) && Usable(o.base, e)
            && o.base.evs[e] == s.evs[e].(inserted := o.base.evs[e].inserted)
            && |o.base.lists| == |s.lists| && o.code in {0, -1} && (o.code == -1 ==> o.base == s)
  {
    hide FlagsOk, CountsOk, ListsOk, IsTimer;
    InsertedKeeps(s, e, -1);
  }

  /* ----- changes to fields that no queue looks at ----- */

  lemma {:induction false} PlainKeeps(s: Base, e: nat, nv: Event)
    requires Inv(s) && Usable(s, e)
    requires var ev := s.evs[e];
             && nv.active == ev.active && nv.pri == ev.pri && nv.later == ev.later && nv.timeout == ev.timeout
             && nv.at == ev.at && nv.inserted == ev.inserted && nv.internal == ev.internal
    requires Sane(nv, |s.active|, |s.lists|)
    ensures Inv(s.(evs := s.evs[e := nv])) && SameTimers(s, s.(evs := s.evs[e := nv]))
  {
    hide FlagsOk, CountsOk, ListsOk, IsTimer, Sane;
    var r := s.(evs := s.evs[e := nv]);
    SaneOf(s, e);
    assert r.fds == if nv.inserted then s.fds + {e} else s.fds - {e};
    EventLemmas.QuietFlags(s, e, nv, r);
    EventLemmas.SameWeightCounts(s, e, nv, r);
    EventLists.QuietLists(s, r, e, -1);
  }

  lemma {:induction false} StillUsable(s: Base, r: Base, e: nat)
    requires Usable(s, e) && SameTimers(s, r) && Known(r, e)
    ensures Usable(r, e)
  {
  }

  /** Deleted, and its callback replaced by the finalizer. */
  lemma {:induction false} Retired(s: Base, e: nat)
    requires Inv(s) && Usable(s, e)
    ensures var r := SetClosure(Del(s, e, false), e, OnFinalize);
            Inv(r) && SameTimers(s, r) && Usable(r, e) && !r.evs[e].timeout && !r.evs[e].inserted
  {
    hide InvBut, IsTimer, SameTimers, High, DueOk, TimeOk, Del;
    DelKeeps(s, e, false, -1);
    var s1 := Del(s, e, false);
    StillUsable(s, s1, e);
    SaneIn(s1, e, -1);
    PlainKeeps(s1, e, s1.evs[e].(closure := OnFinalize));
    StillUsable(s1, SetClosure(s1, e, OnFinalize), e);
    SameTimersThen(s, s1, SetClosure(s1, e, OnFinalize));
  }

  lemma {:induction false} FinalizeKeeps(s: Base, e: nat)
    requires Inv(s) && Usable(s, e)
    ensures Inv(Finalize(s, e)) && SameTimers(s, Finalize(s, e)) && Finalize(s, e).evs[e].finalizing
  {
    hide InvBut, IsTimer, SameTimers, Del, Active, SetClosure, Usable;
    UsableAllowed(s, e);
    Retired(s, e);
    var s2 := SetClosure(Del(s, e, false), e, OnFinalize);
    UsableAllowed(s2, e);
    ActiveKeeps(s2, e, {Finalized}, -1);
    var s3 := Active(s2, e, {Finalized});
    StillUsable(s2, s3, e);
    MarkFinal(s3, e);
    SameTimersThen(s, s2, s3);
    SameTimersThen(s, s3, SetFinalizing(s3, e));
  }

  lemma {:induction false} UsableAllowed(s: Base, e: nat)
    requires Usable(s, e)
    ensures Known(s, e) && Allowed(s, e, -1)
  {
  }

  lemma {:induction false} MarkFinal(s: Base, e: nat)
    requires Inv(s) && Usable(s, e) && !s.evs[e].timeout && !s.evs[e].inserted
    ensures Inv(SetFinalizing(s, e)) && SameTimers(s, SetFinalizing(s, e))
  {
    hide InvBut, IsTimer, SameTimers, High, DueOk, TimeOk;
    SaneIn(s, e, -1);
    PlainKeeps(s, e, s.evs[e].(finalizing := true));
  }

  lemma {:induction false} CancelKeeps(s: Base, e: nat, even: bool)
    requires Inv(s) && Usable(s, e)
    ensures Inv(Cancel(s, e, even)) && SameTimers(s, Cancel(s, e, even))
    ensures even || !s.evs[e].finalizing ==> !Cancel(s, e, even).evs[e].active && !Cancel(s, e, even).evs[e].later
  {
    hide InvBut, IsTimer, Del, DropActive;
    DelKeeps(s, e, even, -1);
    DropActiveKeeps(s, e, -1);
  }

  /** A callback or event taken off its queues, its callback replaced by the finalizer. */
  lemma {:induction false} RetiredCallback(s: Base, e: nat)
    requires Inv(s) && Usable(s, e) && (!s.evs[e].init ==> !s.evs[e].timeout && !s.evs[e].inserted)
    ensures var s1 := if s.evs[e].init then Del(s, e, false) else Cancel(s, e, false);
            var r := SetClosure(s1, e, OnFinalize);
            Inv(r) && SameTimers(s, r) && Usable(r, e) && !r.evs[e].timeout && !r.evs[e].inserted
  {
    hide InvBut, IsTimer, SameTimers, High, DueOk, TimeOk, Del, DropActive, SetClosure, Usable;
    UsableAllowed(s, e);
    if s.evs[e].init {
      Retired(s, e);
    } else {
      CancelKeeps(s, e, false);
      var s1 := Cancel(s, e, false);
      CancelBare(s, e);
      StillUsable(s, s1, e);
      Reclosed(s1, e);
      SameTimersThen(s, s1, SetClosure(s1, e, OnFinalize));
    }
  }

  lemma {:induction false} CancelBare(s: Base, e: nat)
    requires Inv(s) && Usable(s, e) && !s.evs[e].init && !s.evs[e].timeout && !s.evs[e].inserted
    ensures var r := Cancel(s, e, false); Known(r, e) && !r.evs[e].timeout && !r.evs[e].inserted
  {
    hide InvBut, IsTimer, DropActive;
    DropActiveKeeps(s, e, -1);
  }

  lemma {:induction false} Reclosed(s: Base, e: nat)
    requires Inv(s) && Usable(s, e)
    ensures var r := SetClosure(s, e, OnFinalize);
            && Inv(r) && SameTimers(s, r) && Usable(r, e)
            && r.evs[e].timeout == s.evs[e].timeout && r.evs[e].inserted == s.evs[e].inserted
  {
    hide InvBut, IsTimer, SameTimers, High, DueOk, TimeOk;
    SaneIn(s, e, -1);
    PlainKeeps(s, e, s.evs[e].(closure := OnFinalize));
    StillUsable(s, SetClosure(s, e, OnFinalize), e);
  }

  /** event_callback_finalize_nolock_ on a bare callback or an event. */
  lemma {:induction false} CallbackFinalizeKeeps(s: Base, e: nat)
    requires Inv(s) && Usable(s, e) && (!s.evs[e].init ==> !s.evs[e].timeout && !s.evs[e].inserted)
    ensures Inv(CallbackFinalize(s, e)) && SameTimers(s, CallbackFinalize(s, e)) && CallbackFinalize(s, e).evs[e].finalizing
  {
    hide InvBut, IsTimer, SameTimers, Del, Cancel, CallbackActivate, SetClosure, Usable;
    UsableAllowed(s, e);
    RetiredCallback(s, e);
    var s2 := SetClosure(if s.evs[e].init then Del(s, e, false) else Cancel(s, e, false), e, OnFinalize);
    UsableAllowed(s2, e);
    CallbackActivateKeeps(s2, e, -1);
    var s3 := CallbackActivate(s2, e).base;
    StillUsable(s2, s3, e);
    MarkFinal(s3, e);
    SameTimersThen(s, s2, s3);
    SameTimersThen(s, s3, SetFinalizing(s3, e));
  }

  /* ----- priorities ----- */

  function WithPriority(s: Base, e: nat, pri: nat): Base
    requires Known(s, e) && pri < |s.active|
  {
    s.(evs := s.evs[e := s.evs[e].(pri := pri)])
  }

  /** Giving an event another priority is safe exactly while it is not active:
      event_priority_set asks, event_deferred_cb_set_priority_ does not. */
  lemma {:induction false} PriorityExact(s: Base, e: nat, pri: nat)
    requires Inv(s) && Usable(s, e) && pri < |s.active|
    ensures Inv(WithPriority(s, e, pri)) <==> !s.evs[e].active || pri == s.evs[e].pri
  {
    hide CountsOk, ListsOk, IsTimer, Sane, ListAt, HeapAt, ActiveAt;
    var r := WithPriority(s, e, pri);
    if s.evs[e].active && pri != s.evs[e].pri {
      assert EventAt(s, e);
      WrongQueue(s.active, s.evs[e], pri, e);
      assert !EventAt(r, e);
    } else {
      PriorityFlags(s, e, pri);
      EventLemmas.SameWeightCounts(s, e, r.evs[e], r);
      EventLists.QuietLists(s, r, e, -1);
    }
  }

  lemma {:induction false} WrongQueue(active: seq<seq<nat>>, ev: Event, pri: nat, e: nat)
    requires ActiveAt(ev, active, e) && ev.active && ev.pri < |active| && ev.pri != pri
    ensures !ActiveAt(ev.(pri := pri), active, e)
  {
    assert Queues.Count(active[ev.pri], e) == 1;
  }

  lemma {:induction false} PriorityAt(ev: Event, pri: nat, active: seq<seq<nat>>, x: nat)
    requires ActiveAt(ev, active, x) && (!ev.active || pri == ev.pri)
    ensures ActiveAt(ev.(pri := pri), active, x)
  {
  }

  lemma {:induction false} PriorityFlags(s: Base, e: nat, pri: nat)
    requires FlagsOk(s) && Known(s, e) && pri < |s.active| && (!s.evs[e].active || pri == s.evs[e].pri)
    ensures FlagsOk(WithPriority(s, e, pri))
  {
    hide ActiveAt, ListAt, HeapAt, Queues.Count, IsCommon, DueOk, TimeOk, High, Index;
    var r := WithPriority(s, e, pri);
    forall x: nat ensures EventAt(r, x) {
      assert EventAt(s, x);
      EventLemmas.ListAtSame(Ev(s.evs, x), Ev(r.evs, x), s.lists, x);
      PriorityAt(Ev(s.evs, x), if x == e then pri else Ev(s.evs, x).pri, s.active, x);
      HeapAtSame(Ev(s.evs, x), Ev(r.evs, x), s.heap, |s.lists|, x);
    }
  }

  lemma {:induction false} HeapAtSame(ev: Event, nv: Event, heap: set<nat>, n: nat, x: nat)
    requires HeapAt(ev, heap, n, x) && nv.timeout == ev.timeout && nv.at == ev.at
    ensures HeapAt(nv, heap, n, x)
  {
  }

  /* ----- the loop's own steps ----- */

  lemma {:induction false} Weaken(s: Base, skip: int)
    requires Inv(s)
    ensures InvBut(s, skip)
  {
    hide FlagsOk, CountsOk, Covered, Sorted, TimerOk, Coded;
    forall i: nat ensures ListOk(s, i, skip) { assert ListOk(s, i, -1); }
  }

  /** A list whose timer is active is looked after. */
  lemma {:induction false} ActiveCovers(s: Base, t: nat)
    requires InvBut(s, t) && t < |s.evs| && s.evs[t].active
    ensures Inv(s)
  {
    hide FlagsOk, CountsOk, Sorted, TimerOk, Coded, LE, Real;
    forall i: nat ensures ListOk(s, i, -1) { assert ListOk(s, i, t); }
  }

  ghost function SkipFor(s: Base, e: nat): (skip: int)
    ensures Allowed(s, e, skip)
  {
    if IsTimer(s, e) then e else -1
  }

  /** One round of timeout_process, or of the common-timeout callback. */
  function Expire(s: Base, e: nat): (r: Base)
    requires Known(s, e)
    ensures Kept(s, r, e)
  {
    Active(Del(s, e, false), e, {TimedOut})
  }

  lemma {:induction false} ExpireKeeps(s: Base, e: nat)
    requires Inv(s) && Known(s, e) && s.evs[e].timeout
    ensures Inv(Expire(s, e)) && SameTimers(s, Expire(s, e))
    ensures Expire(s, e).evs[e] == s.evs[e].(timeout := false, active := true, later := false, inserted := false, res := {TimedOut})
  {
    hide InvBut, Allowed, SameTimers, Del, Active, IsTimer, Sane;
    var skip := SkipFor(s, e);
    Weaken(s, skip);
    NotFinal(s, e);
    DelKeeps(s, e, false, skip);
    var s1 := Del(s, e, false);
    ActiveKeeps(s1, e, {TimedOut}, skip);
    SameTimersThen(s, s1, Expire(s, e));
    if skip == e {
      ActiveCovers(Expire(s, e), e);
    }
  }

  /** Nothing else moves. */
  lemma {:induction false} ExpireFrame(s: Base, e: nat)
    requires Inv(s) && Known(s, e) && s.evs[e].timeout
    ensures var r := Expire(s, e);
            && OthersSame(s, r, e)
            && |r.lists| == |s.lists|
            && (if IsCommon(s.evs[e].at, |s.lists|) then
                  r.heap == s.heap && r.lists == RemoveTimeout(s, e).lists
                else r.heap == s.heap - {e} && r.lists == s.lists)
  {
    hide InvBut, IsCommon, Index, Queues.RemoveOne, Del, Active;
    NotFinal(s, e);
    var s1 := Del(s, e, false);
    DelFrame(s, e);
    ActiveFrame(s1, e, {TimedOut});
  }

  lemma {:induction false} DelFrame(s: Base, e: nat)
    requires Known(s, e) && !s.evs[e].finalizing && s.evs[e].timeout
    ensures var r := Del(s, e, false);
            && r.heap == RemoveTimeout(s, e).heap && r.lists == RemoveTimeout(s, e).lists
            && OthersSame(s, r, e)
  {
    hide RemoveTimeout, DropActive, DropInserted;
    var s1 := DropTimeout(s, e);
    TimeoutFrame(s, e);
    DropFrame(s1, e);
    DropFrame(DropActive(s1, e), e);
  }

  ghost predicate OthersSame(s: Base, r: Base, e: nat) {
    |r.evs| == |s.evs| && forall x | 0 <= x < |s.evs| && x != e :: r.evs[x] == s.evs[x]
  }

  lemma {:induction false} TimeoutFrame(s: Base, e: nat)
    requires Known(s, e)
    ensures OthersSame(s, RemoveTimeout(s, e), e)
  {
    hide IsCommon, Index, Queues.RemoveOne;
  }

  lemma {:induction false} DropFrame(s: Base, e: nat)
    requires Known(s, e)
    ensures var r := DropActive(s, e); OthersSame(s, r, e) && r.heap == s.heap && r.lists == s.lists
    ensures var r := DropInserted(s, e); OthersSame(s, r, e) && r.heap == s.heap && r.lists == s.lists
  {
    hide Queues.RemoveOne;
  }

  lemma {:induction false} CallbackActivateFrame(s: Base, e: nat)
    requires Known(s, e)
    ensures var r := CallbackActivate(s, e).base;
            OthersSame(s, r, e) && r.heap == s.heap && r.lists == s.lists && r.firing == s.firing
  {
    hide Queues.RemoveOne;
  }

  lemma {:induction false} NotedFrame(s: Base, e: nat, res: set<Reason>)
    requires Known(s, e)
    ensures var r := Noted(s, e, res);
            OthersSame(s, r, e) && r.heap == s.heap && r.lists == s.lists && r.firing == s.firing
  {
  }

  lemma {:induction false} ActiveFrame(s: Base, e: nat, res: set<Reason>)
    requires Known(s, e)
    ensures var r := Active(s, e, res);
            OthersSame(s, r, e) && r.heap == s.heap && r.lists == s.lists && r.firing == s.firing
  {
    hide CallbackActivate, Noted;
    var ev := s.evs[e];
    if !ev.finalizing && !ev.active {
      var m := Noted(s, e, if ev.later then ev.res + res else res);
      NotedFrame(s, e, if ev.later then ev.res + res else res);
      CallbackActivateFrame(m, e);
    }
  }

  /** An event on a timer structure is not being finalized, so it can be deleted. */
  lemma {:induction false} NotFinal(s: Base, e: nat)
    requires Inv(s) && Known(s, e) && (s.evs[e].timeout || s.evs[e].inserted)
    ensures !s.evs[e].finalizing
  {
    hide InvBut, DueOk, TimeOk, High;
    SaneIn(s, e, -1);
  }

  lemma {:induction false} PromoteKeeps(s: Base)
    requires Inv(s) && s.later != []
    ensures Known(s, s.later[0]) && Inv(Promote(s)) && SameTimers(s, Promote(s))
  {
    hide Allowed, SameTimers, IsTimer, Queues.Count, EventAt;
    var e := s.later[0];
    var skip := SkipFor(s, e);
    LaterKnown(s, e);
    Weaken(s, skip);
    RemoveLaterKeeps(s, e, skip);
    var s1 := RemoveLater(s, e);
    InsertActiveKeeps(s1, e, skip);
    KeepsThen(s, s1, InsertActive(s1, e), e, skip);
    assert Promote(s) == InsertActive(s1, e);
    if skip == e {
      ActiveCovers(Promote(s), e);
    }
  }

  lemma {:induction false} LaterKnown(s: Base, e: nat)
    requires Inv(s) && e in s.later
    ensures Known(s, e) && s.evs[e].later && !s.evs[e].active
  {
    hide ListAt, ActiveAt, CountsOk, ListsOk, HeapAt, DueOk, TimeOk, High;
    assert EventAt(s, e);
  }
}
