/** The operations of the base keep its invariant. */
module EventSteps {
  import Queues
  import opened Timevals
  import opened EventModel
  import EventLemmas
  import EventLists
  import opened EventOps
  import opened EventKeeps

  /** The loop's own variables say nothing about the queues. */
  lemma {:induction false} LoopVarsKeep(s: Base, running: int, cont: bool, brk: bool, skip: int)
    requires InvBut(s, skip)
    ensures InvBut(s.(running := running, cont := cont, brk := brk), skip)
    ensures forall e: nat :: Allowed(s, e, skip) ==> Allowed(s.(running := running, cont := cont, brk := brk), e, skip)
  {
    hide ActiveAt, ListAt, HeapAt, Sane, Sorted, TimerOk, LE, Real, Coded;
    var r := s.(running := running, cont := cont, brk := brk);
    forall e: nat ensures EventAt(r, e) { assert EventAt(s, e); }
    forall i: nat ensures ListOk(r, i, skip) { assert ListOk(s, i, skip); }
  }

  lemma {:induction false} KeepsThen(s: Base, m: Base, r: Base, e: nat, skip: int)
    requires Keeps(s, m, e, skip) && Keeps(m, r, e, skip)
    ensures Keeps(s, r, e, skip)
  {
    hide InvBut, IsTimer;
  }

  lemma {:induction false} SameTimersSelf(s: Base)
    ensures SameTimers(s, s)
  {
  }

  lemma {:induction false} SaneIn(s: Base, e: nat, skip: int)
    requires InvBut(s, skip) && e < |s.evs|
    ensures !(s.evs[e].active && s.evs[e].later) && Known(s, e) && |s.lists| <= MAX_COMMON_TIMEOUTS
    ensures Sane(s.evs[e], |s.active|, |s.lists|)
  {
    hide FlagsOk, CountsOk, ListsOk, DueOk, TimeOk, High;
    SaneOf(s, e);
  }

  /** e may be deleted, added or activated by a caller. */
  predicate Usable(s: Base, e: nat) {
    Known(s, e) && !IsTimer(s, e)
  }

  lemma {:induction false} DelKeeps(s: Base, e: nat, even: bool, skip: int)
    requires InvBut(s, skip) && Allowed(s, e, skip) && Known(s, e)
    ensures Keeps(s, Del(s, e, even), e, skip)
    ensures var r := Del(s, e, even);
            even || !s.evs[e].finalizing ==>
              r.evs[e] == s.evs[e].(timeout := false, active := false, later := false, inserted := false)
    ensures !even && s.evs[e].finalizing ==> Del(s, e, even) == s
  {
    hide InvBut, Allowed, RemoveTimeout, RemoveActive, RemoveLater, RemoveInserted;
    if even || !s.evs[e].finalizing {
      var s1 := DropTimeout(s, e);
      DropTimeoutKeeps(s, e, skip);
      var s2 := DropActive(s1, e);
      DropActiveKeeps(s1, e, skip);
      var s3 := DropInserted(s2, e);
      DropInsertedKeeps(s2, e, skip);
    }
  }

  lemma {:induction false} DropTimeoutKeeps(s: Base, e: nat, skip: int)
    requires InvBut(s, skip) && Allowed(s, e, skip) && Known(s, e)
    ensures Keeps(s, DropTimeout(s, e), e, skip)
    ensures DropTimeout(s, e).evs == s.evs[e := s.evs[e].(timeout := false)]
    ensures !IsCommon(s.evs[e].at, |s.lists|) ==> DropTimeout(s, e).lists == s.lists
  {
    hide FlagsOk, CountsOk, ListsOk, Queues.RemoveOne, IsCommon, Index, IsTimer;
    if s.evs[e].timeout {
      RemoveTimeoutKeeps(s, e, skip);
    }
  }

  lemma {:induction false} DropActiveKeeps(s: Base, e: nat, skip: int)
    requires InvBut(s, skip) && Allowed(s, e, skip) && Known(s, e)
    ensures Keeps(s, DropActive(s, e), e, skip)
    ensures DropActive(s, e).evs[e] == s.evs[e].(active := false, later := false)
    ensures forall x | 0 <= x < |s.evs| && x != e :: DropActive(s, e).evs[x] == s.evs[x]
  {
    hide FlagsOk, CountsOk, ListsOk, Queues.RemoveOne, IsTimer, DueOk, TimeOk, High;
    SaneOf(s, e);
    if s.evs[e].active {
      RemoveActiveKeeps(s, e, skip);
    } else if s.evs[e].later {
      RemoveLaterKeeps(s, e, skip);
    }
  }

  lemma {:induction false} DropInsertedKeeps(s: Base, e: nat, skip: int)
    requires InvBut(s, skip) && Allowed(s, e, skip) && Known(s, e)
    ensures Keeps(s, DropInserted(s, e), e, skip)
    ensures DropInserted(s, e).evs == s.evs[e := s.evs[e].(inserted := false)]
  {
    hide FlagsOk, CountsOk, ListsOk, IsTimer;
    InsertedKeeps(s, e, skip);
  }

  /* ----- activation ----- */

  lemma {:induction false} InsertActiveShape(s: Base, e: nat)
    requires Known(s, e)
    ensures InsertActive(s, e).evs == s.evs[e := s.evs[e].(active := true)]
  {
  }

  lemma {:induction false} RemoveLaterShape(s: Base, e: nat)
    requires Known(s, e)
    ensures RemoveLater(s, e).evs == s.evs[e := s.evs[e].(later := false)]
  {
    hide Queues.RemoveOne;
  }

  lemma {:induction false} CallbackActivateKeeps(s: Base, e: nat, skip: int)
    requires InvBut(s, skip) && Allowed(s, e, skip) && Known(s, e)
    ensures Keeps(s, CallbackActivate(s, e).base, e, skip)
    ensures var r := CallbackActivate(s, e).base;
            r.evs[e] == if s.evs[e].finalizing then s.evs[e] else s.evs[e].(active := true, later := false)
    ensures forall x | 0 <= x < |s.evs| && x != e :: CallbackActivate(s, e).base.evs[x] == s.evs[x]
  {
    hide InvBut, Allowed, SameTimers, InsertActive, RemoveLater;
    SameTimersSelf(s);
    SaneIn(s, e, skip);
    if !s.evs[e].finalizing && !s.evs[e].active {
      var m := if s.evs[e].later then RemoveLater(s, e) else s;
      if s.evs[e].later {
        RemoveLaterKeeps(s, e, skip);
        RemoveLaterShape(s, e);
      }
      InsertActiveKeeps(m, e, skip);
      InsertActiveShape(m, e);
      KeepsThen(s, m, InsertActive(m, e), e, skip);
    }
  }

  lemma {:induction false} NotedKeeps(s: Base, e: nat, res: set<Reason>, skip: int)
    requires InvBut(s, skip) && Allowed(s, e, skip) && Known(s, e)
    ensures Keeps(s, Noted(s, e, res), e, skip)
  {
    hide FlagsOk, CountsOk, ListsOk, IsTimer, InvBut, Allowed;
    SetResKeeps(s, e, res, skip);
    LoopVarsKeep(SetRes(s, e, res), s.running, true, s.brk, skip);
  }

  lemma {:induction false} ActiveFresh(s: Base, e: nat, res: set<Reason>, skip: int)
    requires InvBut(s, skip) && Allowed(s, e, skip) && Known(s, e) && !s.evs[e].finalizing && !s.evs[e].active
    ensures var r := CallbackActivate(Noted(s, e, res), e).base;
            && Keeps(s, r, e, skip)
            && r.evs[e] == s.evs[e].(active := true, later := false, res := res)
            && forall x | 0 <= x < |s.evs| && x != e :: r.evs[x] == s.evs[x]
  {
    hide InvBut, Allowed, IsTimer, CallbackActivate, SameTimers;
    var s2 := Noted(s, e, res);
    NotedKeeps(s, e, res, skip);
    CallbackActivateKeeps(s2, e, skip);
    KeepsThen(s, s2, CallbackActivate(s2, e).base, e, skip);
  }

  lemma {:induction false} ActiveKeeps(s: Base, e: nat, res: set<Reason>, skip: int)
    requires InvBut(s, skip) && Allowed(s, e, skip) && Known(s, e)
    ensures Keeps(s, Active(s, e, res), e, skip)
    ensures var r := Active(s, e, res);
            !s.evs[e].finalizing ==>
              r.evs[e] == s.evs[e].(active := true, later := false, res := if s.evs[e].active || s.evs[e].later then s.evs[e].res + res else res)
    ensures s.evs[e].finalizing ==> Active(s, e, res) == s
    ensures forall x | 0 <= x < |s.evs| && x != e :: Active(s, e, res).evs[x] == s.evs[x]
  {
    hide InvBut, Allowed, IsTimer, CallbackActivate, SameTimers, Noted;
    var ev := s.evs[e];
    assert SameTimers(s, s) by { SameTimersSelf(s); }
    SaneIn(s, e, skip);
    if !ev.finalizing {
      if ev.active {
        SetResKeeps(s, e, ev.res + res, skip);
      } else {
        ActiveFresh(s, e, if ev.later then ev.res + res else res, skip);
      }
    }
  }

  lemma {:induction false} ActiveLaterKeeps(s: Base, e: nat, res: set<Reason>, skip: int)
    requires InvBut(s, skip) && Allowed(s, e, skip) && Known(s, e)
    ensures Keeps(s, ActiveLater(s, e, res), e, skip)
  {
    hide FlagsOk, CountsOk, ListsOk, IsTimer, InvBut, Allowed;
    var ev := s.evs[e];
    if ev.active || ev.later {
      SetResKeeps(s, e, ev.res + res, skip);
    } else {
      SetResKeeps(s, e, res, skip);
      InsertLaterKeeps(SetRes(s, e, res), e, skip);
    }
  }

  /* ----- adding ----- */

  /** The timeout part of an add; afterwards only e's own entry has changed. */
  lemma {:induction false} Unhooked(s: Base, e: nat, skip: int)
    requires InvBut(s, skip) && Allowed(s, e, skip) && Known(s, e)
    ensures var s2 := Unhook(s, e);
            && Keeps(s, s2, e, skip) && Known(s2, e)
            && s2.evs == s.evs[e := s.evs[e].(timeout := false, active := s2.evs[e].active)]
            && (!IsCommon(s.evs[e].at, |s.lists|) ==> s2.lists == s.lists)
  {
    hide InvBut, Allowed, IsTimer, SameTimers, IsCommon, DropTimeout, Queues.RemoveOne;
    DropTimeoutKeeps(s, e, skip);
    var s1 := DropTimeout(s, e);
    if s1.evs[e].active && TimedOut in s1.evs[e].res {
      RemoveActiveKeeps(s1, e, skip);
      KeepsThen(s, s1, RemoveActive(s1, e), e, skip);
    }
  }

  lemma {:induction false} UnhookedTimers(s: Base, e: nat, skip: int)
    requires InvBut(s, skip) && Allowed(s, e, skip) && Known(s, e)
    ensures IsTimer(Unhook(s, e), e) <==> IsTimer(s, e)
  {
    hide InvBut, IsTimer, Unhook;
    Unhooked(s, e, skip);
  }

  /** With the old timeout gone and the new deadline written. */
  lemma {:induction false} SetAtShape(s: Base, e: nat, at: Timeval, ioTimeout: Timeval)
    requires Known(s, e)
    ensures EventLemmas.SetAt(s, e, at, ioTimeout).evs == s.evs[e := s.evs[e].(at := at, ioTimeout := ioTimeout)]
    ensures EventLemmas.SetAt(s, e, at, ioTimeout).lists == s.lists
  {
  }

  lemma {:induction false} Prepared(s: Base, e: nat, at: Timeval, ioTimeout: Timeval, skip: int)
    requires InvBut(s, skip) && Allowed(s, e, skip) && Known(s, e)
    requires DueOk(at, |s.lists|) && TimeOk(ioTimeout, |s.lists|) && (IsTimer(s, e) ==> Normal(at))
    requires s.evs[e].closure == OnPersist ==> High(at) == High(ioTimeout)
    ensures var r := EventLemmas.SetAt(Unhook(s, e), e, at, ioTimeout);
            && Keeps(s, r, e, skip) && Known(r, e)
            && r.evs == s.evs[e := s.evs[e].(timeout := false, active := r.evs[e].active, at := at, ioTimeout := ioTimeout)]
            && (!IsCommon(s.evs[e].at, |s.lists|) ==> r.lists == s.lists)
  {
    hide InvBut, IsTimer, IsCommon, DueOk, TimeOk, High, Normal, DropTimeout, RemoveActive, SameTimers, Unhook;
    hide EventLemmas.SetAt, Allowed;
    UnhookedTimers(s, e, skip);
    Unhooked(s, e, skip);
    var s2 := Unhook(s, e);
    SetAtKeeps(s2, e, at, ioTimeout, skip);
    SetAtShape(s2, e, at, ioTimeout);
    KeepsThen(s, s2, EventLemmas.SetAt(s2, e, at, ioTimeout), e, skip);
  }

  lemma {:induction false} AddTimeoutHeap(s: Base, e: nat, at: Timeval, ioTimeout: Timeval, skip: int)
    requires InvBut(s, skip) && Allowed(s, e, skip) && Known(s, e) && !s.evs[e].finalizing
    requires Normal(at) && TimeOk(ioTimeout, |s.lists|)
    requires s.evs[e].closure == OnPersist ==> High(at) == High(ioTimeout)
    ensures var r := AddTimeout(s, e, at, ioTimeout);
            && Keeps(s, r, e, skip)
            && r.evs == s.evs[e := s.evs[e].(timeout := true, active := r.evs[e].active, at := at, ioTimeout := ioTimeout)]
            && (!IsCommon(s.evs[e].at, |s.lists|) ==> r.lists == s.lists)
  {
    hide InvBut, IsTimer, IsCommon, High, DropTimeout, RemoveActive, Allowed;
    Prepared(s, e, at, ioTimeout, skip);
    var m := EventLemmas.SetAt(Unhook(s, e), e, at, ioTimeout);
    NormalNotCommon(at, |m.lists|);
    InsertHeapKeeps(m, e, skip);
    KeepsThen(s, m, InsertTimeout(m, e), e, skip);
  }

  lemma {:induction false} NormalNotCommon(at: Timeval, n: nat)
    requires Normal(at)
    ensures !IsCommon(at, n)
  {
  }

  /* ----- common_timeout_schedule ----- */

  lemma {:induction false} CoverAll(s: Base, i: nat, t: nat)
    requires InvBut(s, t) && i < |s.lists| && s.lists[i].timer == t && Covered(s, s.lists[i])
    ensures Inv(s)
  {
    hide FlagsOk, CountsOk, Covered, Sorted, TimerOk, Coded;
    forall k: nat ensures ListOk(s, k, -1) {
      assert ListOk(s, k, t);
    }
  }

  /** Setting a list's timer to its head covers the list again. */
  lemma {:induction false} ScheduleKeeps(s: Base, i: nat)
    requires i < |s.lists| && s.lists[i].events != [] && InvBut(s, s.lists[i].timer)
    ensures var t := s.lists[i].timer;
            && Known(s, t) && !s.evs[t].finalizing
            && var r := Schedule(s, i);
            && Inv(r) && SameTimers(s, r) && r.lists == s.lists
            && r.evs[t].timeout && r.evs[t].at == Real(Ev(s.evs, s.lists[i].events[0]).at)
            && |r.evs| == |s.evs| && forall x | 0 <= x < |s.evs| && x != t :: r.evs[x] == s.evs[x]
  {
    hide InvBut, IsCommon, High, AddTimeout;
    var t, head := s.lists[i].timer, s.lists[i].events[0];
    assert IsTimer(s, t);
    TimerIn(s, t, t);
    HeadApart(s, i);
    SaneIn(s, t, t);
    var at := Real(Ev(s.evs, head).at);
    AddTimeoutHeap(s, t, at, s.evs[t].ioTimeout, t);
    var r := Schedule(s, i);
    CoverAll(r, i, t);
  }

  lemma {:induction false} TimerIn(s: Base, t: nat, skip: int)
    requires InvBut(s, skip) && IsTimer(s, t)
    ensures t < |s.evs| && TimerOk(s.evs[t]) && !IsCommon(s.evs[t].at, |s.lists|)
  {
    hide FlagsOk, CountsOk, ListsOk;
    TimerTime(s, t, skip);
  }

  /** A timer is never on a list itself. */
  lemma {:induction false} HeadApart(s: Base, i: nat)
    requires i < |s.lists| && s.lists[i].events != [] && InvBut(s, s.lists[i].timer)
    ensures s.lists[i].events[0] != s.lists[i].timer
    ensures Normal(Real(Ev(s.evs, s.lists[i].events[0]).at))
  {
    hide FlagsOk, CountsOk, ListsOk, IsCommon;
    var t := s.lists[i].timer;
    assert IsTimer(s, t);
    TimerTime(s, t, t);
    EventLists.SlotMember(s, i, s.lists[i].events[0]);
    SaneOf(s, s.lists[i].events[0]);
  }

  /* ----- event_add_nolock_ ----- */

  /** What a caller may ask for: an ordinary time, or one of the base's common ones. */
  ghost predicate TimeAsked(s: Base, e: nat, tv: Timeval, absolute: bool, now: Timeval)
    requires e < |s.evs|
  {
    && Normal(now) && TimeOk(tv, |s.lists|) && (absolute ==> DueOk(tv, |s.lists|))
    && (absolute && s.evs[e].closure == OnPersist ==> High(tv) == High(s.evs[e].ioTimeout))
  }

  lemma {:induction false} DeadlineOk(s: Base, e: nat, tv: Timeval, absolute: bool, now: Timeval)
    requires Inv(s) && Known(s, e) && TimeAsked(s, e, tv, absolute, now)
    ensures var at, io := Deadline(s, tv, absolute, now), NewIoTimeout(s.evs[e], tv, absolute);
            && DueOk(at, |s.lists|) && TimeOk(io, |s.lists|)
            && (s.evs[e].closure == OnPersist ==> High(at) == High(io))
  {
    hide InvBut, High, DueOk, TimeOk, After;
    SaneIn(s, e, -1);
    AfterOk(now, tv, |s.lists|);
  }

  /** A common deadline: onto its list, and the list's timer set when e leads it. */
  lemma {:induction false} AddTimeoutCommon(s: Base, e: nat, at: Timeval, ioTimeout: Timeval)
    requires Inv(s) && Usable(s, e) && !s.evs[e].finalizing
    requires IsCommon(at, |s.lists|) && DueOk(at, |s.lists|) && TimeOk(ioTimeout, |s.lists|)
    requires s.evs[e].closure == OnPersist ==> High(at) == High(ioTimeout)
    ensures var m := AddTimeout(s, e, at, ioTimeout);
            && Known(m, e) && m.evs[e].at == at && SameTimers(s, m)
            && Inv(Settle(m, e)) && SameTimers(s, Settle(m, e))
            && |m.lists| == |s.lists| && m.lists[Index(at)].events != []
            && (m.lists[Index(at)].events[0] == e ==> Known(m, m.lists[Index(at)].timer))
  {
    hide InvBut, IsTimer, IsCommon, High, Unhook, DueOk, TimeOk, Index, Schedule, EventLemmas.SetAt;
    Prepared(s, e, at, ioTimeout, -1);
    var p := EventLemmas.SetAt(Unhook(s, e), e, at, ioTimeout);
    CommonIndex(at, |p.lists|);
    InsertCommonKeeps(p, e);
    var m, i := InsertTimeout(p, e), Index(at);
    if m.lists[i].events[0] == e {
      ScheduleKeeps(m, i);
    }
  }
}
