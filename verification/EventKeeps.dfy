/** Every operation keeps the base invariant. */
module EventKeeps {
  import Queues
  import opened Timevals
  import opened EventModel
  import opened EventLemmas
  import EventLists
  import EventOps

  /** The timers of the lists are the base's own: a caller works on other
      events, and when the base works on a timer that list may be uncovered. */
  ghost predicate Allowed(s: Base, e: nat, skip: int) {
    if IsTimer(s, e) then skip == e else skip == -1
  }

  ghost predicate SameTimers(s: Base, r: Base) {
    && |r.lists| == |s.lists| && r.firing == s.firing
    && forall i | 0 <= i < |s.lists| :: r.lists[i].timer == s.lists[i].timer
  }

  /** The step from s to r keeps everything it should. */
  ghost predicate Keeps(s: Base, r: Base, e: nat, skip: int) {
    InvBut(r, skip) && Allowed(r, e, skip) && SameTimers(s, r)
  }

  lemma {:induction false} FromTimers(s: Base, r: Base, e: nat, skip: int)
    requires TimersApart(s.lists) && Allowed(s, e, skip) && SameTimers(s, r)
    requires FlagsOk(r) && CountsOk(r) && ListsOk(r, skip)
    ensures Keeps(s, r, e, skip)
  {
    hide FlagsOk, CountsOk, ListsOk;
    if IsTimer(s, e) {
      var i :| 0 <= i < |s.lists| && s.lists[i].timer == e;
      assert r.lists[i].timer == e;
    }
    if IsTimer(r, e) {
      var i :| 0 <= i < |r.lists| && r.lists[i].timer == e;
      assert s.lists[i].timer == e;
    }
    forall i, j | 0 <= i < j < |r.lists| ensures r.lists[i].timer != r.lists[j].timer {
      assert s.lists[i].timer != s.lists[j].timer;
    }
  }

  /** e changed, kept its deadline, and may have moved between queues. */
  lemma {:induction false} QuietKeeps(s: Base, r: Base, e: nat, skip: int)
    requires InvBut(s, skip) && Allowed(s, e, skip) && FlagsOk(r) && CountsOk(r)
    requires r.lists == s.lists && r.firing == s.firing && e < |s.evs| && |r.evs| == |s.evs|
    requires r.evs == s.evs[e := r.evs[e]]
    requires var ev, nv := s.evs[e], r.evs[e];
             nv == ev.(timeout := nv.timeout, active := nv.active, later := nv.later, res := nv.res, inserted := nv.inserted)
    ensures Keeps(s, r, e, skip)
  {
    hide FlagsOk, CountsOk, ListsOk, TimerOk;
    EventLists.TimerStays(s, r, e, skip);
    EventLists.QuietLists(s, r, e, skip);
    FromTimers(s, r, e, skip);
  }

  lemma {:induction false} InsertActiveKeeps(s: Base, e: nat, skip: int)
    requires InvBut(s, skip) && Allowed(s, e, skip) && Known(s, e) && !s.evs[e].active && !s.evs[e].later
    ensures Keeps(s, InsertActive(s, e), e, skip)
  {
    hide FlagsOk, CountsOk, ListsOk, Keeps, Allowed;
    InsertActiveFlags(s, e);
    ActiveCounts(s, e);
    QuietKeeps(s, InsertActive(s, e), e, skip);
  }

  lemma {:induction false} RemoveActiveKeeps(s: Base, e: nat, skip: int)
    requires InvBut(s, skip) && Allowed(s, e, skip) && Known(s, e) && s.evs[e].active
    ensures Keeps(s, RemoveActive(s, e), e, skip)
  {
    hide FlagsOk, CountsOk, ListsOk, Keeps, Allowed, Queues.RemoveOne;
    InQueue(s, e);
    RemoveActiveFlags(s, e);
    ActiveCounts(s, e);
    QuietKeeps(s, RemoveActive(s, e), e, skip);
  }

  lemma {:induction false} InsertLaterKeeps(s: Base, e: nat, skip: int)
    requires InvBut(s, skip) && Allowed(s, e, skip) && Known(s, e) && !s.evs[e].active && !s.evs[e].later
    ensures Keeps(s, InsertLater(s, e), e, skip)
  {
    hide FlagsOk, CountsOk, ListsOk, Keeps, Allowed;
    InsertLaterFlags(s, e);
    LaterCounts(s, e);
    QuietKeeps(s, InsertLater(s, e), e, skip);
  }

  lemma {:induction false} RemoveLaterKeeps(s: Base, e: nat, skip: int)
    requires InvBut(s, skip) && Allowed(s, e, skip) && Known(s, e) && s.evs[e].later
    ensures Keeps(s, RemoveLater(s, e), e, skip)
  {
    hide FlagsOk, CountsOk, ListsOk, Keeps, Allowed, Queues.RemoveOne;
    InQueue(s, e);
    RemoveLaterFlags(s, e);
    LaterCounts(s, e);
    QuietKeeps(s, RemoveLater(s, e), e, skip);
  }

  lemma {:induction false} SaneOf(s: Base, e: nat)
    requires FlagsOk(s) && e < |s.evs|
    ensures Sane(s.evs[e], |s.active|, |s.lists|) && (e in s.fds <==> s.evs[e].inserted)
    ensures Known(s, e) && |s.lists| <= MAX_COMMON_TIMEOUTS
  {
    hide ActiveAt, ListAt, HeapAt, DueOk, TimeOk, High;
    assert EventAt(s, e);
  }

  lemma {:induction false} InsertedKeeps(s: Base, e: nat, skip: int)
    requires InvBut(s, skip) && Allowed(s, e, skip) && Known(s, e)
    ensures !s.evs[e].inserted && !s.evs[e].finalizing ==> Keeps(s, InsertInserted(s, e), e, skip)
    ensures s.evs[e].inserted ==> Keeps(s, RemoveInserted(s, e), e, skip)
  {
    hide FlagsOk, CountsOk, ListsOk, Keeps, Allowed, DueOk, TimeOk, High;
    SaneOf(s, e);
    InsertedCounts(s, e);
    if s.evs[e].inserted {
      var r := RemoveInserted(s, e);
      QuietFlags(s, e, r.evs[e], r);
      QuietKeeps(s, r, e, skip);
    } else if !s.evs[e].finalizing {
      var r := InsertInserted(s, e);
      QuietFlags(s, e, r.evs[e], r);
      QuietKeeps(s, r, e, skip);
    }
  }

  lemma {:induction false} SetResKeeps(s: Base, e: nat, res: set<Reason>, skip: int)
    requires InvBut(s, skip) && Allowed(s, e, skip) && Known(s, e)
    ensures Keeps(s, EventOps.SetRes(s, e, res), e, skip)
  {
    hide FlagsOk, CountsOk, ListsOk, Keeps, Allowed, DueOk, TimeOk, High;
    SaneOf(s, e);
    var r := EventOps.SetRes(s, e, res);
    assert r.fds == if r.evs[e].inserted then s.fds + {e} else s.fds - {e};
    QuietFlags(s, e, r.evs[e], r);
    SameWeightCounts(s, e, r.evs[e], r);
    QuietKeeps(s, r, e, skip);
  }

  /* ----- timeouts ----- */

  lemma {:induction false} TimerTime(s: Base, e: nat, skip: int)
    requires FlagsOk(s) && ListsOk(s, skip) && IsTimer(s, e)
    ensures e < |s.evs| && TimerOk(s.evs[e]) && !IsCommon(s.evs[e].at, |s.lists|)
  {
    hide Sorted, Covered, EventAt;
    var i :| 0 <= i < |s.lists| && s.lists[i].timer == e;
    assert ListOk(s, i, skip);
  }

  lemma {:induction false} RemoveTimeoutKeeps(s: Base, e: nat, skip: int)
    requires InvBut(s, skip) && Allowed(s, e, skip) && Known(s, e) && s.evs[e].timeout
    ensures Keeps(s, RemoveTimeout(s, e), e, skip)
  {
    hide FlagsOk, CountsOk, ListsOk, Keeps, Queues.RemoveOne, IsCommon, Index, IsTimer;
    RemoveTimeoutFlags(s, e);
    TimeoutCounts(s, e);
    CommonIndex(s.evs[e].at, |s.lists|);
    if IsCommon(s.evs[e].at, |s.lists|) {
      if IsTimer(s, e) { TimerTime(s, e, skip); }
      EventLists.RemoveLists(s, e);
    } else {
      EventLists.HeapLists(s, RemoveTimeout(s, e), e, skip);
    }
    FromTimers(s, RemoveTimeout(s, e), e, skip);
  }

  lemma {:induction false} SetAtKeeps(s: Base, e: nat, at: Timeval, ioTimeout: Timeval, skip: int)
    requires InvBut(s, skip) && Allowed(s, e, skip) && Known(s, e) && !s.evs[e].timeout
    requires DueOk(at, |s.lists|) && TimeOk(ioTimeout, |s.lists|) && (IsTimer(s, e) ==> Normal(at))
    requires s.evs[e].closure == OnPersist ==> High(at) == High(ioTimeout)
    ensures Keeps(s, SetAt(s, e, at, ioTimeout), e, skip)
  {
    hide FlagsOk, CountsOk, ListsOk, Keeps, IsTimer, DueOk, TimeOk, High, Normal;
    var r := SetAt(s, e, at, ioTimeout);
    SetAtFlags(s, e, at, ioTimeout);
    EventLists.SetAtLists(s, e, at, ioTimeout, skip);
    SameWeightCounts(s, e, r.evs[e], r);
    FromTimers(s, r, e, skip);
  }

  /** An ordinary deadline: into the heap. */
  lemma {:induction false} InsertHeapKeeps(s: Base, e: nat, skip: int)
    requires InvBut(s, skip) && Allowed(s, e, skip) && Known(s, e) && !s.evs[e].timeout && !s.evs[e].finalizing
    requires !IsCommon(s.evs[e].at, |s.lists|)
    ensures Keeps(s, InsertTimeout(s, e), e, skip)
  {
    hide FlagsOk, CountsOk, ListsOk, Keeps, InsertOrdered, IsCommon, Index, IsTimer;
    InsertTimeoutFlags(s, e);
    TimeoutCounts(s, e);
    EventLists.HeapLists(s, InsertTimeout(s, e), e, skip);
    FromTimers(s, InsertTimeout(s, e), e, skip);
  }

  /** A common deadline: onto its list, whose timer must then be set if e leads it. */
  lemma {:induction false} InsertCommonKeeps(s: Base, e: nat)
    requires Inv(s) && !IsTimer(s, e) && Known(s, e) && !s.evs[e].timeout && !s.evs[e].finalizing
    requires IsCommon(s.evs[e].at, |s.lists|)
    ensures var r, i := InsertTimeout(s, e), Index(s.evs[e].at);
            && r.lists[i].events != [] && SameTimers(s, r)
            && InvBut(r, if r.lists[i].events[0] == e then s.lists[i].timer else -1)
  {
    hide FlagsOk, CountsOk, ListsOk, InsertOrdered, IsCommon, Index, IsTimer;
    InsertTimeoutFlags(s, e);
    TimeoutCounts(s, e);
    CommonIndex(s.evs[e].at, |s.lists|);
    EventLists.InsertLists(s, e);
    TimersApartSame(s, InsertTimeout(s, e));
  }

  lemma {:induction false} TimersApartSame(s: Base, r: Base)
    requires TimersApart(s.lists) && SameTimers(s, r)
    ensures TimersApart(r.lists)
  {
    forall i, j | 0 <= i < j < |r.lists| ensures r.lists[i].timer != r.lists[j].timer {
      assert s.lists[i].timer != s.lists[j].timer;
    }
  }
}
