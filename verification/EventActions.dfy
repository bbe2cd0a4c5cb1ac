/** The remaining operations of a base, and actions carried out on one. */
module EventActions {
  import opened Queues
  import opened Timevals
  import opened EventModel
  import EventLemmas
  import opened EventOps
  import opened EventKeeps
  import opened EventSteps
  import opened EventRuns
  import EventMachine
  import opened EventEffects
  import opened EventTheorems
  import opened EventLoop

  /* ----- what a caller sees of one event ----- */

  /** Only e has changed, and event_count has followed its queue memberships. */
  ghost predicate OnlyThis(s: Base, r: Base, e: nat) {
    && e < |s.evs| && |r.evs| == |s.evs| && r.evs == s.evs[e := r.evs[e]]
    && r.count == s.count - Weight(s.evs[e]) + Weight(r.evs[e])
  }

  lemma {:induction false} FollowsCount(s: Base, r: Base, e: nat)
    requires Inv(s) && Inv(r) && Known(s, e) && OthersSame(s, r, e)
    ensures OnlyThis(s, r, e)
  {
    hide FlagsOk, ListsOk, Weight, Total;
    assert r.evs == s.evs[e := r.evs[e]];
    EventLemmas.WeightsUpdate(s.evs, e, r.evs[e]);
  }

  lemma {:induction false} DelOthers(s: Base, e: nat, even: bool)
    requires Known(s, e)
    ensures OthersSame(s, Del(s, e, even), e)
  {
    hide RemoveTimeout, DropActive, DropInserted;
    var s1 := DropTimeout(s, e);
    TimeoutFrame(s, e);
    DropFrame(s1, e);
    DropFrame(DropActive(s1, e), e);
  }

  lemma {:induction false} DropActiveTotal(s: Base, e: nat)
    requires Known(s, e)
    ensures DropActive(s, e).nActive == s.nActive - Flag(s.evs[e].active || s.evs[e].later)
  {
    hide RemoveOne;
  }

  lemma {:induction false} DropTotals(s: Base, e: nat)
    requires Known(s, e)
    ensures DropTimeout(s, e).nActive == s.nActive && DropInserted(s, e).nActive == s.nActive
    ensures DropTimeout(s, e).evs[e].active == s.evs[e].active && DropTimeout(s, e).evs[e].later == s.evs[e].later
  {
    hide RemoveTimeout;
    EventLemmas.TimeoutShape(s, e);
  }

  lemma {:induction false} DelTotal(s: Base, e: nat, even: bool)
    requires Known(s, e) && (even || !s.evs[e].finalizing)
    ensures Del(s, e, even).nActive == s.nActive - Flag(s.evs[e].active || s.evs[e].later)
  {
    hide DropTimeout, DropActive, DropInserted;
    DropTotals(s, e);
    DropActiveTotal(DropTimeout(s, e), e);
    DropTotals(DropActive(DropTimeout(s, e), e), e);
  }

  lemma {:induction false} CallbackActivateTotal(s: Base, e: nat)
    requires Known(s, e) && !(s.evs[e].active && s.evs[e].later)
    ensures var r := CallbackActivate(s, e);
            && r.base.nActive == s.nActive + Flag(r.code == 1)
            && (r.code == 1 <==> !s.evs[e].finalizing && !s.evs[e].active && !s.evs[e].later)
  {
    hide RemoveOne;
  }

  lemma {:induction false} ActiveTotal(s: Base, e: nat, res: set<Reason>)
    requires Known(s, e) && !(s.evs[e].active && s.evs[e].later)
    ensures Active(s, e, res).nActive == s.nActive + Flag(!s.evs[e].finalizing && !s.evs[e].active && !s.evs[e].later)
    ensures Active(s, e, res).cont == (s.cont || (!s.evs[e].finalizing && !s.evs[e].active && s.evs[e].pri < s.running))
  {
    hide CallbackActivate;
    var ev := s.evs[e];
    var m := Noted(s, e, if ev.later then ev.res + res else res);
    CallbackActivateTotal(m, e);
    CallbackActivateCont(m, e);
  }

  lemma {:induction false} CallbackActivateCont(s: Base, e: nat)
    requires Known(s, e)
    ensures CallbackActivate(s, e).base.cont == s.cont
  {
    hide RemoveOne;
  }

  lemma {:induction false} ActiveLaterShape(s: Base, e: nat, res: set<Reason>)
    requires Known(s, e)
    ensures var r, ev := ActiveLater(s, e, res), s.evs[e];
            && OthersSame(s, r, e)
            && r.evs[e] == (if ev.active || ev.later then ev.(res := ev.res + res) else ev.(res := res, later := true))
            && r.nActive == s.nActive + Flag(!ev.active && !ev.later)
  {
  }

  /* ----- the calls ----- */

  /** event_del: off every queue, unless the event is being finalized. */
  method DelEvent(b: EventBase, e: nat, evenIfFinalizing: bool)
    requires b.Valid() && Usable(b.View(), e)
    modifies b
    ensures b.Valid() && b.View() == Del(old(b.View()), e, evenIfFinalizing)
    ensures OnlyThis(old(b.View()), b.View(), e) && Placed(b.View(), e)
    ensures old(b.evs)[e].finalizing && !evenIfFinalizing ==> b.View() == old(b.View())
    ensures evenIfFinalizing || !old(b.evs)[e].finalizing ==>
              && b.evs[e] == old(b.evs)[e].(timeout := false, active := false, later := false, inserted := false)
              && b.nActive == old(b.nActive) - Flag(old(b.evs)[e].active || old(b.evs)[e].later)
              && b.active == (if old(b.evs)[e].active then Parted(old(b.active), old(b.evs)[e].pri, e) else old(b.active))
              && b.later == (if !old(b.evs)[e].active && old(b.evs)[e].later then RemoveOne(old(b.later), e) else old(b.later))
  {
    hide InvBut, IsTimer, Del, OnlyThis, Placed, SameTimers;
    ghost var s := b.View();
    DelKeeps(s, e, evenIfFinalizing, -1);
    DelOthers(s, e, evenIfFinalizing);
    if evenIfFinalizing || !b.evs[e].finalizing {
      DelTotal(s, e, evenIfFinalizing);
      DelQueues(s, e, evenIfFinalizing);
    }
    b.EventDel(e, evenIfFinalizing);
    FollowsCount(s, b.View(), e);
    IsPlaced(b.View(), e);
  }

  /** event_active: on the queue of its priority, unless the event is being
      finalized; reasons add up, and the loop is told of something more important. */
  method ActivateEvent(b: EventBase, e: nat, res: set<Reason>)
    requires b.Valid() && Usable(b.View(), e)
    modifies b
    ensures b.Valid() && b.View() == Active(old(b.View()), e, res)
    ensures OnlyThis(old(b.View()), b.View(), e) && Placed(b.View(), e)
    ensures old(b.evs)[e].finalizing ==> b.View() == old(b.View())
    ensures !old(b.evs)[e].finalizing ==>
              b.evs[e] == old(b.evs)[e].(active := true, later := false,
                            res := if old(b.evs)[e].active || old(b.evs)[e].later then old(b.evs)[e].res + res else res)
    ensures var ev := old(b.evs)[e];
            && b.nActive == old(b.nActive) + Flag(!ev.finalizing && !ev.active && !ev.later)
            && b.cont == (old(b.cont) || (!ev.finalizing && !ev.active && ev.pri < old(b.running)))
            && b.active == (if ev.finalizing || ev.active then old(b.active) else Joined(old(b.active), ev.pri, e))
  {
    hide InvBut, IsTimer, Active, OnlyThis, Placed, SameTimers;
    ghost var s := b.View();
    SaneIn(s, e, -1);
    ActiveKeeps(s, e, res, -1);
    ActiveFrame(s, e, res);
    ActiveTotal(s, e, res);
    ActiveQueues(s, e, res);
    b.EventActive(e, res);
    FollowsCount(s, b.View(), e);
    IsPlaced(b.View(), e);
  }

  /** event_active_later_: on the later queue unless it is queued already. */
  method ActivateEventLater(b: EventBase, e: nat, res: set<Reason>)
    requires b.Valid() && Usable(b.View(), e)
    modifies b
    ensures b.Valid() && b.View() == ActiveLater(old(b.View()), e, res)
    ensures OnlyThis(old(b.View()), b.View(), e) && Placed(b.View(), e)
    ensures var ev := old(b.evs)[e];
            && b.evs[e] == (if ev.active || ev.later then ev.(res := ev.res + res) else ev.(res := res, later := true))
            && b.nActive == old(b.nActive) + Flag(!ev.active && !ev.later)
            && b.active == old(b.active) && b.later == (if ev.active || ev.later then old(b.later) else old(b.later) + [e])
  {
    hide InvBut, IsTimer, ActiveLater, OnlyThis, Placed, SameTimers;
    ghost var s := b.View();
    ActiveLaterKeeps(s, e, res, -1);
    ActiveLaterShape(s, e, res);
    ActiveLaterQueues(s, e, res);
    b.EventActiveLater(e, res);
    FollowsCount(s, b.View(), e);
    IsPlaced(b.View(), e);
  }

  /** event_callback_activate_: 1 exactly when the callback was on no active queue. */
  method ActivateCallback(b: EventBase, e: nat) returns (code: int)
    requires b.Valid() && Usable(b.View(), e)
    modifies b
    ensures b.Valid() && Outcome(code, b.View()) == CallbackActivate(old(b.View()), e)
    ensures OnlyThis(old(b.View()), b.View(), e) && Placed(b.View(), e)
    ensures var ev := old(b.evs)[e];
            && b.evs[e] == (if ev.finalizing then ev else ev.(active := true, later := false))
            && (code == 1 <==> !ev.finalizing && !ev.active && !ev.later) && b.nActive == old(b.nActive) + Flag(code == 1)
            && b.active == (if ev.finalizing || ev.active then old(b.active) else Joined(old(b.active), ev.pri, e))
  {
    hide InvBut, IsTimer, CallbackActivate, OnlyThis, Placed, SameTimers;
    ghost var s := b.View();
    SaneIn(s, e, -1);
    CallbackActivateKeeps(s, e, -1);
    CallbackActivateFrame(s, e);
    CallbackActivateTotal(s, e);
    CallbackActivateQueues(s, e);
    code := b.EventCallbackActivate(e);
    FollowsCount(s, b.View(), e);
    IsPlaced(b.View(), e);
  }

  lemma {:induction false} FinalizeShape(s: Base, e: nat)
    requires Inv(s) && Usable(s, e)
    ensures var r := Finalize(s, e);
            && OthersSame(s, r, e)
            && r.evs[e] == if s.evs[e].finalizing then s.evs[e].(closure := OnFinalize)
                           else s.evs[e].(timeout := false, inserted := false, later := false, active := true,
                                          closure := OnFinalize, res := {Finalized}, finalizing := true)
  {
    hide InvBut, IsTimer, SameTimers, Del, Active, Usable;
    UsableAllowed(s, e);
    DelKeeps(s, e, false, -1);
    DelOthers(s, e, false);
    Retired(s, e);
    var s2 := SetClosure(Del(s, e, false), e, OnFinalize);
    UsableAllowed(s2, e);
    ActiveKeeps(s2, e, {Finalized}, -1);
    ActiveFrame(s2, e, {Finalized});
  }

  /** event_finalize: off the map and the timers, and its finalizer active. */
  method EventFinalize(b: EventBase, e: nat)
    requires b.Valid() && Usable(b.View(), e)
    modifies b
    ensures b.Valid() && b.View() == Finalize(old(b.View()), e)
    ensures OnlyThis(old(b.View()), b.View(), e) && Placed(b.View(), e)
    ensures b.evs[e].finalizing && !b.evs[e].timeout && !b.evs[e].inserted && b.evs[e].closure == OnFinalize
    ensures !old(b.evs)[e].finalizing ==> b.evs[e].active && b.evs[e].res == {Finalized}
    ensures b.evs[e] == if old(b.evs)[e].finalizing then old(b.evs)[e].(closure := OnFinalize)
                        else old(b.evs)[e].(timeout := false, inserted := false, later := false, active := true,
                                            closure := OnFinalize, res := {Finalized}, finalizing := true)
  {
    hide InvBut, Finalize, IsTimer, SameTimers, OnlyThis, Placed;
    ghost var s := b.View();
    FinalizeKeeps(s, e);
    FinalizeShape(s, e);
    FinalizeNow(b, e);
    FollowsCount(s, b.View(), e);
    IsPlaced(b.View(), e);
    SaneIn(b.View(), e, -1);
  }

  method FinalizeNow(b: EventBase, e: nat)
    requires Known(b.View(), e)
    modifies b
    ensures b.View() == Finalize(old(b.View()), e)
  {
    hide Del, Active;
    b.EventDel(e, false);
    b.evs := b.evs[e := b.evs[e].(closure := OnFinalize)];
    b.EventActive(e, {Finalized});
    b.evs := b.evs[e := b.evs[e].(finalizing := true)];
  }

  lemma {:induction false} CancelShape(s: Base, e: nat, even: bool)
    requires Inv(s) && Usable(s, e)
    ensures var r := Cancel(s, e, even);
            && OthersSame(s, r, e)
            && r.evs[e] == if s.evs[e].finalizing && !even then s.evs[e]
                           else if s.evs[e].init then s.evs[e].(timeout := false, active := false, later := false, inserted := false)
                           else s.evs[e].(active := false, later := false)
  {
    hide InvBut, IsTimer, SameTimers, Del, DropActive;
    DelKeeps(s, e, even, -1);
    DelOthers(s, e, even);
    DropActiveKeeps(s, e, -1);
    DropFrame(s, e);
  }

  /** event_callback_cancel_: an event is deleted, a bare callback leaves the active queues. */
  method CallbackCancel(b: EventBase, e: nat, evenIfFinalizing: bool)
    requires b.Valid() && Usable(b.View(), e)
    modifies b
    ensures b.Valid() && b.View() == Cancel(old(b.View()), e, evenIfFinalizing)
    ensures OnlyThis(old(b.View()), b.View(), e) && Placed(b.View(), e)
    ensures old(b.evs)[e].finalizing && !evenIfFinalizing ==> b.evs == old(b.evs)
    ensures evenIfFinalizing || !old(b.evs)[e].finalizing ==>
              b.evs[e] == if old(b.evs)[e].init
                          then old(b.evs)[e].(timeout := false, active := false, later := false, inserted := false)
                          else old(b.evs)[e].(active := false, later := false)
  {
    hide InvBut, Del, RemoveActive, RemoveLater, IsTimer, SameTimers, OnlyThis, Placed;
    ghost var s := b.View();
    CancelKeeps(s, e, evenIfFinalizing);
    CancelShape(s, e, evenIfFinalizing);
    CancelNow(b, e, evenIfFinalizing);
    FollowsCount(s, b.View(), e);
    IsPlaced(b.View(), e);
  }

  method CancelNow(b: EventBase, e: nat, evenIfFinalizing: bool)
    requires Known(b.View(), e)
    modifies b
    ensures b.View() == Cancel(old(b.View()), e, evenIfFinalizing)
  {
    hide Del, RemoveActive, RemoveLater;
    if b.evs[e].finalizing && !evenIfFinalizing {
      return;
    }
    if b.evs[e].init {
      b.EventDel(e, evenIfFinalizing);
    } else if b.evs[e].active {
      b.QueueRemoveActive(e);
    } else if b.evs[e].later {
      b.QueueRemoveLater(e);
    }
  }

  method CallbackOff(b: EventBase, e: nat)
    requires Known(b.View(), e)
    modifies b
    ensures Known(b.View(), e)
    ensures var s := old(b.View()); b.View() == if s.evs[e].init then Del(s, e, false) else Cancel(s, e, false)
  {
    hide Del, Cancel;
    if b.evs[e].init {
      b.EventDel(e, false);
    } else {
      CancelNow(b, e, false);
    }
  }

  lemma {:induction false} CallbackFinalizeOthers(s: Base, e: nat)
    requires Inv(s) && Usable(s, e) && (!s.evs[e].init ==> !s.evs[e].timeout && !s.evs[e].inserted)
    ensures var r := CallbackFinalize(s, e);
            && OthersSame(s, r, e)
            && r.evs[e] == if s.evs[e].finalizing then s.evs[e].(closure := OnFinalize)
                           else s.evs[e].(timeout := false, inserted := false, later := false, active := true,
                                          closure := OnFinalize, finalizing := true)
  {
    hide InvBut, IsTimer, SameTimers, Del, Cancel, CallbackActivate, Usable;
    UsableAllowed(s, e);
    DelKeeps(s, e, false, -1);
    DelOthers(s, e, false);
    CancelShape(s, e, false);
    RetiredCallback(s, e);
    var s2 := SetClosure(if s.evs[e].init then Del(s, e, false) else Cancel(s, e, false), e, OnFinalize);
    UsableAllowed(s2, e);
    CallbackActivateKeeps(s2, e, -1);
  }

  /** event_callback_finalize_: off the queues, and its finalizer active. */
  method CallbackFinal(b: EventBase, e: nat)
    requires b.Valid() && Usable(b.View(), e) && (!b.evs[e].init ==> !b.evs[e].timeout && !b.evs[e].inserted)
    modifies b
    ensures b.Valid() && b.View() == CallbackFinalize(old(b.View()), e)
    ensures OnlyThis(old(b.View()), b.View(), e) && Placed(b.View(), e)
    ensures b.evs[e].finalizing && !b.evs[e].timeout && !b.evs[e].inserted && b.evs[e].closure == OnFinalize
    ensures b.evs[e] == if old(b.evs)[e].finalizing then old(b.evs)[e].(closure := OnFinalize)
                        else old(b.evs)[e].(timeout := false, inserted := false, later := false, active := true,
                                            closure := OnFinalize, finalizing := true)
  {
    hide InvBut, CallbackFinalize, IsTimer, SameTimers, OnlyThis, Placed;
    ghost var s := b.View();
    CallbackFinalizeKeeps(s, e);
    CallbackFinalizeOthers(s, e);
    CallbackFinalizeNow(b, e);
    FollowsCount(s, b.View(), e);
    IsPlaced(b.View(), e);
    SaneIn(b.View(), e, -1);
  }

  method CallbackFinalizeNow(b: EventBase, e: nat)
    requires Known(b.View(), e)
    modifies b
    ensures b.View() == CallbackFinalize(old(b.View()), e)
  {
    hide Del, Cancel, CallbackActivate;
    CallbackOff(b, e);
    b.evs := b.evs[e := b.evs[e].(closure := OnFinalize)];
    var _ := b.EventCallbackActivate(e);
    b.evs := b.evs[e := b.evs[e].(finalizing := true)];
  }

  /** event_priority_set: refused exactly for an active event or a priority out of range. */
  method PrioritySet(b: EventBase, e: nat, pri: int) returns (code: int)
    requires b.Valid() && Usable(b.View(), e)
    modifies b
    ensures b.Valid() && Outcome(code, b.View()) == SetPriority(old(b.View()), e, pri)
    ensures code == if old(b.evs)[e].active || pri < 0 || pri >= |old(b.active)| then -1 else 0
    ensures code == -1 ==> b.View() == old(b.View())
    ensures code == 0 ==> b.evs == old(b.evs)[e := old(b.evs)[e].(pri := pri)] && Placed(b.View(), e)
  {
    hide InvBut, IsTimer, Placed;
    PriorityKeeps(b.View(), e, pri);
    if b.evs[e].active || pri < 0 || pri >= |b.active| {
      return -1;
    }
    b.evs := b.evs[e := b.evs[e].(pri := pri)];
    IsPlaced(b.View(), e);
    code := 0;
  }

  lemma {:induction false} FoundDuration(lists: seq<CommonList>, d: Timeval, i: nat)
    requires i <= |lists| && (i < |lists| ==> Real(lists[i].duration) == d)
    requires forall k | 0 <= k < i :: Real(lists[k].duration) != d
    ensures EventMachine.FindDuration(lists, d) == i
  {
    hide Real;
  }

  /** event_base_init_common_timeout: the slot, or -1. */
  method InitCommonTimeout(b: EventBase, d: Timeval) returns (slot: int)
    requires b.Valid()
    modifies b
    ensures b.Valid() && Outcome(slot, b.View()) == EventMachine.InitCommon(old(b.View()), d)
    ensures slot == -1 <==> |old(b.lists)| == MAX_COMMON_TIMEOUTS
                            && forall k | 0 <= k < |old(b.lists)| :: Real(old(b.lists)[k].duration) != EventMachine.Plainly(old(b.View()), d)
    ensures slot != -1 ==>
              && 0 <= slot < |b.lists| && Index(b.lists[slot].duration) == slot
              && Real(b.lists[slot].duration) == EventMachine.Plainly(old(b.View()), d)
    ensures slot < |old(b.lists)| ==> b.View() == old(b.View())
    ensures slot >= |old(b.lists)| ==>
              && b.evs == old(b.evs) + [EventMachine.TimerEvent()]
              && b.lists == old(b.lists) + [CommonList(b.lists[slot].duration, [], |old(b.evs)|)]
  {
    hide InvBut, Real, EventMachine.FindDuration, EventMachine.Plainly, Tagged, IsCommon, Index;
    EventMachine.InitCommonKeeps(b.View(), d);
    var plain := EventMachine.Plainly(b.View(), d);
    var i := 0;
    while i < |b.lists|
      invariant 0 <= i <= |b.lists|
      invariant forall k | 0 <= k < i :: Real(b.lists[k].duration) != plain
    {
      if Real(b.lists[i].duration) == plain {
        FoundDuration(b.lists, plain, i);
        return i;
      }
      i := i + 1;
    }
    FoundDuration(b.lists, plain, i);
    if |b.lists| == MAX_COMMON_TIMEOUTS {
      return -1;
    }
    slot := |b.lists|;
    b.lists := b.lists + [CommonList(Tagged(plain, MAGIC + |b.lists|), [], |b.evs|)];
    b.evs := b.evs + [EventMachine.TimerEvent()];
  }

  /** What callers may do. */
  predicate ForCallers(a: Action) {
    !a.DoPromote? && !a.DoExpire? && !a.DoStart? && !a.DoFinish?
  }

  /** An action carried out: it takes the base to where the step says. */
  method Perform(b: EventBase, a: Action)
    requires b.Valid() && Legal(b.View(), a) && ForCallers(a)
    modifies b
    ensures b.Valid() && b.View() == Step(old(b.View()), a)
  {
    hide InvBut, Add, Del, Active, ActiveLater, CallbackActivate, Cancel, Finalize, CallbackFinalize, SetPriority, EventMachine.InitCommon, IsTimer, TimeOk, DueOk, High;
    StepKeeps(b.View(), a);
    if OnQueues(a) {
      PerformOn(b, a);
      return;
    }
    match a
    case DoNew(ev) => b.evs := b.evs + [ev];
    case DoAdd(e, tv, now, mapOk) => var _ := b.EventAdd(e, tv, false, now, mapOk);
    case DoPriority(e, pri) => var _ := PrioritySet(b, e, pri);
    case DoInitCommon(d) => var _ := InitCommonTimeout(b, d);
    case DoLoopVars(running, cont, brk) => b.running, b.cont, b.brk := running, cont, brk;
  }

  /** Those that only move one event between queues. */
  predicate OnQueues(a: Action) {
    || a.DoDel? || a.DoActive? || a.DoActiveLater? || a.DoCallbackActivate?
    || a.DoCancel? || a.DoFinalize? || a.DoCallbackFinalize?
  }

  method PerformOn(b: EventBase, a: Action)
    requires b.Valid() && Legal(b.View(), a) && OnQueues(a)
    modifies b
    ensures b.Valid() && b.View() == Step(old(b.View()), a)
  {
    hide InvBut, Del, Active, ActiveLater, CallbackActivate, Cancel, Finalize, CallbackFinalize, IsTimer;
    hide OnlyThis, Placed, Weight;
    match a
    case DoDel(e, even) => DelEvent(b, e, even);
    case DoActive(e, res) => ActivateEvent(b, e, res);
    case DoActiveLater(e, res) => ActivateEventLater(b, e, res);
    case DoCallbackActivate(e) => var _ := ActivateCallback(b, e);
    case DoCancel(e, even) => CallbackCancel(b, e, even);
    case DoFinalize(e) => EventFinalize(b, e);
    case DoCallbackFinalize(e) => CallbackFinal(b, e);
  }
}
