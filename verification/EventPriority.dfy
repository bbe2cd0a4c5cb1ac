/** Priorities: what an operation may do to the queues of more important events. */
module EventPriority {
  import Queues
  import opened Timevals
  import opened EventModel
  import EventLemmas
  import opened EventOps
  import Options
  import EventSteps
  import EventRuns
  import EventMachine
  import opened EventTheorems

  /** Internal events are the most important ones. */
  ghost predicate InternalFirst(evs: seq<Event>) {
    forall x | 0 <= x < |evs| :: evs[x].internal ==> evs[x].pri == 0
  }

  /** Nothing more important than p is active. */
  ghost predicate ClearAbove(s: Base, p: int) {
    forall q | 0 <= q < p && q < |s.active| :: s.active[q] == []
  }

  /** From s to r nothing more important than the running priority has become
      active, unless the loop has been told. */
  ghost predicate Orderly(s: Base, r: Base) {
    && r.running == s.running && |r.active| == |s.active| && (s.cont ==> r.cont)
    && (r.cont || forall q | 0 <= q < s.running && q < |s.active| :: s.active[q] == [] ==> r.active[q] == [])
    && (InternalFirst(s.evs) ==> InternalFirst(r.evs))
  }

  /** And it has been told only for that. */
  ghost predicate Calm(s: Base, r: Base) {
    Orderly(s, r) && (r.cont ==> s.cont || s.running > 0)
  }

  lemma {:induction false} OrderlyThen(s: Base, m: Base, r: Base)
    requires Orderly(s, m) && Orderly(m, r)
    ensures Orderly(s, r)
  {
    hide InternalFirst;
  }

  lemma {:induction false} CalmThen(s: Base, m: Base, r: Base)
    requires Calm(s, m) && Calm(m, r)
    ensures Calm(s, r)
  {
    OrderlyThen(s, m, r);
  }

  lemma {:induction false} CalmIsOrderly(s: Base, r: Base)
    requires Calm(s, r)
    ensures Orderly(s, r)
  {
  }

  /** r has the queues of s, less what has been taken off. */
  ghost predicate Fewer(s: Base, r: Base) {
    && r.running == s.running && r.cont == s.cont && |r.active| == |s.active| && |r.evs| == |s.evs|
    && (forall q | 0 <= q < |s.active| :: s.active[q] == [] ==> r.active[q] == [])
    && forall x | 0 <= x < |s.evs| :: r.evs[x].internal == s.evs[x].internal && r.evs[x].pri == s.evs[x].pri
  }

  lemma {:induction false} FewerCalm(s: Base, r: Base)
    requires Fewer(s, r)
    ensures Calm(s, r)
  {
  }

  lemma {:induction false} FewerThen(s: Base, m: Base, r: Base)
    requires Fewer(s, m) && Fewer(m, r)
    ensures Fewer(s, r)
  {
  }

  lemma {:induction false} TimeoutFewer(s: Base, e: nat)
    requires Known(s, e)
    ensures Fewer(s, RemoveTimeout(s, e)) && Fewer(s, InsertTimeout(s, e)) && Fewer(s, DropTimeout(s, e))
  {
    hide IsCommon, Index, Queues.RemoveOne, InsertOrdered;
  }

  lemma {:induction false} RemoveActiveFewer(s: Base, e: nat)
    requires Known(s, e)
    ensures Fewer(s, RemoveActive(s, e))
  {
  }

  lemma {:induction false} LaterFewer(s: Base, e: nat)
    requires Known(s, e)
    ensures Fewer(s, InsertLater(s, e)) && Fewer(s, RemoveLater(s, e))
  {
    hide Queues.RemoveOne;
  }

  lemma {:induction false} InsertedFewer(s: Base, e: nat)
    requires Known(s, e)
    ensures Fewer(s, InsertInserted(s, e)) && Fewer(s, DropInserted(s, e))
  {
  }

  lemma {:induction false} ActiveFewer(s: Base, e: nat)
    requires Known(s, e)
    ensures Fewer(s, RemoveActive(s, e)) && Fewer(s, DropActive(s, e))
    ensures Fewer(s, InsertInserted(s, e)) && Fewer(s, DropInserted(s, e))
  {
    hide Fewer, RemoveActive, RemoveLater, InsertInserted, RemoveInserted;
    FewerSelf(s);
    RemoveActiveFewer(s, e);
    LaterFewer(s, e);
    InsertedFewer(s, e);
  }

  lemma {:induction false} DelFewer(s: Base, e: nat, even: bool)
    requires Known(s, e)
    ensures Fewer(s, Del(s, e, even))
  {
    hide DropTimeout, DropActive, DropInserted, Fewer;
    FewerSelf(s);
    var s1 := DropTimeout(s, e);
    TimeoutFewer(s, e);
    var s2 := DropActive(s1, e);
    ActiveFewer(s1, e);
    FewerThen(s, s1, s2);
    ActiveFewer(s2, e);
    FewerThen(s, s2, DropInserted(s2, e));
  }

  lemma {:induction false} FewerSelf(s: Base)
    ensures Fewer(s, s)
  {
  }

  lemma {:induction false} AddTimeoutFewer(s: Base, e: nat, at: Timeval, io: Timeval)
    requires Known(s, e)
    ensures Fewer(s, AddTimeout(s, e, at, io))
  {
    hide DropTimeout, RemoveActive, InsertTimeout, Fewer;
    var s1 := DropTimeout(s, e);
    TimeoutFewer(s, e);
    ActiveFewer(s1, e);
    var s2 := Unhook(s, e);
    if s2 != s1 {
      FewerThen(s, s1, s2);
    }
    var s3 := EventLemmas.SetAt(s2, e, at, io);
    SetAtFewer(s2, e, at, io);
    FewerThen(s, s2, s3);
    TimeoutFewer(s3, e);
    FewerThen(s, s3, InsertTimeout(s3, e));
  }

  lemma {:induction false} SetAtFewer(s: Base, e: nat, at: Timeval, io: Timeval)
    requires Known(s, e)
    ensures Fewer(s, EventLemmas.SetAt(s, e, at, io))
  {
  }

  lemma {:induction false} SettleFewer(s: Base, e: nat)
    requires Known(s, e)
    ensures Fewer(s, Settle(s, e))
  {
    hide AddTimeout, Fewer, IsCommon, Index, Real;
    FewerSelf(s);
    CommonIndex(s.evs[e].at, |s.lists|);
    if IsCommon(s.evs[e].at, |s.lists|) {
      var l := s.lists[Index(s.evs[e].at)];
      if l.events != [] && Known(s, l.timer) {
        AddTimeoutFewer(s, l.timer, Real(Ev(s.evs, l.events[0]).at), s.evs[l.timer].ioTimeout);
      }
    }
  }

  lemma {:induction false} AddFewer(s: Base, e: nat, tv: Options.Option<Timeval>, absolute: bool, now: Timeval, mapOk: bool)
    requires Known(s, e)
    ensures Fewer(s, Add(s, e, tv, absolute, now, mapOk).base)
  {
    hide AddTimeout, Settle, Fewer, InsertInserted, After;
    FewerSelf(s);
    ActiveFewer(s, e);
    var o := AddInserted(s, e, mapOk);
    if !s.evs[e].finalizing && o.code != -1 && tv.Some? {
      var at, io := Deadline(s, tv.value, absolute, now), NewIoTimeout(s.evs[e], tv.value, absolute);
      var m := AddTimeout(o.base, e, at, io);
      AddTimeoutFewer(o.base, e, at, io);
      FewerThen(s, o.base, m);
      SettleFewer(m, e);
      FewerThen(s, m, Settle(m, e));
    }
  }

  lemma {:induction false} NotedCalm(s: Base, e: nat, res: set<Reason>)
    requires Known(s, e)
    ensures var r := Noted(s, e, res);
            && Calm(s, r) && Known(r, e) && (r.evs[e].pri < r.running ==> r.cont)
            && r.evs[e].finalizing == s.evs[e].finalizing && r.evs[e].active == s.evs[e].active
  {
  }

  /** A callback that may be activated without telling the loop: it is not more
      important than what runs, or something of its own priority is active, or it
      will not be queued, or the loop has been told already. */
  predicate Harmless(s: Base, e: nat)
    requires Known(s, e)
  {
    var ev := s.evs[e];
    s.cont || ev.finalizing || ev.active || ev.pri >= s.running || s.active[ev.pri] != []
  }

  lemma {:induction false} InsertActiveExact(s: Base, e: nat)
    requires Known(s, e) && !s.evs[e].active
    ensures Calm(s, InsertActive(s, e)) <==> s.cont || s.evs[e].pri >= s.running || s.active[s.evs[e].pri] != []
  {
    var r, q := InsertActive(s, e), s.evs[e].pri;
    assert r.active[q] == s.active[q] + [e] != [];
    assert forall x | 0 <= x < |s.evs| :: r.evs[x].internal == s.evs[x].internal && r.evs[x].pri == s.evs[x].pri;
  }

  /** event_callback_activate_nolock_ does not tell the loop, and need not exactly
      then. */
  lemma {:induction false} CallbackActivateExact(s: Base, e: nat)
    requires Known(s, e)
    ensures Calm(s, CallbackActivate(s, e).base) <==> Harmless(s, e)
  {
    hide InsertActive, RemoveLater, Calm, Fewer;
    var ev := s.evs[e];
    if ev.finalizing || ev.active {
      FewerSelf(s);
      FewerCalm(s, s);
    } else if ev.later {
      var m := RemoveLater(s, e);
      LaterOnly(s, e);
      InsertActiveExact(m, e);
      SameBut(s, m, InsertActive(m, e));
    } else {
      InsertActiveExact(s, e);
    }
  }

  lemma {:induction false} LaterOnly(s: Base, e: nat)
    requires Known(s, e)
    ensures var m := RemoveLater(s, e);
            && m.cont == s.cont && m.running == s.running && m.active == s.active
            && m.evs[e] == s.evs[e].(later := false) && SamePri(s.evs, m.evs)
  {
    hide Queues.RemoveOne;
  }

  ghost predicate SamePri(evs: seq<Event>, evs': seq<Event>) {
    |evs'| == |evs| && forall x | 0 <= x < |evs| :: evs'[x].internal == evs[x].internal && evs'[x].pri == evs[x].pri
  }

  lemma {:induction false} SameBut(s: Base, m: Base, r: Base)
    requires m.cont == s.cont && m.running == s.running && m.active == s.active && SamePri(s.evs, m.evs)
    ensures Calm(m, r) <==> Calm(s, r)
  {
  }

  lemma {:induction false} CallbackActivateCalm(s: Base, e: nat)
    requires Known(s, e) && (s.evs[e].pri < s.running ==> s.cont)
    ensures Calm(s, CallbackActivate(s, e).base)
  {
    CallbackActivateExact(s, e);
  }

  lemma {:induction false} SetResCalm(s: Base, e: nat, res: set<Reason>)
    requires Known(s, e)
    ensures Calm(s, SetRes(s, e, res))
  {
  }

  lemma {:induction false} ActiveCalm(s: Base, e: nat, res: set<Reason>)
    requires Known(s, e)
    ensures Calm(s, Active(s, e, res))
  {
    hide CallbackActivate, Noted, SetRes, Calm, Fewer;
    FewerSelf(s);
    FewerCalm(s, s);
    var ev := s.evs[e];
    SetResCalm(s, e, ev.res + res);
    var m := Noted(s, e, if ev.later then ev.res + res else res);
    NotedCalm(s, e, if ev.later then ev.res + res else res);
    CallbackActivateCalm(m, e);
    CalmThen(s, m, CallbackActivate(m, e).base);
  }

  /* ----- whole actions ----- */

  /** Callers that activate bare callbacks only where that is harmless, do not ask
      the loop to start over while an internal callback runs, and give internal
      events priority 0. */
  predicate Polite(s: Base, a: Action, internal: bool) {
    match a
    case DoNew(ev) => ev.internal ==> ev.pri == 0
    case DoPriority(e, pri) => e < |s.evs| && s.evs[e].internal ==> pri == 0
    case DoLoopVars(running, cont, _) =>
      running == s.running && (s.cont ==> cont) && (cont && internal ==> s.cont || s.running > 0)
    case DoCallbackActivate(e) => Known(s, e) ==> Harmless(s, e)
    case DoCallbackFinalize(e) => Known(s, e) ==> Harmless(s, e)
    case DoPromote => false
    case DoStart(_, _, _) => false
    case _ => true
  }

  lemma {:induction false} SetFieldCalm(s: Base, e: nat, nv: Event)
    requires Known(s, e) && nv.internal == s.evs[e].internal && (nv.internal ==> nv.pri == s.evs[e].pri || nv.pri == 0)
    ensures Calm(s, s.(evs := s.evs[e := nv]))
  {
  }

  lemma {:induction false} FinalizeCalm(s: Base, e: nat)
    requires Known(s, e)
    ensures Calm(s, Finalize(s, e))
  {
    hide Del, Active, Calm, Fewer;
    var s1 := Del(s, e, false);
    DelFewer(s, e, false);
    FewerCalm(s, s1);
    var s2 := SetClosure(s1, e, OnFinalize);
    SetFieldCalm(s1, e, s1.evs[e].(closure := OnFinalize));
    CalmThen(s, s1, s2);
    var s3 := Active(s2, e, {Finalized});
    ActiveCalm(s2, e, {Finalized});
    CalmThen(s, s2, s3);
    SetFieldCalm(s3, e, s3.evs[e].(finalizing := true));
    CalmThen(s, s3, SetFinalizing(s3, e));
  }

  lemma {:induction false} NewCalm(s: Base, ev: Event, lists: seq<CommonList>)
    requires ev.internal ==> ev.pri == 0
    ensures Calm(s, EventMachine.New(s, ev)) && Calm(s, EventMachine.New(s, ev).(lists := lists))
  {
  }

  lemma {:induction false} ExpireCalm(s: Base, e: nat)
    requires Known(s, e)
    ensures Calm(s, EventRuns.Expire(s, e))
  {
    hide Del, Active, Calm, Fewer;
    DelFewer(s, e, false);
    FewerCalm(s, Del(s, e, false));
    ActiveCalm(Del(s, e, false), e, {TimedOut});
    CalmThen(s, Del(s, e, false), EventRuns.Expire(s, e));
  }

  lemma {:induction false} FinishCalm(s: Base, i: nat)
    requires i < |s.lists| && Known(s, s.lists[i].timer)
    ensures Calm(s, EventMachine.Finish(s, i))
  {
    hide AddTimeout, Real;
    if s.lists[i].events != [] && !s.evs[s.lists[i].timer].finalizing {
      AddTimeoutFewer(s, s.lists[i].timer, Real(Ev(s.evs, s.lists[i].events[0]).at), s.evs[s.lists[i].timer].ioTimeout);
    }
  }

  lemma {:induction false} ActiveLaterCalm(s: Base, e: nat, res: set<Reason>)
    requires Known(s, e)
    ensures Calm(s, ActiveLater(s, e, res))
  {
    hide InsertLater, Calm, Fewer, SetRes;
    SetResCalm(s, e, s.evs[e].res + res);
    SetResCalm(s, e, res);
    LaterFewer(SetRes(s, e, res), e);
    FewerCalm(SetRes(s, e, res), InsertLater(SetRes(s, e, res), e));
    CalmThen(s, SetRes(s, e, res), InsertLater(SetRes(s, e, res), e));
  }

  lemma {:induction false} CancelCalm(s: Base, e: nat, even: bool)
    requires Known(s, e)
    ensures Calm(s, Cancel(s, e, even))
  {
    hide Del, DropActive, Calm, Fewer;
    FewerSelf(s);
    DelFewer(s, e, even);
    ActiveFewer(s, e);
    FewerCalm(s, Cancel(s, e, even));
  }

  lemma {:induction false} LoopVarsOrderly(s: Base, cont: bool, brk: bool)
    requires s.cont ==> cont
    ensures var r := s.(running := s.running, cont := cont, brk := brk);
            Orderly(s, r) && (Calm(s, r) <==> !cont || s.cont || s.running > 0)
  {
  }

  /** Taking a callback off its queues to finalize it. */
  lemma {:induction false} OffForGood(s: Base, e: nat)
    requires Inv(s) && EventSteps.Usable(s, e)
    ensures var m := SetClosure(if s.evs[e].init then Del(s, e, false) else Cancel(s, e, false), e, OnFinalize);
            && Fewer(s, m) && m.evs[e].finalizing == s.evs[e].finalizing
            && (!s.evs[e].finalizing ==> !m.evs[e].active && !m.evs[e].later)
  {
    hide InvBut, Del, DropActive, IsTimer;
    EventRuns.UsableAllowed(s, e);
    EventSteps.DelKeeps(s, e, false, -1);
    EventRuns.CancelKeeps(s, e, false);
    FewerSelf(s);
    DelFewer(s, e, false);
    ActiveFewer(s, e);
    DropActiveFinalizing(s, e);
  }

  lemma {:induction false} DropActiveFinalizing(s: Base, e: nat)
    requires Known(s, e)
    ensures DropActive(s, e).evs[e].finalizing == s.evs[e].finalizing
  {
    hide Queues.RemoveOne;
  }

  lemma {:induction false} RequeuedExact(s: Base, m: Base, e: nat)
    requires Known(s, e) && Known(m, e) && Fewer(s, m) && (!m.evs[e].finalizing ==> !m.evs[e].active && !m.evs[e].later)
    ensures Calm(s, CallbackActivate(m, e).base) <==>
              s.cont || m.evs[e].finalizing || s.evs[e].pri >= s.running || s.active[s.evs[e].pri] != []
  {
    hide Calm, CallbackActivate;
    FewerCalm(s, m);
    if !m.evs[e].finalizing {
      PutBackExact(s, m, e);
      ActivatedFresh(m, e);
    } else {
      ActivatedFresh(m, e);
    }
  }

  lemma {:induction false} ActivatedFresh(m: Base, e: nat)
    requires Known(m, e)
    ensures m.evs[e].finalizing ==> CallbackActivate(m, e).base == m
    ensures !m.evs[e].finalizing && !m.evs[e].active && !m.evs[e].later ==> CallbackActivate(m, e).base == InsertActive(m, e)
  {
  }

  lemma {:induction false} PutBackExact(s: Base, m: Base, e: nat)
    requires Known(s, e) && Known(m, e) && Fewer(s, m) && !m.evs[e].active
    ensures Calm(s, InsertActive(m, e)) <==> s.cont || s.evs[e].pri >= s.running || s.active[s.evs[e].pri] != []
  {
    var r, q := InsertActive(m, e), s.evs[e].pri;
    assert r.active[q] == m.active[q] + [e] != [];
    assert forall x | 0 <= x < |s.evs| :: r.evs[x].internal == s.evs[x].internal && r.evs[x].pri == s.evs[x].pri;
  }

  /** Marking it afterwards changes nothing about that. */
  lemma {:induction false} MarkedSame(s: Base, r: Base, e: nat)
    requires Known(r, e)
    ensures Calm(s, SetFinalizing(r, e)) <==> Calm(s, r)
  {
    hide Known;
    assert SamePri(r.evs, SetFinalizing(r, e).evs);
    SameAfter(s, r, SetFinalizing(r, e));
  }

  lemma {:induction false} SameAfter(s: Base, r: Base, r': Base)
    requires r'.cont == r.cont && r'.running == r.running && r'.active == r.active && SamePri(r.evs, r'.evs)
    ensures Calm(s, r') <==> Calm(s, r)
  {
  }

  /** event_callback_finalize_nolock_ queues the callback anew, without telling the
      loop, and need not in exactly the same cases. */
  lemma {:induction false} CallbackFinalizeExact(s: Base, e: nat)
    requires Inv(s) && EventSteps.Usable(s, e)
    ensures Calm(s, CallbackFinalize(s, e)) <==> Harmless(s, e)
  {
    hide InvBut, Del, Cancel, CallbackActivate, Calm, Fewer, SetClosure, SetFinalizing;
    var m := SetClosure(if s.evs[e].init then Del(s, e, false) else Cancel(s, e, false), e, OnFinalize);
    OffForGood(s, e);
    RequeuedExact(s, m, e);
    MarkedSame(s, CallbackActivate(m, e).base, e);
    ActiveQueued(s, e);
  }

  lemma {:induction false} ActiveQueued(s: Base, e: nat)
    requires Inv(s) && Known(s, e)
    ensures s.evs[e].active ==> s.active[s.evs[e].pri] != []
  {
    hide CountsOk, ListsOk, ListAt, HeapAt, DueOk, TimeOk, High;
    assert EventAt(s, e);
  }

  /** No polite action makes something more important active behind the loop's
      back; nor, with an internal callback running, tells the loop needlessly. */
  lemma {:induction false} PoliteCalm(s: Base, a: Action, internal: bool)
    requires Inv(s) && Legal(s, a) && Polite(s, a, internal)
    ensures Orderly(s, Step(s, a)) && (internal ==> Calm(s, Step(s, a)))
  {
    if a.DoLoopVars? {
      LoopVarsOrderly(s, a.cont, a.brk);
    } else {
      StepCalm(s, a);
    }
  }

  lemma {:induction false} StepCalm(s: Base, a: Action)
    requires Inv(s) && Legal(s, a) && Polite(s, a, true) && !a.DoLoopVars?
    ensures Calm(s, Step(s, a))
  {
    hide InvBut, Calm, Fewer, Add, Del, Active, ActiveLater, CallbackActivate, CallbackFinalize, Cancel, Finalize, EventMachine.Finish;
    hide EventRuns.Expire, EventMachine.New, IsTimer, TimeOk, Harmless;
    FewerSelf(s);
    FewerCalm(s, s);
    match a
    case DoNew(ev) => NewCalm(s, ev, s.lists);
    case DoAdd(e, tv, now, mapOk) => AddFewer(s, e, tv, false, now, mapOk); FewerCalm(s, Step(s, a));
    case DoDel(e, even) => DelFewer(s, e, even); FewerCalm(s, Step(s, a));
    case DoActive(e, res) => ActiveCalm(s, e, res);
    case DoActiveLater(e, res) => ActiveLaterCalm(s, e, res);
    case DoCallbackActivate(e) => CallbackActivateExact(s, e);
    case DoCancel(e, even) => CancelCalm(s, e, even);
    case DoFinalize(e) => FinalizeCalm(s, e);
    case DoCallbackFinalize(e) => CallbackFinalizeExact(s, e);
    case DoPriority(e, pri) => if pri >= 0 { SetFieldCalm(s, e, s.evs[e].(pri := pri)); }
    case DoInitCommon(d) => NewCalm(s, EventMachine.TimerEvent(), EventMachine.InitCommon(s, d).base.lists);
    case DoExpire(e) => ExpireCalm(s, e);
    case DoFinish(i) => EventMachine.FinishKeeps(s, i); FinishCalm(s, i);
  }
}
