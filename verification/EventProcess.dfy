/** event_process_active: over whole runs, no callback starts while a more
    important event is active. */
module EventProcess {
  import opened Timevals
  import opened EventModel
  import opened EventOps
  import opened Options
  import EventKeeps
  import EventSteps
  import EventRuns
  import opened EventMachine
  import opened EventTheorems
  import opened EventPriority
  import opened EventLoop
  import Words
  import EventDispatch
  import EventActions
  import EventEffects

  /* ----- what a caller leaves alone ----- */

  /** The lists keep their places and timers, and the callback under way stays so. */
  ghost predicate TimersGrow(s: Base, r: Base) {
    && |s.lists| <= |r.lists| && r.firing == s.firing
    && forall i | 0 <= i < |s.lists| :: r.lists[i].timer == s.lists[i].timer
  }

  lemma {:induction false} SameGrow(s: Base, r: Base)
    requires EventKeeps.SameTimers(s, r)
    ensures TimersGrow(s, r)
  {
  }

  lemma {:induction false} StepGrows(s: Base, a: Action)
    requires Inv(s) && Legal(s, a) && EventActions.ForCallers(a)
    ensures TimersGrow(s, Step(s, a))
  {
    hide InvBut, EventKeeps.SameTimers, Add, Del, Active, ActiveLater, CallbackActivate, Cancel, Finalize, CallbackFinalize, IsTimer, TimeOk, DueOk, High;
    match a
    case DoAdd(e, tv, now, mapOk) => EventRuns.AddKeeps(s, e, tv, false, now, mapOk); SameGrow(s, Step(s, a));
    case DoDel(e, even) => EventSteps.DelKeeps(s, e, even, -1); SameGrow(s, Step(s, a));
    case DoActive(e, res) => EventSteps.ActiveKeeps(s, e, res, -1); SameGrow(s, Step(s, a));
    case DoActiveLater(e, res) => EventSteps.ActiveLaterKeeps(s, e, res, -1); SameGrow(s, Step(s, a));
    case DoCallbackActivate(e) => EventSteps.CallbackActivateKeeps(s, e, -1); SameGrow(s, Step(s, a));
    case DoCancel(e, even) => EventRuns.CancelKeeps(s, e, even); SameGrow(s, Step(s, a));
    case DoFinalize(e) => EventRuns.FinalizeKeeps(s, e); SameGrow(s, Step(s, a));
    case DoCallbackFinalize(e) => EventRuns.CallbackFinalizeKeeps(s, e); SameGrow(s, Step(s, a));
    case _ =>
  }

  /** What one callback, internal or not, and other threads meanwhile may do. */
  ghost predicate Behaved(s: Base, r: Base, internal: bool) {
    Orderly(s, r) && (internal ==> Calm(s, r))
  }

  lemma {:induction false} BehavedThen(s: Base, m: Base, r: Base, internal: bool)
    requires Behaved(s, m, internal) && Behaved(m, r, internal)
    ensures Behaved(s, r, internal)
  {
    hide Orderly, Calm;
    OrderlyThen(s, m, r);
    if internal {
      CalmThen(s, m, r);
    }
  }

  lemma {:induction false} CalmBehaved(s: Base, r: Base, internal: bool)
    requires Calm(s, r)
    ensures Behaved(s, r, internal)
  {
  }

  /** Whether an action is one that a caller may take. */
  predicate Allowed(s: Base, a: Action, internal: bool) {
    Legal(s, a) && Polite(s, a, internal) && EventActions.ForCallers(a)
  }

  /** The base after all the actions that may be taken. */
  ghost function Performed(s: Base, acts: seq<Action>, internal: bool): Base
    requires Inv(s)
    decreases |acts|
  {
    if acts == [] then s
    else if Allowed(s, acts[0], internal) then StepKeeps(s, acts[0]); Performed(Step(s, acts[0]), acts[1..], internal)
    else Performed(s, acts[1..], internal)
  }

  /** Actions taken one after another under the lock; what no caller may do is passed over. */
  method PerformAll(b: EventBase, acts: seq<Action>, internal: bool)
    requires b.Valid()
    modifies b
    ensures b.Valid() && Behaved(old(b.View()), b.View(), internal) && TimersGrow(old(b.View()), b.View())
    ensures b.View() == Performed(old(b.View()), acts, internal)
  {
    hide InvBut, Behaved, Legal, Polite, Step, TimersGrow;
    EventDispatch.CalmSelf(b.View());
    CalmBehaved(b.View(), b.View(), internal);
    GrowSelf(b.View());
    var i := 0;
    assert acts[0..] == acts;
    while i < |acts|
      invariant 0 <= i <= |acts| && b.Valid()
      invariant Behaved(old(b.View()), b.View(), internal) && TimersGrow(old(b.View()), b.View())
      invariant Performed(b.View(), acts[i..], internal) == Performed(old(b.View()), acts, internal)
    {
      assert acts[i..][0] == acts[i] && acts[i..][1..] == acts[i + 1..];
      if Allowed(b.View(), acts[i], internal) {
        ghost var m := b.View();
        PoliteBehaved(m, acts[i], internal);
        StepGrows(m, acts[i]);
        EventActions.Perform(b, acts[i]);
        BehavedThen(old(b.View()), m, b.View(), internal);
        GrowThen(old(b.View()), m, b.View());
      }
      i := i + 1;
    }
  }

  lemma {:induction false} PoliteBehaved(s: Base, a: Action, internal: bool)
    requires Inv(s) && Legal(s, a) && Polite(s, a, internal)
    ensures Behaved(s, Step(s, a), internal)
  {
    PoliteCalm(s, a, internal);
  }

  lemma {:induction false} GrowSelf(s: Base)
    ensures TimersGrow(s, s)
  {
  }

  lemma {:induction false} GrowThen(s: Base, m: Base, r: Base)
    requires TimersGrow(s, m) && TimersGrow(m, r)
    ensures TimersGrow(s, r)
  {
  }

  /* ----- one callback ----- */

  lemma {:induction false} TakeOffFewer(s: Base, e: nat)
    requires Known(s, e)
    ensures Fewer(s, TakeOff(s, e))
  {
    hide Del, RemoveActive, Fewer;
    DelFewer(s, e, false);
    RemoveActiveFewer(s, e);
  }

  lemma {:induction false} RearmFewer(s: Base, e: nat, now: Timeval, mapOk: bool)
    requires Known(s, e)
    ensures Fewer(s, Rearm(s, e, now, mapOk))
  {
    hide Add, Fewer, NextRun, IsCommon;
    FewerSelf(s);
    var ev := s.evs[e];
    AddFewer(s, e, Some(NextRun(ev.at, ev.ioTimeout, TimedOut in ev.res, now, |s.lists|)), true, now, mapOk);
  }

  lemma {:induction false} StartCalm(s: Base, p: nat, now: Timeval, mapOk: bool)
    requires p < |s.active| && s.active[p] != [] && Known(s, s.active[p][0])
    ensures Calm(s, Start(s, p, now, mapOk))
  {
    hide TakeOff, Rearm, Fewer, Calm, IsTimer;
    var e := s.active[p][0];
    var s0 := if IsTimer(s, e) then s.(firing := e) else s;
    FiringFewer(s, e);
    var s1 := TakeOff(s0, e);
    TakeOffFewer(s0, e);
    FewerThen(s, s0, s1);
    RearmFewer(s1, e, now, mapOk);
    FewerThen(s, s1, Rearm(s1, e, now, mapOk));
    FewerCalm(s, Start(s, p, now, mapOk));
  }

  lemma {:induction false} FiringFewer(s: Base, e: nat)
    ensures Fewer(s, s) && Fewer(s, s.(firing := e))
  {
  }

  /** Takes the first callback of queue p off, and re-arms it if it is persistent: an
      event that is not is deleted altogether, one with an interval has its next
      deadline, and no other event changes but the timer of a list. */
  method StartCallback(b: EventBase, p: nat, now: Timeval, mapOk: bool) returns (e: nat)
    requires b.Valid() && p < |b.active| && b.active[p] != [] && Normal(now) && b.firing == -1
    modifies b, b.journal
    ensures b.Valid() && Calm(old(b.View()), b.View()) && e == old(b.active[p])[0]
    ensures b.journal.began == old(b.journal.began) + [Began(old(b.View()), p, e)]
    ensures e < old(|b.evs|) && old(b.evs)[e].pri == p && |b.lists| == old(|b.lists|)
    ensures b.firing == if IsTimer(old(b.View()), e) then e else -1
    ensures forall i | 0 <= i < |b.lists| :: b.lists[i].timer == old(b.lists)[i].timer
    ensures EventEffects.StartedAs(old(b.View()), b.View(), e, now, mapOk) && EventEffects.Placed(b.View(), e)
    ensures Known(old(b.View()), e) && b.View() == Start(old(b.View()), p, now, mapOk)
  {
    hide InvBut, TakeOff, Rearm, Calm, EventKeeps.SameTimers, IsTimer, EventEffects.StartedAs, EventEffects.Placed;
    ghost var s := b.View();
    HeadKnown(s, p);
    StartKeeps(s, p, now, mapOk);
    StartCalm(s, p, now, mapOk);
    StartTimers(s, p, now, mapOk);
    EventEffects.StartEffect(s, p, now, mapOk);
    StartSize(s, p, now, mapOk);
    e := b.active[p][0];
    b.journal.began := b.journal.began + [Began(s, p, e)];
    FiringKeeps(s, e);
    if IsTimer(b.View(), e) {
      b.firing := e;
    }
    ghost var s0 := b.View();
    TakeOffKeeps(s0, e);
    TakeOffNow(b, e);
    TimersStay(s0, b.View(), e);
    RearmNow(b, e, now, mapOk);
    EventEffects.IsPlaced(b.View(), e);
  }

  lemma {:induction false} StartSize(s: Base, p: nat, now: Timeval, mapOk: bool)
    requires Inv(s) && p < |s.active| && s.active[p] != [] && Normal(now) && s.firing == -1 && Known(s, s.active[p][0])
    ensures |Start(s, p, now, mapOk).evs| == |s.evs|
  {
    hide InvBut, Start, EventEffects.Rearmed, EventEffects.Begun, EventEffects.TimerOf;
    EventEffects.StartEffect(s, p, now, mapOk);
  }

  lemma {:induction false} StartTimers(s: Base, p: nat, now: Timeval, mapOk: bool)
    requires Inv(s) && p < |s.active| && s.active[p] != [] && Normal(now) && s.firing == -1 && Known(s, s.active[p][0]) && s.evs[s.active[p][0]].active
    ensures var e, r := s.active[p][0], Start(s, p, now, mapOk);
            && r.firing == (if IsTimer(s, e) then e else -1)
            && |r.lists| == |s.lists| && forall i | 0 <= i < |s.lists| :: r.lists[i].timer == s.lists[i].timer
  {
    hide InvBut, TakeOff, Rearm;
    var e := s.active[p][0];
    FiringKeeps(s, e);
    var s0 := if IsTimer(s, e) then s.(firing := e) else s;
    TakeOffKeeps(s0, e);
    TimersStay(s0, TakeOff(s0, e), e);
    RearmKeeps(TakeOff(s0, e), e, now, mapOk);
  }

  method TakeOffNow(b: EventBase, e: nat)
    requires Known(b.View(), e)
    modifies b
    ensures b.View() == TakeOff(old(b.View()), e)
  {
    hide Del, RemoveActive;
    if b.evs[e].init && !b.evs[e].persist && !b.evs[e].finalizing {
      b.EventDel(e, false);
    } else {
      b.QueueRemoveActive(e);
    }
  }

  /** event_persist_closure */
  method RearmNow(b: EventBase, e: nat, now: Timeval, mapOk: bool)
    requires b.Valid() && Known(b.View(), e) && Normal(now) && (b.evs[e].closure == OnPersist ==> !IsTimer(b.View(), e))
    modifies b
    ensures b.Valid() && b.View() == Rearm(old(b.View()), e, now, mapOk)
  {
    hide InvBut, Add, NextRun, IsTimer, High, TimeOk, DueOk, Sane;
    var ev := b.evs[e];
    if ev.closure == OnPersist && ev.ioTimeout != ZERO {
      RearmAsked(b.View(), e, now);
      var _ := b.EventAdd(e, Some(NextRun(ev.at, ev.ioTimeout, TimedOut in ev.res, now, |b.lists|)), true, now, mapOk);
    }
  }

  /** The assertion of event_persist_closure never fails: the deadline and the
      interval of a persistent event are in the same slot. */
  lemma {:induction false} RearmAsked(s: Base, e: nat, now: Timeval)
    requires Inv(s) && Known(s, e) && Normal(now) && s.evs[e].closure == OnPersist
    ensures High(s.evs[e].at) == High(s.evs[e].ioTimeout)
    ensures EventSteps.TimeAsked(s, e, NextRun(s.evs[e].at, s.evs[e].ioTimeout, TimedOut in s.evs[e].res, now, |s.lists|), true, now)
  {
    hide InvBut, NextRun, High, TimeOk;
    var ev := s.evs[e];
    EventSteps.SaneIn(s, e, -1);
    NextRunOk(ev.at, ev.ioTimeout, TimedOut in ev.res, now, |s.lists|);
  }

  /** What happens around one callback: the clock, whether the event map takes a
      re-armed event, what its code and other threads do before and after a
      common-timeout callback takes the lock, and whether time has run out. */
  datatype Turn = Turn(now: Timeval, mapOk: bool, before: seq<Action>, after: seq<Action>, late: bool)

  method SlotOfTimer(b: EventBase, t: nat) returns (i: nat)
    requires IsTimer(b.View(), t)
    ensures i < |b.lists| && b.lists[i].timer == t
  {
    i :| 0 <= i < |b.lists| && b.lists[i].timer == t;
  }

  /** What happens from the start of a callback to its end, if it is not that of a
      common-timeout list. */
  ghost function Around(s: Base, turn: Turn, internal: bool): Base
    requires Inv(s)
  {
    PerformedInv(s, turn.before, internal);
    Performed(Performed(s, turn.before, internal), turn.after, internal)
  }

  lemma {:induction false} PerformedInv(s: Base, acts: seq<Action>, internal: bool)
    requires Inv(s)
    ensures Inv(Performed(s, acts, internal))
    decreases |acts|
  {
    hide InvBut, Allowed, Step;
    if acts != [] {
      if Allowed(s, acts[0], internal) {
        AllowedLegal(s, acts[0], internal);
        StepKeeps(s, acts[0]);
        PerformedInv(Step(s, acts[0]), acts[1..], internal);
      } else {
        PerformedInv(s, acts[1..], internal);
      }
    }
  }

  lemma {:induction false} AllowedLegal(s: Base, a: Action, internal: bool)
    requires Allowed(s, a, internal)
    ensures Legal(s, a)
  {
  }

  method RunCallback(b: EventBase, p: nat, turn: Turn) returns (e: nat)
    requires b.Valid() && p < |b.active| && b.active[p] != [] && Normal(turn.now) && b.firing == -1
    modifies b, b.journal
    ensures e == old(b.active[p])[0] && e < old(|b.evs|) && old(b.evs)[e].pri == p
    ensures b.Valid() && Behaved(old(b.View()), b.View(), old(b.evs)[e].internal) && b.firing == -1
    ensures b.journal.began == old(b.journal.began) + [Began(old(b.View()), p, e)]
    ensures var s, internal := old(b.View()), old(b.evs)[e].internal;
            && Known(s, e) && Inv(Start(s, p, turn.now, turn.mapOk))
            && (!IsTimer(s, e) ==> b.View() == Around(Start(s, p, turn.now, turn.mapOk), turn, internal))
  {
    hide InvBut, Calm, Behaved, Performed, Start, EventEffects.StartedAs, EventEffects.Placed;
    ghost var s := b.View();
    HeadKnown(s, p);
    var internal := b.evs[b.active[p][0]].internal;
    var isTimer, slot := false, 0;
    if IsTimer(b.View(), b.active[p][0]) {
      isTimer := true;
      slot := SlotOfTimer(b, b.active[p][0]);
    }
    e := StartCallback(b, p, turn.now, turn.mapOk);
    ghost var m := b.View();
    CalmBehaved(s, m, internal);
    PerformAll(b, turn.before, internal);
    BehavedThen(s, m, b.View(), internal);
    if isTimer {
      m := b.View();
      var _ := EventDispatch.CommonTimeoutCallback(b, slot, turn.now);
      CalmBehaved(m, b.View(), internal);
      BehavedThen(s, m, b.View(), internal);
    }
    m := b.View();
    PerformAll(b, turn.after, internal);
    BehavedThen(s, m, b.View(), internal);
  }

  /* ----- the loops ----- */

  /** It was the first of its queue, and nothing more important was active. */
  ghost predicate Foremost(began: Began) {
    && began.pri < |began.base.active| && began.base.active[began.pri] != []
    && began.e == began.base.active[began.pri][0]
    && ClearAbove(began.base, began.pri)
  }

  /** How many of these were not internal. */
  ghost function Outer(js: seq<Began>): nat {
    if js == [] then 0
    else var j := js[|js| - 1]; Outer(js[..|js| - 1]) + if Ev(j.base.evs, j.e).internal then 0 else 1
  }

  lemma {:induction false} OuterConcat(a: seq<Began>, b: seq<Began>)
    ensures Outer(a + b) == Outer(a) + Outer(b)
  {
    if b == [] {
      assert a + b == a;
    } else {
      var n := |b| - 1;
      assert (a + b)[..|a| + n] == a + b[..n];
      OuterConcat(a, b[..n]);
    }
  }

  /** The journal has gone on from `was` by n callbacks, c of them not internal, each
      foremost when it began. */
  ghost predicate Went(was: seq<Began>, now: seq<Began>, n: int, c: int) {
    && |now| == |was| + n && was <= now && c == Outer(now[|was|..])
    && forall k | |was| <= k < |now| :: Foremost(now[k])
  }

  lemma {:induction false} WentOne(was: seq<Began>, now: seq<Began>, n: nat, c: int, began: Began)
    requires Went(was, now, n, c) && Foremost(began)
    ensures Went(was, now + [began], n + 1, c + if Ev(began.base.evs, began.e).internal then 0 else 1)
  {
    hide Foremost;
    var more := now[|was|..] + [began];
    assert (now + [began])[|was|..] == more && more[..|more| - 1] == now[|was|..];
  }

  lemma {:induction false} WentThen(was: seq<Began>, mid: seq<Began>, now: seq<Began>, n: nat, m: nat, c: int, d: int)
    requires Went(was, mid, n, c) && Went(mid, now, m, d)
    ensures Went(was, now, n + m, c + d)
  {
    hide Foremost;
    OuterConcat(mid[|was|..], now[|mid|..]);
    assert now[|was|..] == mid[|was|..] + now[|mid|..];
    forall k | |was| <= k < |now| ensures Foremost(now[k]) {
      if k < |mid| {
        assert now[k] == mid[k];
      }
    }
  }

  lemma {:induction false} WentNone(was: seq<Began>)
    ensures Went(was, was, 0, 0)
  {
  }

  /** Between callbacks of priority p. */
  ghost predicate Settled(s: Base, p: nat) {
    && Inv(s) && InternalFirst(s.evs) && s.firing == -1 && s.running == p && p < |s.active|
    && !s.cont && ClearAbove(s, p)
  }

  lemma {:induction false} AfterCallback(s: Base, r: Base, p: nat, e: nat)
    requires e < |s.evs| && s.evs[e].pri == p
    requires Settled(s, p) && Behaved(s, r, s.evs[e].internal) && Inv(r) && r.firing == -1
    ensures r.running == p && |r.active| == |s.active| && p < |r.active| && InternalFirst(r.evs)
    ensures !r.cont ==> Settled(r, p)
    ensures s.evs[e].internal ==> p == 0 && !r.cont
  {
    hide InvBut;
  }

  /** Whether event_process_active_single_queue returns after a callback, with c
      of those it has run not internal. When it returns 0, event_process_active
      goes on to the next queue. */
  predicate Stops(c: int, maxToProcess: int, late: bool, cont: bool) {
    c >= maxToProcess || (c > 0 && late) || cont
  }

  /** event_process_active_single_queue, cut short when the turns run out. */
  method ProcessQueue(b: EventBase, p: nat, maxToProcess: int, timed: bool, turns: seq<Turn>, from: nat)
    returns (c: int, next: nat, cut: bool, ghost ran: nat)
    requires Settled(b.View(), p) && (maxToProcess > 0 || p > 0) && from <= |turns|
    requires forall k | 0 <= k < |turns| :: Normal(turns[k].now)
    modifies b, b.journal
    ensures b.Valid() && b.firing == -1 && InternalFirst(b.evs) && |b.active| == old(|b.active|)
    ensures from <= next <= |turns| && Went(old(b.journal.began), b.journal.began, next - from, ran)
    ensures c == (if next > from && b.brk then -1 else ran) && ran <= next - from && (cut ==> next == |turns|)
    ensures c == 0 && !cut ==> Settled(b.View(), p) && b.active[p] == []
    ensures c > 0 && !cut ==> b.active[p] == [] || Stops(c, maxToProcess, timed && turns[next - 1].late, b.cont)
    ensures cut ==> b.active[p] != []
  {
    hide InvBut, Behaved, Settled, InternalFirst, ClearAbove, Foremost, Went;
    SettledParts(b.View(), p);
    WentNone(b.journal.began);
    c, next, cut, ran := 0, from, false, 0;
    while b.active[p] != []
      invariant Settled(b.View(), p) && p < |b.active| && |b.active| == old(|b.active|) && from <= next <= |turns|
      invariant 0 <= c == ran <= next - from && !cut && (next > from ==> !b.brk)
      invariant Went(old(b.journal.began), b.journal.began, next - from, ran)
      decreases |turns| - next
    {
      SettledParts(b.View(), p);
      if next == |turns| {
        cut := true;
        return;
      }
      ghost var s := b.View();
      BeginsForemost(s, p);
      WentOne(old(b.journal.began), b.journal.began, next - from, ran, Began(s, p, s.active[p][0]));
      var internal := b.evs[b.active[p][0]].internal;
      var e := RunCallback(b, p, turns[next]);
      AfterCallback(s, b.View(), p, e);
      next := next + 1;
      if !internal {
        c := c + 1;
      }
      ran := c;
      if b.brk {
        c := -1;
        return;
      }
      if Stops(c, maxToProcess, timed && turns[next - 1].late, b.cont) {
        return;
      }
    }
    SettledParts(b.View(), p);
  }

  lemma {:induction false} SettledParts(s: Base, p: nat)
    requires Settled(s, p)
    ensures Inv(s) && s.firing == -1 && p < |s.active| && InternalFirst(s.evs) && !s.cont && ClearAbove(s, p)
    ensures s.active[p] != [] ==> s.active[p][0] < |s.evs| && s.evs[s.active[p][0]].pri == p
  {
    hide InvBut;
    if s.active[p] != [] {
      HeadKnown(s, p);
    }
  }

  lemma {:induction false} BeginsForemost(s: Base, p: nat)
    requires Settled(s, p) && s.active[p] != []
    ensures Foremost(Began(s, p, s.active[p][0]))
  {
  }

  lemma {:induction false} SettledNext(s: Base, p: nat)
    requires Inv(s) && InternalFirst(s.evs) && s.firing == -1 && !s.cont && p < |s.active| && ClearAbove(s, p)
    ensures Settled(s.(running := p), p)
    ensures s.active[p] == [] ==> ClearAbove(s, p + 1)
  {
    hide InvBut, InternalFirst;
    EventSteps.LoopVarsKeep(s, p, s.cont, s.brk, -1);
  }

  /** How many callbacks of a priority may be run. */
  function MaxFor(maxCb: int, limitAfterPrio: int, p: int): int {
    if p < limitAfterPrio then Words.INT_MAX else maxCb
  }

  /** event_process_active: every callback begins with nothing more important
      active, whatever callbacks and other threads politely do meanwhile. The
      loop has just reset event_continue, and a limit of no callbacks at all does
      not hold for priority 0. */
  method ProcessActive(b: EventBase, maxCb: int, limitAfterPrio: int, timed: bool, turns: seq<Turn>)
    returns (c: int, used: nat, cut: bool, ghost ran: nat, ghost last: nat)
    requires b.Valid() && InternalFirst(b.evs) && b.firing == -1 && !b.cont && (maxCb > 0 || limitAfterPrio > 0)
    requires forall k | 0 <= k < |turns| :: Normal(turns[k].now)
    modifies b, b.journal
    ensures b.Valid() && InternalFirst(b.evs) && b.firing == -1 && b.running == -1
    ensures Went(old(b.journal.began), b.journal.began, used, ran)
    ensures used <= |turns| && (c == ran || (c == -1 && b.brk && used > 0)) && ran <= used && (cut ==> used == |turns|)
    ensures c == 0 && !cut ==> ClearAbove(b.View(), |b.active|)
    ensures c > 0 && !cut ==>
              && last < |b.active| && used > 0
              && (b.active[last] == []
                  || Stops(c, MaxFor(maxCb, limitAfterPrio, last), timed && last >= limitAfterPrio && turns[used - 1].late, b.cont))
  {
    hide InvBut, Settled, InternalFirst, ClearAbove, Foremost, Went;
    c, used, cut, ran, last := 0, 0, false, 0, 0;
    var i := 0;
    assert ClearAbove(b.View(), 0) by { ClearNone(b.View()); }
    WentNone(b.journal.began);
    while i < |b.active|
      invariant 0 <= i <= |b.active| && used <= |turns| && c == 0 && ran == 0 && !cut && b.Valid() && InternalFirst(b.evs) && b.firing == -1
      invariant !b.cont && ClearAbove(b.View(), i)
      invariant Went(old(b.journal.began), b.journal.began, used, ran)
      decreases |b.active| - i
    {
      SettledNext(b.View(), i);
      if b.active[i] != [] {
        b.running := i;
        ghost var mid, before := b.journal.began, used;
        last := i;
        c, used, cut, ran := ProcessQueue(b, i, MaxFor(maxCb, limitAfterPrio, i), timed && i >= limitAfterPrio, turns, used);
        WentThen(old(b.journal.began), mid, b.journal.began, before, used - before, 0, ran);
        if c != 0 || cut {
          break;
        }
        SettledParts(b.View(), i);
        SettledNext(b.View(), i);
      }
      i := i + 1;
    }
    EventSteps.LoopVarsKeep(b.View(), -1, b.cont, b.brk, -1);
    ClearAnyway(b.View(), |b.active|);
    b.running := -1;
  }

  lemma {:induction false} ClearAnyway(s: Base, p: int)
    ensures ClearAbove(s, p) ==> ClearAbove(s.(running := -1), p)
  {
  }

  lemma {:induction false} ClearNone(s: Base)
    ensures ClearAbove(s, 0)
  {
  }
}
