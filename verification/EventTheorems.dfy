/** What holds after any run of an event base. */
module EventTheorems {
  import Queues
  import opened Timevals
  import opened EventModel
  import EventLemmas
  import EventLists
  import opened EventOps
  import Options
  import EventKeeps
  import opened EventSteps
  import opened EventRuns
  import opened EventMachine

  /** One locked section. The first group is for callers, in callbacks or in
      other threads; the second is the loop's own. */
  datatype Action =
    | DoNew(ev: Event)
    | DoAdd(e: nat, tv: Options.Option<Timeval>, now: Timeval, mapOk: bool)
    | DoDel(e: nat, even: bool)
    | DoActive(e: nat, res: set<Reason>)
    | DoActiveLater(e: nat, res: set<Reason>)
    | DoCallbackActivate(e: nat)
    | DoCancel(e: nat, even: bool)
    | DoFinalize(e: nat)
    | DoCallbackFinalize(e: nat)
    | DoPriority(e: nat, pri: int)
    | DoInitCommon(d: Timeval)
    | DoLoopVars(running: int, cont: bool, brk: bool)
    | DoPromote
    | DoExpire(e: nat)
    | DoStart(p: nat, startNow: Timeval, startOk: bool)
    | DoFinish(i: nat)

  /** What the base asks of its callers, and when the loop takes its steps. */
  predicate Legal(s: Base, a: Action) {
    match a
    case DoNew(ev) => Unused(ev) && ev.pri < |s.active|
    case DoAdd(e, tv, now, _) => Usable(s, e) && (tv.Some? ==> Normal(now) && TimeOk(tv.value, |s.lists|))
    case DoDel(e, _) => Usable(s, e)
    case DoActive(e, _) => Usable(s, e)
    case DoActiveLater(e, _) => Usable(s, e)
    case DoCallbackActivate(e) => Usable(s, e)
    case DoCancel(e, _) => Usable(s, e)
    case DoFinalize(e) => Usable(s, e)
    case DoCallbackFinalize(e) => Usable(s, e) && (!s.evs[e].init ==> !s.evs[e].timeout && !s.evs[e].inserted)
    case DoPriority(e, _) => Usable(s, e)
    case DoInitCommon(_) => true
    case DoLoopVars(_, _, _) => true
    case DoPromote => s.later != []
    case DoExpire(e) => Known(s, e) && s.evs[e].timeout
    case DoStart(p, now, _) => p < |s.active| && s.active[p] != [] && Normal(now) && s.firing == -1
    case DoFinish(i) => i < |s.lists| && s.firing == s.lists[i].timer
  }

  ghost function Step(s: Base, a: Action): Base
    requires Inv(s) && Legal(s, a)
  {
    match a
    case DoNew(ev) => New(s, ev)
    case DoAdd(e, tv, now, mapOk) => Add(s, e, tv, false, now, mapOk).base
    case DoDel(e, even) => Del(s, e, even)
    case DoActive(e, res) => Active(s, e, res)
    case DoActiveLater(e, res) => ActiveLater(s, e, res)
    case DoCallbackActivate(e) => CallbackActivate(s, e).base
    case DoCancel(e, even) => Cancel(s, e, even)
    case DoFinalize(e) => Finalize(s, e)
    case DoCallbackFinalize(e) => CallbackFinalize(s, e)
    case DoPriority(e, pri) => SetPriority(s, e, pri).base
    case DoInitCommon(d) => InitCommon(s, d).base
    case DoLoopVars(running, cont, brk) => s.(running := running, cont := cont, brk := brk)
    case DoPromote => PromoteKeeps(s); Promote(s)
    case DoExpire(e) => Expire(s, e)
    case DoStart(p, now, mapOk) => StartKeeps(s, p, now, mapOk); Start(s, p, now, mapOk)
    case DoFinish(i) => FinishKeeps(s, i); Finish(s, i)
  }

  lemma {:induction false} CallerStepKeeps(s: Base, a: Action)
    requires Inv(s) && Legal(s, a)
    requires a.DoAdd? || a.DoDel? || a.DoActive? || a.DoActiveLater? || a.DoCallbackActivate? || a.DoCancel?
    ensures Inv(Step(s, a))
  {
    hide InvBut, IsTimer, EventKeeps.SameTimers, Add, Del, Active, ActiveLater, CallbackActivate, Cancel, TimeOk, DueOk, High;
    match a
    case DoAdd(e, tv, now, mapOk) => AddKeeps(s, e, tv, false, now, mapOk);
    case DoDel(e, even) => DelKeeps(s, e, even, -1);
    case DoActive(e, res) => ActiveKeeps(s, e, res, -1);
    case DoActiveLater(e, res) => ActiveLaterKeeps(s, e, res, -1);
    case DoCallbackActivate(e) => CallbackActivateKeeps(s, e, -1);
    case DoCancel(e, even) => CancelKeeps(s, e, even);
  }

  lemma {:induction false} StepKeeps(s: Base, a: Action)
    requires Inv(s) && Legal(s, a)
    ensures Inv(Step(s, a))
  {
    hide InvBut, IsTimer, Finalize, CallbackFinalize, InitCommon, New, Promote, Expire, Start, Finish, Usable, SetPriority, Unused;
    match a
    case DoNew(ev) => NewKeeps(s, ev);
    case DoFinalize(e) => FinalizeKeeps(s, e);
    case DoCallbackFinalize(e) => CallbackFinalizeKeeps(s, e);
    case DoPriority(e, pri) => PriorityKeeps(s, e, pri);
    case DoInitCommon(d) => InitCommonKeeps(s, d);
    case DoLoopVars(running, cont, brk) => LoopVarsKeep(s, running, cont, brk, -1);
    case DoPromote => PromoteKeeps(s);
    case DoExpire(e) => ExpireKeeps(s, e);
    case DoStart(p, now, mapOk) => StartKeeps(s, p, now, mapOk);
    case DoFinish(i) => FinishKeeps(s, i);
    case _ => CallerStepKeeps(s, a);
  }

  lemma {:induction false} PriorityKeeps(s: Base, e: nat, pri: int)
    requires Inv(s) && Usable(s, e)
    ensures Inv(SetPriority(s, e, pri).base)
  {
    hide InvBut, IsTimer;
    if !s.evs[e].active && 0 <= pri < |s.active| {
      PriorityExact(s, e, pri);
    }
  }

  /* ----- runs ----- */

  ghost predicate LegalRun(s: Base, acts: seq<Action>)
    requires Inv(s)
    decreases |acts|
  {
    acts == [] || (Legal(s, acts[0]) && (StepKeeps(s, acts[0]); LegalRun(Step(s, acts[0]), acts[1..])))
  }

  ghost function Run(s: Base, acts: seq<Action>): Base
    requires Inv(s) && LegalRun(s, acts)
    decreases |acts|
  {
    if acts == [] then s else StepKeeps(s, acts[0]); Run(Step(s, acts[0]), acts[1..])
  }

  /** Flags, queues, counters and common-timeout lists agree after every run. */
  lemma {:induction false} RunKeepsInv(s: Base, acts: seq<Action>)
    requires Inv(s) && LegalRun(s, acts)
    ensures Inv(Run(s, acts))
    decreases |acts|
  {
    hide InvBut, Legal, Step;
    if acts != [] {
      StepKeeps(s, acts[0]);
      RunKeepsInv(Step(s, acts[0]), acts[1..]);
    }
  }

  /** From a new base on, a finalizing event is on neither the map nor a timer
      structure, and the counters are what they count. */
  lemma {:induction false} RunFromEmpty(nQueues: nat, acts: seq<Action>, e: nat)
    requires nQueues > 0 && Inv(Empty(nQueues)) && LegalRun(Empty(nQueues), acts)
    ensures var s := Run(Empty(nQueues), acts);
            && s.nActive == Queues.Total(s.active) + |s.later|
            && s.count == Queues.Sum(Weights(s.evs))
            && (e < |s.evs| && s.evs[e].finalizing ==> e !in s.heap && e !in s.fds && forall i | 0 <= i < |s.lists| :: e !in s.lists[i].events)
            && (e < |s.evs| ==> forall p | 0 <= p < |s.active| :: Queues.Count(s.active[p], e) == Queues.Flag(s.evs[e].active && s.evs[e].pri == p))
  {
    hide LegalRun, Run, IsCommon, High, DueOk, TimeOk, Sorted, Covered, TimerOk;
    RunKeepsInv(Empty(nQueues), acts);
    var s := Run(Empty(nQueues), acts);
    assert EventAt(s, e);
  }

  /** A run of two actions. */
  lemma {:induction false} RunTwo(s: Base, a: Action, b: Action)
    requires Inv(s) && Legal(s, a) && Inv(Step(s, a)) && Legal(Step(s, a), b)
    ensures LegalRun(s, [a, b]) && Run(s, [a, b]) == Step(Step(s, a), b)
  {
    hide InvBut, Legal, Step;
    StepKeeps(Step(s, a), b);
    assert [a, b][1..] == [b] && [b][1..] == [];
    assert LegalRun(Step(s, a), [b]) && Run(Step(s, a), [b]) == Run(Step(Step(s, a), b), []);
  }

  /** event_deferred_cb_set_priority_ on a callback just made and activated, from
      a new base on: whatever the callback and the new priority, the queues no
      longer agree with it. */
  lemma {:induction false} PriorityBreaks(nQueues: nat, ev: Event, pri: nat)
    requires Unused(ev) && ev.pri < nQueues && pri < nQueues && pri != ev.pri
    ensures var acts := [DoNew(ev), DoCallbackActivate(0)];
            && Inv(Empty(nQueues)) && LegalRun(Empty(nQueues), acts)
            && Known(Run(Empty(nQueues), acts), 0) && |Run(Empty(nQueues), acts).active| == nQueues
            && !Inv(WithPriority(Run(Empty(nQueues), acts), 0, pri))
  {
    hide InvBut, LegalRun, Run, Known, IsTimer, CallbackActivate;
    EmptyOk(nQueues);
    var s0 := Empty(nQueues);
    var s1 := New(s0, ev);
    NewKeeps(s0, ev);
    ActivatedFrom(s1, ev);
    RunTwo(s0, DoNew(ev), DoCallbackActivate(0));
    PriorityExact(CallbackActivate(s1, 0).base, 0, pri);
  }

  lemma {:induction false} ActivatedFrom(s: Base, ev: Event)
    requires Inv(s) && Usable(s, 0) && s.evs[0] == ev && !ev.finalizing
    ensures var r := CallbackActivate(s, 0).base;
            && Inv(r) && Usable(r, 0) && |r.active| == |s.active| && r.evs[0].active && r.evs[0].pri == ev.pri
  {
    hide InvBut, CallbackActivate, IsTimer;
    UsableAllowed(s, 0);
    CallbackActivateKeeps(s, 0, -1);
    StillUsable(s, CallbackActivate(s, 0).base, 0);
  }

  /* ----- the loop never sleeps too long ----- */

  lemma {:induction false} TotalZero(qs: seq<seq<nat>>, p: nat)
    requires Queues.Total(qs) == 0 && p < |qs|
    ensures qs[p] == []
  {
    if p > 0 {
      TotalZero(qs[1..], p - 1);
    }
  }

  lemma {:induction false} NothingActive(s: Base, e: nat)
    requires Inv(s) && s.nActive == 0 && e < |s.evs|
    ensures !s.evs[e].active
  {
    hide ListsOk, ListAt, HeapAt, DueOk, TimeOk, High;
    assert EventAt(s, e);
    if s.evs[e].active {
      TotalZero(s.active, s.evs[e].pri);
    }
  }

  /** timeout_next looks only at the heap. When nothing is active and no
      common-timeout callback is under way, some heap event is due no later than
      any pending timeout, wherever that timeout is kept. */
  lemma {:induction false} HeapLeads(s: Base, e: nat) returns (h: nat)
    requires Inv(s) && s.nActive == 0 && s.firing == -1 && e < |s.evs| && s.evs[e].timeout
    ensures h in s.heap && h < |s.evs| && LE(s.evs[h].at, Real(s.evs[e].at))
  {
    hide InvBut, IsCommon, Index, DueOk, Real, Sane;
    InHeap(s, e);
    if IsCommon(s.evs[e].at, |s.lists|) {
      h := ListLeads(s, e);
    } else {
      h := e;
      SaneIn(s, e, -1);
      PlainReal(s, e);
    }
  }

  lemma {:induction false} PlainReal(s: Base, e: nat)
    requires Inv(s) && e < |s.evs| && !IsCommon(s.evs[e].at, |s.lists|)
    ensures LE(s.evs[e].at, Real(s.evs[e].at))
  {
    hide InvBut;
    SaneIn(s, e, -1);
    CommonWhenCoded(s.evs[e].at, |s.lists|);
  }

  lemma {:induction false} InHeap(s: Base, e: nat)
    requires Inv(s) && e < |s.evs| && s.evs[e].timeout
    ensures e in s.heap <==> !IsCommon(s.evs[e].at, |s.lists|)
  {
    hide ListsOk, CountsOk, ListAt, ActiveAt, DueOk, TimeOk, High, IsCommon;
    assert EventAt(s, e);
  }

  lemma {:induction false} ListLeads(s: Base, e: nat) returns (h: nat)
    requires Inv(s) && s.nActive == 0 && s.firing == -1 && e < |s.evs| && s.evs[e].timeout
    requires IsCommon(s.evs[e].at, |s.lists|)
    ensures h in s.heap && h < |s.evs| && LE(s.evs[h].at, Real(s.evs[e].at))
  {
    hide FlagsOk, CountsOk, ListsOk, IsCommon, Real, Index, LE, High, DueOk, TimeOk;
    CommonIndex(s.evs[e].at, |s.lists|);
    var i := Index(s.evs[e].at);
    EventKeeps.SaneOf(s, e);
    EventLemmas.InList(s, e);
    var l := s.lists[i];
    h := l.timer;
    assert IsTimer(s, h);
    EventKeeps.TimerTime(s, h, -1);
    NothingActive(s, h);
    ListHead(s, i, e);
    InHeap(s, h);
    var first := s.evs[l.events[0]].at;
    EventLists.LaterStill(s.evs[h].at, first, s.evs[e].at);
  }

  lemma {:induction false} ListHead(s: Base, i: nat, e: nat)
    requires Inv(s) && i < |s.lists| && e in s.lists[i].events
    ensures var head := s.lists[i].events[0];
            && head < |s.evs| && e < |s.evs| && s.lists[i].timer < |s.evs|
            && LE(Real(s.evs[head].at), Real(s.evs[e].at))
            && (s.firing == -1 && !s.evs[s.lists[i].timer].active ==>
                  s.evs[s.lists[i].timer].timeout && LE(s.evs[s.lists[i].timer].at, Real(s.evs[head].at)))
  {
    hide FlagsOk, CountsOk, IsCommon, Real, Index, LE, High, TimerOk, Coded;
    assert ListOk(s, i, -1);
    var q := s.lists[i].events;
    EventLists.SlotMember(s, i, e);
    EventLists.SlotMember(s, i, q[0]);
    SameSlotOrder(s.evs[q[0]].at, s.evs[e].at);
    var k :| 0 <= k < |q| && q[k] == e;
    if k == 0 {
      SameLE(s.evs[e].at);
    }
  }
}
