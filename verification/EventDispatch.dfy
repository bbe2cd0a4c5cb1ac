/** The loops of event.c: promoting later events, expiring timeouts, firing
    common-timeout lists. */
module EventDispatch {
  import Queues
  import opened Timevals
  import opened EventModel
  import EventLists
  import EventOps
  import EventKeeps
  import EventSteps
  import EventRuns
  import EventMachine
  import opened EventPriority
  import opened EventLoop
  import MinHeap

  /* ----- event_queue_make_later_events_active ----- */

  /** Appends every later event to the queue of its priority, in order. */
  function Spread(active: seq<seq<nat>>, evs: seq<Event>, later: seq<nat>): (r: seq<seq<nat>>)
    ensures |r| == |active|
    decreases |later|
  {
    if later == [] then active
    else
      var p := Ev(evs, later[0]).pri;
      Spread(if p < |active| then active[p := active[p] + [later[0]]] else active, evs, later[1..])
  }

  /** Of the events that were later, those no longer on the queue are active. */
  ghost predicate Promoted(evs0: seq<Event>, evs: seq<Event>, later: seq<nat>) {
    && |evs| == |evs0|
    && forall x | 0 <= x < |evs0| ::
         evs[x] == if evs0[x].later && x !in later then evs0[x].(later := false, active := true) else evs0[x]
  }

  lemma {:induction false} PromotedMore(evs0: seq<Event>, evs: seq<Event>, later: seq<nat>)
    requires Promoted(evs0, evs, later) && later != [] && later[0] < |evs| && evs[later[0]].later && later[0] !in later[1..]
    ensures Promoted(evs0, evs[later[0] := evs[later[0]].(later := false, active := true)], later[1..])
  {
    var e := later[0];
    forall x: nat | x != e ensures x in later[1..] <==> x in later {
      assert later == [e] + later[1..];
    }
  }

  lemma {:induction false} PromotedAll(evs0: seq<Event>, evs: seq<Event>)
    requires Promoted(evs0, evs, [])
    ensures |evs| == |evs0|
    ensures forall x | 0 <= x < |evs| :: evs[x] == if evs0[x].later then evs0[x].(later := false, active := true) else evs0[x]
  {
  }

  lemma {:induction false} PromotedNone(evs0: seq<Event>, later: seq<nat>)
    requires forall x | 0 <= x < |evs0| :: evs0[x].later <==> x in later
    ensures Promoted(evs0, evs0, later)
  {
  }

  method MakeLaterEventsActive(b: EventBase)
    requires b.Valid()
    modifies b
    ensures b.Valid() && b.later == [] && |b.evs| == old(|b.evs|)
    ensures forall x | 0 <= x < |b.evs| ::
              b.evs[x] == if old(b.evs[x].later) then old(b.evs[x]).(later := false, active := true) else old(b.evs[x])
    ensures b.nActive == old(b.nActive) && b.count == old(b.count)
    ensures b.heap == old(b.heap) && b.lists == old(b.lists) && b.fds == old(b.fds)
    ensures b.active == Spread(old(b.active), old(b.evs), old(b.later))
  {
    hide InvBut, Promoted, Spread;
    ghost var evs0 := b.evs;
    LaterMembers(b.View());
    PromotedNone(evs0, b.later);
    while b.later != []
      invariant b.Valid() && Promoted(evs0, b.evs, b.later)
      invariant b.nActive == old(b.nActive) && b.count == old(b.count)
      invariant b.heap == old(b.heap) && b.lists == old(b.lists) && b.fds == old(b.fds)
      invariant Spread(b.active, evs0, b.later) == Spread(old(b.active), evs0, old(b.later))
      decreases |b.later|
    {
      EventRuns.PromoteKeeps(b.View());
      EventRuns.LaterKnown(b.View(), b.later[0]);
      OnceLater(b.View());
      PromotedMore(evs0, b.evs, b.later);
      PromotedPri(evs0, b.evs, b.later, b.later[0]);
      SpreadStep(b.active, evs0, b.later);
      PromoteOne(b);
    }
    PromotedAll(evs0, b.evs);
    SpreadDone(b.active, evs0);
  }

  lemma {:induction false} PromotedPri(evs0: seq<Event>, evs: seq<Event>, later: seq<nat>, e: nat)
    requires Promoted(evs0, evs, later) && e < |evs|
    ensures |evs| == |evs0| && evs[e].pri == Ev(evs0, e).pri
  {
  }

  lemma {:induction false} SpreadStep(active: seq<seq<nat>>, evs: seq<Event>, later: seq<nat>)
    requires later != [] && Ev(evs, later[0]).pri < |active|
    ensures var p := Ev(evs, later[0]).pri;
            Spread(active, evs, later) == Spread(active[p := active[p] + [later[0]]], evs, later[1..])
  {
  }

  lemma {:induction false} SpreadDone(active: seq<seq<nat>>, evs: seq<Event>)
    ensures Spread(active, evs, []) == active
  {
  }

  /** One round of the loop. */
  method PromoteOne(b: EventBase)
    requires b.later != [] && Known(b.View(), b.later[0])
    modifies b
    ensures b.View() == EventOps.Promote(old(b.View()))
  {
    var e := b.later[0];
    b.later := b.later[1..];
    var pri := b.evs[e].pri;
    b.evs := b.evs[e := b.evs[e].(later := false, active := true)];
    b.active := b.active[pri := b.active[pri] + [e]];
  }

  lemma {:induction false} LaterMembers(s: Base)
    requires Inv(s)
    ensures forall x | 0 <= x < |s.evs| :: s.evs[x].later <==> x in s.later
  {
    hide ListAt, ActiveAt, CountsOk, ListsOk, HeapAt, DueOk, TimeOk, High;
    forall x | 0 <= x < |s.evs| ensures s.evs[x].later <==> x in s.later {
      assert EventAt(s, x);
    }
  }

  lemma {:induction false} OnceLater(s: Base)
    requires Inv(s) && s.later != []
    ensures s.later[0] !in s.later[1..]
  {
    hide ListAt, ActiveAt, CountsOk, ListsOk, HeapAt, DueOk, TimeOk, High;
    assert EventAt(s, s.later[0]);
  }

  /* ----- timeout_process ----- */

  /** The deadlines, as the heap compares them. */
  function DueIn(evs: seq<Event>): MinHeap.Due {
    (e: nat) => Ev(evs, e).at
  }

  /** The array heap is in order and holds exactly the base's heap events. */
  ghost predicate Backs(t: MinHeap.TimerHeap, heap: set<nat>, evs: seq<Event>)
    reads t
  {
    t.Valid(DueIn(evs)) && forall x: nat :: x in t.p <==> x in heap
  }

  /** Only deadlines matter to it. */
  lemma {:induction false} BacksStill(t: MinHeap.TimerHeap, heap: set<nat>, evs: seq<Event>, evs': seq<Event>)
    requires Backs(t, heap, evs) && forall x: nat :: Ev(evs, x).at == Ev(evs', x).at
    ensures Backs(t, heap, evs')
  {
    hide LE;
    forall i: nat ensures MinHeap.EdgeOk(t.p, DueIn(evs'), i) {
      assert MinHeap.EdgeOk(t.p, DueIn(evs), i);
    }
  }

  /** min_heap_top_: the event with the earliest deadline. */
  method HeapTop(b: EventBase, t: MinHeap.TimerHeap) returns (h: nat)
    requires Backs(t, b.heap, b.evs) && t.p != [] && forall x | x in b.heap :: x < |b.evs|
    ensures h in b.heap && forall x | x in b.heap :: LE(b.evs[h].at, b.evs[x].at)
  {
    hide LE;
    h := t.Top(DueIn(b.evs));
    forall x | x in b.heap ensures LE(b.evs[h].at, b.evs[x].at) {
      assert x in t.p;
    }
  }

  lemma {:induction false} HeapKnown(s: Base)
    requires Inv(s)
    ensures forall x | x in s.heap :: x < |s.evs| && Known(s, x) && s.evs[x].timeout && !IsCommon(s.evs[x].at, |s.lists|)
  {
    hide ListAt, ActiveAt, CountsOk, ListsOk, DueOk, TimeOk, High, IsCommon;
    forall x | x in s.heap ensures x < |s.evs| && Known(s, x) && s.evs[x].timeout && !IsCommon(s.evs[x].at, |s.lists|) {
      assert EventAt(s, x);
    }
  }

  function Fired(ev: Event): Event {
    ev.(timeout := false, active := true, later := false, inserted := false, res := {TimedOut})
  }

  /** One round: the top event leaves every queue and becomes active. */
  method ExpireTop(b: EventBase, e: nat)
    requires b.Valid() && e in b.heap
    modifies b
    ensures b.Valid() && b.heap == old(b.heap) - {e} && b.lists == old(b.lists)
    ensures old(|b.evs|) == |b.evs| && e < |b.evs| && b.evs == old(b.evs)[e := Fired(old(b.evs)[e])]
  {
    hide InvBut, LE, IsCommon, EventOps.Del, EventOps.Active, Known;
    ghost var s := b.View();
    HeapKnown(s);
    EventRuns.ExpireKeeps(s, e);
    EventRuns.ExpireFrame(s, e);
    b.EventDel(e, false);
    b.EventActive(e, {TimedOut});
  }

  /** Of the events that were in the heap, those not in it now were due and have been fired. */
  ghost predicate Progress(was: set<nat>, evs0: seq<Event>, heap: set<nat>, evs: seq<Event>, now: Timeval) {
    && heap <= was && |evs| == |evs0|
    && (forall x | x in was :: x < |evs0|)
    && (forall x | x in was && x !in heap :: LE(evs0[x].at, now))
    && forall x | 0 <= x < |evs0| :: evs[x] == if x in was && x !in heap then Fired(evs0[x]) else evs0[x]
  }

  lemma {:induction false} ProgressMore(was: set<nat>, evs0: seq<Event>, heap: set<nat>, evs: seq<Event>, now: Timeval, e: nat)
    requires Progress(was, evs0, heap, evs, now) && e in heap && LE(evs[e].at, now)
    ensures Progress(was, evs0, heap - {e}, evs[e := Fired(evs[e])], now)
  {
    hide LE, Fired;
  }

  /** One round of timeout_process, with the array heap kept in step. */
  method ExpireFrom(b: EventBase, t: MinHeap.TimerHeap, e: nat)
    requires b.Valid() && e in b.heap && Backs(t, b.heap, b.evs)
    modifies b, t
    ensures b.Valid() && b.heap == old(b.heap) - {e} && b.lists == old(b.lists) && Backs(t, b.heap, b.evs)
    ensures old(|b.evs|) == |b.evs| && e < |b.evs| && b.evs == old(b.evs)[e := Fired(old(b.evs)[e])]
  {
    hide InvBut, LE;
    var code := t.Erase(e, DueIn(b.evs));
    ghost var evs := b.evs;
    ExpireTop(b, e);
    BacksStill(t, b.heap, evs, b.evs);
  }

  /** timeout_process, over the array heap: activates exactly the heap events whose
      deadline has come; what is left in the heap is later than now. */
  method TimeoutProcess(b: EventBase, t: MinHeap.TimerHeap, now: Timeval)
    requires b.Valid() && Backs(t, b.heap, b.evs)
    modifies b, t
    ensures b.Valid() && |b.evs| == old(|b.evs|) && b.lists == old(b.lists) && Backs(t, b.heap, b.evs)
    ensures b.heap == set x | x in old(b.heap) && !(x < old(|b.evs|) && LE(old(b.evs)[x].at, now))
    ensures forall x | 0 <= x < |b.evs| ::
              b.evs[x] == if x in old(b.heap) && LE(old(b.evs)[x].at, now) then Fired(old(b.evs)[x]) else old(b.evs)[x]
  {
    hide InvBut, LE, IsCommon, Progress, Known, Fired, Backs;
    ghost var was, evs0 := b.heap, b.evs;
    HeapKnown(b.View());
    ProgressNone(was, evs0, now);
    HeapSame(t, b.heap, b.evs);
    while t.p != []
      invariant b.Valid() && b.lists == old(b.lists) && Progress(was, evs0, b.heap, b.evs, now)
      invariant Backs(t, b.heap, b.evs) && (t.p == [] <==> b.heap == {})
      decreases |b.heap|
    {
      HeapKnown(b.View());
      var e := HeapTop(b, t);
      if !LE(b.evs[e].at, now) {
        NoneDue(b.heap, b.evs, e, now);
        break;
      }
      ProgressMore(was, evs0, b.heap, b.evs, now, e);
      ExpireFrom(b, t, e);
      HeapSame(t, b.heap, b.evs);
    }
    ProgressDone(was, evs0, b.heap, b.evs, now);
  }

  lemma {:induction false} HeapSame(t: MinHeap.TimerHeap, heap: set<nat>, evs: seq<Event>)
    requires Backs(t, heap, evs)
    ensures t.p == [] <==> heap == {}
  {
    if t.p != [] {
      assert t.p[0] in heap;
    }
  }

  lemma {:induction false} ProgressNone(was: set<nat>, evs0: seq<Event>, now: Timeval)
    requires forall x | x in was :: x < |evs0|
    ensures Progress(was, evs0, was, evs0, now)
  {
  }

  lemma {:induction false} ProgressDone(was: set<nat>, evs0: seq<Event>, heap: set<nat>, evs: seq<Event>, now: Timeval)
    requires Progress(was, evs0, heap, evs, now) && forall x | x in heap :: x < |evs| && !LE(evs[x].at, now)
    ensures |evs| == |evs0| && heap == set x | x in was && !(x < |evs0| && LE(evs0[x].at, now))
    ensures forall x | 0 <= x < |evs| :: evs[x] == if x in was && LE(evs0[x].at, now) then Fired(evs0[x]) else evs0[x]
  {
    hide LE, Fired;
  }

  lemma {:induction false} NoneDue(heap: set<nat>, evs: seq<Event>, top: nat, now: Timeval)
    requires top in heap && (forall x | x in heap :: x < |evs|) && forall x | x in heap :: LE(evs[top].at, evs[x].at)
    requires !LE(evs[top].at, now)
    ensures forall x | x in heap :: !LE(evs[x].at, now)
  {
  }

  /* ----- common_timeout_callback ----- */

  lemma {:induction false} OnceListed(s: Base, i: nat, a: nat, b: nat)
    requires Inv(s) && i < |s.lists| && a < b < |s.lists[i].events|
    ensures s.lists[i].events[a] != s.lists[i].events[b]
  {
    hide ActiveAt, CountsOk, ListsOk, HeapAt, DueOk, TimeOk, High, IsCommon;
    var q := s.lists[i].events;
    if q[a] == q[b] {
      assert EventAt(s, q[a]);
      Queues.CountTwice(q, a, b);
    }
  }

  /** One round: the head of the list leaves it and becomes active. */
  method FireHead(b: EventBase, i: nat)
    requires b.Valid() && i < |b.lists| && b.lists[i].events != []
    modifies b
    ensures b.Valid() && b.firing == old(b.firing) && b.heap == old(b.heap)
    ensures b.lists == old(b.lists)[i := old(b.lists)[i].(events := old(b.lists)[i].events[1..])]
    ensures var e := old(b.lists)[i].events[0];
            e < old(|b.evs|) && b.evs == old(b.evs)[e := Fired(old(b.evs)[e])]
    ensures Calm(old(b.View()), b.View())
  {
    hide InvBut, LE, IsCommon, EventOps.Del, EventOps.Active, Index, EventKeeps.SameTimers, Calm;
    ghost var s := b.View();
    var e := b.lists[i].events[0];
    EventMachine.HeadIn(s, i);
    HeadSlot(s, i);
    EventRuns.ExpireKeeps(s, e);
    EventRuns.ExpireFrame(s, e);
    EventMachine.FiringStays(s, EventRuns.Expire(s, e));
    ExpireCalm(s, e);
    b.EventDel(e, false);
    b.EventActive(e, {TimedOut});
  }

  lemma {:induction false} HeadSlot(s: Base, i: nat)
    requires Inv(s) && i < |s.lists| && s.lists[i].events != []
    ensures var e := s.lists[i].events[0];
            && e < |s.evs| && IsCommon(s.evs[e].at, |s.lists|) && Index(s.evs[e].at) == i
            && Queues.RemoveOne(s.lists[i].events, e) == s.lists[i].events[1..]
  {
    hide FlagsOk, CountsOk, ListsOk, IsCommon, Index, High;
    EventLists.SlotMember(s, i, s.lists[i].events[0]);
  }

  /** The first k events of the list have been fired, and nothing else. */
  ghost predicate FiredFirst(q: seq<nat>, k: nat, evs0: seq<Event>, evs: seq<Event>, now: Timeval) {
    && k <= |q| && |evs| == |evs0|
    && (forall j | 0 <= j < k :: q[j] < |evs0| && LE(Real(evs0[q[j]].at), now))
    && forall x | 0 <= x < |evs0| :: evs[x] == if x in q[..k] then Fired(evs0[x]) else evs0[x]
  }

  lemma {:induction false} FiredNext(q: seq<nat>, k: nat, evs0: seq<Event>, evs: seq<Event>, now: Timeval)
    requires FiredFirst(q, k, evs0, evs, now) && k < |q| && q[k] < |evs| && q[k] !in q[..k] && LE(Real(evs[q[k]].at), now)
    ensures FiredFirst(q, k + 1, evs0, evs[q[k] := Fired(evs[q[k]])], now)
  {
    hide LE, Real, Fired;
    assert q[..k + 1] == q[..k] + [q[k]];
  }

  /** Every event of the list that is due is activated, in order; the rest stay,
      and the timer is set for the first of them. */
  method CommonTimeoutCallback(b: EventBase, i: nat, now: Timeval) returns (fired: nat)
    requires b.Valid() && i < |b.lists| && b.firing == b.lists[i].timer
    modifies b
    ensures b.Valid() && b.firing == -1 && fired <= |old(b.lists)[i].events|
    ensures b.lists == old(b.lists)[i := old(b.lists)[i].(events := old(b.lists)[i].events[fired..])]
    ensures var q, t := old(b.lists)[i].events, old(b.lists)[i].timer;
            && |b.evs| == old(|b.evs|)
            && (forall j | 0 <= j < fired :: q[j] < |b.evs| && LE(Real(old(b.evs)[q[j]].at), now))
            && (forall j | fired <= j < |q| :: q[j] < |b.evs| && !LE(Real(old(b.evs)[q[j]].at), now))
            && (forall x | 0 <= x < |b.evs| && x != t ::
                  b.evs[x] == if x in q[..fired] then Fired(old(b.evs)[x]) else old(b.evs)[x])
            && (fired < |q| ==> t < |b.evs| && b.evs[t].timeout && b.evs[t].at == Real(old(b.evs)[q[fired]].at))
    ensures Calm(old(b.View()), b.View())
  {
    hide Calm, InvBut, LE, Real, FiredFirst, Fired, EventOps.Schedule, IsTimer, EventKeeps.SameTimers;
    ghost var s, q, evs0 := b.View(), b.lists[i].events, b.evs;
    fired := 0;
    assert FiredFirst(q, 0, evs0, evs0, now) by { FiredNone(q, evs0, now); }
    CalmSelf(s);
    while b.lists[i].events != [] && LE(Real(Ev(b.evs, b.lists[i].events[0]).at), now)
      invariant b.Valid() && fired <= |q| && b.firing == s.firing
      invariant b.lists == s.lists[i := s.lists[i].(events := q[fired..])]
      invariant FiredFirst(q, fired, evs0, b.evs, now)
      invariant Calm(s, b.View())
      decreases |b.lists[i].events|
    {
      EventMachine.HeadIn(b.View(), i);
      NotBefore(s, i, fired);
      FiredNext(q, fired, evs0, b.evs, now);
      ghost var m := b.View();
      FireHead(b, i);
      CalmThen(s, m, b.View());
      fired := fired + 1;
    }
    FiredTimes(q, fired, evs0, b.evs, now);
    AllKnown(s, i);
    RestLater(s, i, fired, now);
    ghost var m := b.View();
    FinishFiring(b, i);
    CalmThen(s, m, b.View());
  }

  lemma {:induction false} CalmSelf(s: Base)
    ensures Calm(s, s)
  {
  }

  lemma {:induction false} FiredNone(q: seq<nat>, evs0: seq<Event>, now: Timeval)
    ensures FiredFirst(q, 0, evs0, evs0, now)
  {
  }

  lemma {:induction false} NotBefore(s: Base, i: nat, k: nat)
    requires Inv(s) && i < |s.lists| && k < |s.lists[i].events|
    ensures s.lists[i].events[k] !in s.lists[i].events[..k]
  {
    hide InvBut;
    var q := s.lists[i].events;
    forall j | 0 <= j < k ensures q[j] != q[k] {
      OnceListed(s, i, j, k);
    }
  }

  lemma {:induction false} FiredTimes(q: seq<nat>, k: nat, evs0: seq<Event>, evs: seq<Event>, now: Timeval)
    requires FiredFirst(q, k, evs0, evs, now)
    ensures |evs| == |evs0| && forall x | 0 <= x < |evs| :: evs[x].at == evs0[x].at
    ensures forall j | 0 <= j < k :: q[j] < |evs0| && LE(Real(evs0[q[j]].at), now)
    ensures forall x | 0 <= x < |evs0| :: evs[x] == if x in q[..k] then Fired(evs0[x]) else evs0[x]
  {
    hide LE, Real;
  }

  lemma {:induction false} AllKnown(s: Base, i: nat)
    requires Inv(s) && i < |s.lists|
    ensures forall j | 0 <= j < |s.lists[i].events| :: s.lists[i].events[j] < |s.evs|
  {
    hide FlagsOk, CountsOk, ListsOk;
    EventMachine.ListKnown(s, i);
    forall j | 0 <= j < |s.lists[i].events| ensures s.lists[i].events[j] < |s.evs| {
      assert s.lists[i].events[j] in s.lists[i].events;
    }
  }

  /** The list is sorted: when one event is not due, none after it is. */
  lemma {:induction false} RestLater(s: Base, i: nat, k: nat, now: Timeval)
    requires Inv(s) && i < |s.lists| && k <= |s.lists[i].events|
    requires k < |s.lists[i].events| ==> !LE(Real(Ev(s.evs, s.lists[i].events[k]).at), now)
    ensures forall j | k <= j < |s.lists[i].events| :: !LE(Real(Ev(s.evs, s.lists[i].events[j]).at), now)
  {
    hide FlagsOk, CountsOk, Covered, TimerOk, LE, Real, IsCommon, High, Index, Coded;
    var q := s.lists[i].events;
    assert ListOk(s, i, -1);
    forall j | k <= j < |q| ensures !LE(Real(Ev(s.evs, q[j]).at), now) {
      EventLists.SlotMember(s, i, q[k]);
      EventLists.SlotMember(s, i, q[j]);
      SameSlotOrder(s.evs[q[k]].at, s.evs[q[j]].at);
      LaterToo(Real(s.evs[q[k]].at), Real(s.evs[q[j]].at), now);
    }
  }

  lemma {:induction false} LaterToo(a: Timeval, b: Timeval, now: Timeval)
    ensures LE(a, b) && LE(b, now) ==> LE(a, now)
  {
  }

  method FinishFiring(b: EventBase, i: nat)
    requires b.Valid() && i < |b.lists| && b.firing == b.lists[i].timer
    modifies b
    ensures b.Valid()
    ensures b.firing == -1 && b.lists == old(b.lists) && |b.evs| == old(|b.evs|)
    ensures forall x | 0 <= x < |b.evs| && x != old(b.lists)[i].timer :: b.evs[x] == old(b.evs)[x]
    ensures var q, t := old(b.lists)[i].events, old(b.lists)[i].timer;
            q != [] ==> t < |b.evs| && b.evs[t].timeout && b.evs[t].at == Real(Ev(old(b.evs), q[0]).at)
    ensures Calm(old(b.View()), b.View())
  {
    hide Calm, InvBut, EventOps.Schedule, EventKeeps.SameTimers, Real;
    ghost var s := b.View();
    EventMachine.FinishKeeps(s, i);
    FinishCalm(s, i);
    if b.lists[i].events != [] {
      EventRuns.Weaken(s, s.lists[i].timer);
      EventSteps.ScheduleKeeps(s, i);
      b.CommonTimeoutSchedule(i);
    }
    b.firing := -1;
  }
}
