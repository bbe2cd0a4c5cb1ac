/** What each queue operation keeps. */
module EventLemmas {
  import opened Queues
  import opened Timevals
  import opened EventModel

  lemma {:induction false} WeightsUpdate(evs: seq<Event>, e: nat, ev: Event)
    requires e < |evs|
    ensures Sum(Weights(evs[e := ev])) == Sum(Weights(evs)) - Weight(evs[e]) + Weight(ev)
  {
    hide Weight;
    assert Weights(evs[e := ev]) == Weights(evs)[e := Weight(ev)];
    SumUpdate(Weights(evs), e, Weight(ev));
  }

  /* ----- active queues ----- */

  lemma {:induction false} ActiveAppended(active: seq<seq<nat>>, p: nat, e: nat, ev: Event, x: nat, xv: Event)
    requires p < |active| && ActiveAt(xv, active, x) && (x == e ==> xv == ev) && ev.pri == p && !ev.active
    ensures ActiveAt(if x == e then ev.(active := true) else xv, active[p := active[p] + [e]], x)
  {
    CountAppend(active[p], e, x);
  }

  lemma {:induction false} ActiveRemoved(active: seq<seq<nat>>, p: nat, e: nat, ev: Event, x: nat, xv: Event)
    requires p < |active| && ActiveAt(xv, active, x) && (x == e ==> xv == ev) && ev.pri == p && e in active[p] && ev.active
    ensures ActiveAt(if x == e then ev.(active := false) else xv, active[p := RemoveOne(active[p], e)], x)
  {
    CountRemove(active[p], e, x);
  }

  lemma {:induction false} InsertActiveFlags(s: Base, e: nat)
    requires FlagsOk(s) && Known(s, e) && !s.evs[e].active && !s.evs[e].later
    ensures FlagsOk(InsertActive(s, e))
  {
    hide ActiveAt, ListAt, Count, IsCommon, DueOk, TimeOk, High, Index;
    var r := InsertActive(s, e);
    var ev := s.evs[e];
    forall x: nat ensures EventAt(r, x) {
      assert EventAt(s, x) && EventAt(s, e);
      ActiveAppended(s.active, ev.pri, e, ev, x, Ev(s.evs, x));
      ListAtSame(Ev(s.evs, x), Ev(r.evs, x), s.lists, x);
    }
  }

  lemma {:induction false} ListAtSame(ev: Event, nv: Event, lists: seq<CommonList>, x: nat)
    requires ListAt(ev, lists, x) && nv.timeout == ev.timeout && nv.at == ev.at
    ensures ListAt(nv, lists, x)
  {
  }

  lemma {:induction false} ActiveAtSame(ev: Event, nv: Event, active: seq<seq<nat>>, x: nat)
    requires ActiveAt(ev, active, x) && nv.active == ev.active && nv.pri == ev.pri
    ensures ActiveAt(nv, active, x)
  {
  }

  lemma {:induction false} InQueue(s: Base, e: nat)
    requires FlagsOk(s) && Known(s, e)
    ensures s.evs[e].active ==> e in s.active[s.evs[e].pri]
    ensures s.evs[e].later ==> e in s.later
  {
    hide ListAt, IsCommon, DueOk, TimeOk, High, Index;
    assert EventAt(s, e);
  }

  lemma {:induction false} RemoveActiveFlags(s: Base, e: nat)
    requires FlagsOk(s) && Known(s, e) && s.evs[e].active
    ensures FlagsOk(RemoveActive(s, e))
  {
    hide ActiveAt, ListAt, Count, IsCommon, DueOk, TimeOk, High, Index;
    var r := RemoveActive(s, e);
    var ev := s.evs[e];
    InQueue(s, e);
    forall x: nat ensures EventAt(r, x) {
      assert EventAt(s, x) && EventAt(s, e);
      ActiveRemoved(s.active, ev.pri, e, ev, x, Ev(s.evs, x));
      ListAtSame(Ev(s.evs, x), Ev(r.evs, x), s.lists, x);
    }
  }

  lemma {:induction false} InsertLaterFlags(s: Base, e: nat)
    requires FlagsOk(s) && Known(s, e) && !s.evs[e].active && !s.evs[e].later
    ensures FlagsOk(InsertLater(s, e))
  {
    hide ActiveAt, ListAt, Count, IsCommon, DueOk, TimeOk, High, Index;
    var r := InsertLater(s, e);
    forall x: nat ensures EventAt(r, x) {
      assert EventAt(s, x) && EventAt(s, e);
      CountAppend(s.later, e, x);
      ActiveAtSame(Ev(s.evs, x), Ev(r.evs, x), s.active, x);
      ListAtSame(Ev(s.evs, x), Ev(r.evs, x), s.lists, x);
    }
  }

  lemma {:induction false} RemoveLaterFlags(s: Base, e: nat)
    requires FlagsOk(s) && Known(s, e) && s.evs[e].later
    ensures FlagsOk(RemoveLater(s, e))
  {
    hide ActiveAt, ListAt, Count, IsCommon, DueOk, TimeOk, High, Index;
    var r := RemoveLater(s, e);
    InQueue(s, e);
    forall x: nat ensures EventAt(r, x) {
      assert EventAt(s, x) && EventAt(s, e);
      CountRemove(s.later, e, x);
      ActiveAtSame(Ev(s.evs, x), Ev(r.evs, x), s.active, x);
      ListAtSame(Ev(s.evs, x), Ev(r.evs, x), s.lists, x);
    }
  }

  /** A change of one event that moves it to or from the map, or nowhere. */
  lemma {:induction false} QuietFlags(s: Base, e: nat, nv: Event, r: Base)
    requires FlagsOk(s) && Known(s, e)
    requires var ev := s.evs[e];
             && nv.active == ev.active && nv.pri == ev.pri && nv.later == ev.later && nv.timeout == ev.timeout && nv.at == ev.at
             && r.evs == s.evs[e := nv] && r.active == s.active && r.later == s.later && r.heap == s.heap && r.lists == s.lists
    requires r.fds == if nv.inserted then s.fds + {e} else s.fds - {e}
    requires Sane(nv, |s.active|, |s.lists|)
    ensures FlagsOk(r)
  {
    hide ActiveAt, ListAt, Count, IsCommon, DueOk, TimeOk, High, Index;
    forall x: nat ensures EventAt(r, x) {
      assert EventAt(s, x) && EventAt(s, e);
      ActiveAtSame(Ev(s.evs, x), Ev(r.evs, x), s.active, x);
      ListAtSame(Ev(s.evs, x), Ev(r.evs, x), s.lists, x);
    }
  }

  /* ----- timers ----- */

  lemma {:induction false} CountOrdered(q: seq<nat>, e: nat, evs: seq<Event>, x: nat)
    ensures Count(InsertOrdered(q, e, evs), x) == Count(q, x) + Flag(x == e)
    decreases |q|
  {
    hide LE;
    if q == [] || LE(Ev(evs, q[|q| - 1]).at, Ev(evs, e).at) {
      CountAppend(q, e, x);
    } else {
      var last := q[|q| - 1];
      CountOrdered(q[..|q| - 1], e, evs, x);
      CountAppend(InsertOrdered(q[..|q| - 1], e, evs), last, x);
      CountAppend(q[..|q| - 1], last, x);
      assert q[..|q| - 1] + [last] == q;
    }
  }

  lemma {:induction false} ListInserted(lists: seq<CommonList>, e: nat, ev: Event, evs: seq<Event>, x: nat, xv: Event)
    requires ListAt(xv, lists, x) && (x == e ==> xv == ev) && !ev.timeout && IsCommon(ev.at, |lists|)
    ensures var i := Index(ev.at);
            ListAt(if x == e then ev.(timeout := true) else xv,
                   lists[i := lists[i].(events := InsertOrdered(lists[i].events, e, evs))], x)
  {
    hide Count, InsertOrdered;
    CountOrdered(lists[Index(ev.at)].events, e, evs, x);
  }

  lemma {:induction false} ListRemoved(lists: seq<CommonList>, e: nat, ev: Event, x: nat, xv: Event)
    requires ListAt(xv, lists, x) && (x == e ==> xv == ev) && ev.timeout && IsCommon(ev.at, |lists|)
    requires e in lists[Index(ev.at)].events
    ensures var i := Index(ev.at);
            ListAt(if x == e then ev.(timeout := false) else xv,
                   lists[i := lists[i].(events := RemoveOne(lists[i].events, e))], x)
  {
    hide Count, RemoveOne;
    CountRemove(lists[Index(ev.at)].events, e, x);
  }

  lemma {:induction false} ListNotCommon(lists: seq<CommonList>, ev: Event, nv: Event, x: nat)
    requires ListAt(ev, lists, x)
    requires !(ev.timeout && IsCommon(ev.at, |lists|)) && !(nv.timeout && IsCommon(nv.at, |lists|))
    ensures ListAt(nv, lists, x)
  {
  }

  lemma {:induction false} InsertTimeoutCommonAt(s: Base, e: nat, x: nat)
    requires EventAt(s, x) && EventAt(s, e) && Known(s, e) && !s.evs[e].timeout && !s.evs[e].finalizing && IsCommon(s.evs[e].at, |s.lists|)
    ensures EventAt(InsertTimeout(s, e), x)
  {
    hide ActiveAt, ListAt, Count, IsCommon, DueOk, TimeOk, High, Index, InsertOrdered, RemoveOne;
    var r, ev := InsertTimeout(s, e), s.evs[e];
    CommonIndex(ev.at, |s.lists|);
    ActiveAtSame(Ev(s.evs, x), Ev(r.evs, x), s.active, x);
    ListInserted(s.lists, e, ev, s.evs, x, Ev(s.evs, x));
  }

  lemma {:induction false} InsertTimeoutHeapAt(s: Base, e: nat, x: nat)
    requires EventAt(s, x) && EventAt(s, e) && Known(s, e) && !s.evs[e].timeout && !s.evs[e].finalizing && !IsCommon(s.evs[e].at, |s.lists|)
    ensures EventAt(InsertTimeout(s, e), x)
  {
    hide ActiveAt, ListAt, Count, IsCommon, DueOk, TimeOk, High, Index, InsertOrdered, RemoveOne;
    var r, ev := InsertTimeout(s, e), s.evs[e];
    ActiveAtSame(Ev(s.evs, x), Ev(r.evs, x), s.active, x);
    if x == e {
      ListNotCommon(s.lists, ev, r.evs[e], x);
    }
  }

  lemma {:induction false} InsertTimeoutFlags(s: Base, e: nat)
    requires FlagsOk(s) && Known(s, e) && !s.evs[e].timeout && !s.evs[e].finalizing
    ensures FlagsOk(InsertTimeout(s, e))
  {
    hide EventAt, Count, IsCommon, Index, InsertOrdered, RemoveOne;
    var r, ev := InsertTimeout(s, e), s.evs[e];
    CommonIndex(ev.at, |s.lists|);
    forall x: nat ensures EventAt(r, x) {
      assert EventAt(s, x) && EventAt(s, e);
      if IsCommon(ev.at, |s.lists|) {
        InsertTimeoutCommonAt(s, e, x);
      } else {
        InsertTimeoutHeapAt(s, e, x);
      }
    }
  }

  lemma {:induction false} InList(s: Base, e: nat)
    requires FlagsOk(s) && Known(s, e) && s.evs[e].timeout && IsCommon(s.evs[e].at, |s.lists|)
    ensures e in s.lists[Index(s.evs[e].at)].events
  {
    hide ActiveAt, IsCommon, DueOk, TimeOk, High, Index;
    CommonIndex(s.evs[e].at, |s.lists|);
    assert EventAt(s, e);
  }

  lemma {:induction false} RemoveTimeoutCommonAt(s: Base, e: nat, x: nat)
    requires EventAt(s, x) && EventAt(s, e) && Known(s, e) && s.evs[e].timeout && IsCommon(s.evs[e].at, |s.lists|)
    requires e in s.lists[Index(s.evs[e].at)].events
    ensures EventAt(RemoveTimeout(s, e), x)
  {
    hide ActiveAt, ListAt, Count, IsCommon, DueOk, TimeOk, High, Index, InsertOrdered, RemoveOne;
    var r, ev := RemoveTimeout(s, e), s.evs[e];
    CommonIndex(ev.at, |s.lists|);
    ActiveAtSame(Ev(s.evs, x), Ev(r.evs, x), s.active, x);
    ListRemoved(s.lists, e, ev, x, Ev(s.evs, x));
  }

  lemma {:induction false} RemoveTimeoutHeapAt(s: Base, e: nat, x: nat)
    requires EventAt(s, x) && EventAt(s, e) && Known(s, e) && s.evs[e].timeout && !IsCommon(s.evs[e].at, |s.lists|)
    ensures EventAt(RemoveTimeout(s, e), x)
  {
    hide ActiveAt, ListAt, Count, IsCommon, DueOk, TimeOk, High, Index, InsertOrdered, RemoveOne;
    var r, ev := RemoveTimeout(s, e), s.evs[e];
    ActiveAtSame(Ev(s.evs, x), Ev(r.evs, x), s.active, x);
    if x == e {
      ListNotCommon(s.lists, ev, r.evs[e], x);
    }
  }

  lemma {:induction false} RemoveTimeoutFlags(s: Base, e: nat)
    requires FlagsOk(s) && Known(s, e) && s.evs[e].timeout
    ensures FlagsOk(RemoveTimeout(s, e))
  {
    hide EventAt, Count, IsCommon, Index, InsertOrdered, RemoveOne;
    var r, ev := RemoveTimeout(s, e), s.evs[e];
    CommonIndex(ev.at, |s.lists|);
    if IsCommon(ev.at, |s.lists|) {
      InList(s, e);
    }
    forall x: nat ensures EventAt(r, x) {
      assert EventAt(s, x) && EventAt(s, e);
      if IsCommon(ev.at, |s.lists|) {
        RemoveTimeoutCommonAt(s, e, x);
      } else {
        RemoveTimeoutHeapAt(s, e, x);
      }
    }
  }

  function SetAt(s: Base, e: nat, at: Timeval, ioTimeout: Timeval): (r: Base)
    requires Known(s, e)
    ensures Kept(s, r, e)
  {
    s.(evs := s.evs[e := s.evs[e].(at := at, ioTimeout := ioTimeout)])
  }

  lemma {:induction false} SetAtFlags(s: Base, e: nat, at: Timeval, ioTimeout: Timeval)
    requires FlagsOk(s) && Known(s, e) && !s.evs[e].timeout
    requires DueOk(at, |s.lists|) && TimeOk(ioTimeout, |s.lists|)
    requires s.evs[e].closure == OnPersist ==> High(at) == High(ioTimeout)
    ensures FlagsOk(SetAt(s, e, at, ioTimeout))
  {
    hide ActiveAt, ListAt, Count, IsCommon, DueOk, TimeOk, High, Index;
    var r := SetAt(s, e, at, ioTimeout);
    forall x: nat ensures EventAt(r, x) {
      assert EventAt(s, x) && EventAt(s, e);
      ActiveAtSame(Ev(s.evs, x), Ev(r.evs, x), s.active, x);
      if x == e {
        ListNotCommon(s.lists, s.evs[e], r.evs[e], x);
      }
    }
  }

  /* ----- the counters ----- */

  lemma {:induction false} ActiveCounts(s: Base, e: nat)
    requires CountsOk(s) && Known(s, e)
    ensures !s.evs[e].active ==> CountsOk(InsertActive(s, e))
    ensures s.evs[e].active && e in s.active[s.evs[e].pri] ==> CountsOk(RemoveActive(s, e))
  {
    var ev := s.evs[e];
    WeightsUpdate(s.evs, e, ev.(active := !ev.active));
    TotalUpdate(s.active, ev.pri, s.active[ev.pri] + [e]);
    if ev.active && e in s.active[ev.pri] {
      CountRemove(s.active[ev.pri], e, e);
      TotalUpdate(s.active, ev.pri, RemoveOne(s.active[ev.pri], e));
    }
  }

  lemma {:induction false} LaterCounts(s: Base, e: nat)
    requires CountsOk(s) && Known(s, e)
    ensures !s.evs[e].active && !s.evs[e].later ==> CountsOk(InsertLater(s, e))
    ensures s.evs[e].later && e in s.later ==> CountsOk(RemoveLater(s, e))
  {
    var ev := s.evs[e];
    WeightsUpdate(s.evs, e, ev.(later := !ev.later));
    if ev.later && e in s.later {
      CountRemove(s.later, e, e);
    }
  }

  lemma {:induction false} InsertedCounts(s: Base, e: nat)
    requires CountsOk(s) && Known(s, e)
    ensures !s.evs[e].inserted ==> CountsOk(InsertInserted(s, e))
    ensures s.evs[e].inserted ==> CountsOk(RemoveInserted(s, e))
  {
    var ev := s.evs[e];
    WeightsUpdate(s.evs, e, ev.(inserted := !ev.inserted));
  }

  lemma {:induction false} OneEventCounts(s: Base, e: nat, nv: Event, r: Base)
    requires CountsOk(s) && e < |s.evs| && r.evs == s.evs[e := nv]
    requires r.active == s.active && r.later == s.later && r.nActive == s.nActive
    requires r.count == s.count - Weight(s.evs[e]) + Weight(nv)
    ensures CountsOk(r)
  {
    hide Weight, Total;
    WeightsUpdate(s.evs, e, nv);
  }

  lemma {:induction false} TimeoutWeight(ev: Event)
    ensures Weight(ev.(timeout := true)) == Weight(ev.(timeout := false)) + Bump(ev)
  {
  }

  lemma {:induction false} TimeoutShape(s: Base, e: nat)
    requires Known(s, e)
    ensures var r := InsertTimeout(s, e);
            && r.evs == s.evs[e := s.evs[e].(timeout := true)] && r.count == s.count + Bump(s.evs[e])
            && r.active == s.active && r.later == s.later && r.nActive == s.nActive
    ensures var r := RemoveTimeout(s, e);
            && r.evs == s.evs[e := s.evs[e].(timeout := false)] && r.count == s.count - Bump(s.evs[e])
            && r.active == s.active && r.later == s.later && r.nActive == s.nActive
  {
    hide IsCommon, Index, InsertOrdered, RemoveOne, Bump;
  }

  lemma {:induction false} TimeoutCounts(s: Base, e: nat)
    requires CountsOk(s) && Known(s, e)
    ensures !s.evs[e].timeout ==> CountsOk(InsertTimeout(s, e))
    ensures s.evs[e].timeout ==> CountsOk(RemoveTimeout(s, e))
  {
    hide CountsOk, InsertTimeout, RemoveTimeout, Weight, Bump;
    var ev := s.evs[e];
    TimeoutWeight(ev);
    TimeoutShape(s, e);
    if ev.timeout {
      assert ev == ev.(timeout := true);
      OneEventCounts(s, e, ev.(timeout := false), RemoveTimeout(s, e));
    } else {
      assert ev == ev.(timeout := false);
      OneEventCounts(s, e, ev.(timeout := true), InsertTimeout(s, e));
    }
  }

  /** A change of one event that leaves its queues alone leaves the counters right. */
  lemma {:induction false} SameWeightCounts(s: Base, e: nat, nv: Event, r: Base)
    requires CountsOk(s) && e < |s.evs| && Weight(nv) == Weight(s.evs[e])
    requires r.evs == s.evs[e := nv] && r.active == s.active && r.later == s.later && r.nActive == s.nActive && r.count == s.count
    ensures CountsOk(r)
  {
    WeightsUpdate(s.evs, e, nv);
  }
}
