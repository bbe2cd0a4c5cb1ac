/** The common-timeout lists: sorted, and looked after by their timers. */
module EventLists {
  import Queues
  import opened Timevals
  import opened EventModel
  import EventLemmas

  lemma {:induction false} SortedSame(q: seq<nat>, evs: seq<Event>, more: seq<Event>)
    requires Sorted(q, evs)
    requires forall x | x in q :: Ev(more, x).at == Ev(evs, x).at
    ensures Sorted(q, more)
  {
    hide LE, Ev;
  }

  lemma {:induction false} SortedPart(q: seq<nat>, evs: seq<Event>, i: nat)
    requires Sorted(q, evs) && i < |q|
    ensures Sorted(q[..i] + q[i + 1..], evs)
    ensures i == 0 && |q| > 1 ==> LE(Ev(evs, q[0]).at, Ev(evs, q[1]).at)
  {
    hide LE, Ev;
    var r := q[..i] + q[i + 1..];
    forall a, b | 0 <= a < b < |r|
      ensures LE(Ev(evs, r[a]).at, Ev(evs, r[b]).at)
    {
      assert r[a] == q[if a < i then a else a + 1] && r[b] == q[if b < i then b else b + 1];
    }
  }

  lemma {:induction false} SortedAppend(q: seq<nat>, evs: seq<Event>, e: nat)
    requires Sorted(q, evs) && (q != [] ==> LE(Ev(evs, q[|q| - 1]).at, Ev(evs, e).at))
    ensures Sorted(q + [e], evs)
  {
    var r := q + [e];
    forall a, b | 0 <= a < b < |r|
      ensures LE(Ev(evs, r[a]).at, Ev(evs, r[b]).at)
    {
      if b == |q| {
        assert a == |q| - 1 || LE(Ev(evs, q[a]).at, Ev(evs, q[|q| - 1]).at);
      }
    }
  }

  /** insert_common_timeout_inorder keeps the order; the last is the latest, and
      the head is the old head or the new event. */
  lemma {:induction false} SortedInsert(q: seq<nat>, e: nat, evs: seq<Event>)
    requires Sorted(q, evs)
    ensures var r := InsertOrdered(q, e, evs);
            && Sorted(r, evs) && |r| == |q| + 1
            && (r[|q|] == e || (q != [] && r[|q|] == q[|q| - 1] && !LE(Ev(evs, q[|q| - 1]).at, Ev(evs, e).at)))
            && (r[0] == e || (q != [] && r[0] == q[0]))
    decreases |q|
  {
    if q == [] || LE(Ev(evs, q[|q| - 1]).at, Ev(evs, e).at) {
      SortedAppend(q, evs, e);
    } else {
      SortedInsertEarlier(q, e, evs);
    }
  }

  lemma {:induction false} SortedInsertEarlier(q: seq<nat>, e: nat, evs: seq<Event>)
    requires Sorted(q, evs) && q != [] && !LE(Ev(evs, q[|q| - 1]).at, Ev(evs, e).at)
    ensures var r := InsertOrdered(q, e, evs);
            && Sorted(r, evs) && |r| == |q| + 1 && r[|q|] == q[|q| - 1]
            && (r[0] == e || r[0] == q[0])
    decreases |q|, 0
  {
    hide Ev;
    var front, last := q[..|q| - 1], q[|q| - 1];
    SortedInsert(front, e, evs);
    var r := InsertOrdered(front, e, evs);
    assert front != [] ==> front[|front| - 1] == q[|q| - 2] && front[0] == q[0];
    SortedAppend(r, evs, last);
  }

  /* ----- operations that leave the lists alone ----- */

  /** r differs from s in the one event e, which keeps its deadline. */
  ghost predicate OnlyEvent(s: Base, r: Base, e: nat) {
    && e < |s.evs| && |r.evs| == |s.evs| && r.firing == s.firing
    && forall x: nat | x != e :: Ev(r.evs, x) == Ev(s.evs, x)
  }

  lemma {:induction false} QuietLists(s: Base, r: Base, e: nat, skip: int)
    requires ListsOk(s, skip) && OnlyEvent(s, r, e) && r.lists == s.lists
    requires r.evs[e].at == s.evs[e].at
    requires IsTimer(s, e) ==> skip == e && TimerOk(r.evs[e])
    ensures ListsOk(r, skip)
  {
    hide LE, Index, High, IsCommon, Coded, Real, TimerOk, Sorted;
    forall i: nat ensures ListOk(r, i, skip) {
      assert ListOk(s, i, skip);
      if i < |s.lists| {
        var l := s.lists[i];
        SortedSame(l.events, s.evs, r.evs);
        assert l.timer != e ==> Ev(r.evs, l.timer) == Ev(s.evs, l.timer);
      }
    }
  }

  /* ----- a deadline is set ----- */

  lemma {:induction false} NotListed(s: Base, e: nat, i: nat)
    requires FlagsOk(s) && Known(s, e) && i < |s.lists|
    requires !s.evs[e].timeout || !IsCommon(s.evs[e].at, |s.lists|) || Index(s.evs[e].at) != i
    ensures e !in s.lists[i].events
  {
    hide ActiveAt, IsCommon, DueOk, TimeOk, High, Index;
    assert EventAt(s, e);
  }

  /** Everything on list k carries slot k. */
  lemma {:induction false} SlotMember(s: Base, k: nat, x: nat)
    requires FlagsOk(s) && k < |s.lists| && x in s.lists[k].events
    ensures x < |s.evs| && s.evs[x].timeout && IsCommon(s.evs[x].at, |s.lists|)
    ensures Index(s.evs[x].at) == k && High(s.evs[x].at) == MAGIC + k
  {
    hide ActiveAt, IsCommon, TimeOk, High, Index;
    assert EventAt(s, x);
    CommonWhenCoded(s.evs[x].at, |s.lists|);
  }

  lemma {:induction false} SetAtLists(s: Base, e: nat, at: Timeval, ioTimeout: Timeval, skip: int)
    requires FlagsOk(s) && ListsOk(s, skip) && Known(s, e) && !s.evs[e].timeout
    requires IsTimer(s, e) ==> skip == e && Normal(at)
    ensures ListsOk(EventLemmas.SetAt(s, e, at, ioTimeout), skip)
  {
    hide LE, Index, High, IsCommon, Coded, Real, Sorted, FlagsOk;
    var r := EventLemmas.SetAt(s, e, at, ioTimeout);
    forall i: nat ensures ListOk(r, i, skip) {
      assert ListOk(s, i, skip);
      if i < |s.lists| {
        NotListed(s, e, i);
        SortedSame(s.lists[i].events, s.evs, r.evs);
      }
    }
  }

  /* ----- a timer structure gains or loses an event ----- */

  lemma {:induction false} HeapLists(s: Base, r: Base, e: nat, skip: int)
    requires ListsOk(s, skip) && Known(s, e) && !IsCommon(s.evs[e].at, |s.lists|)
    requires r == InsertTimeout(s, e) || r == RemoveTimeout(s, e)
    requires IsTimer(s, e) ==> skip == e
    ensures ListsOk(r, skip)
  {
    hide IsCommon, Index, Coded, Sorted, Covered, LE, Real;
    TimerStays(s, r, e, skip);
    QuietLists(s, r, e, skip);
  }

  lemma {:induction false} TimerStays(s: Base, r: Base, e: nat, skip: int)
    requires ListsOk(s, skip) && e < |s.evs| && e < |r.evs|
    requires var ev, nv := s.evs[e], r.evs[e];
             nv == ev.(timeout := nv.timeout, active := nv.active, later := nv.later, res := nv.res, inserted := nv.inserted)
    ensures IsTimer(s, e) ==> TimerOk(r.evs[e])
  {
    hide Sorted, Covered, LE, Coded;
    if IsTimer(s, e) {
      var i :| 0 <= i < |s.lists| && s.lists[i].timer == e;
      assert ListOk(s, i, skip);
    }
  }

  /** The list of e, if e is on one. */
  function SlotOf(s: Base, e: nat): nat
    requires e < |s.evs|
  {
    Index(s.evs[e].at)
  }

  /** A new head leaves its list uncovered until it is scheduled. */
  lemma {:induction false} InsertLists(s: Base, e: nat)
    requires FlagsOk(s) && ListsOk(s, -1) && Known(s, e) && !s.evs[e].timeout && IsCommon(s.evs[e].at, |s.lists|)
    requires !IsTimer(s, e)
    ensures var r, l := InsertTimeout(s, e), s.lists[SlotOf(s, e)];
            && r.lists[SlotOf(s, e)].events != []
            && ListsOk(r, if r.lists[SlotOf(s, e)].events[0] == e then l.timer else -1)
  {
    hide LE, High, IsCommon, Coded, Real, FlagsOk, InsertOrdered, Index;
    CommonIndex(s.evs[e].at, |s.lists|);
    var k := SlotOf(s, e);
    var r, l := InsertTimeout(s, e), s.lists[k];
    assert ListOk(s, k, -1);
    SortedInsert(l.events, e, s.evs);
    var skip := if r.lists[k].events[0] == e then l.timer else -1;
    forall i: nat ensures ListOk(r, i, skip) {
      assert ListOk(s, i, -1);
      if i < |s.lists| {
        SortedAts(r.lists[i].events, s.evs, r.evs);
      }
    }
  }

  lemma {:induction false} SortedAts(q: seq<nat>, evs: seq<Event>, more: seq<Event>)
    requires Sorted(q, evs)
    requires |more| == |evs| && forall x | 0 <= x < |evs| :: more[x].at == evs[x].at
    ensures Sorted(q, more)
  {
    hide LE;
    SortedSame(q, evs, more);
  }

  /** Removing an event leaves its list covered: a new head is no earlier. */
  lemma {:induction false} RemoveLists(s: Base, e: nat)
    requires FlagsOk(s) && ListsOk(s, -1) && Known(s, e) && s.evs[e].timeout && IsCommon(s.evs[e].at, |s.lists|)
    requires !IsTimer(s, e)
    ensures ListsOk(RemoveTimeout(s, e), -1)
  {
    hide LE, High, IsCommon, Coded, Real, FlagsOk, Queues.RemoveOne, Index, Covered, Sorted;
    CommonIndex(s.evs[e].at, |s.lists|);
    var k := SlotOf(s, e);
    var r := RemoveTimeout(s, e);
    EventLemmas.InList(s, e);
    forall i: nat ensures ListOk(r, i, -1) {
      assert ListOk(s, i, -1);
      if i == k {
        SlotMember(s, k, e);
        forall x | x in s.lists[k].events ensures High(Ev(s.evs, x).at) == High(s.evs[e].at) {
          SlotMember(s, k, x);
        }
        RemoveFromList(s, e, k);
      } else if i < |s.lists| {
        SortedAts(s.lists[i].events, s.evs, r.evs);
        CoveredSame(s, r, e, s.lists[i]);
      }
    }
  }

  lemma {:induction false} CoveredSame(s: Base, r: Base, e: nat, l: CommonList)
    requires Covered(s, l) && l.timer != e && |r.evs| == |s.evs| && r.firing == s.firing
    requires forall x: nat :: Ev(r.evs, x).at == Ev(s.evs, x).at
    requires forall x: nat | x != e :: Ev(r.evs, x) == Ev(s.evs, x)
    ensures Covered(r, l)
  {
    hide LE, Real;
  }

  lemma {:induction false} RemoveFromList(s: Base, e: nat, k: nat)
    requires k < |s.lists| && ListOk(s, k, -1) && Known(s, e) && e in s.lists[k].events && s.lists[k].timer != e
    requires IsCommon(s.evs[e].at, |s.lists|) && SlotOf(s, e) == k
    requires forall x | x in s.lists[k].events :: High(Ev(s.evs, x).at) == High(s.evs[e].at)
    ensures ListOk(RemoveTimeout(s, e), k, -1)
  {
    hide IsCommon, Coded, Index, Queues.RemoveOne, High, LE, Real;
    var r, l := RemoveTimeout(s, e), s.lists[k];
    var i := Queues.RemoveAt(l.events, e);
    SortedPart(l.events, s.evs, i);
    SortedAts(r.lists[k].events, s.evs, r.evs);
    var rest := r.lists[k].events;
    if rest != [] {
      var first, next := Ev(s.evs, l.events[0]).at, Ev(s.evs, rest[0]).at;
      assert rest[0] in l.events;
      SameSlotOrder(first, next);
      LaterStill(Ev(s.evs, l.timer).at, first, next);
      assert i > 0 ==> rest[0] == l.events[0];
    }
  }

  lemma {:induction false} LaterStill(t: Timeval, first: Timeval, next: Timeval)
    requires LE(Real(first), Real(next))
    ensures LE(t, Real(first)) ==> LE(t, Real(next))
  {
  }
}
