/** The event base as the object that event.c works on. */
module EventLoop {
  import Queues
  import opened Timevals
  import opened EventModel
  import opened EventOps
  import Options
  import EventKeeps
  import EventSteps
  import EventRuns
  import EventMachine
  import EventEffects

  /** A callback taken off its queue to be run: the base just before, the
      priority, and the event. */
  datatype Began = Began(base: Base, pri: nat, e: nat)

  /** Every callback begun, in order. It is an object of its own, so that only
      what names it can add to it. */
  class Journal {
    ghost var began: seq<Began>

    constructor ()
      ensures began == []
    {
      began := [];
    }
  }

  class EventBase {
    var evs: seq<Event>
    var fds: set<nat>
    var active: seq<seq<nat>>
    var later: seq<nat>
    var heap: set<nat>
    var lists: seq<CommonList>
    var nActive: int
    var count: int
    var firing: int
    var running: int
    var cont: bool
    var brk: bool
    const journal: Journal

    function View(): Base
      reads this
    {
      Base(evs, fds, active, later, heap, lists, nActive, count, firing, running, cont, brk)
    }

    ghost predicate Valid()
      reads this
    {
      Inv(View())
    }

    constructor (nQueues: nat)
      requires nQueues > 0
      ensures Valid() && View() == EventMachine.Empty(nQueues) && fresh(journal) && journal.began == []
    {
      journal := new Journal();
      evs, fds, active, later := [], {}, seq(nQueues, i => []), [];
      heap, lists, nActive, count := {}, [], 0, 0;
      firing, running, cont, brk := -1, -1, false, false;
      new;
      EventMachine.EmptyOk(nQueues);
    }

    /* ----- the queues ----- */

    method QueueInsertActive(e: nat)
      requires Known(View(), e)
      modifies this
      ensures View() == InsertActive(old(View()), e)
    {
      var ev := evs[e];
      if ev.active {
        return;
      }
      count := count + Bump(ev);
      evs := evs[e := ev.(active := true)];
      nActive := nActive + 1;
      active := active[ev.pri := active[ev.pri] + [e]];
    }

    method QueueRemoveActive(e: nat)
      requires Known(View(), e)
      modifies this
      ensures View() == RemoveActive(old(View()), e)
    {
      var ev := evs[e];
      count := count - Bump(ev);
      evs := evs[e := ev.(active := false)];
      nActive := nActive - 1;
      active := active[ev.pri := Queues.RemoveOne(active[ev.pri], e)];
    }

    method QueueInsertLater(e: nat)
      requires Known(View(), e)
      modifies this
      ensures View() == InsertLater(old(View()), e)
    {
      var ev := evs[e];
      if ev.active || ev.later {
        return;
      }
      count := count + Bump(ev);
      evs := evs[e := ev.(later := true)];
      nActive := nActive + 1;
      later := later + [e];
    }

    method QueueRemoveLater(e: nat)
      requires Known(View(), e)
      modifies this
      ensures View() == RemoveLater(old(View()), e)
    {
      var ev := evs[e];
      count := count - Bump(ev);
      evs := evs[e := ev.(later := false)];
      nActive := nActive - 1;
      later := Queues.RemoveOne(later, e);
    }

    method QueueInsertInserted(e: nat)
      requires Known(View(), e)
      modifies this
      ensures View() == InsertInserted(old(View()), e)
    {
      count := count + Bump(evs[e]);
      evs := evs[e := evs[e].(inserted := true)];
      fds := fds + {e};
    }

    method QueueRemoveInserted(e: nat)
      requires Known(View(), e)
      modifies this
      ensures View() == RemoveInserted(old(View()), e)
    {
      count := count - Bump(evs[e]);
      evs := evs[e := evs[e].(inserted := false)];
      fds := fds - {e};
    }

    /** insert_common_timeout_inorder: a search from the end. */
    method InsertInOrder(q: seq<nat>, e: nat) returns (r: seq<nat>)
      requires e < |evs|
      ensures r == InsertOrdered(q, e, evs)
    {
      var i := |q|;
      assert q[..i] == q && q == q + q[i..];
      while i > 0
        invariant 0 <= i <= |q|
        invariant InsertOrdered(q, e, evs) == InsertOrdered(q[..i], e, evs) + q[i..]
      {
        assert q[..i][..i - 1] == q[..i - 1];
        if LE(Ev(evs, q[i - 1]).at, evs[e].at) {
          return q[..i] + [e] + q[i..];
        }
        assert [q[i - 1]] + q[i..] == q[i - 1..];
        i := i - 1;
      }
      r := [e] + q;
    }

    method QueueInsertTimeout(e: nat)
      requires Known(View(), e)
      modifies this
      ensures View() == InsertTimeout(old(View()), e)
    {
      var ev := evs[e];
      if IsCommon(ev.at, |lists|) {
        var i := Index(ev.at);
        var q := InsertInOrder(lists[i].events, e);
        lists := lists[i := lists[i].(events := q)];
      } else {
        heap := heap + {e};
      }
      count := count + Bump(ev);
      evs := evs[e := ev.(timeout := true)];
    }

    method QueueRemoveTimeout(e: nat)
      requires Known(View(), e)
      modifies this
      ensures View() == RemoveTimeout(old(View()), e)
    {
      var ev := evs[e];
      count := count - Bump(ev);
      evs := evs[e := ev.(timeout := false)];
      if IsCommon(ev.at, |lists|) {
        var i := Index(ev.at);
        lists := lists[i := lists[i].(events := Queues.RemoveOne(lists[i].events, e))];
      } else {
        heap := heap - {e};
      }
    }

    /* ----- the operations ----- */

    method EventDel(e: nat, evenIfFinalizing: bool)
      requires Known(View(), e)
      modifies this
      ensures View() == Del(old(View()), e, evenIfFinalizing)
    {
      hide RemoveTimeout, RemoveActive, RemoveLater, RemoveInserted;
      if evs[e].finalizing && !evenIfFinalizing {
        return;
      }
      if evs[e].timeout {
        QueueRemoveTimeout(e);
      }
      if evs[e].active {
        QueueRemoveActive(e);
      } else if evs[e].later {
        QueueRemoveLater(e);
      }
      if evs[e].inserted {
        QueueRemoveInserted(e);
      }
    }

    method EventCallbackActivate(e: nat) returns (code: int)
      requires Known(View(), e)
      modifies this
      ensures Outcome(code, View()) == CallbackActivate(old(View()), e)
    {
      hide InsertActive, RemoveLater;
      if evs[e].finalizing || evs[e].active {
        return 0;
      }
      code := 1;
      if evs[e].later {
        QueueRemoveLater(e);
        code := 0;
      }
      QueueInsertActive(e);
    }

    method EventActive(e: nat, res: set<Reason>)
      requires Known(View(), e)
      modifies this
      ensures View() == Active(old(View()), e, res)
    {
      hide CallbackActivate;
      if evs[e].finalizing {
        return;
      }
      if evs[e].active {
        evs := evs[e := evs[e].(res := evs[e].res + res)];
        return;
      }
      evs := evs[e := evs[e].(res := if evs[e].later then evs[e].res + res else res)];
      if evs[e].pri < running {
        cont := true;
      }
      var _ := EventCallbackActivate(e);
    }

    method EventActiveLater(e: nat, res: set<Reason>)
      requires Known(View(), e)
      modifies this
      ensures View() == ActiveLater(old(View()), e, res)
    {
      hide InsertLater;
      if evs[e].active || evs[e].later {
        evs := evs[e := evs[e].(res := evs[e].res + res)];
        return;
      }
      evs := evs[e := evs[e].(res := res)];
      QueueInsertLater(e);
    }

    /** The part of event_add_nolock_ about the timeout. */
    method AddTimeoutPart(e: nat, at: Timeval, ioTimeout: Timeval)
      requires Known(View(), e)
      modifies this
      ensures View() == AddTimeout(old(View()), e, at, ioTimeout)
    {
      hide RemoveTimeout, RemoveActive, InsertTimeout;
      if evs[e].timeout {
        QueueRemoveTimeout(e);
      }
      if evs[e].active && TimedOut in evs[e].res {
        QueueRemoveActive(e);
      }
      evs := evs[e := evs[e].(at := at, ioTimeout := ioTimeout)];
      QueueInsertTimeout(e);
    }

    method CommonTimeoutSchedule(i: nat)
      requires i < |lists| && lists[i].events != [] && Known(View(), lists[i].timer)
      modifies this
      ensures View() == Schedule(old(View()), i)
    {
      hide AddTimeout, Real;
      var t := lists[i].timer;
      if !evs[t].finalizing {
        AddTimeoutPart(t, Real(Ev(evs, lists[i].events[0]).at), evs[t].ioTimeout);
      }
    }

    /** event_add_nolock_: refused exactly when the event is being finalized, or is to
        go onto the event map and that refuses it; then nothing changes. Otherwise
        it is on the map and has its timeout as asked. */
    method EventAdd(e: nat, tv: Options.Option<Timeval>, absolute: bool, now: Timeval, mapOk: bool) returns (code: int)
      requires Valid() && EventSteps.Usable(View(), e) && (tv.Some? ==> EventSteps.TimeAsked(View(), e, tv.value, absolute, now))
      modifies this
      ensures Valid() && Outcome(code, View()) == Add(old(View()), e, tv, absolute, now, mapOk)
      ensures code == if old(evs)[e].finalizing || (EventEffects.Wants(old(evs)[e]) && !mapOk) then -1 else 0
      ensures code == -1 ==> View() == old(View())
      ensures code == 0 ==> EventEffects.AddedTo(old(View()), View(), e, tv, absolute, now) && EventEffects.Placed(View(), e)
    {
      hide InvBut, Add, EventEffects.AddedTo, EventEffects.Wants, EventEffects.Placed, IsTimer, TimeOk, DueOk, High;
      EventEffects.AddEffect(View(), e, tv, absolute, now, mapOk);
      EventRuns.AddKeeps(View(), e, tv, absolute, now, mapOk);
      EventEffects.AddSize(View(), e, tv, absolute, now, mapOk);
      code := AddNow(e, tv, absolute, now, mapOk);
      EventEffects.IsPlaced(View(), e);
    }

    method AddNow(e: nat, tv: Options.Option<Timeval>, absolute: bool, now: Timeval, mapOk: bool) returns (code: int)
      requires Valid() && EventSteps.Usable(View(), e) && (tv.Some? ==> EventSteps.TimeAsked(View(), e, tv.value, absolute, now))
      modifies this
      ensures Outcome(code, View()) == Add(old(View()), e, tv, absolute, now, mapOk)
    {
      hide InvBut, InsertInserted, AddTimeout, Schedule, IsTimer, EventKeeps.SameTimers, IsCommon, Index, TimeOk, DueOk, High, After;
      if evs[e].finalizing {
        return -1;
      }
      code := 0;
      ghost var s := View();
      EventRuns.AddInsertedKeeps(s, e, mapOk);
      if (evs[e].io || evs[e].signal) && !evs[e].inserted && !evs[e].active && !evs[e].later {
        if !mapOk {
          return -1;
        }
        QueueInsertInserted(e);
      }
      if tv.Some? {
        EventSteps.DeadlineOk(s, e, tv.value, absolute, now);
        AddDeadline(e, if absolute then tv.value else After(now, tv.value, |lists|),
                    if evs[e].closure == OnPersist && !absolute then tv.value else evs[e].ioTimeout);
      }
    }

    method AddDeadline(e: nat, at: Timeval, io: Timeval)
      requires Valid() && EventSteps.Usable(View(), e) && !evs[e].finalizing
      requires DueOk(at, |lists|) && TimeOk(io, |lists|)
      requires evs[e].closure == OnPersist ==> High(at) == High(io)
      modifies this
      ensures View() == Settle(AddTimeout(old(View()), e, at, io), e)
    {
      hide InvBut, AddTimeout, Schedule, IsTimer, EventKeeps.SameTimers, IsCommon, Index, TimeOk, DueOk, High;
      ghost var s := View();
      EventRuns.AddTimed(s, e, at, io);
      AtAfterAdd(s, e, at, io);
      AddTimeoutPart(e, at, io);
      CommonIndex(at, |lists|);
      if IsCommon(at, |lists|) {
        EventSteps.AddTimeoutCommon(s, e, at, io);
        var i := Index(at);
        if lists[i].events[0] == e {
          CommonTimeoutSchedule(i);
        }
      }
    }
  }

  lemma {:induction false} AtAfterAdd(s: Base, e: nat, at: Timeval, io: Timeval)
    requires Known(s, e)
    ensures AddTimeout(s, e, at, io).evs[e].at == at && |AddTimeout(s, e, at, io).lists| == |s.lists|
  {
    hide Unhook, IsCommon, Index, InsertOrdered;
  }
}
