/** Adding, deleting and activating events: event_add_nolock_,
    event_del_nolock_, event_active_nolock_ and their relatives, each one a
    locked section, and what each of them keeps. */
module EventOps {
  import Options
  import opened Timevals
  import opened EventModel
  import EventLemmas

  /** What a call returns, and the base it leaves. */
  datatype Outcome = Outcome(code: int, base: Base)

  /* ----- event_del_nolock_ ----- */

  function DropTimeout(s: Base, e: nat): (r: Base)
    requires Known(s, e)
    ensures Kept(s, r, e)
  {
    if s.evs[e].timeout then RemoveTimeout(s, e) else s
  }

  function DropActive(s: Base, e: nat): (r: Base)
    requires Known(s, e)
    ensures Kept(s, r, e)
  {
    if s.evs[e].active then RemoveActive(s, e)
    else if s.evs[e].later then RemoveLater(s, e)
    else s
  }

  function DropInserted(s: Base, e: nat): (r: Base)
    requires Known(s, e)
    ensures Kept(s, r, e)
  {
    if s.evs[e].inserted then RemoveInserted(s, e) else s
  }

  function Del(s: Base, e: nat, evenIfFinalizing: bool): (r: Base)
    requires Known(s, e)
    ensures Kept(s, r, e)
  {
    if s.evs[e].finalizing && !evenIfFinalizing then s
    else DropInserted(DropActive(DropTimeout(s, e), e), e)
  }

  /* ----- event_active_nolock_ and event_callback_activate_nolock_ ----- */

  function CallbackActivate(s: Base, e: nat): (r: Outcome)
    requires Known(s, e)
    ensures Kept(s, r.base, e)
  {
    var ev := s.evs[e];
    if ev.finalizing || ev.active then Outcome(0, s)
    else if ev.later then Outcome(0, InsertActive(RemoveLater(s, e), e))
    else Outcome(1, InsertActive(s, e))
  }

  function SetRes(s: Base, e: nat, res: set<Reason>): (r: Base)
    requires Known(s, e)
    ensures Kept(s, r, e)
  {
    s.(evs := s.evs[e := s.evs[e].(res := res)])
  }

  /** Reasons recorded, and the loop told when something more important is active. */
  function Noted(s: Base, e: nat, res: set<Reason>): (r: Base)
    requires Known(s, e)
    ensures Known(r, e)
  {
    var s1 := SetRes(s, e, res);
    if s.evs[e].pri < s.running then s1.(cont := true) else s1
  }

  function Active(s: Base, e: nat, res: set<Reason>): (r: Base)
    requires Known(s, e)
    ensures Kept(s, r, e)
  {
    var ev := s.evs[e];
    if ev.finalizing then s
    else if ev.active then SetRes(s, e, ev.res + res)
    else CallbackActivate(Noted(s, e, if ev.later then ev.res + res else res), e).base
  }

  function ActiveLater(s: Base, e: nat, res: set<Reason>): (r: Base)
    requires Known(s, e)
    ensures Kept(s, r, e)
  {
    var ev := s.evs[e];
    if ev.active || ev.later then SetRes(s, e, ev.res + res)
    else InsertLater(SetRes(s, e, res), e)
  }

  /* ----- event_add_nolock_ ----- */

  /** Off its old timer structure, and off the active queue when a timeout put it there. */
  function Unhook(s: Base, e: nat): (r: Base)
    requires Known(s, e)
    ensures Kept(s, r, e)
  {
    var s1 := DropTimeout(s, e);
    if s1.evs[e].active && TimedOut in s1.evs[e].res then RemoveActive(s1, e) else s1
  }

  /** The part about the timeout: onto the structure of the new deadline. */
  function AddTimeout(s: Base, e: nat, at: Timeval, ioTimeout: Timeval): (r: Base)
    requires Known(s, e)
    ensures Kept(s, r, e)
  {
    InsertTimeout(EventLemmas.SetAt(Unhook(s, e), e, at, ioTimeout), e)
  }

  /** common_timeout_schedule: event_add_nolock_ on the list's own timer. */
  function Schedule(s: Base, i: nat): Base
    requires i < |s.lists| && s.lists[i].events != [] && Known(s, s.lists[i].timer)
  {
    var t := s.lists[i].timer;
    if s.evs[t].finalizing then s
    else AddTimeout(s, t, Real(Ev(s.evs, s.lists[i].events[0]).at), s.evs[t].ioTimeout)
  }

  function AddInserted(s: Base, e: nat, mapOk: bool): (r: Outcome)
    requires Known(s, e)
    ensures Kept(s, r.base, e)
  {
    var ev := s.evs[e];
    if (ev.io || ev.signal) && !ev.inserted && !ev.active && !ev.later then
      if mapOk then Outcome(0, InsertInserted(s, e)) else Outcome(-1, s)
    else Outcome(0, s)
  }

  function Deadline(s: Base, tv: Timeval, absolute: bool, now: Timeval): Timeval {
    if absolute then tv else After(now, tv, |s.lists|)
  }

  function NewIoTimeout(ev: Event, tv: Timeval, absolute: bool): Timeval {
    if ev.closure == OnPersist && !absolute then tv else ev.ioTimeout
  }

  /** The new head of a common list has its timer set. */
  function Settle(s: Base, e: nat): Base
    requires Known(s, e)
  {
    var i := Index(s.evs[e].at);
    if IsCommon(s.evs[e].at, |s.lists|) && s.lists[i].events != [] && s.lists[i].events[0] == e && Known(s, s.lists[i].timer)
    then Schedule(s, i)
    else s
  }

  /** mapOk is false when evmap_io_add_ or evmap_signal_add_ fails. */
  function Add(s: Base, e: nat, tv: Options.Option<Timeval>, absolute: bool, now: Timeval, mapOk: bool): Outcome
    requires Known(s, e)
  {
    if s.evs[e].finalizing then Outcome(-1, s)
    else
      var o := AddInserted(s, e, mapOk);
      if o.code == -1 || tv.None? then o
      else Outcome(0, Settle(AddTimeout(o.base, e, Deadline(s, tv.value, absolute, now), NewIoTimeout(s.evs[e], tv.value, absolute)), e))
  }

  /* ----- finalizing, priorities ----- */

  function SetClosure(s: Base, e: nat, c: Closure): (r: Base)
    requires Known(s, e)
    ensures Kept(s, r, e)
  {
    s.(evs := s.evs[e := s.evs[e].(closure := c)])
  }

  function SetFinalizing(s: Base, e: nat): (r: Base)
    requires Known(s, e)
    ensures Kept(s, r, e)
  {
    s.(evs := s.evs[e := s.evs[e].(finalizing := true)])
  }

  /** event_finalize_nolock_ */
  function Finalize(s: Base, e: nat): (r: Base)
    requires Known(s, e)
    ensures Kept(s, r, e)
  {
    SetFinalizing(Active(SetClosure(Del(s, e, false), e, OnFinalize), e, {Finalized}), e)
  }

  /** event_callback_cancel_nolock_ */
  function Cancel(s: Base, e: nat, evenIfFinalizing: bool): (r: Base)
    requires Known(s, e)
    ensures Kept(s, r, e)
  {
    if s.evs[e].finalizing && !evenIfFinalizing then s
    else if s.evs[e].init then Del(s, e, evenIfFinalizing)
    else DropActive(s, e)
  }

  /** event_callback_finalize_nolock_ */
  function CallbackFinalize(s: Base, e: nat): (r: Base)
    requires Known(s, e)
    ensures Kept(s, r, e)
  {
    var s1 := if s.evs[e].init then Del(s, e, false) else Cancel(s, e, false);
    SetFinalizing(CallbackActivate(SetClosure(s1, e, OnFinalize), e).base, e)
  }

  /** event_priority_set */
  function SetPriority(s: Base, e: nat, pri: int): (r: Outcome)
    requires Known(s, e)
    ensures Kept(s, r.base, e)
  {
    if s.evs[e].active || pri < 0 || pri >= |s.active| then Outcome(-1, s)
    else Outcome(0, s.(evs := s.evs[e := s.evs[e].(pri := pri)]))
  }

  /** One round of event_queue_make_later_events_active. */
  function Promote(s: Base): Base
    requires s.later != [] && Known(s, s.later[0])
  {
    var e := s.later[0];
    var ev := s.evs[e];
    s.(evs := s.evs[e := ev.(later := false, active := true)], later := s.later[1..],
       active := s.active[ev.pri := s.active[ev.pri] + [e]])
  }
}
