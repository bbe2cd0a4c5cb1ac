/** The event base of event.c: events with their flags, the queues that hold
    them, and the operations on a single queue. */
module EventModel {
  import opened Queues
  import opened Timevals

  datatype Reason = TimedOut | Readable | Writable | Closing | Signalled | Finalized

  datatype Closure = OnEvent | OnSignal | OnPersist | OnSelf | OnFinalize

  /** An event or a bare callback (init is EVLIST_INIT); the other flags say
      which queues hold it. */
  datatype Event = Event(
    init: bool, io: bool, signal: bool, persist: bool, closure: Closure,
    pri: nat, internal: bool,
    inserted: bool, timeout: bool, active: bool, later: bool, finalizing: bool,
    res: set<Reason>, at: Timeval, ioTimeout: Timeval)

  /** struct common_timeout_list; timer is its internal timeout event. */
  datatype CommonList = CommonList(duration: Timeval, events: seq<nat>, timer: nat)

  /** The base. Events are known by their index; fds is the event map; firing is
      the event whose common-timeout callback has been taken off the queues and
      has not finished its locked part, or -1. */
  datatype Base = Base(
    evs: seq<Event>, fds: set<nat>, active: seq<seq<nat>>, later: seq<nat>,
    heap: set<nat>, lists: seq<CommonList>,
    nActive: int, count: int, firing: int, running: int, cont: bool, brk: bool)

  /** DECR_EVENT_COUNT and INCR_EVENT_COUNT count only events that are not internal. */
  function Bump(ev: Event): nat {
    Flag(!ev.internal)
  }

  /** The queue memberships that event_count counts. */
  function Weight(ev: Event): nat {
    if ev.internal then 0 else Flag(ev.inserted) + Flag(ev.timeout) + Flag(ev.active) + Flag(ev.later)
  }

  function Weights(evs: seq<Event>): seq<int> {
    seq(|evs|, i requires 0 <= i < |evs| => Weight(evs[i]))
  }

  const BLANK := Event(false, false, false, false, OnSelf, 0, false, false, false, false, false, false, {}, ZERO, ZERO)

  function Ev(evs: seq<Event>, e: nat): Event {
    if e < |evs| then evs[e] else BLANK
  }

  predicate Known(s: Base, e: nat) {
    e < |s.evs| && s.evs[e].pri < |s.active|
  }

  /** The tables keep their sizes, and e its priority. */
  predicate Kept(s: Base, r: Base, e: nat) {
    && |r.evs| == |s.evs| && |r.active| == |s.active| && |r.lists| == |s.lists|
    && Known(r, e)
  }

  /* ----- the queues ----- */

  function InsertActive(s: Base, e: nat): (r: Base)
    requires Known(s, e)
    ensures Kept(s, r, e)
  {
    var ev := s.evs[e];
    if ev.active then s
    else s.(evs := s.evs[e := ev.(active := true)], active := s.active[ev.pri := s.active[ev.pri] + [e]],
            nActive := s.nActive + 1, count := s.count + Bump(ev))
  }

  function RemoveActive(s: Base, e: nat): (r: Base)
    requires Known(s, e)
    ensures Kept(s, r, e)
  {
    var ev := s.evs[e];
    s.(evs := s.evs[e := ev.(active := false)], active := s.active[ev.pri := RemoveOne(s.active[ev.pri], e)],
       nActive := s.nActive - 1, count := s.count - Bump(ev))
  }

  function InsertLater(s: Base, e: nat): (r: Base)
    requires Known(s, e)
    ensures Kept(s, r, e)
  {
    var ev := s.evs[e];
    if ev.active || ev.later then s
    else s.(evs := s.evs[e := ev.(later := true)], later := s.later + [e],
            nActive := s.nActive + 1, count := s.count + Bump(ev))
  }

  function RemoveLater(s: Base, e: nat): (r: Base)
    requires Known(s, e)
    ensures Kept(s, r, e)
  {
    var ev := s.evs[e];
    s.(evs := s.evs[e := ev.(later := false)], later := RemoveOne(s.later, e),
       nActive := s.nActive - 1, count := s.count - Bump(ev))
  }

  function InsertInserted(s: Base, e: nat): (r: Base)
    requires Known(s, e)
    ensures Kept(s, r, e)
  {
    var ev := s.evs[e];
    s.(evs := s.evs[e := ev.(inserted := true)], fds := s.fds + {e}, count := s.count + Bump(ev))
  }

  function RemoveInserted(s: Base, e: nat): (r: Base)
    requires Known(s, e)
    ensures Kept(s, r, e)
  {
    var ev := s.evs[e];
    s.(evs := s.evs[e := ev.(inserted := false)], fds := s.fds - {e}, count := s.count - Bump(ev))
  }

  /** insert_common_timeout_inorder: after the last event that is not later. */
  function InsertOrdered(q: seq<nat>, e: nat, evs: seq<Event>): seq<nat> {
    if q == [] || LE(Ev(evs, q[|q| - 1]).at, Ev(evs, e).at) then q + [e]
    else InsertOrdered(q[..|q| - 1], e, evs) + [q[|q| - 1]]
  }

  function InsertTimeout(s: Base, e: nat): (r: Base)
    requires Known(s, e)
    ensures Kept(s, r, e)
  {
    var ev := s.evs[e];
    var s1 := s.(evs := s.evs[e := ev.(timeout := true)], count := s.count + Bump(ev));
    if IsCommon(ev.at, |s.lists|) then
      var i := Index(ev.at);
      s1.(lists := s.lists[i := s.lists[i].(events := InsertOrdered(s.lists[i].events, e, s.evs))])
    else s1.(heap := s.heap + {e})
  }

  function RemoveTimeout(s: Base, e: nat): (r: Base)
    requires Known(s, e)
    ensures Kept(s, r, e)
  {
    var ev := s.evs[e];
    var s1 := s.(evs := s.evs[e := ev.(timeout := false)], count := s.count - Bump(ev));
    if IsCommon(ev.at, |s.lists|) then
      var i := Index(ev.at);
      s1.(lists := s.lists[i := s.lists[i].(events := RemoveOne(s.lists[i].events, e))])
    else s1.(heap := s.heap - {e})
  }

  /* ----- the invariant ----- */

  /** Each active queue holds exactly the active callbacks of its priority, once. */
  ghost predicate ActiveAt(ev: Event, active: seq<seq<nat>>, e: nat) {
    forall p | 0 <= p < |active| :: Count(active[p], e) == Flag(ev.active && ev.pri == p)
  }

  ghost predicate ListAt(ev: Event, lists: seq<CommonList>, e: nat) {
    forall i | 0 <= i < |lists| ::
      Count(lists[i].events, e) == Flag(ev.timeout && IsCommon(ev.at, |lists|) && Index(ev.at) == i)
  }

  ghost predicate HeapAt(ev: Event, heap: set<nat>, n: nat, e: nat) {
    e in heap <==> ev.timeout && !IsCommon(ev.at, n)
  }

  ghost predicate Sane(ev: Event, nQueues: nat, nLists: nat) {
    && ev.pri < nQueues && !(ev.active && ev.later)
    && (ev.finalizing ==> !ev.timeout && !ev.inserted)
    && DueOk(ev.at, nLists) && TimeOk(ev.ioTimeout, nLists)
    && (ev.closure == OnPersist ==> High(ev.at) == High(ev.ioTimeout))
  }

  /** Everything said of the one event e: its flags are its queues. */
  ghost predicate EventAt(s: Base, e: nat) {
    var ev := Ev(s.evs, e);
    && ActiveAt(ev, s.active, e)
    && Count(s.later, e) == Flag(ev.later)
    && (e in s.fds <==> ev.inserted)
    && HeapAt(ev, s.heap, |s.lists|, e)
    && ListAt(ev, s.lists, e)
    && (e < |s.evs| ==> Sane(ev, |s.active|, |s.lists|))
  }

  ghost predicate FlagsOk(s: Base) {
    |s.lists| <= MAX_COMMON_TIMEOUTS && |s.active| > 0 && forall e: nat {:trigger EventAt(s, e)} :: EventAt(s, e)
  }

  ghost predicate CountsOk(s: Base) {
    s.nActive == Total(s.active) + |s.later| && s.count == Sum(Weights(s.evs))
  }

  ghost predicate Sorted(q: seq<nat>, evs: seq<Event>) {
    forall i, j | 0 <= i < j < |q| :: LE(Ev(evs, q[i]).at, Ev(evs, q[j]).at)
  }

  /** The internal timer of a list: never finalized, never on the map, never common. */
  ghost predicate TimerOk(ev: Event) {
    && ev.init && ev.internal && !ev.io && !ev.signal && !ev.persist && ev.closure == OnEvent
    && !ev.finalizing && Normal(ev.at)
  }

  /** A non-empty list is looked after: its timer is in the heap no later than
      the head's deadline, or is active, or its callback is under way. */
  ghost predicate Covered(s: Base, l: CommonList) {
    l.events != [] ==>
      var t, head := Ev(s.evs, l.timer), Ev(s.evs, l.events[0]);
      (t.timeout && LE(t.at, Real(head.at))) || t.active || s.firing == l.timer
  }

  /** What holds of list i; a list whose timer is skip need not be covered yet. */
  ghost predicate ListOk(s: Base, i: nat, skip: int) {
    i < |s.lists| ==>
      var l := s.lists[i];
      && l.timer < |s.evs| && TimerOk(s.evs[l.timer])
      && Coded(l.duration, |s.lists|) && Index(l.duration) == i
      && Sorted(l.events, s.evs)
      && (l.timer != skip ==> Covered(s, l))
  }

  ghost predicate ListsOk(s: Base, skip: int) {
    forall i: nat {:trigger ListOk(s, i, skip)} :: ListOk(s, i, skip)
  }

  ghost predicate TimersApart(lists: seq<CommonList>) {
    forall i, j | 0 <= i < j < |lists| :: lists[i].timer != lists[j].timer
  }

  predicate IsTimer(s: Base, e: nat) {
    exists i :: 0 <= i < |s.lists| && s.lists[i].timer == e
  }

  ghost predicate InvBut(s: Base, skip: int) {
    FlagsOk(s) && CountsOk(s) && ListsOk(s, skip) && TimersApart(s.lists)
  }

  ghost predicate Inv(s: Base) {
    InvBut(s, -1)
  }
}
