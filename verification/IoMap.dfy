/** The per-descriptor event map and its coalescing change list, as states and
    steps. The class in IoBase.dfy runs the same steps in place. */
module IoMap {
  import Options
  import opened EventKinds
  import opened EpollTable
  import EpollKernel

  datatype Event = Event(id: nat, fd: int, kinds: Kinds, et: bool)

  datatype Counters = Counters(nread: nat, nwrite: nat, nclose: nat)

  /** struct evmap_io, with the change-list link kept beside it. */
  datatype FdEntry = FdEntry(events: seq<Event>, n: Counters, idxplus1: nat)

  /** What the event base keeps for I/O. `changelist` says which backend table
      is in use: event_changelist_add_/del_ or epoll_nochangelist_add/del. */
  datatype Base = Base(
    changelist: bool, io: map<int, FdEntry>, changes: seq<EventChange>, kernel: EpollKernel.Kernel)

  const COUNTER_MAX := 0xffff
  const NO_ENTRY := FdEntry([], Counters(0, 0, 0), 0)

  function One(b: bool): nat {
    if b then 1 else 0
  }

  function Bump(n: Counters, k: Kinds): Counters {
    Counters(n.nread + One(k.read), n.nwrite + One(k.write), n.nclose + One(k.closed))
  }

  function Drop(n: Counters, k: Kinds): (m: Counters)
    requires k.Within(Nonzero(n))
    ensures n == Bump(m, k)
  {
    Counters(n.nread - One(k.read), n.nwrite - One(k.write), n.nclose - One(k.closed))
  }

  function Nonzero(n: Counters): Kinds {
    Kinds(n.nread > 0, n.nwrite > 0, n.nclose > 0)
  }

  predicate Fits(n: Counters) {
    n.nread <= COUNTER_MAX && n.nwrite <= COUNTER_MAX && n.nclose <= COUNTER_MAX
  }

  /** How many of the events wait for each kind. */
  function Count(events: seq<Event>): Counters {
    if events == [] then Counters(0, 0, 0) else Bump(Count(events[1..]), events[0].kinds)
  }

  function EntryOf(b: Base, fd: int): FdEntry {
    if fd in b.io then b.io[fd] else NO_ENTRY
  }

  /** The kinds that some event on fd is waiting for. */
  function Wanted(b: Base, fd: int): Kinds {
    Nonzero(EntryOf(b, fd).n)
  }

  predicate Pending(b: Base, fd: int) {
    EntryOf(b, fd).idxplus1 != 0
  }

  /* ----- the change list ----- */

  function AddBits(have: ChangeBits, want: bool, et: bool): ChangeBits {
    if want then ChangeBits(true, false, et) else have
  }

  /** Deleting a kind that was not there when the change was opened undoes an
      uncommitted add; otherwise it asks for a delete. */
  function DelBits(have: ChangeBits, want: bool, was: bool): ChangeBits {
    if want then ChangeBits(false, was, false) else have
  }

  function Added(ch: EventChange, k: Kinds, et: bool): EventChange {
    ch.(read := AddBits(ch.read, k.read, et),
        write := AddBits(ch.write, k.write, et),
        closed := AddBits(ch.closed, k.closed, et))
  }

  function Removed(ch: EventChange, k: Kinds): EventChange {
    ch.(read := DelBits(ch.read, k.read, ch.was.read),
        write := DelBits(ch.write, k.write, ch.was.write),
        closed := DelBits(ch.closed, k.closed, ch.was.closed))
  }

  function Fresh(fd: int, was: Kinds): EventChange {
    EventChange(fd, was, UNCHANGED, UNCHANGED, UNCHANGED)
  }

  /** epoll_nochangelist_del asks for a delete whatever was there before. */
  function DirectDel(fd: int, was: Kinds, k: Kinds): EventChange {
    EventChange(fd, was, ChangeBits(false, k.read, false), ChangeBits(false, k.write, false),
                ChangeBits(false, k.closed, false))
  }

  predicate HasSlot(b: Base, fd: int) {
    1 <= EntryOf(b, fd).idxplus1 <= |b.changes|
  }

  /** event_changelist_get_or_construct: the change recorded for fd, or a new
      one that remembers what was watched before it. */
  function Open(b: Base, fd: int, was: Kinds): EventChange {
    if HasSlot(b, fd) then b.changes[EntryOf(b, fd).idxplus1 - 1] else Fresh(fd, was)
  }

  /** Writes the change of fd back, in its own slot or in a new one at the end. */
  function Record(b: Base, fd: int, ch: EventChange): (r: Base)
    ensures r.changelist == b.changelist
  {
    if HasSlot(b, fd) then b.(changes := b.changes[EntryOf(b, fd).idxplus1 - 1 := ch])
    else b.(changes := b.changes + [ch],
            io := b.io[fd := EntryOf(b, fd).(idxplus1 := |b.changes| + 1)])
  }

  /** The backend's add: event_changelist_add_ or epoll_nochangelist_add. */
  function BackendAdd(b: Base, fd: int, was: Kinds, k: Kinds, et: bool): (r: Base)
    ensures r.changelist == b.changelist
  {
    if b.changelist then Record(b, fd, Added(Open(b, fd, was), k, et))
    else b.(kernel := EpollKernel.Applied(b.kernel, Added(Fresh(fd, was), k, et)))
  }

  /** The backend's delete: event_changelist_del_ or epoll_nochangelist_del. */
  function BackendDel(b: Base, fd: int, was: Kinds, k: Kinds): (r: Base)
    ensures r.changelist == b.changelist
  {
    if b.changelist then Record(b, fd, Removed(Open(b, fd, was), k))
    else b.(kernel := EpollKernel.Applied(b.kernel, DirectDel(fd, was, k)))
  }

  /* ----- steps ----- */

  /** The kinds whose counter a delete takes from one to zero. */
  function Lastly(n: Counters, k: Kinds): Kinds {
    Kinds(k.read && n.nread == 1, k.write && n.nwrite == 1, k.closed && n.nclose == 1)
  }

  /** Replaces the events and counters of fd and keeps its link. */
  function Refill(b: Base, fd: int, events: seq<Event>, n: Counters): (r: Base)
    ensures r.changelist == b.changelist
  {
    b.(io := b.io[fd := EntryOf(b, fd).(events := events, n := n)])
  }

  /** evmap_io_add_ past its overflow check. */
  function AddFitting(b: Base, ev: Event, e: FdEntry): (r: Base)
    ensures r.changelist == b.changelist
  {
    var newly := ev.kinds.Minus(Nonzero(e.n));
    var b1 := if newly.Empty() then b
              else BackendAdd(b, ev.fd, Nonzero(e.n), newly, ev.et);
    Refill(b1, ev.fd, [ev] + e.events, Bump(e.n, ev.kinds))
  }

  /** GET_IO_SLOT_AND_CTOR */
  function WithEntry(b: Base, fd: int): (r: Base)
    ensures r.changelist == b.changelist
  {
    b.(io := b.io[fd := EntryOf(b, fd)])
  }

  /** evmap_io_add_ */
  function AddStep(b: Base, ev: Event): (r: Base)
    ensures r.changelist == b.changelist
  {
    if ev.fd < 0 then b
    else
      var b0 := WithEntry(b, ev.fd);
      var e := EntryOf(b0, ev.fd);
      if Fits(Bump(e.n, ev.kinds)) then AddFitting(b0, ev, e) else b0
  }

  function Without(events: seq<Event>, ev: Event): seq<Event> {
    if events == [] then []
    else if events[0] == ev then events[1..]
    else [events[0]] + Without(events[1..], ev)
  }

  /** evmap_io_del_ */
  function DelStep(b: Base, ev: Event): (r: Base)
    requires ev.fd >= 0 ==> Listed(b, ev) && ev.kinds.Within(Wanted(b, ev.fd))
    ensures r.changelist == b.changelist
  {
    if ev.fd < 0 then b
    else
      var e := EntryOf(b, ev.fd);
      var lastly := Lastly(e.n, ev.kinds);
      var b1 := if lastly.Empty() then b
                else BackendDel(b, ev.fd, Nonzero(e.n), lastly);
      Refill(b1, ev.fd, Without(e.events, ev), Drop(e.n, ev.kinds))
  }

  function Unlinked(io: map<int, FdEntry>): map<int, FdEntry> {
    map fd | fd in io :: io[fd].(idxplus1 := 0)
  }

  /** The start of epoll_dispatch: apply the list, then clear it and its links. */
  function DispatchStep(b: Base): Base {
    b.(kernel := EpollKernel.AppliedAll(b.kernel, b.changes), changes := [], io := Unlinked(b.io))
  }

  /** The descriptor was closed, reopened or duplicated behind the base's back:
      the kernel now holds something else for it. */
  function DisturbStep(b: Base, fd: int, held: Options.Option<EpollKernel.Interest>): Base {
    b.(kernel := if held.Some? then b.kernel[fd := held.value] else b.kernel - {fd})
  }

  function FirstIsEdge(e: FdEntry): bool {
    !Nonzero(e.n).Empty() && e.events != [] && e.events[0].et
  }

  /** evmap_io_reinit_iter_fn, once its link is cleared. */
  function ReinitFd(b: Base, fd: int): Base {
    var e := EntryOf(b, fd);
    BackendAdd(b, fd, NO_KINDS, Nonzero(e.n), FirstIsEdge(e))
  }

  /** evmap_io_foreach_fd over the descriptors below `bound`. */
  function ReinitBelow(b: Base, bound: nat): Base {
    if bound == 0 then b
    else
      var r := ReinitBelow(b, bound - 1);
      if bound - 1 in r.io then ReinitFd(r, bound - 1) else r
  }

  /** event_reinit: a new epoll descriptor, an empty list, everything re-added. */
  function ReinitStep(b: Base, bound: nat): Base {
    ReinitBelow(b.(kernel := map[], changes := [], io := Unlinked(b.io)), bound)
  }

  /* ----- the invariant ----- */

  /** Counters agree with the listed events (evmap_io_check_integrity_fn). */
  predicate EventsOk(fd: int, events: seq<Event>, n: Counters) {
    && fd >= 0
    && n == Count(events)
    && Fits(n)
    && (forall i | 0 <= i < |events| :: events[i].fd == fd)
  }

  predicate BitsCoherent(bits: ChangeBits, was: bool, now: bool) {
    && (bits.add ==> now && !bits.del)
    && (bits.del ==> was && !now)
    && (!bits.add && !bits.del ==> was == now)
  }

  /** A recorded change leads from what was to what is wanted now. */
  predicate Coherent(ch: EventChange, now: Kinds) {
    && BitsCoherent(ch.read, ch.was.read, now.read)
    && BitsCoherent(ch.write, ch.was.write, now.write)
    && BitsCoherent(ch.closed, ch.was.closed, now.closed)
  }

  predicate Counted(b: Base, fd: int) {
    fd in b.io ==> EventsOk(fd, b.io[fd].events, b.io[fd].n)
  }

  /** A linked descriptor's slot holds its own change, on course. */
  predicate OnCourse(b: Base, fd: int) {
    Pending(b, fd) ==>
      && HasSlot(b, fd)
      && Open(b, fd, NO_KINDS).fd == fd
      && Coherent(Open(b, fd, NO_KINDS), Wanted(b, fd))
  }

  /** Every slot is linked back from its descriptor (event_changelist_assert_ok). */
  predicate SlotOk(b: Base, i: int) {
    0 <= i < |b.changes| ==> EntryOf(b, b.changes[i].fd).idxplus1 == i + 1
  }

  ghost predicate Inv(b: Base) {
    && (forall fd {:trigger Counted(b, fd)} :: Counted(b, fd))
    && (forall fd {:trigger OnCourse(b, fd)} :: OnCourse(b, fd))
    && (forall i {:trigger SlotOk(b, i)} :: SlotOk(b, i))
    && (!b.changelist ==> b.changes == [])
  }

  predicate Listed(b: Base, ev: Event) {
    ev.fd in b.io && ev in b.io[ev.fd].events
  }

  lemma CountCons(ev: Event, rest: seq<Event>)
    ensures Count([ev] + rest) == Bump(Count(rest), ev.kinds)
  {
    assert ([ev] + rest)[1..] == rest;
  }

  lemma BumpTwice(n: Counters, a: Kinds, b: Kinds)
    ensures Bump(Bump(n, a), b) == Bump(Bump(n, b), a)
    ensures a.Within(Nonzero(Bump(n, a)))
  {
  }

  /** A listed event is counted, and taking it off the list uncounts it. */
  lemma {:induction false} CountWithin(events: seq<Event>, ev: Event)
    requires ev in events
    ensures Count(events) == Bump(Count(Without(events, ev)), ev.kinds)
    ensures ev.kinds.Within(Nonzero(Count(events)))
  {
    var first, rest := events[0], events[1..];
    if first != ev {
      CountWithin(rest, ev);
      var w := Without(rest, ev);
      assert Without(events, ev) == [first] + w;
      CountCons(first, w);
      assert Count(events) == Bump(Count(rest), first.kinds);
      BumpTwice(Count(w), first.kinds, ev.kinds);
    }
    BumpTwice(Count(Without(events, ev)), ev.kinds, ev.kinds);
  }

  lemma {:induction false} WithoutSameFd(events: seq<Event>, ev: Event, fd: int)
    requires forall i | 0 <= i < |events| :: events[i].fd == fd
    ensures forall i | 0 <= i < |Without(events, ev)| :: Without(events, ev)[i].fd == fd
  {
    if events != [] && events[0] != ev {
      WithoutSameFd(events[1..], ev, fd);
    }
  }

  lemma EventsOkAdd(ev: Event, events: seq<Event>, n: Counters)
    requires EventsOk(ev.fd, events, n) && Fits(Bump(n, ev.kinds))
    ensures EventsOk(ev.fd, [ev] + events, Bump(n, ev.kinds))
  {
    CountCons(ev, events);
  }

  lemma DropBump(m: Counters, k: Kinds)
    requires k.Within(Nonzero(Bump(m, k)))
    ensures Drop(Bump(m, k), k) == m
    ensures Fits(Bump(m, k)) ==> Fits(m)
  {
  }

  lemma EventsOkDel(ev: Event, events: seq<Event>, n: Counters)
    requires EventsOk(ev.fd, events, n) && ev in events
    ensures ev.kinds.Within(Nonzero(n))
    ensures EventsOk(ev.fd, Without(events, ev), Drop(n, ev.kinds))
  {
    CountWithin(events, ev);
    DropBump(Count(Without(events, ev)), ev.kinds);
    WithoutSameFd(events, ev, ev.fd);
  }

  /** A coherent change is well formed and aims at what is wanted. */
  lemma CoherentTarget(ch: EventChange, now: Kinds)
    requires Coherent(ch, now)
    ensures WellFormed(ch) && Target(ch) == now
  {
  }
}
