/** What every step on the event map keeps. */
module IoMapLemmas {
  import opened EventKinds
  import EpollTable
  import EpollKernel
  import opened IoMap

  lemma {:induction false} AddedCoherent(ch: EpollTable.EventChange, now: Kinds, k: Kinds, et: bool)
    requires Coherent(ch, now)
    ensures Coherent(Added(ch, k.Minus(now), et), now.Plus(k))
  {
  }

  /** Deleting what is there, even when its add was never committed. */
  lemma {:induction false} RemovedCoherent(ch: EpollTable.EventChange, now: Kinds, k: Kinds)
    requires Coherent(ch, now) && k.Within(now)
    ensures Coherent(Removed(ch, k), now.Minus(k))
  {
  }

  lemma {:induction false} BumpNonzero(n: Counters, k: Kinds)
    ensures Nonzero(Bump(n, k)) == Nonzero(n).Plus(k)
    ensures k.Minus(Nonzero(n)).Empty() ==> Nonzero(Bump(n, k)) == Nonzero(n)
  {
  }

  lemma {:induction false} DropNonzero(n: Counters, k: Kinds)
    requires k.Within(Nonzero(n))
    ensures Nonzero(Drop(n, k)) == Nonzero(n).Minus(Lastly(n, k))
    ensures Lastly(n, k).Within(Nonzero(n))
  {
  }

  /** Recording the change of fd and then its events and counters: the slots
      stay in bijection with the links. */
  lemma {:induction false} RecordKeepsInv(b: Base, ch: EpollTable.EventChange, events: seq<Event>, n: Counters)
    requires Inv(b) && b.changelist
    requires EventsOk(ch.fd, events, n)
    requires Coherent(ch, Nonzero(n))
    ensures Inv(Refill(Record(b, ch.fd, ch), ch.fd, events, n))
  {
    hide EventsOk, Coherent, Count, Fits, Nonzero;
    var fd := ch.fd;
    var r := Refill(Record(b, fd, ch), fd, events, n);
    assert OnCourse(b, fd);
    forall g ensures Counted(r, g) {
      assert Counted(b, g);
    }
    forall g ensures OnCourse(r, g) {
      assert OnCourse(b, g);
    }
    forall i ensures SlotOk(r, i) {
      assert SlotOk(b, i);
    }
  }

  lemma {:induction false} RefillKeepsInv(b: Base, fd: int, events: seq<Event>, n: Counters)
    requires Inv(b)
    requires EventsOk(fd, events, n)
    requires b.changelist ==> Nonzero(n) == Wanted(b, fd)
    ensures Inv(Refill(b, fd, events, n))
  {
    hide EventsOk, Coherent, Count, Fits, Nonzero;
    var r := Refill(b, fd, events, n);
    forall g ensures Counted(r, g) {
      assert Counted(b, g);
    }
    forall g ensures OnCourse(r, g) {
      assert OnCourse(b, g);
    }
    forall i ensures SlotOk(r, i) {
      assert SlotOk(b, i);
    }
  }

  lemma {:induction false} KernelKeepsInv(b: Base, k: EpollKernel.Kernel)
    requires Inv(b)
    ensures Inv(b.(kernel := k))
  {
    var r := b.(kernel := k);
    forall g ensures Counted(r, g) {
      assert Counted(b, g);
    }
    forall g ensures OnCourse(r, g) {
      assert OnCourse(b, g);
    }
    forall i ensures SlotOk(r, i) {
      assert SlotOk(b, i);
    }
  }

  lemma {:induction false} EventsOfOk(b: Base, fd: int)
    requires Inv(b) && fd >= 0
    ensures EventsOk(fd, EntryOf(b, fd).events, EntryOf(b, fd).n)
  {
    assert Counted(b, fd);
  }

  lemma {:induction false} OpenOk(b: Base, fd: int)
    requires Inv(b)
    ensures Coherent(Open(b, fd, Wanted(b, fd)), Wanted(b, fd))
    ensures Open(b, fd, Wanted(b, fd)).fd == fd
  {
    assert OnCourse(b, fd);
  }

  lemma {:induction false} AddFittingKeepsInv(b: Base, ev: Event, e: FdEntry)
    requires Inv(b) && e == EntryOf(b, ev.fd)
    requires EventsOk(ev.fd, [ev] + e.events, Bump(e.n, ev.kinds))
    ensures Inv(AddFitting(b, ev, e))
  {
    var now, n := Nonzero(e.n), Bump(e.n, ev.kinds);
    var newly := ev.kinds.Minus(now);
    BumpNonzero(e.n, ev.kinds);
    if newly.Empty() {
      RefillKeepsInv(b, ev.fd, [ev] + e.events, n);
    } else if b.changelist {
      var ch := Open(b, ev.fd, now);
      OpenOk(b, ev.fd);
      AddedCoherent(ch, now, ev.kinds, ev.et);
      RecordKeepsInv(b, Added(ch, newly, ev.et), [ev] + e.events, n);
    } else {
      var b1 := BackendAdd(b, ev.fd, now, newly, ev.et);
      KernelKeepsInv(b, b1.kernel);
      RefillKeepsInv(b1, ev.fd, [ev] + e.events, n);
    }
  }

  lemma {:induction false} WithEntryKeepsInv(b: Base, fd: int)
    requires Inv(b) && fd >= 0
    ensures Inv(WithEntry(b, fd))
  {
    hide EventsOk, Coherent, Count, Fits, Nonzero;
    var r := WithEntry(b, fd);
    EventsOfOk(b, fd);
    forall g ensures Counted(r, g) {
      assert Counted(b, g);
    }
    forall g ensures OnCourse(r, g) {
      assert OnCourse(b, g);
    }
    forall i ensures SlotOk(r, i) {
      assert SlotOk(b, i);
    }
  }

  lemma {:induction false} AddKeepsInv(b: Base, ev: Event)
    requires Inv(b)
    ensures Inv(AddStep(b, ev))
  {
    if ev.fd >= 0 {
      var b0 := WithEntry(b, ev.fd);
      var e := EntryOf(b0, ev.fd);
      WithEntryKeepsInv(b, ev.fd);
      if Fits(Bump(e.n, ev.kinds)) {
        EventsOfOk(b0, ev.fd);
        EventsOkAdd(ev, e.events, e.n);
        AddFittingKeepsInv(b0, ev, e);
      }
    }
  }

  /** What evmap_io_del_ may rely on: a listed event is counted. */
  lemma {:induction false} ListedIsWanted(b: Base, ev: Event)
    requires Inv(b) && Listed(b, ev)
    ensures ev.kinds.Within(Wanted(b, ev.fd)) && ev.fd >= 0
  {
    assert Counted(b, ev.fd);
    EventsOkDel(ev, b.io[ev.fd].events, b.io[ev.fd].n);
  }

  lemma {:induction false} NothingLastly(now: Kinds, k: Kinds)
    ensures k.Empty() ==> now.Minus(k) == now
  {
  }

  /** A delete that asks the change list for something. */
  lemma {:induction false} DelRecordedKeepsInv(b: Base, ev: Event, e: FdEntry)
    requires Inv(b) && b.changelist && e == EntryOf(b, ev.fd) && EventsOk(ev.fd, e.events, e.n) && ev in e.events
    requires ev.kinds.Within(Nonzero(e.n))
    ensures var b1 := BackendDel(b, ev.fd, Nonzero(e.n), Lastly(e.n, ev.kinds));
            Inv(Refill(b1, ev.fd, Without(e.events, ev), Drop(e.n, ev.kinds)))
  {
    hide Inv, EventsOk, Coherent, Nonzero, Lastly, Drop, Without, Record, Refill, Open, Removed;
    var now, lastly := Nonzero(e.n), Lastly(e.n, ev.kinds);
    EventsOkDel(ev, e.events, e.n);
    DropNonzero(e.n, ev.kinds);
    OpenOk(b, ev.fd);
    var ch := Open(b, ev.fd, now);
    RemovedCoherent(ch, now, lastly);
    RemovedFd(ch, lastly);
    RecordKeepsInv(b, Removed(ch, lastly), Without(e.events, ev), Drop(e.n, ev.kinds));
  }

  lemma {:induction false} RemovedFd(ch: EpollTable.EventChange, k: Kinds)
    ensures Removed(ch, k).fd == ch.fd
  {
  }

  /** A delete that leaves the change list alone. */
  lemma {:induction false} DelQuietKeepsInv(b: Base, ev: Event, e: FdEntry, b1: Base)
    requires Inv(b) && e == EntryOf(b, ev.fd) && EventsOk(ev.fd, e.events, e.n) && ev in e.events
    requires ev.kinds.Within(Nonzero(e.n)) && b1 == b.(kernel := b1.kernel)
    requires b.changelist ==> Lastly(e.n, ev.kinds).Empty()
    ensures Inv(Refill(b1, ev.fd, Without(e.events, ev), Drop(e.n, ev.kinds)))
  {
    hide Inv, EventsOk, Coherent, Nonzero, Lastly, Drop, Without, Refill;
    EventsOkDel(ev, e.events, e.n);
    DropNonzero(e.n, ev.kinds);
    NothingLastly(Nonzero(e.n), Lastly(e.n, ev.kinds));
    KernelKeepsInv(b, b1.kernel);
    RefillKeepsInv(b1, ev.fd, Without(e.events, ev), Drop(e.n, ev.kinds));
  }

  lemma {:induction false} DelKeepsInv(b: Base, ev: Event)
    requires Inv(b)
    requires ev.fd >= 0 ==> Listed(b, ev) && ev.kinds.Within(Wanted(b, ev.fd))
    ensures Inv(DelStep(b, ev))
  {
    hide Inv, EventsOk, Nonzero, Lastly, Drop, Without, Record, Refill, EpollKernel.Applied, Open, Removed, DirectDel;
    if ev.fd >= 0 {
      EventsOfOk(b, ev.fd);
      var e := EntryOf(b, ev.fd);
      var lastly := Lastly(e.n, ev.kinds);
      if !lastly.Empty() && b.changelist {
        DelRecordedKeepsInv(b, ev, e);
      } else {
        DelQuietKeepsInv(b, ev, e, if lastly.Empty() then b else BackendDel(b, ev.fd, Nonzero(e.n), lastly));
      }
    }
  }

  lemma {:induction false} DispatchKeepsInv(b: Base)
    requires Inv(b)
    ensures Inv(DispatchStep(b))
    ensures forall fd :: !Pending(DispatchStep(b), fd)
  {
    var r := DispatchStep(b);
    forall g ensures Counted(r, g) {
      assert Counted(b, g);
    }
  }

  /* ----- what is left alone ----- */

  /** The steps on one descriptor do not touch another one. */
  predicate SameAt(b: Base, r: Base, fd: int) {
    && EntryOf(r, fd) == EntryOf(b, fd)
    && (Pending(b, fd) ==> Open(r, fd, NO_KINDS) == Open(b, fd, NO_KINDS))
    && (fd in r.kernel <==> fd in b.kernel)
    && (fd in b.kernel ==> r.kernel[fd] == b.kernel[fd])
  }

  lemma {:induction false} RecordFrame(b: Base, at: int, ch: EpollTable.EventChange, fd: int)
    requires Inv(b) && fd != at
    ensures SameAt(b, Record(b, at, ch), fd)
  {
    assert OnCourse(b, fd) && OnCourse(b, at);
  }

  lemma {:induction false} BackendAddFrame(b: Base, at: int, was: Kinds, k: Kinds, et: bool, fd: int)
    requires Inv(b) && fd != at
    ensures SameAt(b, BackendAdd(b, at, was, k, et), fd)
  {
    if b.changelist {
      RecordFrame(b, at, Added(Open(b, at, was), k, et), fd);
    }
  }

  lemma {:induction false} BackendDelFrame(b: Base, at: int, was: Kinds, k: Kinds, fd: int)
    requires Inv(b) && fd != at
    ensures SameAt(b, BackendDel(b, at, was, k), fd)
  {
    if b.changelist {
      RecordFrame(b, at, Removed(Open(b, at, was), k), fd);
    }
  }

  lemma {:induction false} RefillFrame(b: Base, b1: Base, at: int, events: seq<Event>, n: Counters, fd: int)
    requires SameAt(b, b1, fd) && fd != at
    ensures SameAt(b, Refill(b1, at, events, n), fd)
  {
  }

  lemma {:induction false} AddFittingFrame(b: Base, ev: Event, e: FdEntry, fd: int)
    requires Inv(b) && fd != ev.fd
    ensures SameAt(b, AddFitting(b, ev, e), fd)
  {
    var newly := ev.kinds.Minus(Nonzero(e.n));
    var b1 := if newly.Empty() then b
              else BackendAdd(b, ev.fd, Nonzero(e.n), newly, ev.et);
    BackendAddFrame(b, ev.fd, Nonzero(e.n), newly, ev.et, fd);
    RefillFrame(b, b1, ev.fd, [ev] + e.events, Bump(e.n, ev.kinds), fd);
  }

  lemma {:induction false} WithEntryFrame(b: Base, at: int, fd: int)
    ensures SameAt(b, WithEntry(b, at), fd)
  {
  }

  lemma {:induction false} SameAtTransitive(a: Base, b: Base, c: Base, fd: int)
    requires SameAt(a, b, fd) && SameAt(b, c, fd)
    ensures SameAt(a, c, fd)
  {
  }

  lemma {:induction false} AddFrame(b: Base, ev: Event, fd: int)
    requires Inv(b) && fd != ev.fd
    ensures SameAt(b, AddStep(b, ev), fd)
  {
    if ev.fd >= 0 {
      var b0 := WithEntry(b, ev.fd);
      var e := EntryOf(b0, ev.fd);
      WithEntryKeepsInv(b, ev.fd);
      WithEntryFrame(b, ev.fd, fd);
      if Fits(Bump(e.n, ev.kinds)) {
        AddFittingFrame(b0, ev, e, fd);
        SameAtTransitive(b, b0, AddFitting(b0, ev, e), fd);
      }
    }
  }

  lemma {:induction false} DelFrame(b: Base, ev: Event, fd: int)
    requires Inv(b) && fd != ev.fd
    requires ev.fd >= 0 ==> Listed(b, ev) && ev.kinds.Within(Wanted(b, ev.fd))
    ensures SameAt(b, DelStep(b, ev), fd)
  {
    if ev.fd >= 0 {
      var e := EntryOf(b, ev.fd);
      var lastly := Lastly(e.n, ev.kinds);
      var b1 := if lastly.Empty() then b else BackendDel(b, ev.fd, Nonzero(e.n), lastly);
      BackendDelFrame(b, ev.fd, Nonzero(e.n), lastly, fd);
      RefillFrame(b, b1, ev.fd, Without(e.events, ev), Drop(e.n, ev.kinds), fd);
    }
  }
}
