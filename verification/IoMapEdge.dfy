/** Edge-triggered registrations: when EPOLLET survives a dispatch. */
module IoMapEdge {
  import opened EventKinds
  import opened EpollTable
  import opened EpollKernel
  import opened IoMap
  import opened IoMapLemmas
  import opened IoMapRuns

  /** Every add in the run is of an edge-triggered event. */
  predicate EdgeOnly(ops: seq<Op>) {
    forall i | 0 <= i < |ops| :: ops[i].Add? ==> ops[i].ev.et
  }

  /** So every event on fd is. */
  predicate AllEdge(b: Base, fd: int) {
    forall i | 0 <= i < |EntryOf(b, fd).events| :: EntryOf(b, fd).events[i].et
  }

  /** Then the ET bit of a change byte is set exactly where its add bit is. */
  predicate EdgeBits(b: Base, fd: int) {
    Pending(b, fd) ==>
      var ch := Open(b, fd, NO_KINDS);
      (ch.read.et <==> ch.read.add) && (ch.write.et <==> ch.write.add)
  }

  lemma {:induction false} BackendAddEdge(b: Base, fd: int, was: Kinds, k: Kinds)
    requires Inv(b) && EdgeBits(b, fd)
    ensures EdgeBits(BackendAdd(b, fd, was, k, true), fd)
  {
    assert OnCourse(b, fd);
  }

  lemma {:induction false} BackendDelEdge(b: Base, fd: int, was: Kinds, k: Kinds)
    requires Inv(b) && EdgeBits(b, fd)
    ensures EdgeBits(BackendDel(b, fd, was, k), fd)
  {
    assert OnCourse(b, fd);
  }

  lemma {:induction false} RefillEdge(b: Base, fd: int, events: seq<Event>, n: Counters)
    requires EdgeBits(b, fd)
    ensures EdgeBits(Refill(b, fd, events, n), fd)
  {
  }

  lemma {:induction false} SameAtEdge(b: Base, r: Base, fd: int)
    requires SameAt(b, r, fd) && EdgeBits(b, fd)
    ensures EdgeBits(r, fd)
  {
  }

  lemma {:induction false} AddFittingEdge(b: Base, ev: Event, e: FdEntry)
    requires Inv(b) && EdgeBits(b, ev.fd) && ev.et
    ensures EdgeBits(AddFitting(b, ev, e), ev.fd)
  {
    var newly := ev.kinds.Minus(Nonzero(e.n));
    BackendAddEdge(b, ev.fd, Nonzero(e.n), newly);
    var b1 := if newly.Empty() then b else BackendAdd(b, ev.fd, Nonzero(e.n), newly, ev.et);
    RefillEdge(b1, ev.fd, [ev] + e.events, Bump(e.n, ev.kinds));
  }

  lemma {:induction false} AddEdge(b: Base, ev: Event, fd: int)
    requires Inv(b) && EdgeBits(b, fd) && ev.et
    ensures EdgeBits(AddStep(b, ev), fd)
  {
    hide AddFitting, Fits, Bump, EdgeBits, SameAt, Inv;
    if fd != ev.fd {
      AddFrame(b, ev, fd);
      SameAtEdge(b, AddStep(b, ev), fd);
    } else if fd >= 0 {
      var b0 := WithEntry(b, fd);
      WithEntryKeepsInv(b, fd);
      WithEntryFrame(b, fd, fd);
      SameAtEdge(b, b0, fd);
      AddFittingEdge(b0, ev, EntryOf(b0, fd));
    }
  }

  lemma {:induction false} DelEdge(b: Base, ev: Event, fd: int)
    requires Inv(b) && EdgeBits(b, fd) && Enabled(b, Del(ev))
    ensures EdgeBits(DelStep(b, ev), fd)
  {
    if fd != ev.fd {
      DelFrame(b, ev, fd);
      SameAtEdge(b, DelStep(b, ev), fd);
    } else if fd >= 0 {
      var e := EntryOf(b, fd);
      var lastly := Lastly(e.n, ev.kinds);
      BackendDelEdge(b, fd, Nonzero(e.n), lastly);
      var b1 := if lastly.Empty() then b else BackendDel(b, fd, Nonzero(e.n), lastly);
      RefillEdge(b1, fd, Without(e.events, ev), Drop(e.n, ev.kinds));
    }
  }

  /* ----- the listed events stay edge-triggered ----- */

  lemma {:induction false} WithoutEdge(events: seq<Event>, ev: Event)
    requires forall i | 0 <= i < |events| :: events[i].et
    ensures forall i | 0 <= i < |Without(events, ev)| :: Without(events, ev)[i].et
  {
    if events != [] && events[0] != ev {
      WithoutEdge(events[1..], ev);
    }
  }

  lemma {:induction false} SameEventsEdge(b: Base, r: Base, fd: int)
    requires AllEdge(b, fd) && EntryOf(r, fd).events == EntryOf(b, fd).events
    ensures AllEdge(r, fd)
  {
  }

  lemma {:induction false} ConsEdge(ev: Event, events: seq<Event>)
    requires ev.et && forall i | 0 <= i < |events| :: events[i].et
    ensures forall i | 0 <= i < |[ev] + events| :: ([ev] + events)[i].et
  {
  }

  lemma {:induction false} AddAllEdge(b: Base, ev: Event, fd: int)
    requires Inv(b) && AllEdge(b, fd) && ev.et
    ensures AllEdge(AddStep(b, ev), fd)
  {
    hide Inv, Fits, Bump, SameAt, BackendAdd, Nonzero;
    if fd != ev.fd {
      AddFrame(b, ev, fd);
      SameAtEntry(b, AddStep(b, ev), fd);
    } else if fd >= 0 {
      ConsEdge(ev, EntryOf(b, fd).events);
    }
  }

  lemma {:induction false} SameAtEntry(b: Base, r: Base, fd: int)
    requires SameAt(b, r, fd)
    ensures EntryOf(r, fd) == EntryOf(b, fd)
  {
  }

  lemma {:induction false} DelAllEdge(b: Base, ev: Event, fd: int)
    requires Inv(b) && AllEdge(b, fd) && Enabled(b, Del(ev))
    ensures AllEdge(DelStep(b, ev), fd)
  {
    hide Inv, SameAt, BackendDel, Nonzero, Lastly;
    if fd != ev.fd {
      DelFrame(b, ev, fd);
      SameAtEntry(b, DelStep(b, ev), fd);
    } else if fd >= 0 {
      WithoutEdge(EntryOf(b, fd).events, ev);
    }
  }

  /* ----- reinit ----- */

  lemma {:induction false} FreshEdge(fd: int, k: Kinds, et: bool)
    requires k.Empty() || et
    ensures var ch := Added(Fresh(fd, NO_KINDS), k, et); (ch.read.et <==> ch.read.add) && (ch.write.et <==> ch.write.add)
  {
  }

  /** A descriptor with interests has an event, and its first event is edge-triggered. */
  lemma {:induction false} FirstEdge(b: Base, fd: int)
    requires Inv(b) && fd in b.io && AllEdge(b, fd)
    ensures var e := EntryOf(b, fd); Nonzero(e.n).Empty() || FirstIsEdge(e)
  {
    hide Inv, Coherent;
    CountedHere(b, fd);
  }

  lemma {:induction false} RecordedHere(b: Base, fd: int, ch: EventChange)
    requires fd in b.io && !Pending(b, fd) && b.changelist
    ensures var r := Record(b, fd, ch); Pending(r, fd) && Open(r, fd, NO_KINDS) == ch
  {
  }

  lemma {:induction false} ReinitFdEdge(b: Base, fd: int)
    requires Inv(b) && fd in b.io && !Pending(b, fd) && AllEdge(b, fd)
    ensures EdgeBits(ReinitFd(b, fd), fd)
  {
    hide Inv, Added, Fresh, FirstIsEdge, Applied, Record, Nonzero;
    var e := EntryOf(b, fd);
    var ch := Added(Fresh(fd, NO_KINDS), Nonzero(e.n), FirstIsEdge(e));
    FirstEdge(b, fd);
    FreshEdge(fd, Nonzero(e.n), FirstIsEdge(e));
    if b.changelist {
      NotPendingFresh(b, fd);
      RecordedHere(b, fd, ch);
    } else {
      SameEntry(b, Applied(b.kernel, ch), fd);
    }
  }

  lemma {:induction false} ReinitBelowEdge(b: Base, bound: nat, fd: int)
    requires Inv(b) && b.kernel == map[] && b.changes == [] && AllEdge(b, fd)
    requires forall g {:trigger Pending(b, g)} :: !Pending(b, g)
    ensures EdgeBits(ReinitBelow(b, bound), fd)
    decreases bound
  {
    hide Inv, ReinitFd, Clean, EdgeBits, AllEdge, SameAt;
    if bound == 0 {
      NotPendingEdge(b, fd);
    } else {
      var at := bound - 1;
      var r := ReinitBelow(b, at);
      ReinitBelowEdge(b, at, fd);
      ReinitBelowOk(b, at, fd);
      ReinitBelowOk(b, at, at);
      if at in r.io {
        if fd == at {
          SameEventsEdge(b, r, fd);
          ReinitFdEdge(r, at);
        } else {
          ReinitFdFrame(r, at, fd);
          SameAtEdge(r, ReinitFd(r, at), fd);
        }
      }
    }
  }

  lemma {:induction false} ReinitFdFrame(b: Base, at: int, fd: int)
    requires Inv(b) && fd != at
    ensures SameAt(b, ReinitFd(b, at), fd)
  {
    hide Inv, SameAt, BackendAdd;
    var e := EntryOf(b, at);
    BackendAddFrame(b, at, NO_KINDS, Nonzero(e.n), FirstIsEdge(e), fd);
  }

  lemma {:induction false} NotPendingEdge(b: Base, fd: int)
    requires !Pending(b, fd)
    ensures EdgeBits(b, fd)
  {
  }

  lemma {:induction false} UnlinkedEntry(b: Base, fd: int)
    ensures var r := b.(kernel := map[], changes := [], io := Unlinked(b.io));
            EntryOf(r, fd) == EntryOf(b, fd).(idxplus1 := 0) && !Pending(r, fd)
  {
  }

  lemma {:induction false} ReinitEdge(b: Base, bound: nat, fd: int)
    requires Inv(b) && AllEdge(b, fd)
    ensures EdgeBits(ReinitStep(b, bound), fd) && AllEdge(ReinitStep(b, bound), fd)
  {
    hide Inv, EdgeBits, AllEdge, ReinitBelow, Clean, Pending;
    var b0 := b.(kernel := map[], changes := [], io := Unlinked(b.io));
    UnlinkedKeepsInv(b);
    forall g {:trigger Pending(b0, g)} ensures !Pending(b0, g) { UnlinkedEntry(b, g); }
    UnlinkedEntry(b, fd);
    SameEventsEdge(b, b0, fd);
    ReinitBelowEdge(b0, bound, fd);
    ReinitBelowOk(b0, bound, fd);
    SameEventsEdge(b0, ReinitStep(b, bound), fd);
  }

  /* ----- runs ----- */

  lemma {:induction false} DispatchEdge(b: Base, fd: int)
    requires Inv(b) && AllEdge(b, fd)
    ensures EdgeBits(DispatchStep(b), fd) && AllEdge(DispatchStep(b), fd)
  {
    hide Inv, AppliedAll;
    assert EntryOf(DispatchStep(b), fd) == EntryOf(b, fd).(idxplus1 := 0);
  }

  lemma {:induction false} KernelEdge(b: Base, k: Kernel, fd: int)
    requires EdgeBits(b, fd) && AllEdge(b, fd)
    ensures EdgeBits(b.(kernel := k), fd) && AllEdge(b.(kernel := k), fd)
  {
  }

  lemma {:induction false} StepEdge(b: Base, op: Op, fd: int)
    requires Inv(b) && EdgeBits(b, fd) && AllEdge(b, fd) && Enabled(b, op) && (op.Add? ==> op.ev.et)
    ensures EdgeBits(Step(b, op), fd) && AllEdge(Step(b, op), fd)
  {
    hide Inv, EdgeBits, AllEdge, AddStep, DelStep, DispatchStep, ReinitStep;
    match op
    case Add(ev) => AddEdge(b, ev, fd); AddAllEdge(b, ev, fd);
    case Del(ev) => DelEdge(b, ev, fd); DelAllEdge(b, ev, fd);
    case Dispatch => DispatchEdge(b, fd);
    case Disturb(g, held) => KernelEdge(b, DisturbStep(b, g, held).kernel, fd);
    case Reinit(bound) => ReinitEdge(b, bound, fd);
  }

  lemma {:induction false} RunEdge(b: Base, ops: seq<Op>, fd: int)
    requires Inv(b) && EdgeBits(b, fd) && AllEdge(b, fd) && Legal(b, ops) && EdgeOnly(ops)
    ensures Inv(Run(b, ops)) && EdgeBits(Run(b, ops), fd)
    decreases |ops|
  {
    hide Inv, EdgeBits, AllEdge, Step, Enabled;
    if ops != [] {
      StepKeepsInv(b, ops[0]);
      StepEdge(b, ops[0], fd);
      RunEdge(Step(b, ops[0]), ops[1..], fd);
    }
  }

  /** Documented use: all events on a descriptor are edge-triggered. Even then,
      after a dispatch that changes it, the descriptor is registered with
      EPOLLET if and only if a read or write interest was (re)added since the
      previous dispatch: a change that only deletes, or only adds the close
      interest, registers what is left without it. */
  lemma {:induction false} EdgeKeptExactly(ops: seq<Op>, fd: int)
    requires Legal(Initial(true), ops) && EdgeOnly(ops)
    ensures var b := Run(Initial(true), ops);
            var ch := Open(b, fd, NO_KINDS);
            var k := DispatchStep(b).kernel;
            Pending(b, fd) && Effective(ch) && !Wanted(b, fd).Empty() ==>
              && fd in k && k[fd].kinds == Wanted(b, fd)
              && (k[fd].et <==> ch.read.add || ch.write.add)
  {
    RunEdge(Initial(true), ops, fd);
    var b := Run(Initial(true), ops);
    DispatchAt(b, fd);
    assert OnCourse(b, fd);
    CoherentTargetIfPending(b, fd);
  }

  lemma {:induction false} CoherentTargetIfPending(b: Base, fd: int)
    requires Inv(b)
    ensures Pending(b, fd) ==> Target(Open(b, fd, NO_KINDS)) == Wanted(b, fd)
  {
    assert OnCourse(b, fd);
    if Pending(b, fd) {
      CoherentTarget(Open(b, fd, NO_KINDS), Wanted(b, fd));
    }
  }

  lemma {:induction false} DirectDelApplied(k: Kernel, fd: int, was: Kinds, gone: Kinds)
    requires !gone.Empty() && !was.Minus(gone).Empty()
    ensures fd in Applied(k, DirectDel(fd, was, gone))
    ensures Applied(k, DirectDel(fd, was, gone))[fd] == Interest(was.Minus(gone), false)
  {
  }

  lemma {:induction false} DirectDelKernel(b: Base, ev: Event, e: FdEntry)
    requires !b.changelist && ev.fd >= 0 && e == EntryOf(b, ev.fd) && Enabled(b, Del(ev))
    requires !Lastly(e.n, ev.kinds).Empty()
    ensures DelStep(b, ev).kernel
            == Applied(b.kernel, DirectDel(ev.fd, Nonzero(e.n), Lastly(e.n, ev.kinds)))
    ensures EntryOf(DelStep(b, ev), ev.fd) == e.(events := Without(e.events, ev), n := Drop(e.n, ev.kinds))
  {
    hide Lastly, Drop, Without, Applied, DirectDel, Nonzero, Kinds.Within, Kinds.Empty, Refill, EntryOf;
    DelUnfolds(b, ev, e);
    var b1 := BackendDel(b, ev.fd, Nonzero(e.n), Lastly(e.n, ev.kinds));
    RefillEntry(b1, ev.fd, Without(e.events, ev), Drop(e.n, ev.kinds));
    SameEntry(b, b1.kernel, ev.fd);
  }

  lemma {:induction false} DelUnfolds(b: Base, ev: Event, e: FdEntry)
    requires ev.fd >= 0 && e == EntryOf(b, ev.fd) && Enabled(b, Del(ev)) && !Lastly(e.n, ev.kinds).Empty()
    ensures DelStep(b, ev) == Refill(BackendDel(b, ev.fd, Nonzero(e.n), Lastly(e.n, ev.kinds)), ev.fd, Without(e.events, ev), Drop(e.n, ev.kinds))
  {
    hide Lastly, Drop, Without, BackendDel, Refill;
  }

  lemma {:induction false} RefillEntry(b: Base, fd: int, events: seq<Event>, n: Counters)
    ensures EntryOf(Refill(b, fd, events, n), fd) == EntryOf(b, fd).(events := events, n := n)
    ensures Refill(b, fd, events, n).kernel == b.kernel
  {
  }

  lemma {:induction false} SameEntry(b: Base, k: Kernel, fd: int)
    ensures EntryOf(b.(kernel := k), fd) == EntryOf(b, fd)
  {
  }

  /** With no change list every delete that leaves something behind drops
      EPOLLET, whatever the remaining events asked for. */
  lemma {:induction false} DirectDelDropsEdge(b: Base, ev: Event)
    requires Inv(b) && !b.changelist && ev.fd >= 0 && Enabled(b, Del(ev))
    requires !Lastly(EntryOf(b, ev.fd).n, ev.kinds).Empty()
    ensures var r := DelStep(b, ev);
            !Wanted(r, ev.fd).Empty() ==>
              ev.fd in r.kernel && r.kernel[ev.fd] == Interest(Wanted(r, ev.fd), false)
  {
    var e := EntryOf(b, ev.fd);
    var r := DelStep(b, ev);
    DirectDelKernel(b, ev, e);
    DropNonzero(e.n, ev.kinds);
    hide DelStep, Lastly, Drop, Applied, DirectDel;
    if !Wanted(r, ev.fd).Empty() {
      DirectDelApplied(b.kernel, ev.fd, Nonzero(e.n), Lastly(e.n, ev.kinds));
    }
  }

  /** With no change list an add that adds something registers EPOLLET exactly
      when the event asks for it and a read or write interest is new. */
  lemma {:induction false} DirectAddEdge(b: Base, ev: Event)
    requires Inv(b) && !b.changelist && ev.fd >= 0 && Fits(Bump(EntryOf(b, ev.fd).n, ev.kinds))
    ensures var newly, r := ev.kinds.Minus(Wanted(b, ev.fd)), AddStep(b, ev);
            !newly.Empty() ==>
              && ev.fd in r.kernel && r.kernel[ev.fd].kinds == Wanted(r, ev.fd)
              && (r.kernel[ev.fd].et <==> ev.et && (newly.read || newly.write))
  {
    hide Inv, Applied, Fits, Nonzero, Bump, Added, Refill;
    var e := EntryOf(b, ev.fd);
    var newly := ev.kinds.Minus(Nonzero(e.n));
    if !newly.Empty() {
      AddUnfolds(b, ev, e);
      DirectAddApplied(b.kernel, ev.fd, Nonzero(e.n), newly, ev.et);
      BumpNonzero(e.n, ev.kinds);
      PlusMinus(Nonzero(e.n), ev.kinds);
      RefillEntry(b.(kernel := Applied(b.kernel, Added(Fresh(ev.fd, Nonzero(e.n)), newly, ev.et))), ev.fd, [ev] + e.events, Bump(e.n, ev.kinds));
    }
  }

  lemma {:induction false} PlusMinus(a: Kinds, k: Kinds)
    ensures a.Plus(k.Minus(a)) == a.Plus(k)
  {
  }

  lemma {:induction false} DirectAddApplied(k: Kernel, fd: int, was: Kinds, newly: Kinds, et: bool)
    requires !newly.Empty()
    ensures var r := Applied(k, Added(Fresh(fd, was), newly, et));
            fd in r && r[fd] == Interest(was.Plus(newly), et && (newly.read || newly.write))
  {
  }

  lemma {:induction false} AddUnfolds(b: Base, ev: Event, e: FdEntry)
    requires !b.changelist && ev.fd >= 0 && e == EntryOf(b, ev.fd) && Fits(Bump(e.n, ev.kinds))
    requires !ev.kinds.Minus(Nonzero(e.n)).Empty()
    ensures var ch := Added(Fresh(ev.fd, Nonzero(e.n)), ev.kinds.Minus(Nonzero(e.n)), ev.et);
            var k := Applied(b.kernel, ch);
            && AddStep(b, ev).kernel == Refill(b.(kernel := k), ev.fd, [ev] + e.events, Bump(e.n, ev.kinds)).kernel
            && EntryOf(AddStep(b, ev), ev.fd) == EntryOf(Refill(b.(kernel := k), ev.fd, [ev] + e.events, Bump(e.n, ev.kinds)), ev.fd)
  {
    hide Applied, Fits, Nonzero, Bump, Added, Fresh;
  }

  lemma {:induction false} AddEntry(b: Base, ev: Event, e: FdEntry)
    requires !b.changelist && ev.fd >= 0 && e == EntryOf(b, ev.fd) && Fits(Bump(e.n, ev.kinds))
    requires !ev.kinds.Minus(Nonzero(e.n)).Empty()
    ensures EntryOf(AddStep(b, ev), ev.fd) == e.(events := [ev] + e.events, n := Bump(e.n, ev.kinds)) && ev.fd in AddStep(b, ev).io
  {
    hide Applied, Fits, Nonzero, Bump, Added, Fresh;
  }

  lemma {:induction false} FirstCounters(n: Counters, k: Kinds)
    requires n.nread == 0 && n.nwrite == 0 && n.nclose == 0 && k.read && !k.write && !k.closed
    ensures Fits(Bump(n, k)) && !k.Minus(Nonzero(n)).Empty() && Bump(n, k) == Counters(1, 0, 0)
  {
  }

  lemma {:induction false} OnlyOne(ev: Event, events: seq<Event>)
    requires events == []
    ensures [ev] + events == [ev]
  {
  }

  /** An edge-triggered reader, registered from an empty base. */
  lemma {:induction false} ReaderAdded(b: Base, reader: Event, r: Base)
    requires !b.changelist && EntryOf(b, reader.fd) == NO_ENTRY && reader.kinds == I && reader.fd >= 0 && r == AddStep(b, reader)
    ensures EntryOf(r, reader.fd) == FdEntry([reader], Counters(1, 0, 0), 0) && !r.changelist
  {
    hide Applied, AddStep, Added, EntryOf, Fits, Bump, Nonzero;
    var e := EntryOf(b, reader.fd);
    FirstCounters(e.n, reader.kinds);
    OnlyOne(reader, e.events);
    AddEntry(b, reader, e);
  }

  lemma {:induction false} WriterAdded(b: Base, reader: Event, writer: Event, r: Base)
    requires !b.changelist && writer.kinds == O && writer.fd == reader.fd >= 0 && r == AddStep(b, writer)
    requires EntryOf(b, reader.fd) == FdEntry([reader], Counters(1, 0, 0), 0)
    ensures EntryOf(r, writer.fd) == FdEntry([writer, reader], Counters(1, 1, 0), 0) && writer.fd in r.io && !r.changelist
  {
    hide Applied, AddStep, Added;
    AddEntry(b, writer, EntryOf(b, writer.fd));
    assert [writer] + [reader] == [writer, reader];
  }

  lemma {:induction false} PairEnabled(b: Base, reader: Event, writer: Event, e: FdEntry)
    requires writer.fd in b.io && b.io[writer.fd] == e && writer.kinds == O
    requires e.events == [writer, reader] && e.n == Counters(1, 1, 0)
    ensures Enabled(b, Op.Del(writer))
    ensures Lastly(e.n, O) == O && Nonzero(e.n) == IO && Without(e.events, writer) == [reader]
  {
    assert writer == e.events[0];
    assert e.events[1..] == [reader];
  }

  lemma {:induction false} WriterDeleted(b: Base, reader: Event, writer: Event)
    requires !b.changelist && writer.kinds == O && writer.fd in b.io && writer.fd >= 0
    requires b.io[writer.fd].events == [writer, reader] && b.io[writer.fd].n == Counters(1, 1, 0)
    ensures Enabled(b, Op.Del(writer))
    ensures var r := DelStep(b, writer);
            EntryOf(r, writer.fd).events == [reader] && writer.fd in r.kernel && r.kernel[writer.fd] == Interest(I, false)
  {
    var e := EntryOf(b, writer.fd);
    hide Enabled, DelStep, Lastly, Drop, Nonzero, Applied, DirectDel, Without;
    PairEnabled(b, reader, writer, b.io[writer.fd]);
    DirectDelKernel(b, writer, e);
    DirectDelApplied(b.kernel, writer.fd, IO, O);
  }

  /** The loss in its smallest form, from an empty base: an edge-triggered reader
      and writer share a descriptor; the writer leaves, and the reader alone is
      registered level-triggered. */
  lemma {:induction false} EdgeLost(b: Base, reader: Event, writer: Event, ops: seq<Op>)
    requires b == Initial(false) && reader.fd == writer.fd >= 0 && reader.kinds == I && writer.kinds == O
    requires reader.et && writer.et && ops == [Op.Add(reader), Op.Add(writer), Op.Del(writer)]
    ensures Legal(b, ops)
    ensures var r := Run(b, ops);
            EntryOf(r, reader.fd).events == [reader] && reader.fd in r.kernel && r.kernel[reader.fd] == Interest(I, false)
  {
    hide AddStep, DelStep, Legal, Run;
    var b1 := AddStep(b, reader);
    ReaderAdded(b, reader, b1);
    var b2 := AddStep(b1, writer);
    WriterAdded(b1, reader, writer, b2);
    WriterDeleted(b2, reader, writer);
    RunThree(b, Op.Add(reader), Op.Add(writer), Op.Del(writer), b1, b2, DelStep(b2, writer));
  }
}
