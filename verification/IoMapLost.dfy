/** A run in which a dispatch leaves a wanted interest unwatched: the kernel
    forgot the descriptor and the recorded change cancels out. */
module IoMapLost {
  import opened EventKinds
  import EpollTable
  import EpollKernel
  import opened IoMap
  import opened Options
  import opened IoMapRuns

  /** A first recorded add: a new slot at the end of the list. */
  lemma {:induction false} AddRecords(b: Base, ev: Event, e: FdEntry)
    requires b.changelist && ev.fd >= 0 && e == EntryOf(b, ev.fd) && e.idxplus1 == 0 && Fits(Bump(e.n, ev.kinds))
    requires !ev.kinds.Minus(Nonzero(e.n)).Empty()
    ensures var r := AddStep(b, ev);
            && r.changelist && r.kernel == b.kernel && ev.fd in r.io
            && r.changes == b.changes + [Added(Fresh(ev.fd, Nonzero(e.n)), ev.kinds.Minus(Nonzero(e.n)), ev.et)]
            && EntryOf(r, ev.fd) == FdEntry([ev] + e.events, Bump(e.n, ev.kinds), |b.changes| + 1)
  {
    hide Fits, Nonzero, Bump, Added, Fresh;
  }

  lemma {:induction false} DelRecords(b: Base, ev: Event, e: FdEntry)
    requires b.changelist && ev.fd >= 0 && ev.fd in b.io && e == b.io[ev.fd] && e.idxplus1 == 1 && |b.changes| == 1
    requires Enabled(b, Op.Del(ev)) && !Lastly(e.n, ev.kinds).Empty()
    ensures var r := DelStep(b, ev);
            && r.kernel == b.kernel && r.changes == [Removed(b.changes[0], Lastly(e.n, ev.kinds))]
            && EntryOf(r, ev.fd) == e.(events := Without(e.events, ev), n := Drop(e.n, ev.kinds))
  {
    hide Nonzero, Lastly, Drop, Without, Removed;
  }

  lemma {:induction false} DispatchClears(b: Base, fd: int)
    ensures var r := DispatchStep(b);
            r.changes == [] && r.changelist == b.changelist && EntryOf(r, fd) == EntryOf(b, fd).(idxplus1 := 0)
  {
    hide EpollKernel.AppliedAll;
  }

  lemma {:induction false} DisturbForgets(b: Base, fd: int)
    ensures var r := DisturbStep(b, fd, None);
            && r.changes == b.changes && r.changelist == b.changelist && EntryOf(r, fd) == EntryOf(b, fd) && fd !in r.kernel
  {
  }

  predicate OnlyRead(k: Kinds) {
    k.read && !k.write && !k.closed
  }

  predicate OnlyWrite(k: Kinds) {
    !k.read && k.write && !k.closed
  }

  lemma {:induction false} ReaderCounters(n: Counters, k: Kinds)
    requires n.nread == 0 && n.nwrite == 0 && n.nclose == 0 && OnlyRead(k)
    ensures Fits(Bump(n, k)) && !k.Minus(Nonzero(n)).Empty() && Bump(n, k) == Counters(1, 0, 0)
  {
  }

  lemma {:induction false} WriterFits(n: Counters, k: Kinds)
    requires n.nread == 1 && n.nwrite == 0 && n.nclose == 0 && OnlyWrite(k)
    ensures Fits(Bump(n, k)) && Bump(n, k) == Counters(1, 1, 0)
  {
  }

  lemma {:induction false} WriterIsNew(n: Counters, k: Kinds)
    requires n.nread == 1 && n.nwrite == 0 && n.nclose == 0 && OnlyWrite(k)
    ensures k.Minus(Nonzero(n)) == k && !k.Empty()
  {
  }

  lemma {:induction false} OneReader(n: Counters, i: Kinds)
    requires n.nread == 1 && n.nwrite == 0 && n.nclose == 0 && OnlyRead(i)
    ensures Nonzero(n) == i
  {
  }

  lemma {:induction false} WriterLast(n: Counters, k: Kinds)
    requires n.nread == 1 && n.nwrite == 1 && n.nclose == 0 && OnlyWrite(k)
    ensures Lastly(n, k) == k && !k.Empty()
  {
  }

  lemma {:induction false} WriterGone(n: Counters, k: Kinds)
    requires n.nread == 1 && n.nwrite == 1 && n.nclose == 0 && OnlyWrite(k)
    ensures k.Within(Nonzero(n))
  {
  }

  lemma {:induction false} ReaderLeft(n: Counters, k: Kinds)
    requires n.nread == 1 && n.nwrite == 1 && n.nclose == 0 && OnlyWrite(k) && k.Within(Nonzero(n))
    ensures Drop(n, k).nread == 1 && Drop(n, k).nwrite == 0 && Drop(n, k).nclose == 0
  {
    hide Nonzero;
  }

  /** Adding and deleting the same interest leaves a change that does nothing. */
  lemma {:induction false} CancelsOut(fd: int, i: Kinds, k: Kinds, et: bool)
    requires OnlyRead(i) && OnlyWrite(k)
    ensures !EpollTable.Effective(Removed(Added(Fresh(fd, i), k, et), k))
  {
  }

  lemma {:induction false} NothingApplied(k: EpollKernel.Kernel, ch: EpollTable.EventChange)
    requires !EpollTable.Effective(ch)
    ensures EpollKernel.AppliedAll(k, [ch]) == k
  {
    assert [ch][..0] == [];
    assert EpollKernel.AppliedAll(k, []) == k;
  }

  lemma {:induction false} HeadGone(a: Event, rest: seq<Event>)
    ensures Without([a] + rest, a) == rest && a in [a] + rest
  {
    assert ([a] + rest)[0] == a && ([a] + rest)[1..] == rest;
  }

  /** The first part of the run: a reader is watched, then the kernel forgets it. */
  lemma {:induction false} Forgotten(b: Base, reader: Event, b3: Base)
    requires b == Initial(true) && OnlyRead(reader.kinds) && reader.fd >= 0
    requires b3 == DisturbStep(DispatchStep(AddStep(b, reader)), reader.fd, None)
    ensures b3.changelist && b3.changes == [] && reader.fd !in b3.kernel
    ensures EntryOf(b3, reader.fd) == FdEntry([reader], Counters(1, 0, 0), 0)
  {
    hide AddStep, DispatchStep, DisturbStep, Added, Fresh, Bump, Fits;
    var e := EntryOf(b, reader.fd);
    ReaderCounters(e.n, reader.kinds);
    AddRecords(b, reader, e);
    assert [reader] + e.events == [reader];
    var b1 := AddStep(b, reader);
    DispatchClears(b1, reader.fd);
    DisturbForgets(DispatchStep(b1), reader.fd);
  }

  /** The second part: a writer comes. */
  lemma {:induction false} Comes(b3: Base, reader: Event, writer: Event, b4: Base)
    requires b3.changelist && b3.changes == [] && writer.fd == reader.fd >= 0 && OnlyRead(reader.kinds) && OnlyWrite(writer.kinds)
    requires EntryOf(b3, reader.fd) == FdEntry([reader], Counters(1, 0, 0), 0) && b4 == AddStep(b3, writer)
    ensures b4.changelist && b4.kernel == b3.kernel && writer.fd in b4.io
    ensures b4.changes == [Added(Fresh(writer.fd, reader.kinds), writer.kinds, writer.et)]
    ensures b4.io[writer.fd] == FdEntry([writer] + [reader], Counters(1, 1, 0), 1)
  {
    hide AddStep, Added, Fresh, Bump, Fits, Nonzero;
    var e := EntryOf(b3, writer.fd);
    WriterFits(e.n, writer.kinds);
    WriterIsNew(e.n, writer.kinds);
    OneReader(e.n, reader.kinds);
    AddRecords(b3, writer, e);
  }

  /** And goes. */
  lemma {:induction false} Goes(b4: Base, reader: Event, writer: Event)
    requires b4.changelist && writer.fd in b4.io && writer.fd == reader.fd >= 0 && OnlyRead(reader.kinds) && OnlyWrite(writer.kinds)
    requires |b4.changes| == 1 && b4.io[writer.fd] == FdEntry([writer] + [reader], Counters(1, 1, 0), 1)
    ensures Enabled(b4, Op.Del(writer))
    ensures var b5 := DelStep(b4, writer);
            && b5.kernel == b4.kernel && Wanted(b5, reader.fd) == reader.kinds
            && b5.changes == [Removed(b4.changes[0], writer.kinds)]
  {
    hide DelStep, Removed, Lastly, Nonzero, Without;
    var f := b4.io[writer.fd];
    WriterLast(f.n, writer.kinds);
    WriterGone(f.n, writer.kinds);
    ReaderLeft(f.n, writer.kinds);
    OneReader(Drop(f.n, writer.kinds), reader.kinds);
    HeadGone(writer, [reader]);
    DelRecords(b4, writer, f);
  }

  /** From an empty base: a reader is added and dispatched, the kernel forgets
      the descriptor, a writer is added and deleted, and the next dispatch
      leaves the reader wanted and nothing watched. */
  lemma {:induction false} DispatchMisses(b: Base, reader: Event, writer: Event, ops: seq<Op>)
    requires b == Initial(true) && reader.fd == writer.fd >= 0 && OnlyRead(reader.kinds) && OnlyWrite(writer.kinds)
    requires ops == [Op.Add(reader), Dispatch, Disturb(reader.fd, None)] + [Op.Add(writer), Op.Del(writer), Dispatch]
    ensures Legal(b, ops)
    ensures var r := Run(b, ops); Wanted(r, reader.fd) == reader.kinds && EpollKernel.Watched(r.kernel, reader.fd).Empty()
  {
    hide AddStep, DelStep, DispatchStep, DisturbStep, Legal, Run, Added, Removed, Fresh, Wanted;
    var b1 := AddStep(b, reader);
    var b2 := DispatchStep(b1);
    var b3 := DisturbStep(b2, reader.fd, None);
    Forgotten(b, reader, b3);
    var b4 := AddStep(b3, writer);
    Comes(b3, reader, writer, b4);
    Goes(b4, reader, writer);
    var b5 := DelStep(b4, writer);
    CancelsOut(writer.fd, reader.kinds, writer.kinds, writer.et);
    LastDispatch(b5, reader.fd);
    var b6 := DispatchStep(b5);
    RunThree(b3, Op.Add(writer), Op.Del(writer), Dispatch, b4, b5, b6);
    RunThreeThen(b, Op.Add(reader), Dispatch, Disturb(reader.fd, None), b1, b2, b3, [Op.Add(writer), Op.Del(writer), Dispatch]);
  }

  lemma {:induction false} LastDispatch(b5: Base, fd: int)
    requires |b5.changes| == 1 && !EpollTable.Effective(b5.changes[0])
    ensures var r := DispatchStep(b5); r.kernel == b5.kernel && Wanted(r, fd) == Wanted(b5, fd)
  {
    hide EpollKernel.AppliedAll, EpollTable.Effective;
    assert b5.changes == [b5.changes[0]];
    NothingApplied(b5.kernel, b5.changes[0]);
    DispatchClears(b5, fd);
  }
}
