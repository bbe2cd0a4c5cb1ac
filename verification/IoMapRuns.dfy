/** Whole runs: what the kernel watches after every dispatch. */
module IoMapRuns {
  import opened EventKinds
  import opened EpollTable
  import opened EpollKernel
  import opened IoMap
  import Options
  import opened IoMapLemmas

  datatype Op =
    | Add(ev: Event)
    | Del(ev: Event)
    | Dispatch
    | Disturb(fd: int, held: Options.Option<Interest>)
    | Reinit(bound: nat)

  /** An event is deleted only while it is listed; a reinit walks every slot. */
  predicate Enabled(b: Base, op: Op) {
    match op
    case Del(ev) => ev.fd >= 0 ==> Listed(b, ev) && ev.kinds.Within(Wanted(b, ev.fd))
    case Reinit(bound) => forall fd | fd in b.io :: fd < bound
    case _ => true
  }

  function Step(b: Base, op: Op): Base
    requires Enabled(b, op)
  {
    match op
    case Add(ev) => AddStep(b, ev)
    case Del(ev) => DelStep(b, ev)
    case Dispatch => DispatchStep(b)
    case Disturb(fd, held) => DisturbStep(b, fd, held)
    case Reinit(bound) => ReinitStep(b, bound)
  }

  predicate Legal(b: Base, ops: seq<Op>)
    decreases |ops|
  {
    ops == [] || (Enabled(b, ops[0]) && Legal(Step(b, ops[0]), ops[1..]))
  }

  function Run(b: Base, ops: seq<Op>): Base
    requires Legal(b, ops)
    decreases |ops|
  {
    if ops == [] then b else Run(Step(b, ops[0]), ops[1..])
  }

  /** A run of one step and then another run. */
  lemma {:induction false} RunCons(b1: Base, b: Base, op: Op, ops: seq<Op>)
    requires Enabled(b, op) && Step(b, op) == b1 && Legal(b1, ops)
    ensures Legal(b, [op] + ops) && Run(b, [op] + ops) == Run(b1, ops)
  {
    assert ([op] + ops)[1..] == ops;
  }

  lemma {:induction false} RunThreeThen(b: Base, o1: Op, o2: Op, o3: Op, b1: Base, b2: Base, b3: Base, ops: seq<Op>)
    requires Enabled(b, o1) && Step(b, o1) == b1 && Enabled(b1, o2) && Step(b1, o2) == b2 && Enabled(b2, o3) && Step(b2, o3) == b3
    requires Legal(b3, ops)
    ensures Legal(b, [o1, o2, o3] + ops) && Run(b, [o1, o2, o3] + ops) == Run(b3, ops)
  {
    hide Enabled, Step, Legal, Run;
    RunCons(b3, b2, o3, ops);
    RunCons(b2, b1, o2, [o3] + ops);
    RunCons(b1, b, o1, [o2] + ([o3] + ops));
    assert [o1] + ([o2] + ([o3] + ops)) == [o1, o2, o3] + ops;
  }

  lemma {:induction false} RunThree(b: Base, o1: Op, o2: Op, o3: Op, b1: Base, b2: Base, b3: Base)
    requires Enabled(b, o1) && Step(b, o1) == b1 && Enabled(b1, o2) && Step(b1, o2) == b2 && Enabled(b2, o3) && Step(b2, o3) == b3
    ensures Legal(b, [o1, o2, o3]) && Run(b, [o1, o2, o3]) == b3
  {
    hide Enabled, Step;
    RunThreeThen(b, o1, o2, o3, b1, b2, b3, []);
    assert [o1, o2, o3] + [] == [o1, o2, o3];
  }

  function Initial(changelist: bool): Base {
    Base(changelist, map[], [], map[])
  }

  /** The kernel holds what was wanted when the pending change was opened, or,
      with no change pending, what is wanted now. */
  predicate Clean(b: Base, fd: int) {
    Watched(b.kernel, fd) ==
    if Pending(b, fd) then Open(b, fd, NO_KINDS).was else Wanted(b, fd)
  }

  lemma {:induction false} SameAtClean(b: Base, r: Base, fd: int)
    requires SameAt(b, r, fd) && Clean(b, fd)
    ensures Clean(r, fd)
  {
  }

  /** What applying one change leaves on its own descriptor. */
  lemma {:induction false} AppliedWatched(k: Kernel, ch: EventChange)
    ensures Effective(ch) ==> Watched(Applied(k, ch), ch.fd) == Target(ch)
    ensures !Effective(ch) ==> Applied(k, ch) == k
  {
  }

  /** The backend's own add or delete leaves the wanted kinds in the kernel
      (direct) or recorded from the same starting point (change list). */
  lemma {:induction false} BackendAddClean(b: Base, fd: int, k: Kinds, et: bool)
    requires Inv(b)
    requires b.changelist ==> Clean(b, fd)
    requires !k.Minus(Wanted(b, fd)).Empty()
    ensures var now := Wanted(b, fd);
            var r := BackendAdd(b, fd, now, k.Minus(now), et);
            Watched(r.kernel, fd) ==
            if Pending(r, fd) then Open(r, fd, NO_KINDS).was else now.Plus(k)
  {
    assert OnCourse(b, fd);
    var now := Wanted(b, fd);
    AppliedWatched(b.kernel, Added(Fresh(fd, now), k.Minus(now), et));
  }

  lemma {:induction false} BackendDelClean(b: Base, fd: int, k: Kinds)
    requires Inv(b)
    requires b.changelist ==> Clean(b, fd)
    requires !k.Empty()
    ensures var now := Wanted(b, fd);
            var r := BackendDel(b, fd, now, k);
            Watched(r.kernel, fd) ==
            if Pending(r, fd) then Open(r, fd, NO_KINDS).was else now.Minus(k)
  {
    assert OnCourse(b, fd);
    var now := Wanted(b, fd);
    AppliedWatched(b.kernel, DirectDel(fd, now, k));
  }

  lemma {:induction false} DirectNeverPends(b: Base, fd: int)
    requires Inv(b) && !b.changelist
    ensures !Pending(b, fd)
  {
    assert OnCourse(b, fd);
  }

  lemma {:induction false} RefillClean(b: Base, fd: int, events: seq<Event>, n: Counters)
    requires Watched(b.kernel, fd) ==
             if Pending(b, fd) then Open(b, fd, NO_KINDS).was else Nonzero(n)
    ensures Clean(Refill(b, fd, events, n), fd)
  {
  }

  lemma {:induction false} RefillAdded(b: Base, ev: Event, e: FdEntry)
    requires Watched(b.kernel, ev.fd) ==
             if Pending(b, ev.fd) then Open(b, ev.fd, NO_KINDS).was else Nonzero(e.n).Plus(ev.kinds)
    ensures Clean(Refill(b, ev.fd, [ev] + e.events, Bump(e.n, ev.kinds)), ev.fd)
  {
    BumpNonzero(e.n, ev.kinds);
    RefillClean(b, ev.fd, [ev] + e.events, Bump(e.n, ev.kinds));
  }

  lemma {:induction false} AddFittingClean(b: Base, ev: Event, e: FdEntry)
    requires Inv(b) && Clean(b, ev.fd) && e == EntryOf(b, ev.fd)
    ensures Clean(AddFitting(b, ev, e), ev.fd)
  {
    var newly := ev.kinds.Minus(Nonzero(e.n));
    if newly.Empty() {
      RefillAdded(b, ev, e);
    } else {
      BackendAddClean(b, ev.fd, ev.kinds, ev.et);
      RefillAdded(BackendAdd(b, ev.fd, Nonzero(e.n), newly, ev.et), ev, e);
    }
  }

  lemma {:induction false} AddKeepsClean(b: Base, ev: Event, fd: int)
    requires Inv(b) && Clean(b, fd)
    ensures Clean(AddStep(b, ev), fd)
  {
    if fd != ev.fd {
      AddFrame(b, ev, fd);
      SameAtClean(b, AddStep(b, ev), fd);
    } else if ev.fd >= 0 {
      var b0 := WithEntry(b, fd);
      WithEntryKeepsInv(b, fd);
      WithEntryFrame(b, fd, fd);
      SameAtClean(b, b0, fd);
      AddFittingClean(b0, ev, EntryOf(b0, fd));
    }
  }

  lemma {:induction false} DelKeepsClean(b: Base, ev: Event, fd: int)
    requires Inv(b) && Clean(b, fd)
    requires ev.fd >= 0 ==> Listed(b, ev) && ev.kinds.Within(Wanted(b, ev.fd))
    ensures Clean(DelStep(b, ev), fd)
  {
    if fd != ev.fd {
      DelFrame(b, ev, fd);
      SameAtClean(b, DelStep(b, ev), fd);
    } else if ev.fd >= 0 {
      var e := EntryOf(b, fd);
      var now, lastly := Nonzero(e.n), Lastly(e.n, ev.kinds);
      DropNonzero(e.n, ev.kinds);
      if lastly.Empty() {
        RefillClean(b, fd, Without(e.events, ev), Drop(e.n, ev.kinds));
      } else {
        BackendDelClean(b, fd, lastly);
        RefillClean(BackendDel(b, fd, now, lastly), fd, Without(e.events, ev), Drop(e.n, ev.kinds));
      }
    }
  }

  lemma {:induction false} SlotsDistinct(b: Base, i: int, j: int)
    requires Inv(b) && 0 <= i < |b.changes| && 0 <= j < |b.changes| && i != j
    ensures b.changes[i].fd != b.changes[j].fd
  {
    assert SlotOk(b, i) && SlotOk(b, j);
  }

  /** Two kernels hold the same thing for one descriptor. */
  predicate HeldAlike(k: Kernel, l: Kernel, fd: int) {
    (fd in k <==> fd in l) && (fd in k ==> k[fd] == l[fd])
  }

  /** The kernel's view of one descriptor after the change list is applied. */
  lemma {:induction false} DispatchAt(b: Base, fd: int)
    requires Inv(b)
    ensures Pending(b, fd) ==>
              HeldAlike(DispatchStep(b).kernel, Applied(b.kernel, Open(b, fd, NO_KINDS)), fd)
    ensures !Pending(b, fd) ==> HeldAlike(DispatchStep(b).kernel, b.kernel, fd)
  {
    assert OnCourse(b, fd);
    if Pending(b, fd) {
      var i := EntryOf(b, fd).idxplus1 - 1;
      forall j | 0 <= j < |b.changes| && j != i ensures b.changes[j].fd != b.changes[i].fd {
        SlotsDistinct(b, i, j);
      }
      AppliedAllAt(b.kernel, b.changes, i);
    } else {
      forall j | 0 <= j < |b.changes| ensures b.changes[j].fd != fd {
        assert SlotOk(b, j);
      }
      AppliedAllFrame(b.kernel, b.changes, fd);
    }
  }

  /** Main result, one dispatch. Whatever the kernel held, a descriptor with a
      recorded change ends up watched for exactly what is wanted if and only if
      the change was not cancelled out or the kernel had kept what was there
      when the change was opened. Other descriptors are left alone. */
  lemma {:induction false} DispatchExact(b: Base, fd: int)
    requires Inv(b)
    ensures var r := DispatchStep(b);
            && Wanted(r, fd) == Wanted(b, fd)
            && !Pending(r, fd)
            && (Pending(b, fd) ==>
                  (Watched(r.kernel, fd) == Wanted(r, fd) <==>
                   Effective(Open(b, fd, NO_KINDS))
                   || Watched(b.kernel, fd) == Open(b, fd, NO_KINDS).was))
            && (!Pending(b, fd) ==> Watched(r.kernel, fd) == Watched(b.kernel, fd))
  {
    DispatchAt(b, fd);
    assert OnCourse(b, fd);
    if Pending(b, fd) {
      var ch := Open(b, fd, NO_KINDS);
      CoherentTarget(ch, Wanted(b, fd));
      AppliedWatched(b.kernel, ch);
    }
  }

  lemma {:induction false} DispatchKeepsClean(b: Base, fd: int)
    requires Inv(b) && Clean(b, fd)
    ensures Clean(DispatchStep(b), fd)
    ensures Watched(DispatchStep(b).kernel, fd) == Wanted(DispatchStep(b), fd)
  {
    DispatchExact(b, fd);
  }

  /* ----- reinit ----- */

  lemma {:induction false} FreshCoherent(fd: int, now: Kinds, et: bool)
    ensures Coherent(Added(Fresh(fd, NO_KINDS), now, et), now) && Added(Fresh(fd, NO_KINDS), now, et).fd == fd
  {
  }

  /** Filling an entry with what it holds changes nothing. */
  lemma {:induction false} RefillSame(r: Base, fd: int, e: FdEntry)
    requires fd in r.io && r.io[fd].events == e.events && r.io[fd].n == e.n
    ensures Refill(r, fd, e.events, e.n) == r
  {
    assert r.io[fd := r.io[fd]] == r.io;
    assert r.io[fd] == r.io[fd].(events := e.events, n := e.n);
  }

  lemma {:induction false} RecordEntry(b: Base, fd: int, ch: EventChange)
    requires fd in b.io
    ensures var r := Record(b, fd, ch); fd in r.io && r.io[fd].events == b.io[fd].events && r.io[fd].n == b.io[fd].n
  {
  }

  lemma {:induction false} ReinitFdKeepsInv(b: Base, fd: int)
    requires Inv(b) && fd in b.io && !Pending(b, fd)
    ensures Inv(ReinitFd(b, fd))
  {
    hide Inv, EventsOk, Coherent, Nonzero, Record, Refill, Applied, Added, FirstIsEdge, Fresh;
    var e := EntryOf(b, fd);
    CountedHere(b, fd);
    var ch := Added(Fresh(fd, NO_KINDS), Nonzero(e.n), FirstIsEdge(e));
    if b.changelist {
      FreshCoherent(fd, Nonzero(e.n), FirstIsEdge(e));
      RecordKeepsInv(b, ch, e.events, e.n);
      RecordEntry(b, fd, ch);
      RefillSame(Record(b, fd, ch), fd, e);
      NotPendingFresh(b, fd);
    } else {
      KernelKeepsInv(b, Applied(b.kernel, ch));
    }
  }

  lemma {:induction false} CountedHere(b: Base, fd: int)
    requires Inv(b) && fd in b.io
    ensures EventsOk(fd, b.io[fd].events, b.io[fd].n) && EntryOf(b, fd) == b.io[fd]
  {
    hide EventsOk, OnCourse, SlotOk;
    assert Counted(b, fd);
  }

  lemma {:induction false} NotPendingFresh(b: Base, fd: int)
    requires !Pending(b, fd)
    ensures Open(b, fd, NO_KINDS) == Fresh(fd, NO_KINDS)
  {
  }

  lemma {:induction false} ReinitFdClean(b: Base, fd: int)
    requires Inv(b) && fd in b.io && !Pending(b, fd) && fd !in b.kernel
    ensures Clean(ReinitFd(b, fd), fd)
    ensures Wanted(ReinitFd(b, fd), fd) == Wanted(b, fd)
  {
    var e := EntryOf(b, fd);
    AppliedWatched(b.kernel, Added(Fresh(fd, NO_KINDS), Nonzero(e.n), FirstIsEdge(e)));
  }

  lemma {:induction false} UnlinkedKeepsInv(b: Base)
    requires Inv(b)
    ensures Inv(b.(kernel := map[], changes := [], io := Unlinked(b.io)))
  {
    var r := b.(kernel := map[], changes := [], io := Unlinked(b.io));
    forall g ensures Counted(r, g) {
      assert Counted(b, g);
    }
  }

  /** Below `bound` every descriptor is re-announced; from `bound` on none is yet. */
  lemma {:induction false} ReinitBelowOk(b: Base, bound: nat, fd: int)
    requires Inv(b) && b.kernel == map[] && b.changes == []
    requires forall g {:trigger Pending(b, g)} :: !Pending(b, g)
    ensures var r := ReinitBelow(b, bound);
            && Inv(r) && r.io.Keys == b.io.Keys && r.changelist == b.changelist
            && EntryOf(r, fd).events == EntryOf(b, fd).events && EntryOf(r, fd).n == EntryOf(b, fd).n
            && (fd < bound || fd !in b.io ==> Clean(r, fd))
            && (fd >= bound ==> !Pending(r, fd) && fd !in r.kernel)
    decreases bound
  {
    if bound == 0 {
      assert Counted(b, fd) && !Pending(b, fd);
    } else {
      var at := bound - 1;
      var r := ReinitBelow(b, at);
      ReinitBelowOk(b, at, fd);
      ReinitBelowOk(b, at, at);
      if at in r.io {
        ReinitFdKeepsInv(r, at);
        if fd == at {
          ReinitFdClean(r, at);
        } else {
          var e := EntryOf(r, at);
          BackendAddFrame(r, at, NO_KINDS, Nonzero(e.n), FirstIsEdge(e), fd);
        }
      }
    }
  }

  lemma {:induction false} ReinitOk(b: Base, bound: nat, fd: int)
    requires Inv(b)
    requires forall g | g in b.io :: g < bound
    ensures Inv(ReinitStep(b, bound)) && Clean(ReinitStep(b, bound), fd)
    ensures Wanted(ReinitStep(b, bound), fd) == Wanted(b, fd)
    ensures ReinitStep(b, bound).changelist == b.changelist
  {
    var b0 := b.(kernel := map[], changes := [], io := Unlinked(b.io));
    UnlinkedKeepsInv(b);
    forall g ensures !Pending(b0, g) {
    }
    ReinitBelowOk(b0, bound, fd);
  }

  /* ----- runs ----- */

  lemma {:induction false} StepKeepsInv(b: Base, op: Op)
    requires Inv(b) && Enabled(b, op)
    ensures Inv(Step(b, op)) && Step(b, op).changelist == b.changelist
  {
    match op
    case Add(ev) => AddKeepsInv(b, ev);
    case Del(ev) => DelKeepsInv(b, ev);
    case Dispatch => DispatchKeepsInv(b);
    case Disturb(fd, held) => KernelKeepsInv(b, DisturbStep(b, fd, held).kernel);
    case Reinit(bound) => ReinitOk(b, bound, 0);
  }

  lemma {:induction false} StepKeepsClean(b: Base, op: Op, fd: int)
    requires Inv(b) && Enabled(b, op) && Clean(b, fd)
    requires op.Disturb? ==> op.fd != fd
    ensures Clean(Step(b, op), fd)
  {
    match op
    case Add(ev) => AddKeepsClean(b, ev, fd);
    case Del(ev) => DelKeepsClean(b, ev, fd);
    case Dispatch => DispatchKeepsClean(b, fd);
    case Disturb(g, held) => SameAtClean(b, Step(b, op), fd);
    case Reinit(bound) => ReinitOk(b, bound, fd);
  }

  predicate Undisturbed(ops: seq<Op>, fd: int) {
    forall i | 0 <= i < |ops| :: ops[i].Disturb? ==> ops[i].fd != fd
  }

  lemma {:induction false} RunKeepsClean(b: Base, ops: seq<Op>, fd: int)
    requires Inv(b) && Legal(b, ops)
    ensures Inv(Run(b, ops)) && Run(b, ops).changelist == b.changelist
    ensures Clean(b, fd) && Undisturbed(ops, fd) ==> Clean(Run(b, ops), fd)
    decreases |ops|
  {
    if ops != [] {
      StepKeepsInv(b, ops[0]);
      if Clean(b, fd) && Undisturbed(ops, fd) {
        StepKeepsClean(b, ops[0], fd);
      }
      RunKeepsClean(Step(b, ops[0]), ops[1..], fd);
    }
  }

  /** Main result, whole runs: from an empty base, after any legal run ending in
      a dispatch, the kernel watches each descriptor nobody disturbed for exactly
      the kinds with a nonzero counter. */
  lemma {:induction false} KernelFollowsCounters(changelist: bool, ops: seq<Op>, fd: int)
    requires Legal(Initial(changelist), ops) && Undisturbed(ops, fd)
    ensures var r := DispatchStep(Run(Initial(changelist), ops));
            Watched(r.kernel, fd) == Wanted(r, fd)
  {
    var b := Initial(changelist);
    assert Inv(b) && Clean(b, fd);
    RunKeepsClean(b, ops, fd);
    DispatchKeepsClean(Run(b, ops), fd);
  }
}
