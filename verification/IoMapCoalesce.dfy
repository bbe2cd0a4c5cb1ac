/** The coalescing backend against the one that tells the kernel at once. */
module IoMapCoalesce {
  import opened EventKinds
  import opened EpollTable
  import opened EpollKernel
  import opened IoMap
  import opened IoMapLemmas
  import opened IoMapRuns

  /** Same events and counters on a descriptor; links and kernel may differ. */
  predicate SameEvents(c: Base, d: Base, fd: int) {
    && (fd in c.io <==> fd in d.io)
    && EntryOf(c, fd).events == EntryOf(d, fd).events
    && EntryOf(c, fd).n == EntryOf(d, fd).n
  }

  ghost predicate Twins(c: Base, d: Base) {
    && Inv(c) && Inv(d) && c.changelist && !d.changelist
    && (forall fd {:trigger SameEvents(c, d, fd)} :: SameEvents(c, d, fd))
  }

  /** What the change list or the kernel hold does not decide what is counted. */
  lemma {:induction false} BackendKeepsEvents(b: Base, at: int, was: Kinds, k: Kinds, et: bool, fd: int)
    ensures EntryOf(BackendAdd(b, at, was, k, et), fd).events == EntryOf(b, fd).events
    ensures EntryOf(BackendAdd(b, at, was, k, et), fd).n == EntryOf(b, fd).n
    ensures EntryOf(BackendDel(b, at, was, k), fd).events == EntryOf(b, fd).events
    ensures EntryOf(BackendDel(b, at, was, k), fd).n == EntryOf(b, fd).n
    ensures fd != at ==> (fd in BackendAdd(b, at, was, k, et).io <==> fd in b.io)
    ensures fd != at ==> (fd in BackendDel(b, at, was, k).io <==> fd in b.io)
  {
  }

  lemma {:induction false} RefillEvents(b: Base, at: int, events: seq<Event>, n: Counters, fd: int)
    ensures var r := Refill(b, at, events, n);
            && (fd in r.io <==> fd in b.io || fd == at)
            && EntryOf(r, fd).events == (if fd == at then events else EntryOf(b, fd).events)
            && EntryOf(r, fd).n == (if fd == at then n else EntryOf(b, fd).n)
  {
  }

  lemma {:induction false} AddFittingEvents(b: Base, ev: Event, e: FdEntry, fd: int)
    ensures var r := AddFitting(b, ev, e);
            && (fd in r.io <==> fd in b.io || fd == ev.fd)
            && EntryOf(r, fd).events == (if fd == ev.fd then [ev] + e.events else EntryOf(b, fd).events)
            && EntryOf(r, fd).n == (if fd == ev.fd then Bump(e.n, ev.kinds) else EntryOf(b, fd).n)
  {
    var newly := ev.kinds.Minus(Nonzero(e.n));
    BackendKeepsEvents(b, ev.fd, Nonzero(e.n), newly, ev.et, fd);
    var b1 := if newly.Empty() then b else BackendAdd(b, ev.fd, Nonzero(e.n), newly, ev.et);
    RefillEvents(b1, ev.fd, [ev] + e.events, Bump(e.n, ev.kinds), fd);
  }

  lemma {:induction false} AddSame(c: Base, d: Base, ev: Event, fd: int)
    requires SameEvents(c, d, fd) && SameEvents(c, d, ev.fd)
    ensures SameEvents(AddStep(c, ev), AddStep(d, ev), fd)
  {
    if ev.fd >= 0 {
      var c0, d0 := WithEntry(c, ev.fd), WithEntry(d, ev.fd);
      assert SameEvents(c0, d0, fd) && SameEvents(c0, d0, ev.fd);
      AddFittingEvents(c0, ev, EntryOf(c0, ev.fd), fd);
      AddFittingEvents(d0, ev, EntryOf(d0, ev.fd), fd);
    }
  }

  lemma {:induction false} DelEvents(b: Base, ev: Event, fd: int)
    requires ev.fd >= 0 && Listed(b, ev) && ev.kinds.Within(Wanted(b, ev.fd))
    ensures var r := DelStep(b, ev);
            var e := EntryOf(b, ev.fd);
            && (fd in r.io <==> fd in b.io)
            && EntryOf(r, fd).events == (if fd == ev.fd then Without(e.events, ev) else EntryOf(b, fd).events)
            && EntryOf(r, fd).n == (if fd == ev.fd then Drop(e.n, ev.kinds) else EntryOf(b, fd).n)
  {
    var e := EntryOf(b, ev.fd);
    var lastly := Lastly(e.n, ev.kinds);
    BackendKeepsEvents(b, ev.fd, Nonzero(e.n), lastly, false, fd);
    var b1 := if lastly.Empty() then b else BackendDel(b, ev.fd, Nonzero(e.n), lastly);
    RefillEvents(b1, ev.fd, Without(e.events, ev), Drop(e.n, ev.kinds), fd);
  }

  lemma {:induction false} ReinitBelowEvents(b: Base, bound: nat, fd: int)
    ensures SameEvents(b, ReinitBelow(b, bound), fd)
  {
    if bound > 0 {
      ReinitBelowEvents(b, bound - 1, fd);
      var r := ReinitBelow(b, bound - 1);
      var e := EntryOf(r, bound - 1);
      BackendKeepsEvents(r, bound - 1, NO_KINDS, Nonzero(e.n), FirstIsEdge(e), fd);
    }
  }

  lemma {:induction false} StepSame(c: Base, d: Base, op: Op)
    requires Twins(c, d) && Enabled(c, op)
    ensures Enabled(d, op) && Twins(Step(c, op), Step(d, op))
  {
    EnabledSame(c, d, op);
    StepKeepsInv(c, op);
    StepKeepsInv(d, op);
    forall fd ensures SameEvents(Step(c, op), Step(d, op), fd) {
      assert SameEvents(c, d, fd);
      match op
      case Add(ev) => assert SameEvents(c, d, ev.fd); AddSame(c, d, ev, fd);
      case Del(ev) =>
        assert SameEvents(c, d, ev.fd);
        if ev.fd >= 0 {
          DelEvents(c, ev, fd);
          DelEvents(d, ev, fd);
        }
      case Dispatch =>
      case Disturb(_, _) =>
      case Reinit(bound) =>
        ReinitBelowEvents(c.(kernel := map[], changes := [], io := Unlinked(c.io)), bound, fd);
        ReinitBelowEvents(d.(kernel := map[], changes := [], io := Unlinked(d.io)), bound, fd);
    }
  }

  lemma {:induction false} EnabledSame(c: Base, d: Base, op: Op)
    requires Twins(c, d) && Enabled(c, op)
    ensures Enabled(d, op)
  {
    match op
    case Del(ev) => assert SameEvents(c, d, ev.fd);
    case Reinit(bound) =>
      forall fd | fd in d.io ensures fd < bound {
        assert SameEvents(c, d, fd);
      }
    case _ =>
  }

  lemma {:induction false} RunSame(c: Base, d: Base, ops: seq<Op>)
    requires Twins(c, d) && Legal(c, ops)
    ensures Legal(d, ops) && Twins(Run(c, ops), Run(d, ops))
    decreases |ops|
  {
    if ops != [] {
      StepSame(c, d, ops[0]);
      RunSame(Step(c, ops[0]), Step(d, ops[0]), ops[1..]);
    }
  }

  /** Main result: for every legal run that ends in a dispatch, one coalesced
      change per descriptor leaves the kernel watching the same kinds as telling
      it of each add and delete at once. */
  lemma {:induction false} CoalescingMatchesDirect(ops: seq<Op>, fd: int)
    requires Legal(Initial(true), ops) && Undisturbed(ops, fd)
    ensures Legal(Initial(false), ops)
    ensures Watched(DispatchStep(Run(Initial(true), ops)).kernel, fd)
            == Watched(DispatchStep(Run(Initial(false), ops)).kernel, fd)
  {
    var c, d := Initial(true), Initial(false);
    assert Twins(c, d);
    RunSame(c, d, ops);
    KernelFollowsCounters(true, ops, fd);
    KernelFollowsCounters(false, ops, fd);
    var c', d' := Run(c, ops), Run(d, ops);
    assert SameEvents(c', d', fd);
    DispatchExact(c', fd);
    DispatchExact(d', fd);
  }

  /* ----- disturbed descriptors, exactly ----- */

  /** Between two dispatches: the coalescing base has left the kernel's `held`
      alone and remembers `began`; the direct base is up to date once told. */
  predicate Track(c: Base, d: Base, fd: int, held: Kinds, began: Kinds) {
    && Watched(c.kernel, fd) == held
    && (if Pending(c, fd)
        then Open(c, fd, NO_KINDS).was == began && Watched(d.kernel, fd) == Wanted(d, fd)
        else Wanted(c, fd) == began && Watched(d.kernel, fd) == held)
  }

  lemma {:induction false} BackendAddTrack(c: Base, d: Base, fd: int, k: Kinds, et: bool, held: Kinds, began: Kinds)
    requires Twins(c, d) && SameEvents(c, d, fd) && Track(c, d, fd, held, began)
    requires !k.Minus(Wanted(c, fd)).Empty()
    ensures var now := Wanted(c, fd);
            var c1 := BackendAdd(c, fd, now, k.Minus(now), et);
            var d1 := BackendAdd(d, fd, now, k.Minus(now), et);
            && Pending(c1, fd) && Open(c1, fd, NO_KINDS).was == began && Watched(c1.kernel, fd) == held
            && Watched(d1.kernel, fd) == now.Plus(k)
  {
    assert OnCourse(c, fd);
    var now := Wanted(c, fd);
    AppliedWatched(d.kernel, Added(Fresh(fd, now), k.Minus(now), et));
  }

  lemma {:induction false} BackendDelTrack(c: Base, d: Base, fd: int, k: Kinds, held: Kinds, began: Kinds)
    requires Twins(c, d) && SameEvents(c, d, fd) && Track(c, d, fd, held, began)
    requires !k.Empty()
    ensures var now := Wanted(c, fd);
            var c1 := BackendDel(c, fd, now, k);
            var d1 := BackendDel(d, fd, now, k);
            && Pending(c1, fd) && Open(c1, fd, NO_KINDS).was == began && Watched(c1.kernel, fd) == held
            && Watched(d1.kernel, fd) == now.Minus(k)
  {
    assert OnCourse(c, fd);
    var now := Wanted(c, fd);
    AppliedWatched(d.kernel, DirectDel(fd, now, k));
  }

  /** Track, for a descriptor whose counters are about to say `now`. */
  predicate TrackTo(c: Base, d: Base, fd: int, now: Kinds, held: Kinds, began: Kinds) {
    && Watched(c.kernel, fd) == held
    && (if Pending(c, fd)
        then Open(c, fd, NO_KINDS).was == began && Watched(d.kernel, fd) == now
        else now == began && Watched(d.kernel, fd) == held)
  }

  lemma {:induction false} RefillTrack(c: Base, d: Base, fd: int, events: seq<Event>, n: Counters, now: Kinds, held: Kinds, began: Kinds)
    requires TrackTo(c, d, fd, now, held, began) && now == Nonzero(n)
    ensures Track(Refill(c, fd, events, n), Refill(d, fd, events, n), fd, held, began)
  {
  }

  lemma {:induction false} SameAtTrack(c: Base, d: Base, c1: Base, d1: Base, fd: int, held: Kinds, began: Kinds)
    requires Track(c, d, fd, held, began) && SameAt(c, c1, fd) && SameAt(d, d1, fd)
    ensures Track(c1, d1, fd, held, began)
  {
  }

  lemma {:induction false} RefillAddedTrack(c: Base, d: Base, ev: Event, e: FdEntry, held: Kinds, began: Kinds)
    requires TrackTo(c, d, ev.fd, Nonzero(e.n).Plus(ev.kinds), held, began)
    ensures var events, n := [ev] + e.events, Bump(e.n, ev.kinds);
            Track(Refill(c, ev.fd, events, n), Refill(d, ev.fd, events, n), ev.fd, held, began)
  {
    BumpNonzero(e.n, ev.kinds);
    RefillTrack(c, d, ev.fd, [ev] + e.events, Bump(e.n, ev.kinds), Nonzero(e.n).Plus(ev.kinds), held, began);
  }

  lemma {:induction false} AddFittingTrack(c: Base, d: Base, ev: Event, e: FdEntry, f: FdEntry, held: Kinds, began: Kinds)
    requires Twins(c, d) && SameEvents(c, d, ev.fd) && Track(c, d, ev.fd, held, began)
    requires e == EntryOf(c, ev.fd) && f == EntryOf(d, ev.fd)
    ensures Track(AddFitting(c, ev, e), AddFitting(d, ev, f), ev.fd, held, began)
  {
    var newly := ev.kinds.Minus(Nonzero(e.n));
    if newly.Empty() {
      RefillAddedTrack(c, d, ev, e, held, began);
    } else {
      BackendAddTrack(c, d, ev.fd, ev.kinds, ev.et, held, began);
      RefillAddedTrack(BackendAdd(c, ev.fd, Nonzero(e.n), newly, ev.et),
                       BackendAdd(d, ev.fd, Nonzero(e.n), newly, ev.et), ev, e, held, began);
    }
  }

  lemma {:induction false} WithEntryTwins(c: Base, d: Base, fd: int)
    requires Twins(c, d) && fd >= 0
    ensures Twins(WithEntry(c, fd), WithEntry(d, fd))
  {
    WithEntryKeepsInv(c, fd);
    WithEntryKeepsInv(d, fd);
    forall g ensures SameEvents(WithEntry(c, fd), WithEntry(d, fd), g) {
      assert SameEvents(c, d, g) && SameEvents(c, d, fd);
    }
  }

  lemma {:induction false} AddTrack(c: Base, d: Base, ev: Event, fd: int, held: Kinds, began: Kinds)
    requires Twins(c, d) && Track(c, d, fd, held, began)
    ensures Track(AddStep(c, ev), AddStep(d, ev), fd, held, began)
  {
    if fd != ev.fd {
      AddFrame(c, ev, fd);
      AddFrame(d, ev, fd);
      SameAtTrack(c, d, AddStep(c, ev), AddStep(d, ev), fd, held, began);
    } else if ev.fd >= 0 {
      var c0, d0 := WithEntry(c, fd), WithEntry(d, fd);
      WithEntryTwins(c, d, fd);
      WithEntryFrame(c, fd, fd);
      WithEntryFrame(d, fd, fd);
      SameAtTrack(c, d, c0, d0, fd, held, began);
      assert SameEvents(c0, d0, fd);
      AddFittingTrack(c0, d0, ev, EntryOf(c0, fd), EntryOf(d0, fd), held, began);
    }
  }

  lemma {:induction false} RefillDroppedTrack(c: Base, d: Base, ev: Event, e: FdEntry, held: Kinds, began: Kinds)
    requires ev.kinds.Within(Nonzero(e.n))
    requires TrackTo(c, d, ev.fd, Nonzero(e.n).Minus(Lastly(e.n, ev.kinds)), held, began)
    ensures var events, n := Without(e.events, ev), Drop(e.n, ev.kinds);
            Track(Refill(c, ev.fd, events, n), Refill(d, ev.fd, events, n), ev.fd, held, began)
  {
    DropNonzero(e.n, ev.kinds);
    hide *;
    RefillTrack(c, d, ev.fd, Without(e.events, ev), Drop(e.n, ev.kinds),
                Nonzero(e.n).Minus(Lastly(e.n, ev.kinds)), held, began);
  }

  lemma {:induction false} DelOwnTrack(c: Base, d: Base, ev: Event, e: FdEntry, f: FdEntry, held: Kinds, began: Kinds)
    requires Twins(c, d) && SameEvents(c, d, ev.fd) && Track(c, d, ev.fd, held, began)
    requires e == EntryOf(c, ev.fd) && f == EntryOf(d, ev.fd) && ev.fd >= 0
    requires Enabled(c, Del(ev)) && Enabled(d, Del(ev))
    ensures Track(DelStep(c, ev), DelStep(d, ev), ev.fd, held, began)
  {
    var lastly := Lastly(e.n, ev.kinds);
    if lastly.Empty() {
      RefillDroppedTrack(c, d, ev, e, held, began);
    } else {
      BackendDelTrack(c, d, ev.fd, lastly, held, began);
      RefillDroppedTrack(BackendDel(c, ev.fd, Nonzero(e.n), lastly),
                         BackendDel(d, ev.fd, Nonzero(e.n), lastly), ev, e, held, began);
    }
  }

  lemma {:induction false} DelTrack(c: Base, d: Base, ev: Event, fd: int, held: Kinds, began: Kinds)
    requires Twins(c, d) && Track(c, d, fd, held, began)
    requires Enabled(c, Del(ev)) && Enabled(d, Del(ev))
    ensures Track(DelStep(c, ev), DelStep(d, ev), fd, held, began)
  {
    assert SameEvents(c, d, fd);
    if fd != ev.fd {
      DelFrame(c, ev, fd);
      DelFrame(d, ev, fd);
      SameAtTrack(c, d, DelStep(c, ev), DelStep(d, ev), fd, held, began);
    } else if ev.fd >= 0 {
      DelOwnTrack(c, d, ev, EntryOf(c, fd), EntryOf(d, fd), held, began);
    }
  }

  predicate OnlyAddsAndDels(ops: seq<Op>) {
    forall i | 0 <= i < |ops| :: ops[i].Add? || ops[i].Del?
  }

  lemma {:induction false} EpochTrack(c: Base, d: Base, ops: seq<Op>, fd: int, held: Kinds, began: Kinds)
    requires Twins(c, d) && Legal(c, ops) && OnlyAddsAndDels(ops)
    requires Track(c, d, fd, held, began)
    ensures Legal(d, ops) && Twins(Run(c, ops), Run(d, ops))
    ensures Track(Run(c, ops), Run(d, ops), fd, held, began)
    decreases |ops|
  {
    if ops != [] {
      StepSame(c, d, ops[0]);
      match ops[0] {
        case Add(ev) => AddTrack(c, d, ev, fd, held, began);
        case Del(ev) => DelTrack(c, d, ev, fd, held, began);
      }
      EpochTrack(Step(c, ops[0]), Step(d, ops[0]), ops[1..], fd, held, began);
    }
  }

  /** With a descriptor the kernel may have lost or kept behind the base's back,
      the two backends agree after a round of adds, deletes and one dispatch if
      and only if nothing was recorded for it, or the recorded change does
      something, or the kernel held what was wanted when the round began. */
  lemma {:induction false} CoalescingExact(c: Base, d: Base, ops: seq<Op>, fd: int)
    requires Twins(c, d) && Legal(c, ops) && OnlyAddsAndDels(ops)
    requires !Pending(c, fd) && Watched(c.kernel, fd) == Watched(d.kernel, fd)
    ensures Legal(d, ops)
    ensures var c', d' := Run(c, ops), Run(d, ops);
            Watched(DispatchStep(c').kernel, fd) == Watched(DispatchStep(d').kernel, fd)
            <==> (!Pending(c', fd) || Effective(Open(c', fd, NO_KINDS))
                  || Watched(c.kernel, fd) == Wanted(c, fd))
  {
    EpochTrack(c, d, ops, fd, Watched(c.kernel, fd), Wanted(c, fd));
    var c', d' := Run(c, ops), Run(d, ops);
    assert SameEvents(c', d', fd);
    DispatchExact(c', fd);
    DispatchExact(d', fd);
    DirectNeverPends(d', fd);
  }
}
