/** Which events are on a descriptor's list after any run, said without the map:
    those added and not deleted since, latest first. */
module IoMapEvents {
  import opened EventKinds
  import opened IoMap
  import opened IoMapLemmas
  import opened IoMapRuns
  import opened IoMapCoalesce
  import EpollKernel

  /** evmap_io_add_: the event leads its descriptor's list and is counted, whether
      or not the backend is told, unless a 16-bit counter would overflow; nothing
      changes on any other descriptor. */
  lemma {:induction false} AddEvents(b: Base, ev: Event, fd: int)
    requires Inv(b) && ev.fd >= 0
    ensures var r, e := AddStep(b, ev), EntryOf(b, fd);
            var added := fd == ev.fd && Fits(Bump(e.n, ev.kinds));
            && EntryOf(r, fd).events == (if added then [ev] + e.events else e.events)
            && EntryOf(r, fd).n == if added then Bump(e.n, ev.kinds) else e.n
  {
    hide Inv, AddFitting, Fits, Bump;
    var b0 := WithEntry(b, ev.fd);
    AddFittingEvents(b0, ev, EntryOf(b0, ev.fd), fd);
  }

  /** Taking an event off a list leaves the others in order. */
  lemma {:induction false} WithoutAt(events: seq<Event>, ev: Event) returns (i: nat)
    requires ev in events
    ensures i < |events| && events[i] == ev && Without(events, ev) == events[..i] + events[i + 1..]
  {
    if events[0] == ev {
      i := 0;
    } else {
      var k := WithoutAt(events[1..], ev);
      i := k + 1;
      assert events[..i] == [events[0]] + events[1..][..k] && events[i + 1..] == events[1..][k + 1..];
    }
  }

  /** Same events and counters. */
  predicate SameEntry(s: Base, t: Base, fd: int) {
    EntryOf(t, fd).events == EntryOf(s, fd).events && EntryOf(t, fd).n == EntryOf(s, fd).n
  }

  /** Nothing has changed on any descriptor but this one. */
  ghost predicate OthersSame(s: Base, t: Base, fd: int) {
    forall g {:trigger SameEntry(s, t, g)} :: g != fd ==> SameEntry(s, t, g)
  }

  ghost predicate AllSame(s: Base, t: Base) {
    forall g {:trigger SameEntry(s, t, g)} :: SameEntry(s, t, g)
  }

  lemma {:induction false} AddOthers(b: Base, ev: Event)
    requires Inv(b)
    ensures OthersSame(b, AddStep(b, ev), ev.fd)
  {
    hide Inv, AddStep, Fits, Bump;
    forall g | g != ev.fd ensures SameEntry(b, AddStep(b, ev), g) {
      if ev.fd >= 0 { AddEvents(b, ev, g); } else { AddNowhere(b, ev); }
    }
  }

  lemma {:induction false} DelOthers(b: Base, ev: Event)
    requires ev.fd >= 0 && Listed(b, ev) && ev.kinds.Within(Wanted(b, ev.fd))
    ensures OthersSame(b, DelStep(b, ev), ev.fd)
  {
    hide DelStep;
    forall g | g != ev.fd ensures SameEntry(b, DelStep(b, ev), g) {
      DelEvents(b, ev, g);
    }
  }

  lemma {:induction false} DispatchSame(b: Base)
    ensures AllSame(b, DispatchStep(b))
  {
  }

  lemma {:induction false} ReinitSame(b: Base, bound: nat)
    ensures AllSame(b, ReinitStep(b, bound))
  {
    hide ReinitBelow;
    var b0 := b.(kernel := map[], changes := [], io := Unlinked(b.io));
    forall g ensures SameEntry(b, ReinitStep(b, bound), g) {
      ReinitBelowEvents(b0, bound, g);
    }
  }

  /** The counters of a descriptor are the counts of its list. */
  lemma {:induction false} CountersCount(b: Base, fd: int)
    requires Inv(b)
    ensures EntryOf(b, fd).n == Count(EntryOf(b, fd).events) && (fd < 0 ==> EntryOf(b, fd).events == [])
  {
    hide OnCourse, SlotOk;
    assert Counted(b, fd);
  }

  /** What one operation does to the list of fd. */
  function Registers(list: seq<Event>, op: Op, fd: int): seq<Event> {
    match op
    case Add(ev) => if ev.fd == fd >= 0 && Fits(Bump(Count(list), ev.kinds)) then [ev] + list else list
    case Del(ev) => if ev.fd == fd then Without(list, ev) else list
    case _ => list
  }

  function Registered(list: seq<Event>, ops: seq<Op>, fd: int): seq<Event>
    decreases |ops|
  {
    if ops == [] then list else Registered(Registers(list, ops[0], fd), ops[1..], fd)
  }

  lemma {:induction false} StepEvents(b: Base, op: Op, fd: int)
    requires Inv(b) && Enabled(b, op)
    ensures EntryOf(Step(b, op), fd).events == Registers(EntryOf(b, fd).events, op, fd)
  {
    hide Inv, AddStep, DelStep, ReinitBelow, Fits, Bump, Count;
    CountersCount(b, fd);
    match op
    case Add(ev) => if ev.fd >= 0 { AddEvents(b, ev, fd); } else { AddNowhere(b, ev); }
    case Del(ev) => if ev.fd >= 0 { DelEvents(b, ev, fd); } else { DelNowhere(b, ev); }
    case Dispatch =>
    case Disturb(_, _) =>
    case Reinit(bound) => ReinitBelowEvents(b.(kernel := map[], changes := [], io := Unlinked(b.io)), bound, fd);
  }

  lemma {:induction false} AddNowhere(b: Base, ev: Event)
    requires ev.fd < 0
    ensures AddStep(b, ev) == b
  {
  }

  lemma {:induction false} DelNowhere(b: Base, ev: Event)
    requires ev.fd < 0
    ensures DelStep(b, ev) == b
  {
  }

  lemma {:induction false} RunEvents(b: Base, ops: seq<Op>, fd: int)
    requires Inv(b) && Legal(b, ops)
    ensures EntryOf(Run(b, ops), fd).events == Registered(EntryOf(b, fd).events, ops, fd)
    decreases |ops|
  {
    hide Inv, Registers, Enabled, Step;
    if ops != [] {
      StepEvents(b, ops[0], fd);
      StepKeepsInv(b, ops[0]);
      RunEvents(Step(b, ops[0]), ops[1..], fd);
    }
  }

  /** The kinds that some event of a list waits for. */
  ghost function Asked(list: seq<Event>): Kinds {
    Kinds(exists i :: 0 <= i < |list| && list[i].kinds.read,
          exists i :: 0 <= i < |list| && list[i].kinds.write,
          exists i :: 0 <= i < |list| && list[i].kinds.closed)
  }

  lemma {:induction false} AskedCounts(list: seq<Event>)
    ensures Nonzero(Count(list)) == Asked(list)
  {
    hide Asked, Bump, Nonzero;
    if list == [] {
      AskedNone();
    } else {
      AskedCounts(list[1..]);
      AskedMore(list[0], list[1..]);
      assert [list[0]] + list[1..] == list;
      NonzeroMore(Count(list[1..]), list[0].kinds);
    }
  }

  lemma {:induction false} AskedNone()
    ensures Nonzero(Counters(0, 0, 0)) == NO_KINDS == Asked([])
  {
  }

  lemma {:induction false} NonzeroMore(n: Counters, k: Kinds)
    ensures Nonzero(Bump(n, k)) == k.Plus(Nonzero(n))
  {
  }

  lemma {:induction false} AskedMore(ev: Event, rest: seq<Event>)
    ensures Asked([ev] + rest) == ev.kinds.Plus(Asked(rest))
  {
    var all := [ev] + rest;
    assert all[0] == ev && forall i | 0 <= i < |rest| :: all[i + 1] == rest[i];
  }

  /** From an empty base, after any legal run and a dispatch, the kernel watches an
      undisturbed descriptor for exactly what its events wait for: those added, as
      long as 65535 of a kind are not exceeded, and not deleted since. */
  lemma {:induction false} KernelFollowsEvents(changelist: bool, ops: seq<Op>, fd: int)
    requires Legal(Initial(changelist), ops) && Undisturbed(ops, fd)
    ensures var r, list := DispatchStep(Run(Initial(changelist), ops)), Registered([], ops, fd);
            EntryOf(r, fd).events == list && EpollKernel.Watched(r.kernel, fd) == Asked(list)
  {
    hide Inv, Legal, Run, Registered, Undisturbed, Asked, Count, Nonzero;
    var b := Initial(changelist);
    InitialOk(changelist);
    RunEvents(b, ops, fd);
    RunKeepsClean(b, ops, fd);
    KernelFollowsCounters(changelist, ops, fd);
    var s := Run(b, ops);
    CountersCount(s, fd);
    AskedCounts(EntryOf(s, fd).events);
  }

  lemma {:induction false} InitialOk(changelist: bool)
    ensures Inv(Initial(changelist)) && forall fd :: EntryOf(Initial(changelist), fd).events == []
  {
  }
}
