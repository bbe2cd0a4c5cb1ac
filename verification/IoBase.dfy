/** The event map and change list as the program keeps them: updated in place. */
module IoBase {
  import EventKinds
  import EpollTable
  import EpollKernel
  import opened IoMap
  import IoMapLemmas
  import opened IoMapRuns
  import IoMapCoalesce
  import IoMapEvents

  class EventBase {
    const changelist: bool
    const epoll: EpollKernel.Epoll
    var io: map<int, FdEntry>
    var nentries: nat
    var changes: seq<EpollTable.EventChange>

    ghost function Snapshot(): Base
      reads this, epoll
    {
      Base(changelist, io, changes, epoll.kernel)
    }

    ghost predicate Valid()
      reads this, epoll
    {
      Inv(Snapshot()) && forall fd | fd in io :: fd < nentries
    }

    /** What the base keeps for a descriptor. */
    function Entry(fd: int): FdEntry
      reads this`io
    {
      if fd in io then io[fd] else NO_ENTRY
    }

    constructor (useChangelist: bool)
      ensures Valid() && fresh(epoll) && Snapshot() == Initial(useChangelist)
    {
      changelist := useChangelist;
      epoll := new EpollKernel.Epoll();
      io, nentries, changes := map[], 0, [];
    }

    /** evmap_make_space */
    method MakeSpace(slot: nat)
      modifies this`nentries
      ensures nentries > slot && nentries >= old(nentries)
    {
      if nentries <= slot {
        var n := if nentries != 0 then nentries else 32;
        while n <= slot
          invariant n > 0 && n >= nentries
          decreases slot - n
        {
          n := n * 2;
        }
        nentries := n;
      }
    }

    /** event_changelist_get_or_construct, and the write-back through the slot. */
    method SetChange(fd: int, ch: EpollTable.EventChange)
      requires fd in io
      modifies this`io, this`changes
      ensures Snapshot() == Record(old(Snapshot()), fd, ch)
      ensures io.Keys == old(io).Keys
    {
      if 1 <= io[fd].idxplus1 <= |changes| {
        changes := changes[io[fd].idxplus1 - 1 := ch];
      } else {
        var idx := |changes|;
        changes := changes + [ch];
        io := io[fd := io[fd].(idxplus1 := idx + 1)];
      }
    }

    method AddToBackend(fd: int, was: EventKinds.Kinds, k: EventKinds.Kinds, et: bool)
      requires fd in io
      modifies this`io, this`changes, epoll
      ensures Snapshot() == BackendAdd(old(Snapshot()), fd, was, k, et)
      ensures io.Keys == old(io).Keys
    {
      if changelist {
        var ch := Open(Base(true, io, changes, epoll.kernel), fd, was);
        SetChange(fd, Added(ch, k, et));
      } else {
        var r := epoll.ApplyOneChange(Added(Fresh(fd, was), k, et));
      }
    }

    method DelFromBackend(fd: int, was: EventKinds.Kinds, k: EventKinds.Kinds)
      requires fd in io
      modifies this`io, this`changes, epoll
      ensures Snapshot() == BackendDel(old(Snapshot()), fd, was, k)
      ensures io.Keys == old(io).Keys
    {
      if changelist {
        var ch := Open(Base(true, io, changes, epoll.kernel), fd, was);
        SetChange(fd, Removed(ch, k));
      } else {
        var r := epoll.ApplyOneChange(DirectDel(fd, was, k));
      }
    }

    /** The part of evmap_io_add_ after the overflow check. */
    method AddFittingEvent(ev: Event) returns (r: int)
      requires ev.fd in io
      modifies this`io, this`changes, epoll
      ensures Snapshot() == AddFitting(old(Snapshot()), ev, old(io)[ev.fd])
      ensures r == if ev.kinds.Within(Nonzero(old(io)[ev.fd].n)) then 0 else 1
      ensures io.Keys == old(io).Keys
    {
      var e := io[ev.fd];
      var was := Nonzero(e.n);
      var res := ev.kinds.Minus(was);
      r := 0;
      if !res.Empty() {
        AddToBackend(ev.fd, was, res, ev.et);
        r := 1;
      }
      io := io[ev.fd := io[ev.fd].(n := Bump(e.n, ev.kinds), events := [ev] + e.events)];
    }

    /** evmap_io_add_: -1 when a 16-bit counter would overflow, 1 when the
        backend was told, 0 otherwise. Unless refused, the event leads the list of
        its descriptor and is counted; other descriptors keep theirs. */
    method IoAdd(ev: Event) returns (r: int)
      requires Valid()
      modifies this, epoll
      ensures Valid()
      ensures Snapshot() == AddStep(old(Snapshot()), ev)
      ensures r == (if ev.fd < 0 then 0
                    else if !Fits(Bump(old(Entry(ev.fd)).n, ev.kinds)) then -1
                    else if ev.kinds.Within(Nonzero(old(Entry(ev.fd)).n)) then 0 else 1)
      ensures ev.fd >= 0 && r != -1 ==>
                Entry(ev.fd).events == [ev] + old(Entry(ev.fd)).events && Entry(ev.fd).n == Bump(old(Entry(ev.fd)).n, ev.kinds)
      ensures ev.fd < 0 || r == -1 ==> IoMapEvents.AllSame(old(Snapshot()), Snapshot())
      ensures IoMapEvents.OthersSame(old(Snapshot()), Snapshot(), ev.fd)
    {
      hide AddFitting, Bump, Fits, Inv, AddStep;
      ghost var b := Snapshot();
      IoMapLemmas.AddKeepsInv(b, ev);
      IoMapEvents.AddOthers(b, ev);
      if ev.fd >= 0 {
        IoMapEvents.AddEvents(b, ev, ev.fd);
      } else {
        IoMapEvents.AddNowhere(b, ev);
      }
      r := AddNow(ev);
    }

    method AddNow(ev: Event) returns (r: int)
      modifies this, epoll
      ensures Snapshot() == AddStep(old(Snapshot()), ev)
      ensures r == (if ev.fd < 0 then 0
                    else if !Fits(Bump(old(Entry(ev.fd)).n, ev.kinds)) then -1
                    else if ev.kinds.Within(Nonzero(old(Entry(ev.fd)).n)) then 0 else 1)
      ensures ev.fd >= 0 ==> nentries > ev.fd
      ensures nentries >= old(nentries) && io.Keys == old(io.Keys) + if ev.fd >= 0 then {ev.fd} else {}
    {
      hide AddFitting, Bump, Fits;
      ghost var b := Snapshot();
      if ev.fd < 0 {
        return 0;
      }
      MakeSpace(ev.fd);
      if ev.fd !in io {
        io := io[ev.fd := NO_ENTRY];
      }
      assert Snapshot() == WithEntry(b, ev.fd);
      if Fits(Bump(io[ev.fd].n, ev.kinds)) {
        r := AddFittingEvent(ev);
      } else {
        r := -1;
      }
    }

    /** evmap_io_del_: -1 past the end of the map, 1 when the backend was told, 0
        otherwise. The event leaves its descriptor's list and is uncounted; other
        descriptors keep theirs. */
    method IoDel(ev: Event) returns (r: int)
      requires Valid()
      requires 0 <= ev.fd < nentries ==> Listed(Snapshot(), ev)
      modifies this`io, this`changes, epoll
      ensures Valid()
      ensures !(0 <= ev.fd < nentries) ==> Snapshot() == old(Snapshot()) && r == if ev.fd < 0 then 0 else -1
      ensures 0 <= ev.fd < nentries ==>
                && ev.kinds.Within(Wanted(old(Snapshot()), ev.fd))
                && Snapshot() == DelStep(old(Snapshot()), ev)
                && r == (if Lastly(old(Entry(ev.fd)).n, ev.kinds).Empty() then 0 else 1)
                && Entry(ev.fd).events == Without(old(Entry(ev.fd)).events, ev)
                && old(Entry(ev.fd)).n == Bump(Entry(ev.fd).n, ev.kinds)
                && IoMapEvents.OthersSame(old(Snapshot()), Snapshot(), ev.fd)
    {
      hide Inv, Lastly, Drop, Without, DelStep;
      if ev.fd < 0 {
        return 0;
      }
      if ev.fd >= nentries {
        return -1;
      }
      ghost var b := Snapshot();
      IoMapLemmas.ListedIsWanted(b, ev);
      IoMapLemmas.DelKeepsInv(b, ev);
      IoMapEvents.DelOthers(b, ev);
      IoMapCoalesce.DelEvents(b, ev, ev.fd);
      r := DelNow(ev);
    }

    method DelNow(ev: Event) returns (r: int)
      requires ev.fd >= 0 && Listed(Snapshot(), ev) && ev.kinds.Within(Wanted(Snapshot(), ev.fd))
      modifies this`io, this`changes, epoll
      ensures Snapshot() == DelStep(old(Snapshot()), ev)
      ensures r == if Lastly(old(Entry(ev.fd)).n, ev.kinds).Empty() then 0 else 1
      ensures io.Keys == old(io.Keys)
    {
      hide Lastly, Drop, Without;
      var e := io[ev.fd];
      var was, res := Nonzero(e.n), Lastly(e.n, ev.kinds);
      r := 0;
      if !res.Empty() {
        DelFromBackend(ev.fd, was, res);
        r := 1;
      }
      io := io[ev.fd := io[ev.fd].(n := Drop(e.n, ev.kinds), events := Without(e.events, ev))];
    }

    /** event_changelist_remove_all_ */
    method RemoveAll()
      requires Valid()
      modifies this`io, this`changes
      ensures io == Unlinked(old(io)) && changes == []
    {
      ghost var start := Snapshot();
      ghost var was := io;
      for i := 0 to |changes|
        invariant io.Keys == was.Keys
        invariant changes == start.changes && start.io == was
        invariant forall fd | fd in was ::
                    io[fd] == if was[fd].idxplus1 <= i then was[fd].(idxplus1 := 0) else was[fd]
      {
        assert SlotOk(start, i);
        var fd := changes[i].fd;
        forall g | g in was && was[g].idxplus1 == i + 1 ensures g == fd {
          assert OnCourse(start, g);
        }
        io := io[fd := io[fd].(idxplus1 := 0)];
      }
      forall fd | fd in was ensures io[fd] == was[fd].(idxplus1 := 0) {
        assert OnCourse(start, fd);
      }
      assert io == Unlinked(was);
      changes := [];
    }

    /** The apply-then-clear step of epoll_dispatch. */
    method Dispatch()
      requires Valid()
      modifies this, epoll
      ensures Valid()
      ensures Snapshot() == DispatchStep(old(Snapshot()))
      ensures IoMapEvents.AllSame(old(Snapshot()), Snapshot())
    {
      ghost var b := Snapshot();
      IoMapLemmas.DispatchKeepsInv(b);
      IoMapEvents.DispatchSame(b);
      forall i | 0 <= i < |changes| ensures EpollTable.WellFormed(changes[i]) {
        assert SlotOk(b, i) && OnCourse(b, changes[i].fd);
        CoherentTarget(changes[i], Wanted(b, changes[i].fd));
      }
      IoMapLemmas.KernelKeepsInv(b, EpollKernel.AppliedAll(b.kernel, b.changes));
      var r := epoll.ApplyChanges(changes);
      RemoveAll();
    }

    /** The base agrees with `r` below `upto`; from there on its links are stale. */
    ghost predicate Reached(upto: int, r: Base)
      reads this, epoll
    {
      && io.Keys == r.io.Keys && changelist == r.changelist
      && changes == r.changes && epoll.kernel == r.kernel
      && (forall g | g in io :: r.io[g] == if g < upto then io[g] else io[g].(idxplus1 := 0))
    }

    /** evmap_io_reinit_iter_fn: clear the link, then tell the backend. */
    method ReinitOne(fd: int, ghost r: Base)
      requires fd in io && Reached(fd, r)
      modifies this`io, this`changes, epoll
      ensures Reached(fd + 1, ReinitFd(r, fd)) && io.Keys == old(io.Keys)
    {
      var e := io[fd];
      io := io[fd := e.(idxplus1 := 0)];
      AddToBackend(fd, EventKinds.NO_KINDS, Nonzero(e.n), FirstIsEdge(e));
    }

    lemma ReachedNext(fd: int, r: Base)
      requires Reached(fd, r)
      ensures fd in r.io <==> fd in io
      ensures fd !in io ==> Reached(fd + 1, r)
    {
    }

    method ReinitAll(ghost b0: Base)
      requires Reached(0, b0) && forall g | g in io :: 0 <= g < nentries
      modifies this`io, this`changes, epoll
      ensures Reached(nentries, ReinitBelow(b0, nentries))
      ensures io.Keys == old(io.Keys)
    {
      hide ReinitFd, Reached;
      for fd := 0 to nentries
        modifies this`io, this`changes, epoll
        invariant io.Keys == old(io.Keys)
        invariant Reached(fd, ReinitBelow(b0, fd))
      {
        ReachedNext(fd, ReinitBelow(b0, fd));
        if fd in io {
          ReinitOne(fd, ReinitBelow(b0, fd));
        }
      }
    }

    /** event_reinit and evmap_reinit_: forget the old epoll descriptor and
        announce every slot again, clearing its link as it is reached. */
    method Reinit()
      requires Valid()
      modifies this`io, this`changes, epoll
      ensures Valid()
      ensures Snapshot() == ReinitStep(old(Snapshot()), nentries)
      ensures IoMapEvents.AllSame(old(Snapshot()), Snapshot())
    {
      ghost var b := Snapshot();
      ghost var b0 := b.(kernel := map[], changes := [], io := Unlinked(b.io));
      ReinitOk(b, nentries, 0);
      forall g | g in io ensures g >= 0 {
        assert Counted(b, g);
      }
      IoMapEvents.ReinitSame(b, nentries);
      hide Inv, ReinitBelow;
      epoll.kernel := map[];
      changes := [];
      ReinitAll(b0);
      assert io == ReinitBelow(b0, nentries).io;
    }
  }
}
