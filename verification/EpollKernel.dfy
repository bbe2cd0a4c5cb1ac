/** epoll_ctl over a small kernel state, and the one change at a time that the
    backend makes through it. */
module EpollKernel {
  import EventKinds
  import opened EpollTable

  /** What the kernel watches on one descriptor, and whether edge-triggered. */
  datatype Interest = Interest(kinds: EventKinds.Kinds, et: bool)

  type Kernel = map<int, Interest>

  datatype Errno = OK | EEXIST | ENOENT | EINVAL

  /** The kinds watched on fd; a descriptor the kernel does not hold has none. */
  function Watched(k: Kernel, fd: int): EventKinds.Kinds {
    if fd in k then k[fd].kinds else EventKinds.NO_KINDS
  }

  /** The change bytes that can make epoll_apply_one_change set EPOLLET: the
      close change is not consulted. */
  predicate AsksEdge(ch: EventChange) {
    ch.read.et || ch.write.et
  }

  /** The kernel after a change is applied, whatever it held for the fd before. */
  function Applied(k: Kernel, ch: EventChange): Kernel {
    if !Effective(ch) then k
    else if Target(ch).Empty() then k - {ch.fd}
    else k[ch.fd := Interest(Target(ch), AsksEdge(ch))]
  }

  function AppliedAll(k: Kernel, changes: seq<EventChange>): Kernel {
    if changes == [] then k
    else Applied(AppliedAll(k, changes[..|changes| - 1]), changes[|changes| - 1])
  }

  /** A later change list leaves a descriptor alone unless it names it. */
  lemma {:induction false} AppliedAllFrame(k: Kernel, changes: seq<EventChange>, fd: int)
    requires forall i | 0 <= i < |changes| :: changes[i].fd != fd
    ensures fd in AppliedAll(k, changes) <==> fd in k
    ensures fd in k ==> AppliedAll(k, changes)[fd] == k[fd]
  {
    if changes != [] {
      AppliedAllFrame(k, changes[..|changes| - 1], fd);
    }
  }

  /** With one change per descriptor, the order of the list does not matter:
      each descriptor sees exactly its own change. */
  lemma {:induction false} AppliedAllAt(k: Kernel, changes: seq<EventChange>, i: nat)
    requires i < |changes|
    requires forall j | 0 <= j < |changes| && j != i :: changes[j].fd != changes[i].fd
    ensures changes[i].fd in AppliedAll(k, changes) <==> changes[i].fd in Applied(k, changes[i])
    ensures changes[i].fd in Applied(k, changes[i]) ==>
              AppliedAll(k, changes)[changes[i].fd] == Applied(k, changes[i])[changes[i].fd]
  {
    var before := changes[..|changes| - 1];
    if i == |changes| - 1 {
      AppliedAllFrame(k, before, changes[i].fd);
    } else {
      AppliedAllAt(k, before, i);
    }
  }

  class Epoll {
    var kernel: Kernel

    constructor ()
      ensures kernel == map[]
    {
      kernel := map[];
    }

    /** epoll_ctl: ADD wants the descriptor absent, MOD and DEL want it present. */
    method Ctl(op: Ctl, fd: int, interest: Interest) returns (errno: Errno)
      modifies this
      ensures op.CtlAdd? ==> errno == (if fd in old(kernel) then EEXIST else OK)
      ensures op.CtlMod? || op.CtlDel? ==> errno == (if fd in old(kernel) then OK else ENOENT)
      ensures op.CtlNone? || op.CtlInvalid? ==> errno == EINVAL
      ensures errno != OK ==> kernel == old(kernel)
      ensures errno == OK ==>
                kernel == if op.CtlDel? then old(kernel) - {fd} else old(kernel)[fd := interest]
    {
      match op
      case CtlAdd =>
        if fd in kernel { return EEXIST; }
        kernel := kernel[fd := interest];
        return OK;
      case CtlMod =>
        if fd !in kernel { return ENOENT; }
        kernel := kernel[fd := interest];
        return OK;
      case CtlDel =>
        if fd !in kernel { return ENOENT; }
        kernel := kernel - {fd};
        return OK;
      case CtlNone => return EINVAL;
      case CtlInvalid => return EINVAL;
    }

    /** epoll_apply_one_change: guess an operation from the table, and retry as
        the other one when the kernel had forgotten the descriptor or still had it. */
    method ApplyOneChange(ch: EventChange) returns (r: int)
      requires WellFormed(ch)
      modifies this
      ensures r == 0
      ensures kernel == Applied(old(kernel), ch)
    {
      TableFollowsRule(ch);
      var entry := OpTable(TableIndex(ch));
      if entry.events.Empty() {
        assert entry.op == CtlNone;
        return 0;
      }
      var interest := Interest(entry.events, AsksEdge(ch));
      var errno := Ctl(entry.op, ch.fd, interest);
      if errno == OK {
        return 0;
      }
      if entry.op.CtlMod? && errno == ENOENT {
        errno := Ctl(CtlAdd, ch.fd, interest);
        return if errno == OK then 0 else -1;
      }
      if entry.op.CtlAdd? && errno == EEXIST {
        errno := Ctl(CtlMod, ch.fd, interest);
        return if errno == OK then 0 else -1;
      }
      if entry.op.CtlDel? && errno == ENOENT {
        return 0;
      }
      return -1;
    }

    /** epoll_apply_changes */
    method ApplyChanges(changes: seq<EventChange>) returns (r: int)
      requires forall i | 0 <= i < |changes| :: WellFormed(changes[i])
      modifies this
      ensures r == 0
      ensures kernel == AppliedAll(old(kernel), changes)
    {
      r := 0;
      for i := 0 to |changes|
        invariant r == 0
        invariant kernel == AppliedAll(old(kernel), changes[..i])
      {
        assert changes[..i + 1][..i] == changes[..i];
        var one := ApplyOneChange(changes[i]);
        if one < 0 {
          r := -1;
        }
      }
      assert changes[..|changes|] == changes;
    }
  }
}
