/** One direction of a rate-limit group: members are suspended and let go under
    the group's lock by trying their locks, while other threads hold some of them. */
module RateGroup {
  import opened Queues
  import opened TokenBucket

  /** What the thread holding a member's lock is doing, if any does. Joining and
      Leaving have released the group's lock and still have a bit to change. */
  datatype Doing = Free | Held | Joining(suspend: bool) | Leaving(unsuspend: bool) | Gone

  /** A pass over the members under the group's lock; own is the member whose
      lock the passing thread already holds, or -1. */
  datatype Pass =
    | NoPass
    | Suspending(left: seq<nat>, own: int)
    | Unsuspending(todo: seq<nat>, again: bool, own: int)

  /** bits are the members holding BEV_SUSPEND_BW_GROUP. */
  datatype Group = Group(
    members: seq<nat>, bits: set<nat>, suspended: bool, pending: bool, pass: Pass, doing: map<nat, Doing>,
    limit: int, minShare: int)

  function DoingOf(g: Group, m: nat): Doing {
    if m in g.doing then g.doing[m] else Free
  }

  /** EVLOCK_TRY_LOCK_ succeeds: nobody else holds the lock. */
  predicate CanLock(g: Group, m: nat, own: int) {
    DoingOf(g, m).Free? || (m == own && DoingOf(g, m).Held?)
  }

  /** The group still knows that m has to be let go. */
  predicate Remembered(g: Group, m: nat) {
    if g.pass.Unsuspending? then g.pass.again || m in g.pass.todo else g.suspended || g.pending
  }

  ghost predicate MemberOk(g: Group, m: nat) {
    if m in g.members then
      && !DoingOf(g, m).Leaving? && !DoingOf(g, m).Gone?
      && (m in g.bits || DoingOf(g, m) == Joining(true) ==> Remembered(g, m))
    else
      && !DoingOf(g, m).Joining?
      && (m in g.bits ==> DoingOf(g, m).Leaving? || DoingOf(g, m).Gone?)
  }

  ghost predicate PassOk(g: Group) {
    match g.pass
    case NoPass => true
    case Suspending(left, own) => g.suspended && (forall m | m in left :: m in g.members) && (own >= 0 ==> DoingOf(g, own).Held?)
    case Unsuspending(todo, _, own) => !g.suspended && (forall m | m in todo :: m in g.members) && (own >= 0 ==> DoingOf(g, own).Held?)
  }

  ghost predicate Inv(g: Group) {
    && Once(g.members) && PassOk(g)
    && (forall m: nat {:trigger MemberOk(g, m)} :: MemberOk(g, m))
    && (g.limit <= 0 && g.minShare > 0 ==> g.suspended) && (g.suspended ==> !g.pending)
  }

  /* ----- the steps ----- */

  datatype Action =
    | Lock(m: nat) | Unlock(m: nat)
    | JoinGroup(m: nat) | JoinTail(m: nat)
    | LeaveGroup(m: nat, unsuspend: bool) | LeaveTail(m: nat)
    | CheckLimit(m: nat)
    | ChargeGroup(own: int, bytes: int, start: nat)
    | RefillGroup(added: nat, start: nat)
    | Visit
    | EndPass

  /** The group's lock is free. */
  predicate GroupFree(g: Group) {
    g.pass.NoPass?
  }

  function PassBy(g: Group): int {
    match g.pass
    case NoPass => -1
    case Suspending(_, own) => own
    case Unsuspending(_, _, own) => own
  }

  predicate Legal(g: Group, a: Action) {
    match a
    case Lock(m) => DoingOf(g, m).Free?
    case Unlock(m) => DoingOf(g, m).Held? && PassBy(g) != m
    case JoinGroup(m) => GroupFree(g) && DoingOf(g, m).Held? && m !in g.members
    case JoinTail(m) => DoingOf(g, m).Joining?
    case LeaveGroup(m, _) => GroupFree(g) && DoingOf(g, m).Held? && m in g.members
    case LeaveTail(m) => DoingOf(g, m).Leaving?
    case CheckLimit(m) => GroupFree(g) && DoingOf(g, m).Held? && m in g.members
    case ChargeGroup(own, _, start) => GroupFree(g) && start <= |g.members| && (own >= 0 ==> DoingOf(g, own).Held? && own in g.members) && own >= -1
    case RefillGroup(_, start) => GroupFree(g) && start <= |g.members|
    case Visit => (g.pass.Suspending? && g.pass.left != []) || (g.pass.Unsuspending? && g.pass.todo != [])
    case EndPass => (g.pass.Suspending? && g.pass.left == []) || (g.pass.Unsuspending? && g.pass.todo == [])
  }

  function Put(g: Group, m: nat, d: Doing): Group {
    g.(doing := g.doing[m := d])
  }

  /** FOREACH_RANDOM_ORDER: from a random member round to the one before it. */
  function Rotation(q: seq<nat>, start: nat): seq<nat>
    requires start <= |q|
  {
    q[start..] + q[..start]
  }

  function BeginSuspend(g: Group, own: int): Group {
    g.(suspended := true, pending := false, pass := Suspending(g.members, own))
  }

  function BeginUnsuspend(g: Group, own: int, start: nat): Group
    requires start <= |g.members|
  {
    g.(suspended := false, pass := Unsuspending(Rotation(g.members, start), false, own))
  }

  function VisitOne(g: Group): Group
    requires Legal(g, Visit)
  {
    match g.pass
    case Suspending(left, own) =>
      var m := left[0];
      g.(bits := if CanLock(g, m, own) then g.bits + {m} else g.bits, pass := Suspending(left[1..], own))
    case Unsuspending(todo, again, own) =>
      var m := todo[0];
      if CanLock(g, m, own) then g.(bits := g.bits - {m}, pass := Unsuspending(todo[1..], again, own))
      else g.(pass := Unsuspending(todo[1..], true, own))
  }

  function Step(g: Group, a: Action): Group
    requires Legal(g, a)
  {
    match a
    case Lock(m) => Put(g, m, Held)
    case Unlock(m) => Put(g, m, Free)
    case JoinGroup(m) => Put(g.(members := [m] + g.members), m, Joining(g.suspended))
    case JoinTail(m) =>
      Put(g.(bits := if DoingOf(g, m).suspend then g.bits + {m} else g.bits), m, Held)
    case LeaveGroup(m, unsuspend) => Put(g.(members := RemoveOne(g.members, m)), m, Leaving(unsuspend))
    case LeaveTail(m) =>
      if DoingOf(g, m).unsuspend then Put(g.(bits := g.bits - {m}), m, Held) else Put(g, m, Gone)
    case CheckLimit(m) => if g.suspended then g.(bits := g.bits + {m}) else g
    case ChargeGroup(own, bytes, start) =>
      var h := g.(limit := g.limit - bytes);
      if h.limit <= 0 then BeginSuspend(h, own)
      else if h.suspended then BeginUnsuspend(h, own, start)
      else h
    case RefillGroup(added, start) =>
      var h := g.(limit := g.limit + added);
      if h.pending || (h.suspended && h.limit >= h.minShare) then BeginUnsuspend(h, -1, start) else h
    case Visit => VisitOne(g)
    case EndPass =>
      if g.pass.Unsuspending? then g.(pending := g.pass.again, pass := NoPass) else g.(pass := NoPass)
  }

  /* ----- every step keeps the invariant ----- */

  lemma {:induction false} RemoveHas(q: seq<nat>, m: nat, x: nat)
    requires Once(q) && m in q
    ensures x in RemoveOne(q, m) <==> x in q && x != m
  {
    if q[0] == m {
      if x in q[1..] {
        var i :| 0 <= i < |q[1..]| && q[1..][i] == x;
        assert q[i + 1] == x && q[0] != q[i + 1];
      }
    } else {
      RemoveHas(q[1..], m, x);
    }
  }

  lemma {:induction false} RemoveOnce(q: seq<nat>, m: nat)
    requires Once(q) && m in q
    ensures Once(RemoveOne(q, m))
  {
    forall i, j | 0 <= i < j < |q[1..]| ensures q[1..][i] != q[1..][j] {
      assert q[i + 1] != q[j + 1];
    }
    if q[0] != m {
      var rest := RemoveOne(q[1..], m);
      RemoveOnce(q[1..], m);
      forall x | x in rest ensures x != q[0] {
        RemoveHas(q[1..], m, x);
        var i :| 0 <= i < |q[1..]| && q[1..][i] == x;
        assert q[0] != q[i + 1];
      }
      OnceCons(q[0], rest);
    }
  }

  lemma {:induction false} OnceCons(x: nat, q: seq<nat>)
    requires Once(q) && x !in q
    ensures Once([x] + q)
  {
    var r := [x] + q;
    forall i, j | 0 <= i < j < |r| ensures r[i] != r[j] {
      assert r[j] == q[j - 1] && (i > 0 ==> r[i] == q[i - 1]);
    }
  }

  lemma {:induction false} RotationHas(q: seq<nat>, start: nat, x: nat)
    requires start <= |q|
    ensures x in Rotation(q, start) <==> x in q
  {
    assert q == q[..start] + q[start..];
  }

  /** What the thread holding m's lock is doing changes, and perhaps m's bit. */
  lemma {:induction false} LocalKeeps(g: Group, m: nat, d: Doing, bits: set<nat>)
    requires Inv(g) && (PassBy(g) == m ==> d.Held?)
    requires forall x: nat | x != m :: x in bits <==> x in g.bits
    requires MemberOk(Put(g.(bits := bits), m, d), m)
    ensures Inv(Put(g.(bits := bits), m, d))
  {
    hide Once, Remembered;
    var r := Put(g.(bits := bits), m, d);
    forall x: nat ensures MemberOk(r, x) {
      assert MemberOk(g, x);
      SameMemory(g, r, x);
    }
  }

  lemma {:induction false} SameMemory(g: Group, r: Group, x: nat)
    requires r.suspended == g.suspended && r.pending == g.pending && r.pass == g.pass
    ensures Remembered(r, x) <==> Remembered(g, x)
  {
  }

  lemma {:induction false} LockKeeps(g: Group, m: nat, d: Doing)
    requires Inv(g) && (DoingOf(g, m).Free? || DoingOf(g, m).Held?) && (d.Free? || d.Held?) && (PassBy(g) == m ==> d.Held?)
    ensures Inv(Put(g, m, d))
  {
    hide Inv, Remembered;
    MemberOf(g, m);
    SameMemory(g, Put(g, m, d), m);
    assert g.(bits := g.bits) == g;
    LocalKeeps(g, m, d, g.bits);
  }

  lemma {:induction false} MemberOf(g: Group, m: nat)
    requires Inv(g)
    ensures MemberOk(g, m)
  {
    hide MemberOk, PassOk;
  }

  lemma {:induction false} OwnHeld(g: Group)
    requires Inv(g)
    ensures PassBy(g) >= 0 ==> DoingOf(g, PassBy(g)).Held?
  {
    hide MemberOk;
  }

  lemma {:induction false} JoinTailKeeps(g: Group, m: nat)
    requires Inv(g) && DoingOf(g, m).Joining?
    ensures Inv(Put(g.(bits := if DoingOf(g, m).suspend then g.bits + {m} else g.bits), m, Held))
  {
    hide Inv, Remembered;
    var bits := if DoingOf(g, m).suspend then g.bits + {m} else g.bits;
    MemberOf(g, m);
    SameMemory(g, Put(g.(bits := bits), m, Held), m);
    LocalKeeps(g, m, Held, bits);
  }

  lemma {:induction false} LeaveTailKeeps(g: Group, m: nat, bits: set<nat>, d: Doing)
    requires Inv(g) && DoingOf(g, m).Leaving?
    requires (bits == g.bits - {m} && d == Held) || (bits == g.bits && d == Gone)
    ensures Inv(Put(g.(bits := bits), m, d))
  {
    hide Inv, Remembered;
    MemberOf(g, m);
    OwnHeld(g);
    LocalKeeps(g, m, d, bits);
  }

  lemma {:induction false} JoinKeeps(g: Group, m: nat)
    requires Inv(g) && GroupFree(g) && DoingOf(g, m).Held? && m !in g.members
    ensures Inv(Put(g.(members := [m] + g.members), m, Joining(g.suspended)))
  {
    var r := Put(g.(members := [m] + g.members), m, Joining(g.suspended));
    OnceCons(m, g.members);
    hide Once;
    forall x: nat ensures MemberOk(r, x) { assert MemberOk(g, x); }
  }

  lemma {:induction false} LeaveKeeps(g: Group, m: nat, unsuspend: bool)
    requires Inv(g) && GroupFree(g) && DoingOf(g, m).Held? && m in g.members
    ensures Inv(Put(g.(members := RemoveOne(g.members, m)), m, Leaving(unsuspend)))
  {
    RemoveOnce(g.members, m);
    hide Once, RemoveOne;
    var r := Put(g.(members := RemoveOne(g.members, m)), m, Leaving(unsuspend));
    forall x: nat ensures MemberOk(r, x) {
      RemoveHas(g.members, m, x);
      assert MemberOk(g, x);
    }
  }

  lemma {:induction false} CheckKeeps(g: Group, m: nat)
    requires Inv(g) && GroupFree(g) && DoingOf(g, m).Held? && m in g.members && g.suspended
    ensures Inv(g.(bits := g.bits + {m}))
  {
    hide Once;
    var r := g.(bits := g.bits + {m});
    forall x: nat ensures MemberOk(r, x) { assert MemberOk(g, x); }
  }

  /** A pass begins; the limit has just changed. */
  lemma {:induction false} SuspendKeeps(g: Group, own: int, limit: int)
    requires Inv(g) && GroupFree(g) && (own >= 0 ==> DoingOf(g, own).Held?)
    ensures Inv(BeginSuspend(g.(limit := limit), own))
  {
    hide Once;
    var r := BeginSuspend(g.(limit := limit), own);
    forall x: nat ensures MemberOk(r, x) { assert MemberOk(g, x); }
  }

  lemma {:induction false} UnsuspendKeeps(g: Group, own: int, limit: int, start: nat)
    requires Inv(g) && GroupFree(g) && (own >= 0 ==> DoingOf(g, own).Held?) && start <= |g.members|
    requires g.minShare > 0 ==> limit > 0
    ensures Inv(BeginUnsuspend(g.(limit := limit), own, start))
  {
    hide Once, Rotation;
    var r := BeginUnsuspend(g.(limit := limit), own, start);
    forall x: nat ensures x in r.pass.todo <==> x in g.members { RotationHas(g.members, start, x); }
    forall x: nat ensures MemberOk(r, x) { assert MemberOk(g, x); }
  }

  lemma {:induction false} LimitKeeps(g: Group, limit: int)
    requires Inv(g) && (limit <= 0 && g.minShare > 0 ==> g.suspended)
    ensures Inv(g.(limit := limit))
  {
    hide Once;
    var r := g.(limit := limit);
    forall x: nat ensures MemberOk(r, x) { assert MemberOk(g, x); }
  }

  lemma {:induction false} VisitKeeps(g: Group)
    requires Inv(g) && Legal(g, Visit)
    ensures Inv(VisitOne(g))
  {
    hide Once;
    var r := VisitOne(g);
    forall x: nat ensures MemberOk(r, x) { VisitMember(g, x); }
  }

  /** One visit of a suspending pass: a bit is set while the group is suspended. */
  lemma {:induction false} SuspendVisit(g: Group, r: Group, x: nat)
    requires MemberOk(g, x) && g.suspended && !g.pass.Unsuspending? && !r.pass.Unsuspending?
    requires r.members == g.members && r.doing == g.doing && r.suspended
    requires x in r.bits ==> x in g.bits || x in g.members
    ensures MemberOk(r, x)
  {
  }

  /** One visit of an unsuspending pass: m is let go or the pass has to be made again. */
  lemma {:induction false} UnsuspendVisit(g: Group, r: Group, m: nat, x: nat)
    requires MemberOk(g, x) && g.pass.Unsuspending? && r.pass.Unsuspending? && (r.pass.again || m !in r.bits)
    requires r.members == g.members && r.doing == g.doing && r.bits <= g.bits && (g.pass.again ==> r.pass.again)
    requires DoingOf(g, m).Joining? ==> r.pass.again
    requires x in g.pass.todo ==> x == m || x in r.pass.todo
    ensures MemberOk(r, x)
  {
  }

  lemma {:induction false} VisitMember(g: Group, x: nat)
    requires Inv(g) && Legal(g, Visit)
    ensures MemberOk(VisitOne(g), x)
  {
    hide Once, MemberOk, Remembered;
    MemberOf(g, x);
    match g.pass
    case Suspending(left, own) =>
      assert left[0] in left;
      SuspendVisit(g, VisitOne(g), x);
    case Unsuspending(todo, again, own) =>
      assert x in todo ==> x == todo[0] || x in todo[1..];
      UnsuspendVisit(g, VisitOne(g), todo[0], x);
  }

  lemma {:induction false} EndKeeps(g: Group)
    requires Inv(g) && Legal(g, EndPass)
    ensures Inv(if g.pass.Unsuspending? then g.(pending := g.pass.again, pass := NoPass) else g.(pass := NoPass))
  {
    hide Once;
    var r := if g.pass.Unsuspending? then g.(pending := g.pass.again, pass := NoPass) else g.(pass := NoPass);
    forall x: nat ensures MemberOk(r, x) { assert MemberOk(g, x); }
  }

  lemma {:induction false} LimitSuspends(g: Group)
    requires Inv(g)
    ensures (g.limit <= 0 && g.minShare > 0 ==> g.suspended) && (g.suspended ==> !g.pending)
  {
    hide MemberOk, PassOk, Once;
  }

  lemma {:induction false} StepKeeps(g: Group, a: Action)
    requires Inv(g) && Legal(g, a)
    ensures Inv(Step(g, a))
  {
    hide Inv, VisitOne, RemoveOne, Rotation;
    LimitSuspends(g);
    match a
    case Lock(m) => OwnHeld(g); LockKeeps(g, m, Held);
    case Unlock(m) => LockKeeps(g, m, Free);
    case JoinGroup(m) => JoinKeeps(g, m);
    case JoinTail(m) => JoinTailKeeps(g, m);
    case LeaveGroup(m, unsuspend) => LeaveKeeps(g, m, unsuspend);
    case LeaveTail(m) =>
      LeaveTailKeeps(g, m, g.bits, Gone);
      LeaveTailKeeps(g, m, g.bits - {m}, Held);
      assert g.(bits := g.bits) == g;
    case CheckLimit(m) => if g.suspended { CheckKeeps(g, m); }
    case ChargeGroup(own, bytes, start) => ChargeKeeps(g, own, bytes, start);
    case RefillGroup(added, start) => RefillKeeps(g, added, start);
    case Visit => VisitKeeps(g);
    case EndPass => EndKeeps(g);
  }

  lemma {:induction false} ChargeKeeps(g: Group, own: int, bytes: int, start: nat)
    requires Inv(g) && Legal(g, ChargeGroup(own, bytes, start))
    ensures Inv(Step(g, ChargeGroup(own, bytes, start)))
  {
    hide Inv, BeginSuspend, BeginUnsuspend;
    var limit := g.limit - bytes;
    SuspendKeeps(g, own, limit);
    if limit > 0 {
      UnsuspendKeeps(g, own, limit, start);
      LimitKeeps(g, limit);
    }
  }

  lemma {:induction false} RefillKeeps(g: Group, added: nat, start: nat)
    requires Inv(g) && Legal(g, RefillGroup(added, start))
    ensures Inv(Step(g, RefillGroup(added, start)))
  {
    hide Inv, BeginUnsuspend;
    LimitSuspends(g);
    var limit := g.limit + added;
    if g.pending || (g.suspended && limit >= g.minShare) {
      UnsuspendKeeps(g, -1, limit, start);
    } else {
      LimitKeeps(g, limit);
    }
  }

  /* ----- runs ----- */

  ghost predicate LegalRun(g: Group, acts: seq<Action>)
    decreases |acts|
  {
    acts == [] || (Legal(g, acts[0]) && LegalRun(Step(g, acts[0]), acts[1..]))
  }

  ghost function Run(g: Group, acts: seq<Action>): Group
    requires LegalRun(g, acts)
    decreases |acts|
  {
    if acts == [] then g else Run(Step(g, acts[0]), acts[1..])
  }

  /** In every interleaving, a member that holds the bit, or whose joining thread
      is about to set it, is remembered: the group is suspended, or its
      pending flag is set, or the pass now under way will come to it or set the flag. */
  lemma {:induction false} NeverForgotten(g: Group, acts: seq<Action>, m: nat)
    requires Inv(g) && LegalRun(g, acts)
    ensures var r := Run(g, acts);
            && Inv(r)
            && (m in r.members && (m in r.bits || DoingOf(r, m) == Joining(true)) ==> Remembered(r, m))
            && (m in r.members && m in r.bits && r.pass.NoPass? ==> r.suspended || r.pending)
            && (m !in r.members && m in r.bits ==> DoingOf(r, m).Leaving? || DoingOf(r, m).Gone?)
            && (r.limit <= 0 && r.minShare > 0 ==> r.suspended)
    decreases |acts|
  {
    hide Step, Legal;
    if acts == [] {
      assert MemberOk(g, m);
    } else {
      StepKeeps(g, acts[0]);
      NeverForgotten(Step(g, acts[0]), acts[1..], m);
    }
  }

  function NewGroup(limit: int, minShare: int): Group {
    Group([], {}, false, false, NoPass, map[], limit, minShare)
  }

  lemma {:induction false} NewGroupOk(limit: int, minShare: int)
    requires limit > 0
    ensures Inv(NewGroup(limit, minShare))
  {
  }

  /* ----- what a step changes ----- */

  /** Who belongs after a step: joining and leaving change that for one member only. */
  predicate Belongs(g: Group, a: Action, m: nat) {
    match a
    case JoinGroup(x) => m == x || m in g.members
    case LeaveGroup(x, _) => m != x && m in g.members
    case _ => m in g.members
  }

  function LimitAfter(limit: int, a: Action): int {
    match a
    case ChargeGroup(_, bytes, _) => limit - bytes
    case RefillGroup(added, _) => limit + added
    case _ => limit
  }

  lemma {:induction false} StepMembers(g: Group, a: Action, m: nat)
    requires Inv(g) && Legal(g, a)
    ensures m in Step(g, a).members <==> Belongs(g, a, m)
    ensures Step(g, a).limit == LimitAfter(g.limit, a) && Step(g, a).minShare == g.minShare
  {
    hide MemberOk, PassOk, Once, RemoveOne, Rotation;
    match a
    case LeaveGroup(x, _) => RemoveHas(g.members, x, m);
    case _ =>
  }

  /** A member's own operations: a thread that checks the limit of a suspended group,
      or joins one, takes the bit; one that leaves gives it up if it was told to. */
  lemma {:induction false} StepOwn(g: Group, a: Action)
    requires Inv(g) && Legal(g, a)
    ensures a.CheckLimit? ==> (a.m in Step(g, a).bits <==> g.suspended || a.m in g.bits)
    ensures a.JoinGroup? ==> Step(g, a).members[0] == a.m && DoingOf(Step(g, a), a.m) == Joining(g.suspended)
    ensures a.JoinTail? ==> (a.m in Step(g, a).bits <==> DoingOf(g, a.m).suspend || a.m in g.bits)
    ensures a.LeaveTail? ==> (a.m in Step(g, a).bits <==> !DoingOf(g, a.m).unsuspend && a.m in g.bits)
    ensures a.LeaveGroup? ==> DoingOf(Step(g, a), a.m) == Leaving(a.unsuspend)
  {
    hide Inv, RemoveOne, Rotation;
  }

  /** No step changes the bit of a member it does not name, a pass's visits aside. */
  lemma {:induction false} StepOthers(g: Group, a: Action, m: nat)
    requires Legal(g, a)
    ensures !a.Visit? && (a.CheckLimit? || a.JoinTail? || a.LeaveTail? ==> a.m != m) ==> (m in Step(g, a).bits <==> m in g.bits)
    ensures a.Visit? ==> (m in Step(g, a).bits <==>
      if m == Next(g) && CanLock(g, m, PassBy(g)) then g.pass.Suspending? else m in g.bits)
  {
    hide RemoveOne, Rotation, CanLock;
  }

  /** The member a pass comes to next. */
  function Next(g: Group): nat
    requires Legal(g, Visit)
  {
    if g.pass.Suspending? then g.pass.left[0] else g.pass.todo[0]
  }

  function LimitOver(limit: int, acts: seq<Action>): int
    decreases |acts|
  {
    if acts == [] then limit else LimitOver(LimitAfter(limit, acts[0]), acts[1..])
  }

  /** No byte is charged twice or lost over a run, whatever is suspended meanwhile. */
  lemma {:induction false} RunLimit(g: Group, acts: seq<Action>)
    requires Inv(g) && LegalRun(g, acts)
    ensures Run(g, acts).limit == LimitOver(g.limit, acts)
    decreases |acts|
  {
    hide Inv, Step, Legal, LimitAfter;
    if acts != [] {
      StepKeeps(g, acts[0]);
      StepMembers(g, acts[0], 0);
      RunLimit(Step(g, acts[0]), acts[1..]);
    }
  }

  /* ----- a whole pass ----- */

  function ToVisit(g: Group): seq<nat> {
    match g.pass
    case NoPass => []
    case Suspending(left, _) => left
    case Unsuspending(todo, _, _) => todo
  }

  /** The pass under way, if any, is carried to its end. */
  function FinishPass(g: Group): Group
    decreases |ToVisit(g)|
  {
    if g.pass.NoPass? then g else if ToVisit(g) == [] then Step(g, EndPass) else FinishPass(VisitOne(g))
  }

  lemma {:induction false} NoPassToFinish(g: Group)
    requires g.pass.NoPass?
    ensures FinishPass(g) == g
  {
  }

  /** The members of q whose locks the passing thread gets. */
  ghost function Lockable(g: Group, q: seq<nat>, own: int): set<nat> {
    set m | m in q && CanLock(g, m, own)
  }

  /** A visit to a member that can be locked, and one to a member that cannot. */
  lemma {:induction false} VisitShape(g: Group)
    requires g.pass.Unsuspending? && g.pass.todo != []
    ensures var m, own, h := g.pass.todo[0], g.pass.own, VisitOne(g);
            && h == g.(bits := h.bits, pass := h.pass)
            && h.pass.Unsuspending? && h.pass.todo == g.pass.todo[1..] && h.pass.own == own
            && h.pass.again == (g.pass.again || !CanLock(g, m, own))
            && h.bits == if CanLock(g, m, own) then g.bits - {m} else g.bits
  {
    hide CanLock;
  }

  lemma {:induction false} SuspendShape(g: Group)
    requires g.pass.Suspending? && g.pass.left != []
    ensures var m, own, h := g.pass.left[0], g.pass.own, VisitOne(g);
            && h == g.(bits := h.bits, pass := Suspending(g.pass.left[1..], own))
            && h.bits == if CanLock(g, m, own) then g.bits + {m} else g.bits
  {
    hide CanLock;
  }

  lemma {:induction false} SameLocks(g: Group, h: Group, m: nat, own: int)
    requires h.doing == g.doing
    ensures CanLock(h, m, own) <==> CanLock(g, m, own)
  {
  }

  lemma {:induction false} LockableStep(g: Group, h: Group, q: seq<nat>, own: int)
    requires q != [] && h.doing == g.doing
    ensures Lockable(g, q, own) == (if CanLock(g, q[0], own) then {q[0]} else {}) + Lockable(h, q[1..], own)
  {
    hide CanLock;
    assert q == [q[0]] + q[1..];
    forall m: nat ensures CanLock(h, m, own) <==> CanLock(g, m, own) { SameLocks(g, h, m, own); }
  }

  /** A suspending pass sets the bit of exactly the members it can lock, and keeps the rest. */
  lemma {:induction false} PassSuspends(g: Group)
    requires g.pass.Suspending?
    ensures FinishPass(g) == g.(bits := g.bits + Lockable(g, g.pass.left, g.pass.own), pass := NoPass)
    decreases |g.pass.left|
  {
    hide CanLock, VisitOne, Lockable;
    var left, own := g.pass.left, g.pass.own;
    if left == [] {
      NoneLockable(g, own);
      assert g.(bits := g.bits, pass := NoPass) == g.(pass := NoPass);
    } else {
      SuspendShape(g);
      LockableStep(g, VisitOne(g), left, own);
      PassSuspends(VisitOne(g));
    }
  }

  lemma {:induction false} NoneLockable(g: Group, own: int)
    ensures Lockable(g, [], own) == {}
  {
    hide CanLock;
  }

  /** An unsuspending pass clears the bit of exactly the members it can lock. */
  lemma {:induction false} PassWakes(g: Group)
    requires g.pass.Unsuspending?
    ensures var r := FinishPass(g);
            && r.bits == g.bits - Lockable(g, g.pass.todo, g.pass.own)
            && r == g.(bits := r.bits, pending := r.pending, pass := NoPass)
    decreases |g.pass.todo|
  {
    hide CanLock, VisitOne, Lockable;
    var todo, own := g.pass.todo, g.pass.own;
    if todo == [] {
      NoneLockable(g, own);
    } else {
      VisitShape(g);
      LockableStep(g, VisitOne(g), todo, own);
      PassWakes(VisitOne(g));
    }
  }

  /** A pass sets the pending flag exactly when it could not lock some member. */
  lemma {:induction false} PassPending(g: Group)
    requires g.pass.Unsuspending?
    ensures FinishPass(g).pending <==> g.pass.again || exists m | m in g.pass.todo :: !CanLock(g, m, g.pass.own)
    decreases |g.pass.todo|
  {
    hide CanLock, VisitOne;
    if g.pass.todo != [] {
      var h := VisitOne(g);
      VisitShape(g);
      PassPending(h);
      forall m: nat ensures CanLock(h, m, h.pass.own) <==> CanLock(g, m, g.pass.own) {
        SameLocks(g, h, m, g.pass.own);
      }
      assert g.pass.todo == [g.pass.todo[0]] + h.pass.todo;
    }
  }

  /** A charge with the pass it starts: the limit falls by the bytes, the group is
      suspended exactly when nothing is left, and every member whose lock is to be
      had is suspended with it, or let go if it was suspended before. */
  lemma {:induction false} ChargeSettles(g: Group, own: int, bytes: int, start: nat)
    requires Inv(g) && Legal(g, ChargeGroup(own, bytes, start))
    ensures var r := FinishPass(Step(g, ChargeGroup(own, bytes, start)));
            && r.limit == g.limit - bytes && r.pass == NoPass && r.members == g.members && r.doing == g.doing
            && (r.suspended <==> r.limit <= 0)
            && r.bits == (if r.limit <= 0 then g.bits + Lockable(g, g.members, own)
                          else if g.suspended then g.bits - Lockable(g, g.members, own) else g.bits)
  {
    hide Inv, CanLock, Lockable, FinishPass, Rotation;
    var h := Step(g, ChargeGroup(own, bytes, start));
    if h.pass.Suspending? {
      PassSuspends(h);
      SameLockable(g, h, g.members, g.members, own);
    } else if h.pass.Unsuspending? {
      PassWakes(h);
      forall m: nat ensures m in h.pass.todo <==> m in g.members { RotationHas(g.members, start, m); }
      SameLockable(g, h, g.members, h.pass.todo, own);
    } else {
      NoPassToFinish(h);
    }
  }

  lemma {:induction false} SameLockable(g: Group, h: Group, p: seq<nat>, q: seq<nat>, own: int)
    requires h.doing == g.doing && (forall m: nat :: m in p <==> m in q)
    ensures Lockable(h, q, own) == Lockable(g, p, own)
  {
    hide CanLock;
    forall m: nat ensures CanLock(h, m, own) <==> CanLock(g, m, own) { SameLocks(g, h, m, own); }
  }

  /** A refill with the pass it starts: the members are let go exactly when the flag is
      set, or the group is suspended and has reached the minimum share. */
  lemma {:induction false} RefillSettles(g: Group, added: nat, start: nat)
    requires Inv(g) && Legal(g, RefillGroup(added, start))
    ensures var r := FinishPass(Step(g, RefillGroup(added, start)));
            var wakes := g.pending || (g.suspended && g.limit + added >= g.minShare);
            && r.limit == g.limit + added && r.pass == NoPass && r.members == g.members && r.doing == g.doing
            && r.suspended == (g.suspended && !wakes)
            && r.bits == (if wakes then g.bits - Lockable(g, g.members, -1) else g.bits)
  {
    hide Inv, CanLock, Lockable, FinishPass, Rotation;
    var h := Step(g, RefillGroup(added, start));
    if h.pass.Unsuspending? {
      PassWakes(h);
      forall m: nat ensures m in h.pass.todo <==> m in g.members { RotationHas(g.members, start, m); }
      SameLockable(g, h, g.members, h.pass.todo, -1);
      LimitSuspends(g);
    } else {
      NoPassToFinish(h);
    }
  }

  lemma {:induction false} FreeLockable(g: Group, m: nat)
    requires m in g.members && DoingOf(g, m).Free?
    ensures m in Lockable(g, g.members, -1)
  {
  }

  /** A refill that brings the bucket to the minimum share, or finds the pending
      flag, lets every member go if none is held elsewhere. */
  lemma {:induction false} RefillWakes(g: Group, added: nat, start: nat)
    requires Inv(g) && Legal(g, RefillGroup(added, start))
    requires g.pending || (g.suspended && g.limit + added >= g.minShare)
    requires forall m | m in g.members :: DoingOf(g, m).Free?
    ensures var h := Step(g, RefillGroup(added, start));
            && h.pass.Unsuspending?
            && var r := FinishPass(h);
            && !r.suspended && !r.pending && r.pass == NoPass
            && forall m | m in r.members :: m !in r.bits
  {
    hide Inv, Lockable, FinishPass, Rotation;
    var h := Step(g, RefillGroup(added, start));
    RefillSettles(g, added, start);
    PassPending(h);
    forall m: nat ensures m in h.pass.todo <==> m in g.members { RotationHas(g.members, start, m); }
    forall m | m in g.members ensures m in Lockable(g, g.members, -1) { FreeLockable(g, m); }
  }

  /** The bucket does reach the minimum share: it is no more than one tick's rate. */
  lemma {:induction false} EnoughTicks(limit: int, r: Rate, minShare: int, n: nat)
    requires RateOk(r) && Ssize(limit) && limit <= r.maximum && 0 < minShare <= r.rate && n >= 1
    requires n * r.rate >= r.rate - limit
    ensures Refill(limit, r, n) >= minShare
  {
    hide Refill;
    RefillMin(limit, r, n);
    assert Min(limit + n * r.rate, r.maximum) >= r.rate;
  }

  /** The refill of ev_token_bucket_update_ never lowers a limit within bounds. */
  lemma {:induction false} RefillRaises(limit: int, r: Rate, n: nat)
    requires RateOk(r) && Ssize(limit) && limit <= r.maximum && n >= 1
    ensures Refill(limit, r, n) >= limit
  {
    hide Refill;
    RefillMin(limit, r, n);
    assert n * r.rate >= 0;
  }

  /** bev_group_refill_callback_ as a whole: a suspended group whose members are all
      free, refilled after enough ticks, has no bit and no flag left. */
  lemma {:induction false} TicksWake(g: Group, r: Rate, n: nat, start: nat) returns (added: nat)
    requires Inv(g) && GroupFree(g) && start <= |g.members| && g.suspended
    requires forall m | m in g.members :: DoingOf(g, m).Free?
    requires RateOk(r) && Ssize(g.limit) && g.limit <= r.maximum && 0 < g.minShare <= r.rate && n >= 1
    requires n * r.rate >= r.rate - g.limit
    ensures Legal(g, RefillGroup(added, start))
    ensures var h := Step(g, RefillGroup(added, start));
            && h.limit == Refill(g.limit, r, n) && h.pass.Unsuspending?
            && var w := FinishPass(h);
            && !w.suspended && !w.pending && w.pass == NoPass
            && forall m | m in w.members :: m !in w.bits
  {
    hide Inv, Refill, FinishPass;
    RefillRaises(g.limit, r, n);
    EnoughTicks(g.limit, r, g.minShare, n);
    added := Refill(g.limit, r, n) - g.limit;
    RefillWakes(g, added, start);
  }

  /* ----- FOREACH_RANDOM_ORDER ----- */

  /** The members in the order the two loops visit them. */
  method RandomOrder(members: seq<nat>, which: nat) returns (visited: seq<nat>)
    requires Once(members) && (members == [] || which < |members|)
    ensures visited == if members == [] then [] else Rotation(members, which)
  {
    visited := [];
    if members == [] {
      return;
    }
    var first := members[which];
    var i := which;
    while i < |members|
      invariant which <= i <= |members| && visited == members[which..i]
    {
      visited := visited + [members[i]];
      i := i + 1;
    }
    i := 0;
    while i < |members| && members[i] != first
      invariant 0 <= i <= which && visited == members[which..] + members[..i]
    {
      visited := visited + [members[i]];
      i := i + 1;
    }
  }

  /** Each member is visited exactly once, wherever the walk starts. */
  lemma {:induction false} RotationOnce(q: seq<nat>, start: nat)
    requires start <= |q| && Once(q)
    ensures Once(Rotation(q, start)) && multiset(Rotation(q, start)) == multiset(q) && |Rotation(q, start)| == |q|
  {
    var r := Rotation(q, start);
    assert q == q[..start] + q[start..];
    forall i, j | 0 <= i < j < |r| ensures r[i] != r[j] {
      assert r[i] == q[if i < |q| - start then start + i else i - (|q| - start)];
      assert r[j] == q[if j < |q| - start then start + j else j - (|q| - start)];
    }
  }
}
