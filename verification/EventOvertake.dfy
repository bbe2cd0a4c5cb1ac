/** Runs in which a less important callback begins first: what event_process_active
    does not promise. */
module EventOvertake {
  import opened Timevals
  import opened EventModel
  import EventOps
  import EventSteps
  import opened EventMachine
  import opened EventTheorems
  import EventPriority
  import EventLoop
  import EventProcess

  /** A base without timeouts or later events, between callbacks. */
  ghost predicate Scene(s: Base, evs: seq<Event>, active: seq<seq<nat>>, running: int, cont: bool) {
    && Inv(s) && s.evs == evs && s.active == active && s.lists == [] && s.firing == -1
    && s.running == running && s.cont == cont && !s.brk
  }

  /** The run from a new base that leads there. */
  ghost predicate Reaches(nQueues: nat, acts: seq<Action>, evs: seq<Event>, active: seq<seq<nat>>, running: int, cont: bool) {
    && Inv(Empty(nQueues)) && LegalRun(Empty(nQueues), acts)
    && Scene(Run(Empty(nQueues), acts), evs, active, running, cont)
  }

  lemma {:induction false} RunMore(s: Base, acts: seq<Action>, a: Action)
    requires Inv(s) && LegalRun(s, acts) && Legal(Run(s, acts), a)
    ensures LegalRun(s, acts + [a]) && Inv(Run(s, acts)) && Run(s, acts + [a]) == Step(Run(s, acts), a)
    decreases |acts|
  {
    hide InvBut, Legal, Step;
    RunKeepsInv(s, acts);
    StepKeeps(Run(s, acts), a);
    if acts == [] {
      assert [a][1..] == [] && acts + [a] == [a];
    } else {
      assert (acts + [a])[1..] == acts[1..] + [a];
      StepKeeps(s, acts[0]);
      RunMore(Step(s, acts[0]), acts[1..], a);
    }
  }

  lemma {:induction false} SceneStep(s: Base, a: Action)
    requires Inv(s) && Legal(s, a)
    ensures Inv(Step(s, a))
  {
    StepKeeps(s, a);
  }

  lemma {:induction false} ReachesNew(n: nat, acts: seq<Action>, evs: seq<Event>, active: seq<seq<nat>>, running: int, ev: Event)
    requires Reaches(n, acts, evs, active, running, false) && Unused(ev) && ev.pri < |active|
    ensures Reaches(n, acts + [DoNew(ev)], evs + [ev], active, running, false)
  {
    hide InvBut, LegalRun, Run;
    var s := Run(Empty(n), acts);
    RunMore(Empty(n), acts, DoNew(ev));
    SceneStep(s, DoNew(ev));
  }

  lemma {:induction false} ReachesLoop(n: nat, acts: seq<Action>, evs: seq<Event>, active: seq<seq<nat>>, was: int, running: int, cont: bool)
    requires Reaches(n, acts, evs, active, was, false)
    ensures Reaches(n, acts + [DoLoopVars(running, cont, false)], evs, active, running, cont)
  {
    hide InvBut, LegalRun, Run;
    var s := Run(Empty(n), acts);
    RunMore(Empty(n), acts, DoLoopVars(running, cont, false));
    SceneStep(s, DoLoopVars(running, cont, false));
  }

  /** Not on any queue, and to be on one. */
  predicate Idle(ev: Event) {
    !ev.active && !ev.later && !ev.finalizing
  }

  lemma {:induction false} ReachesActivate(n: nat, acts: seq<Action>, evs: seq<Event>, active: seq<seq<nat>>, running: int, e: nat)
    requires Reaches(n, acts, evs, active, running, false) && e < |evs| && evs[e].pri < |active| && Idle(evs[e])
    ensures Reaches(n, acts + [DoCallbackActivate(e)], evs[e := evs[e].(active := true)],
                  active[evs[e].pri := active[evs[e].pri] + [e]], running, false)
  {
    hide InvBut, LegalRun, Run;
    var s := Run(Empty(n), acts);
    RunMore(Empty(n), acts, DoCallbackActivate(e));
    SceneStep(s, DoCallbackActivate(e));
  }

  /** Taken off its queue and left alone: a bare callback, or a persistent event
      without a timeout. */
  predicate Simple(ev: Event) {
    (!ev.init || ev.persist) && ev.ioTimeout == ZERO
  }

  lemma {:induction false} StartShape(s: Base, p: nat, now: Timeval, mapOk: bool)
    requires Inv(s) && s.lists == [] && p < |s.active| && s.active[p] != []
    requires Known(s, s.active[p][0]) && s.evs[s.active[p][0]].pri == p && Simple(s.evs[s.active[p][0]])
    ensures var e, r := s.active[p][0], Start(s, p, now, mapOk);
            && r.evs == s.evs[e := s.evs[e].(active := false)] && r.active == s.active[p := s.active[p][1..]]
            && r.lists == [] && r.firing == s.firing && r.running == s.running && r.cont == s.cont && r.brk == s.brk
  {
    hide InvBut;
    var e := s.active[p][0];
    assert !IsTimer(s, e);
  }

  lemma {:induction false} ReachesStart(n: nat, acts: seq<Action>, evs: seq<Event>, active: seq<seq<nat>>, running: int,
                                      p: nat, now: Timeval, mapOk: bool)
    requires Reaches(n, acts, evs, active, running, false) && Normal(now)
    requires p < |active| && active[p] != [] && active[p][0] < |evs| && Simple(evs[active[p][0]])
    ensures Reaches(n, acts + [DoStart(p, now, mapOk)], evs[active[p][0] := evs[active[p][0]].(active := false)],
                  active[p := active[p][1..]], running, false)
  {
    hide InvBut, LegalRun, Run, Start, Simple;
    var s := Run(Empty(n), acts);
    HeadKnown(s, p);
    RunMore(Empty(n), acts, DoStart(p, now, mapOk));
    SceneStep(s, DoStart(p, now, mapOk));
    StartShape(s, p, now, mapOk);
  }

  function None(nQueues: nat): seq<seq<nat>> {
    seq(nQueues, i => [])
  }

  lemma {:induction false} ReachesNowhere(nQueues: nat)
    requires nQueues > 0
    ensures Reaches(nQueues, [], [], None(nQueues), -1, false)
  {
    EmptyOk(nQueues);
  }

  /** Three callbacks made, from a new base on. */
  lemma {:induction false} ReachesThree(n: nat, a: Event, b: Event, c: Event)
    requires Unused(a) && Unused(b) && Unused(c) && a.pri < n && b.pri < n && c.pri < n
    ensures Reaches(n, [DoNew(a), DoNew(b), DoNew(c)], [a, b, c], None(n), -1, false)
  {
    hide Reaches, Unused;
    ReachesNowhere(n);
    ReachesNew(n, [], [], None(n), -1, a);
    assert [] + [DoNew(a)] == [DoNew(a)] && [] + [a] == [a];
    ReachesNew(n, [DoNew(a)], [a], None(n), -1, b);
    assert [DoNew(a)] + [DoNew(b)] == [DoNew(a), DoNew(b)] && [a] + [b] == [a, b];
    ReachesNew(n, [DoNew(a), DoNew(b)], [a, b], None(n), -1, c);
    assert [DoNew(a), DoNew(b)] + [DoNew(c)] == [DoNew(a), DoNew(b), DoNew(c)] && [a, b] + [c] == [a, b, c];
  }

  function On(ev: Event): Event {
    ev.(active := true)
  }

  /** Two callbacks of priority p become active, and the first of them is begun. */
  lemma {:induction false} ReachesFirst(n: nat, a: Event, b: Event, c: Event, p: nat, now: Timeval, mapOk: bool, acts: seq<Action>)
    requires Unused(a) && Unused(b) && Unused(c) && a.pri == b.pri == p < n && c.pri < n && Simple(a) && Normal(now)
    requires acts == [DoNew(a), DoNew(b), DoNew(c)] + [DoCallbackActivate(0)] + [DoCallbackActivate(1)]
                     + [DoLoopVars(p, false, false)] + [DoStart(p, now, mapOk)]
    ensures Reaches(n, acts, [a, On(b), c], None(n)[p := [1]], p, false)
  {
    hide Reaches, Simple;
    var acts3 := [DoNew(a), DoNew(b), DoNew(c)];
    ReachesThree(n, a, b, c);
    ReachesActivate(n, acts3, [a, b, c], None(n), -1, 0);
    var acts4 := acts3 + [DoCallbackActivate(0)];
    assert [a, b, c][0 := On(a)] == [On(a), b, c] && [] + [0] == [0];
    ReachesActivate(n, acts4, [On(a), b, c], None(n)[p := [0]], -1, 1);
    var acts5 := acts4 + [DoCallbackActivate(1)];
    assert [0] + [1] == [0, 1];
    assert [On(a), b, c][1 := On(b)] == [On(a), On(b), c] && None(n)[p := [0]][p := [0, 1]] == None(n)[p := [0, 1]];
    ReachesLoop(n, acts5, [On(a), On(b), c], None(n)[p := [0, 1]], -1, p, false);
    var acts6 := acts5 + [DoLoopVars(p, false, false)];
    SimpleOn(a);
    ReachesStart(n, acts6, [On(a), On(b), c], None(n)[p := [0, 1]], p, p, now, mapOk);
    OnOff(a);
    assert [On(a), On(b), c][0 := a] == [a, On(b), c];
    assert None(n)[p := [0, 1]][p := [0, 1][1..]] == None(n)[p := [1]];
  }

  lemma SimpleOn(ev: Event)
    ensures Simple(On(ev)) <==> Simple(ev)
  {
  }

  lemma OnOff(ev: Event)
    requires Unused(ev)
    ensures On(ev).(active := false) == ev
  {
  }

  /** While the first runs, a bare callback of a more important priority is
      activated. The loop is not told, and after one callback, with more allowed,
      it begins the second of the less important ones. */
  lemma {:induction false} BareOvertaken(n: nat, a: Event, b: Event, c: Event, p: nat, now: Timeval, mapOk: bool, acts: seq<Action>)
    requires Unused(a) && Unused(b) && Unused(c) && a.pri == b.pri == p < n && c.pri < p && Simple(a) && Normal(now)
    requires acts == [DoNew(a), DoNew(b), DoNew(c)] + [DoCallbackActivate(0)] + [DoCallbackActivate(1)]
                     + [DoLoopVars(p, false, false)] + [DoStart(p, now, mapOk)] + [DoCallbackActivate(2)]
    ensures Inv(Empty(n)) && LegalRun(Empty(n), acts)
    ensures var r := Run(Empty(n), acts);
            && r.running == p < |r.active| && !r.brk && (forall max | max > 1 :: !EventProcess.Stops(1, max, false, r.cont))
            && r.active[p] == [1] && !EventProcess.Foremost(EventLoop.Began(r, p, 1))
  {
    hide LegalRun, Run, InvBut, Simple;
    var acts7 := acts[..|acts| - 1];
    ReachesFirst(n, a, b, c, p, now, mapOk, acts7);
    assert acts == acts7 + [DoCallbackActivate(2)];
    ReachesActivate(n, acts7, [a, On(b), c], None(n)[p := [1]], p, 2);
    var r := Run(Empty(n), acts);
    assert r.active[c.pri] == [] + [2] != [];
  }

  /** An internal callback and another of priority 0 become active, and the internal
      one is begun; meanwhile a less important one becomes active, and someone may
      ask the loop to start over. The queue is left with 0, because of that or
      because no callback is allowed at all, and so the next queue is looked at:
      the less important callback begins while one of priority 0 is active. */
  lemma {:induction false} InternalOvertaken(n: nat, i: Event, b: Event, c: Event, now: Timeval, mapOk: bool, cont: bool, max: int,
                                             acts: seq<Action>)
    requires Unused(i) && Unused(b) && Unused(c) && i.internal && i.pri == b.pri == 0 < c.pri < n && Simple(i) && Normal(now)
    requires cont || max <= 0
    requires acts == [DoNew(i), DoNew(b), DoNew(c)] + [DoCallbackActivate(0)] + [DoCallbackActivate(1)]
                     + [DoLoopVars(0, false, false)] + [DoStart(0, now, mapOk)]
                     + [DoCallbackActivate(2)] + [DoLoopVars(0, cont, false)]
    ensures Inv(Empty(n)) && LegalRun(Empty(n), acts)
    ensures var r := Run(Empty(n), acts);
            && !r.brk && EventProcess.Stops(0, max, false, r.cont) && 0 < c.pri < |r.active|
            && r.active[c.pri] == [2] && !EventProcess.Foremost(EventLoop.Began(r.(running := c.pri), c.pri, 2))
  {
    hide LegalRun, Run, InvBut, Simple;
    var acts8 := acts[..|acts| - 1];
    var acts7 := acts8[..|acts8| - 1];
    ReachesFirst(n, i, b, c, 0, now, mapOk, acts7);
    assert acts8 == acts7 + [DoCallbackActivate(2)] && acts == acts8 + [DoLoopVars(0, cont, false)];
    ReachesActivate(n, acts7, [i, On(b), c], None(n)[0 := [1]], 0, 2);
    var evs, active := [i, On(b), c][2 := On(c)], None(n)[0 := [1]][c.pri := [] + [2]];
    ReachesLoop(n, acts8, evs, active, 0, 0, cont);
    var r := Run(Empty(n), acts);
    assert r.active[0] == [1];
  }
}
