/** Runs of an evdns base: every order of submissions, promotions, finishes,
    server changes, transmissions and reissues. */
module DnsRuns {
  import Queues
  import opened DnsRequests
  import opened DnsRequestLemmas
  import DnsRehash

  datatype Action =
    | DoSubmit(r: nat, trans: nat, k: int)
    | DoPromote(trans: nat, server: nat)
    | DoFinish(r: nat)
    | DoSwap(r: nat, k: int)
    | DoTry(r: nat)
    | DoSend(r: nat)
    | DoReissue(r: nat)
    | DoSetUp(server: nat, up: bool)
    | DoSetServer(server: nat, choked: bool, timedout: nat)
    | DoAddServer
    | DoResize(maxInflight: int)

  /** transaction_id_pick: an identity that nothing in flight has. */
  ghost predicate FreeId(s: Dns, trans: nat) {
    trans < NO_ID && forall q | Inflight(s, q) :: s.reqs[q].trans != trans
  }

  ghost predicate Legal(s: Dns, a: Action) {
    match a
    case DoSubmit(r, trans, k) => r !in s.reqs && k < |s.servers| && (k >= 0 ==> FreeId(s, trans))
    case DoPromote(trans, k) => s.waiting != [] && k < |s.servers| && FreeId(s, trans)
    case DoFinish(r) => r in s.reqs
    case DoSwap(r, k) => Inflight(s, r) && k < |s.servers|
    case DoTry(r) => Inflight(s, r) && s.reqs[r].tx < PerTry(s)
    case DoSend(r) => Inflight(s, r) && s.reqs[r].transmitMe
    case DoReissue(r) => Inflight(s, r) && s.reqs[r].reissues < s.maxReissues
    case DoSetUp(k, _) => k < |s.servers|
    case DoSetServer(k, _, _) => k < |s.servers|
    case DoAddServer => true
    case DoResize(_) => true
  }

  ghost function Step(s: Dns, a: Action): Dns
    requires Inv(s) && Legal(s, a)
  {
    match a
    case DoSubmit(r, trans, k) => if k >= 0 then SubmitInflight(s, r, trans, k) else SubmitWaiting(s, r, trans)
    case DoPromote(trans, k) => HeadWaits(s); Promote(s, trans, k)
    case DoFinish(r) => FinishKeeps(s, r); Finish(s, r)
    case DoSwap(r, k) => SwapKeeps(s, r, k); Swap(s, r, k)
    case DoTry(r) => Note(s, r, s.reqs[r].(transmitMe := true))
    case DoSend(r) => Note(s, r, CountedSend(s.reqs[r]))
    case DoReissue(r) => Note(s, r, Reissued(s.reqs[r]))
    case DoSetUp(k, up) => SetUp(s, k, up)
    case DoSetServer(k, choked, timedout) => SetServer(s, k, choked, timedout)
    case DoAddServer => AddServer(s)
    case DoResize(m) => DnsRehash.Resize(s, m)
  }

  lemma {:induction false} TriesOk(s: Dns, r: nat)
    requires Inv(s) && Inflight(s, r)
    ensures var q, m := s.reqs[r], PerTry(s);
            && TxOk(q, m, s.maxReissues)
            && (q.tx < m ==> TxOk(q.(transmitMe := true), m, s.maxReissues))
            && (q.tx < m ==> TxOk(CountedSend(q), m, s.maxReissues))
            && (q.reissues < s.maxReissues ==> TxOk(Reissued(q), m, s.maxReissues))
  {
    hide QueuedAt, OnServer, Up;
    assert ReqAt(s, r);
    var q, m := s.reqs[r], PerTry(s);
    assert (q.reissues + 1) * m == q.reissues * m + m;
  }

  lemma {:induction false} StepKeeps(s: Dns, a: Action)
    requires Inv(s) && Legal(s, a)
    ensures Inv(Step(s, a))
  {
    hide Inv, TxOk, SubmitInflight, SubmitWaiting, Promote, Finish, Swap, SetUp, SetServer, AddServer, DnsRehash.Resize;
    match a
    case DoSubmit(r, trans, k) =>
      if k >= 0 { SubmitInflightKeeps(s, r, trans, k); } else { SubmitWaitingKeeps(s, r, trans); }
    case DoPromote(trans, k) => PromoteKeeps(s, trans, k);
    case DoFinish(r) => FinishKeeps(s, r);
    case DoSwap(r, k) => SwapKeeps(s, r, k);
    case DoTry(r) => TriesOk(s, r); NoteKeeps(s, r, s.reqs[r].(transmitMe := true));
    case DoSend(r) => TriesOk(s, r); SendAllowed(s, r); NoteKeeps(s, r, CountedSend(s.reqs[r]));
    case DoReissue(r) => TriesOk(s, r); NoteKeeps(s, r, Reissued(s.reqs[r]));
    case DoSetUp(k, up) => SetUpKeeps(s, k, up);
    case DoSetServer(k, choked, timedout) => SetServerKeeps(s, k, choked, timedout);
    case DoAddServer => AddServerKeeps(s);
    case DoResize(m) => DnsRehash.ResizeKeeps(s, m);
  }

  lemma {:induction false} SendAllowed(s: Dns, r: nat)
    requires Inv(s) && Inflight(s, r)
    ensures s.reqs[r].transmitMe ==> s.reqs[r].tx < PerTry(s)
  {
    hide QueuedAt, OnServer, Up;
    assert ReqAt(s, r);
  }

  ghost predicate LegalRun(s: Dns, acts: seq<Action>)
    requires Inv(s)
    decreases |acts|
  {
    acts == [] || (Legal(s, acts[0]) && (StepKeeps(s, acts[0]); LegalRun(Step(s, acts[0]), acts[1..])))
  }

  ghost function Run(s: Dns, acts: seq<Action>): Dns
    requires Inv(s) && LegalRun(s, acts)
    decreases |acts|
  {
    if acts == [] then s else StepKeeps(s, acts[0]); Run(Step(s, acts[0]), acts[1..])
  }

  /** Counters, buckets, the waiting queue, per-server counts and the good-server
      count agree after every run. */
  lemma {:induction false} RunKeepsInv(s: Dns, acts: seq<Action>)
    requires Inv(s) && LegalRun(s, acts)
    ensures Inv(Run(s, acts))
    decreases |acts|
  {
    hide Inv, Legal, Step;
    if acts != [] {
      StepKeeps(s, acts[0]);
      RunKeepsInv(Step(s, acts[0]), acts[1..]);
    }
  }

  /** The requests there are after a run: those submitted and not finished since. */
  ghost function Alive(live: set<nat>, acts: seq<Action>): set<nat>
    decreases |acts|
  {
    if acts == [] then live
    else Alive(match acts[0]
               case DoSubmit(r, _, _) => live + {r}
               case DoFinish(r) => live - {r}
               case _ => live, acts[1..])
  }

  lemma {:induction false} StepRequests(s: Dns, a: Action)
    requires Inv(s) && Legal(s, a)
    ensures Step(s, a).reqs.Keys == match a case DoSubmit(r, _, _) => s.reqs.Keys + {r} case DoFinish(r) => s.reqs.Keys - {r} case _ => s.reqs.Keys
  {
    hide Inv, DnsRehash.Rehash, Queues.RemoveOne;
    if a.DoPromote? {
      HeadWaits(s);
    }
  }

  /** No request is lost, and none comes of itself. */
  lemma {:induction false} RunRequests(s: Dns, acts: seq<Action>)
    requires Inv(s) && LegalRun(s, acts)
    ensures Run(s, acts).reqs.Keys == Alive(s.reqs.Keys, acts)
    decreases |acts|
  {
    hide Inv, Legal, Step;
    if acts != [] {
      StepKeeps(s, acts[0]);
      StepRequests(s, acts[0]);
      RunRequests(Step(s, acts[0]), acts[1..]);
    }
  }

  /** The transmissions counted in a run, freed requests included. */
  ghost function Sends(acts: seq<Action>, r: nat): nat {
    if acts == [] then 0 else (if acts[0] == DoSend(r) then 1 else 0) + Sends(acts[1..], r)
  }

  ghost function SentOf(s: Dns, r: nat): nat {
    if r in s.reqs then s.reqs[r].sent else 0
  }

  /** Once submitted and until it is finished, a request's transmissions are counted in it. */
  lemma {:induction false} StepSends(s: Dns, a: Action, r: nat)
    requires Inv(s) && Legal(s, a) && r in s.reqs && a != DoFinish(r)
    ensures r in Step(s, a).reqs && SentOf(Step(s, a), r) == SentOf(s, r) + if a == DoSend(r) then 1 else 0
    ensures Step(s, a).maxRetransmits == s.maxRetransmits && Step(s, a).maxReissues == s.maxReissues
  {
    hide Inv, DnsRehash.Rehash, Queues.RemoveOne;
  }

  ghost predicate NeverFinished(acts: seq<Action>, r: nat) {
    forall i | 0 <= i < |acts| :: acts[i] != DoFinish(r)
  }

  lemma {:induction false} RunSends(s: Dns, acts: seq<Action>, r: nat)
    requires Inv(s) && LegalRun(s, acts) && r in s.reqs && NeverFinished(acts, r)
    ensures var t := Run(s, acts);
            && r in t.reqs && SentOf(t, r) == SentOf(s, r) + Sends(acts, r)
            && t.maxRetransmits == s.maxRetransmits && t.maxReissues == s.maxReissues
    decreases |acts|
  {
    hide Inv, Legal, Step, SentOf;
    if acts != [] {
      StepKeeps(s, acts[0]);
      StepSends(s, acts[0], r);
      assert NeverFinished(acts[1..], r) by {
        forall i | 0 <= i < |acts[1..]| ensures acts[1..][i] != DoFinish(r) { assert acts[1..][i] == acts[i + 1]; }
      }
      RunSends(Step(s, acts[0]), acts[1..], r);
    }
  }

  /** From its submission to any moment before it is finished, a request makes at
      most (1 + max_reissues) * max(1, max_retransmits) counted transmissions. */
  lemma {:induction false} SendsBounded(s: Dns, r: nat, trans: nat, k: int, acts: seq<Action>)
    requires Inv(s) && Legal(s, DoSubmit(r, trans, k)) && NeverFinished(acts, r)
    requires (StepKeeps(s, DoSubmit(r, trans, k)); LegalRun(Step(s, DoSubmit(r, trans, k)), acts))
    ensures Sends(acts, r) <= (1 + s.maxReissues) * PerTry(s)
  {
    hide Inv, Legal, LegalRun, Run, NeverFinished, Sends;
    StepKeeps(s, DoSubmit(r, trans, k));
    var t := Step(s, DoSubmit(r, trans, k));
    RunSends(t, acts, r);
    RunKeepsInv(t, acts);
    SentBound(Run(t, acts), r);
  }

  lemma {:induction false} SentBound(s: Dns, r: nat)
    requires Inv(s) && r in s.reqs
    ensures s.reqs[r].sent <= (1 + s.maxReissues) * PerTry(s)
  {
    hide QueuedAt, OnServer, Up, PerTry;
    assert ReqAt(s, r);
    var q, m := s.reqs[r], PerTry(s);
    MulLe(q.reissues, s.maxReissues, m);
    assert (1 + s.maxReissues) * m == m + s.maxReissues * m;
  }

  lemma {:induction false} MulLe(a: nat, b: nat, m: nat)
    requires a <= b
    ensures a * m <= b * m
  {
  }

  /* ----- what a lookup sees ----- */

  /** A request is in the bucket of an identity exactly when it is in flight
      under an identity of that bucket. */
  lemma {:induction false} InBucket(s: Dns, trans: nat, r: nat)
    requires Inv(s)
    ensures r in s.heads[Bucket(s, trans)] <==> Inflight(s, r) && Bucket(s, s.reqs[r].trans) == Bucket(s, trans)
  {
    hide OnServer, Up;
    assert ReqAt(s, r);
  }
}
