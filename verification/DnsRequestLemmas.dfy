/** What each step on the requests keeps. */
module DnsRequestLemmas {
  import opened Queues
  import opened DnsRequests

  /* ----- into a bucket ----- */

  lemma {:induction false} EnlistQueued(s: Dns, t: Dns, r: nat, trans: nat, x: nat)
    requires |s.heads| > 0 && QueuedAt(s, x) && QueuedAt(s, r) && !Inflight(s, r) && Inflight(t, r) && t.reqs[r].trans == trans
    requires t.heads == Enlist(s, r, trans).heads
    requires x != r ==> (x in t.reqs <==> x in s.reqs) && (x in s.reqs ==> t.reqs[x] == s.reqs[x])
    requires Count(t.waiting, x) == Flag(x in t.reqs && t.reqs[x].ns < 0)
    ensures QueuedAt(t, x)
  {
    hide Count;
    var b := Bucket(s, trans);
    CountAppend(s.heads[b], r, x);
  }

  lemma {:induction false} SubmitInflightKeeps(s: Dns, r: nat, trans: nat, k: nat)
    requires Inv(s) && k < |s.servers| && r !in s.reqs && trans < NO_ID
    requires forall q | Inflight(s, q) :: s.reqs[q].trans != trans
    ensures Inv(SubmitInflight(s, r, trans, k))
  {
    hide Count, OnServer, Up, QueuedAt;
    var t := SubmitInflight(s, r, trans, k);
    forall x: nat ensures ReqAt(t, x) {
      assert ReqAt(s, x) && ReqAt(s, r);
      WaitingOf(s, x);
      EnlistQueued(s, t, r, trans, x);
    }
    forall j: nat ensures ServerAt(t, j) {
      assert ServerAt(s, j);
      OnServerNew(s.reqs, r, t.reqs[r], j);
    }
    TotalUpdate(s.heads, Bucket(s, trans), s.heads[Bucket(s, trans)] + [r]);
    UpSame(s.servers, t.servers);
  }

  lemma {:induction false} WaitingOf(s: Dns, x: nat)
    requires QueuedAt(s, x)
    ensures Count(s.waiting, x) == Flag(x in s.reqs && s.reqs[x].ns < 0)
  {
  }

  lemma {:induction false} OnServerNew(reqs: map<nat, Req>, r: nat, q: Req, k: int)
    requires r !in reqs
    ensures |OnServer(reqs[r := q], k)| == |OnServer(reqs, k)| + Flag(q.ns == k)
  {
    assert OnServer(reqs[r := q], k) == OnServer(reqs, k) + if q.ns == k then {r} else {};
  }

  lemma {:induction false} UpSame(a: seq<Server>, b: seq<Server>)
    requires |a| == |b| && forall k | 0 <= k < |a| :: a[k].up == b[k].up
    ensures Up(a) == Up(b)
  {
  }

  lemma {:induction false} SubmitWaitingKeeps(s: Dns, r: nat, trans: nat)
    requires Inv(s) && r !in s.reqs
    ensures Inv(SubmitWaiting(s, r, trans))
  {
    hide Count, OnServer, Up;
    var t := SubmitWaiting(s, r, trans);
    forall x: nat ensures ReqAt(t, x) {
      assert ReqAt(s, x);
      CountAppend(s.waiting, r, x);
    }
    forall j: nat ensures ServerAt(t, j) {
      assert ServerAt(s, j);
      OnServerNew(s.reqs, r, t.reqs[r], j);
    }
  }

  /* ----- from the waiting queue into a bucket ----- */

  lemma {:induction false} HeadWaits(s: Dns)
    requires Inv(s) && s.waiting != []
    ensures var r := s.waiting[0]; r in s.reqs && s.reqs[r].ns == -1
    ensures forall x: nat :: Count(s.waiting[1..], x) == Count(s.waiting, x) - Flag(x == s.waiting[0])
  {
    assert ReqAt(s, s.waiting[0]);
  }

  lemma {:induction false} PromoteKeeps(s: Dns, trans: nat, k: nat)
    requires Inv(s) && k < |s.servers| && s.waiting != [] && trans < NO_ID
    requires forall q | Inflight(s, q) :: s.reqs[q].trans != trans
    ensures s.waiting[0] in s.reqs && Inv(Promote(s, trans, k))
  {
    hide Count, OnServer, Up, QueuedAt;
    HeadWaits(s);
    var r := s.waiting[0];
    var t := Promote(s, trans, k);
    forall x: nat ensures ReqAt(t, x) {
      assert ReqAt(s, x) && ReqAt(s, r);
      WaitingOf(s, x);
      EnlistQueued(s, t, r, trans, x);
    }
    forall j: nat ensures ServerAt(t, j) {
      assert ServerAt(s, j);
      OnServerMoved(s.reqs, r, t.reqs[r], j);
    }
    TotalUpdate(s.heads, Bucket(s, trans), s.heads[Bucket(s, trans)] + [r]);
    UpSame(s.servers, t.servers);
  }

  lemma {:induction false} OnServerMoved(reqs: map<nat, Req>, r: nat, q: Req, k: int)
    requires r in reqs
    ensures |OnServer(reqs[r := q], k)| == |OnServer(reqs, k)| - Flag(reqs[r].ns == k) + Flag(q.ns == k)
  {
    hide OnServer;
    OnServerGone(reqs, r, k);
    OnServerNew(reqs - {r}, r, q, k);
    assert (reqs - {r})[r := q] == reqs[r := q];
  }

  /* ----- out of its list ----- */

  lemma {:induction false} DelistQueued(s: Dns, r: nat, x: nat)
    requires |s.heads| > 0 && QueuedAt(s, x) && QueuedAt(s, r) && r in s.reqs && s.reqs[r].ns < |s.servers|
    ensures QueuedAt(Finish(s, r), x)
  {
    hide Count, RemoveOne;
    var b := Bucket(s, s.reqs[r].trans);
    if s.reqs[r].ns >= 0 {
      assert Count(s.heads[b], r) == 1;
      CountRemove(s.heads[b], r, x);
    } else {
      CountRemove(s.waiting, r, x);
    }
  }

  lemma {:induction false} OnServerGone(reqs: map<nat, Req>, r: nat, k: int)
    requires r in reqs
    ensures |OnServer(reqs - {r}, k)| == |OnServer(reqs, k)| - Flag(reqs[r].ns == k)
  {
    assert OnServer(reqs - {r}, k) == OnServer(reqs, k) - {r};
  }

  lemma {:induction false} FinishKeeps(s: Dns, r: nat)
    requires Inv(s) && r in s.reqs
    ensures s.reqs[r].ns < |s.servers| && Inv(Finish(s, r))
  {
    hide Count, OnServer, Up, QueuedAt, RemoveOne;
    assert ReqAt(s, r);
    var t := Finish(s, r);
    forall x: nat ensures ReqAt(t, x) {
      assert ReqAt(s, x);
      DelistQueued(s, r, x);
    }
    forall j: nat ensures ServerAt(t, j) {
      assert ServerAt(s, j);
      OnServerGone(s.reqs, r, j);
    }
    FinishTotals(s, r);
    UpSame(s.servers, t.servers);
  }

  lemma {:induction false} FinishTotals(s: Dns, r: nat)
    requires Inv(s) && r in s.reqs && s.reqs[r].ns < |s.servers|
    ensures var t := Finish(s, r); t.nInflight == Total(t.heads) && t.nWaiting == |t.waiting|
  {
    hide OnServer, Up, RemoveOne;
    assert ReqAt(s, r);
    if s.reqs[r].ns >= 0 {
      var b := Bucket(s, s.reqs[r].trans);
      assert Count(s.heads[b], r) == 1;
      CountRemove(s.heads[b], r, r);
      TotalUpdate(s.heads, b, RemoveOne(s.heads[b], r));
    } else {
      CountRemove(s.waiting, r, r);
    }
  }

  /* ----- to another server ----- */

  lemma {:induction false} SwapKeeps(s: Dns, r: nat, k: int)
    requires Inv(s) && Inflight(s, r) && k < |s.servers|
    ensures s.reqs[r].ns < |s.servers| && Inv(Swap(s, r, k))
  {
    hide Count, OnServer, Up;
    assert ReqAt(s, r);
    var t := Swap(s, r, k);
    forall x: nat ensures ReqAt(t, x) { assert ReqAt(s, x); }
    forall j: nat ensures ServerAt(t, j) {
      assert ServerAt(s, j);
      OnServerMoved(s.reqs, r, t.reqs[r], j);
    }
    UpSame(s.servers, t.servers);
  }

  /* ----- in place ----- */

  lemma {:induction false} NoteKeeps(s: Dns, r: nat, q: Req)
    requires Inv(s) && Inflight(s, r) && q.ns == s.reqs[r].ns && q.trans == s.reqs[r].trans
    requires TxOk(q, PerTry(s), s.maxReissues)
    ensures Inv(Note(s, r, q))
  {
    hide Count, OnServer, Up;
    var t := Note(s, r, q);
    forall x: nat ensures ReqAt(t, x) { assert ReqAt(s, x); }
    forall j: nat ensures ServerAt(t, j) {
      assert ServerAt(s, j);
      OnServerMoved(s.reqs, r, q, j);
    }
  }

  lemma {:induction false} UpChanged(servers: seq<Server>, k: nat, up: bool)
    requires k < |servers|
    ensures |Up(servers[k := servers[k].(up := up)])| == |Up(servers)| - Flag(servers[k].up) + Flag(up)
  {
    var after := servers[k := servers[k].(up := up)];
    var rest := Up(servers) - {k};
    assert Up(servers) == rest + if servers[k].up then {k} else {};
    assert Up(after) == rest + if up then {k} else {};
  }

  lemma {:induction false} SetUpKeeps(s: Dns, k: nat, up: bool)
    requires Inv(s) && k < |s.servers|
    ensures Inv(SetUp(s, k, up))
  {
    hide Count, OnServer, Up;
    var t := SetUp(s, k, up);
    forall x: nat ensures ReqAt(t, x) { assert ReqAt(s, x); }
    forall j: nat ensures ServerAt(t, j) { assert ServerAt(s, j); }
    UpChanged(s.servers, k, up);
  }

  lemma {:induction false} SetServerKeeps(s: Dns, k: nat, choked: bool, timedout: nat)
    requires Inv(s) && k < |s.servers|
    ensures Inv(SetServer(s, k, choked, timedout))
  {
    hide Count, OnServer, Up;
    var t := SetServer(s, k, choked, timedout);
    forall x: nat ensures ReqAt(t, x) { assert ReqAt(s, x); }
    forall j: nat ensures ServerAt(t, j) { assert ServerAt(s, j); }
    UpSame(s.servers, t.servers);
  }

  lemma {:induction false} AddServerKeeps(s: Dns)
    requires Inv(s)
    ensures Inv(AddServer(s))
  {
    hide Count;
    var t := AddServer(s);
    forall x: nat ensures ReqAt(t, x) { assert ReqAt(s, x); }
    forall j: nat ensures ServerAt(t, j) {
      assert ServerAt(s, j);
      if j == |s.servers| {
        forall r | r in s.reqs ensures s.reqs[r].ns != j { assert ReqAt(s, r); }
        assert OnServer(t.reqs, j) == {};
      }
    }
    assert Up(t.servers) == Up(s.servers) + {|s.servers|};
  }
}
