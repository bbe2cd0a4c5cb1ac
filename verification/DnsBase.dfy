/** The evdns base as the object evdns.c works on. What sendto answers is any
    stream of answers; random draws are a stream in which every identity keeps
    coming up. */
module DnsBase {
  import Queues
  import opened DnsRequests
  import opened DnsRequestLemmas
  import opened DnsRehash
  import opened DnsRuns
  import opened DnsIds

  /** What sending comes to: all of it sent, nothing or not all taken for now, or an
      error that will stay. */
  datatype Sending = Sent | Blocked | Failed

  /** The lists stay; requests keep their identities and stay in flight or waiting. */
  ghost predicate Steady(s: Dns, t: Dns) {
    && t.heads == s.heads && t.waiting == s.waiting && |t.servers| == |s.servers| && t.maxInflight == s.maxInflight
    && t.nInflight == s.nInflight && t.nWaiting == s.nWaiting
    && t.maxRetransmits == s.maxRetransmits && t.maxReissues == s.maxReissues
    && t.reqs.Keys == s.reqs.Keys
    && forall r | r in s.reqs :: t.reqs[r].trans == s.reqs[r].trans && (t.reqs[r].ns >= 0 <==> s.reqs[r].ns >= 0)
  }

  /** Nothing about any request but its server has changed. */
  ghost predicate OnlyServers(s: Dns, t: Dns) {
    Steady(s, t) && forall r | r in s.reqs :: t.reqs[r] == s.reqs[r].(ns := t.reqs[r].ns)
  }

  /** Only requests of server k that have not been sent may have moved, and only to a
      good server; no server changes but in its count, and k may be down now. */
  ghost predicate OnlyUnsent(s: Dns, t: Dns, k: nat) {
    && OnlyServers(s, t) && k < |s.servers|
    && (forall r | r in s.reqs && (s.reqs[r].tx > 0 || s.reqs[r].ns != k) :: t.reqs[r] == s.reqs[r])
    && (forall r | r in s.reqs && t.reqs[r].ns != s.reqs[r].ns ::
          0 <= t.reqs[r].ns < |t.servers| && t.reqs[r].ns != k && t.servers[t.reqs[r].ns].up)
    && (forall j | 0 <= j < |s.servers| :: t.servers[j] == s.servers[j].(inflight := t.servers[j].inflight, up := t.servers[j].up))
    && (forall j | 0 <= j < |s.servers| && j != k :: t.servers[j].up == s.servers[j].up)
    && (t.servers[k].up ==> s.servers[k].up)
  }

  /** No request of this list still waits to be sent to server k. */
  ghost predicate OffServer(s: Dns, q: seq<nat>, k: nat) {
    forall r | r in q && r in s.reqs && s.reqs[r].tx == 0 :: s.reqs[r].ns != k
  }

  /** A request that was not marked has at most changed its server; a marked one
      is marked still or has been sent once more. */
  ghost predicate OnlyMarked(s: Dns, t: Dns) {
    && t.reqs.Keys == s.reqs.Keys
    && forall r | r in s.reqs ::
         || t.reqs[r] == s.reqs[r].(ns := t.reqs[r].ns)
         || (s.reqs[r].transmitMe && t.reqs[r] == Counted(s.reqs[r]).(ns := t.reqs[r].ns))
  }

  lemma {:induction false} OnlyMarkedThen(s: Dns, m: Dns, t: Dns)
    requires OnlyMarked(s, m) && OnlyMarked(m, t)
    ensures OnlyMarked(s, t)
  {
    forall r | r in s.reqs
      ensures || t.reqs[r] == s.reqs[r].(ns := t.reqs[r].ns)
              || (s.reqs[r].transmitMe && t.reqs[r] == Counted(s.reqs[r]).(ns := t.reqs[r].ns))
    {
      assert r in m.reqs;
    }
  }

  lemma {:induction false} OnlyUnsentThen(s: Dns, m: Dns, t: Dns, k: nat)
    requires OnlyUnsent(s, m, k) && OnlyUnsent(m, t, k)
    ensures OnlyUnsent(s, t, k)
  {
  }

  lemma {:induction false} StaysOff(s: Dns, t: Dns, q: seq<nat>, k: nat)
    requires OnlyUnsent(s, t, k) && OffServer(s, q, k)
    ensures OffServer(t, q, k)
  {
  }

  lemma {:induction false} SteadyThen(s: Dns, m: Dns, t: Dns)
    requires Steady(s, m) && Steady(m, t)
    ensures Steady(s, t)
  {
  }

  /** From s to t requests have been sent: servers only get choked or go down, and a
      request changes its server only because that went down. */
  ghost predicate Onward(s: Dns, t: Dns) {
    && Steady(s, t)
    && (forall j | 0 <= j < |s.servers| ::
          && (s.servers[j].choked ==> t.servers[j].choked) && (t.servers[j].up ==> s.servers[j].up)
          && t.servers[j].timedout == s.servers[j].timedout)
    && (forall x | x in s.reqs && t.reqs[x].ns != s.reqs[x].ns ::
          0 <= s.reqs[x].ns < |t.servers| && !t.servers[s.reqs[x].ns].up)
  }

  lemma {:induction false} OnwardThen(s: Dns, m: Dns, t: Dns)
    requires Onward(s, m) && Onward(m, t)
    ensures Onward(s, t)
  {
    hide Steady;
    SteadyThen(s, m, t);
    SteadySize(s, m);
    SteadySize(m, t);
    forall x | x in s.reqs && t.reqs[x].ns != s.reqs[x].ns
      ensures 0 <= s.reqs[x].ns < |t.servers| && !t.servers[s.reqs[x].ns].up
    {
      assert x in m.reqs;
    }
  }

  lemma {:induction false} SteadySize(s: Dns, t: Dns)
    requires Steady(s, t)
    ensures |t.servers| == |s.servers| && t.reqs.Keys == s.reqs.Keys
  {
  }

  /** Why a request is still marked: its server is choked, or was when it was its turn
      and has gone down since. */
  ghost predicate LeftBehind(t: Dns, r: nat)
    requires r in t.reqs
  {
    exists k :: 0 <= k < |t.servers| && t.servers[k].choked && (t.reqs[r].ns == k || !t.servers[k].up)
  }

  lemma {:induction false} LeftStays(s: Dns, t: Dns, r: nat)
    requires Onward(s, t) && r in s.reqs && LeftBehind(s, r)
    ensures r in t.reqs && LeftBehind(t, r)
  {
    SteadySize(s, t);
    var k :| 0 <= k < |s.servers| && s.servers[k].choked && (s.reqs[r].ns == k || !s.servers[k].up);
    assert t.servers[k].choked && (t.reqs[r].ns == k || !t.servers[k].up);
  }

  /** A transmission more, and no mark. */
  function Counted(q: Req): Req {
    Req(q.trans, q.ns, q.tx + 1, q.reissues, false, q.sent + 1)
  }

  /** evdns_request_transmit by what sending comes to. Nothing is tried on a choked
      server; a server that blocks is choked and one that fails is down; what is not
      tried or is blocked leaves the mark, and all else counts as sent. */
  ghost predicate SentAs(s: Dns, t: Dns, r: nat, answer: Sending)
    requires r in s.reqs && 0 <= s.reqs[r].ns < |s.servers|
  {
    var q := s.reqs[r].(transmitMe := true);
    if s.servers[q.ns].choked then t.reqs == s.reqs[r := q] && t.servers == s.servers
    else match answer
      case Sent => t.reqs == s.reqs[r := Counted(q)] && t.servers == s.servers
      case Blocked => t.reqs == s.reqs[r := q] && t.servers == s.servers[q.ns := s.servers[q.ns].(choked := true)]
      case Failed =>
        && |t.servers| == |s.servers| && !t.servers[q.ns].up
        && r in t.reqs && t.reqs[r] == Counted(q).(ns := t.reqs[r].ns)
        && t.reqs.Keys == s.reqs.Keys && forall x | x in s.reqs && x != r :: t.reqs[x] == s.reqs[x].(ns := t.reqs[x].ns)
  }

  lemma {:induction false} SentMarked(s: Dns, t: Dns, r: nat, answer: Sending)
    requires r in s.reqs && 0 <= s.reqs[r].ns < |s.servers| && SentAs(Note(s, r, s.reqs[r].(transmitMe := true)), t, r, answer)
    ensures SentAs(s, t, r, answer) && (s.reqs[r].transmitMe ==> OnlyMarked(s, t))
  {
    var q := s.reqs[r].(transmitMe := true);
    assert s.reqs[r := q][r := q] == s.reqs[r := q] && s.reqs[r := q][r := CountedSend(q)] == s.reqs[r := CountedSend(q)];
  }

  lemma {:induction false} NotTried(s: Dns, r: nat, answer: Sending)
    requires r in s.reqs && 0 <= s.reqs[r].ns < |s.servers| && s.servers[s.reqs[r].ns].choked && s.reqs[r].transmitMe
    ensures SentAs(s, s, r, answer)
  {
    assert s.reqs[r := s.reqs[r].(transmitMe := true)] == s.reqs;
  }

  lemma {:induction false} SentBlocked(s: Dns, t: Dns, r: nat)
    requires r in s.reqs && 0 <= s.reqs[r].ns < |s.servers| && !s.servers[s.reqs[r].ns].choked && s.reqs[r].transmitMe
    requires t.reqs == s.reqs && t.servers == s.servers[s.reqs[r].ns := s.servers[s.reqs[r].ns].(choked := true)]
    ensures SentAs(s, t, r, Blocked)
  {
    assert s.reqs[r := s.reqs[r].(transmitMe := true)] == s.reqs;
  }

  lemma {:induction false} SentWell(s: Dns, t: Dns, r: nat)
    requires r in s.reqs && 0 <= s.reqs[r].ns < |s.servers| && !s.servers[s.reqs[r].ns].choked && s.reqs[r].transmitMe
    requires t.reqs == s.reqs[r := CountedSend(s.reqs[r])] && t.servers == s.servers
    ensures SentAs(s, t, r, Sent)
  {
  }

  lemma {:induction false} FailedMoves(s: Dns, t: Dns, k: nat, r: nat)
    requires OnlyUnsent(s, t, k) && r in s.reqs
    ensures |t.servers| == |s.servers| && t.reqs.Keys == s.reqs.Keys && t.maxRetransmits == s.maxRetransmits
    ensures forall x | x in s.reqs :: t.reqs[x] == s.reqs[x].(ns := t.reqs[x].ns) && (t.reqs[x].ns >= 0 <==> s.reqs[x].ns >= 0)
  {
  }

  lemma {:induction false} SentFailed(s: Dns, m: Dns, t: Dns, r: nat)
    requires r in s.reqs && 0 <= s.reqs[r].ns < |s.servers| && !s.servers[s.reqs[r].ns].choked && s.reqs[r].transmitMe
    requires m.reqs.Keys == s.reqs.Keys && (forall x | x in s.reqs :: m.reqs[x] == s.reqs[x].(ns := m.reqs[x].ns))
    requires |m.servers| == |s.servers| && !m.servers[s.reqs[r].ns].up
    requires t.reqs == m.reqs[r := CountedSend(m.reqs[r])] && t.servers == m.servers
    ensures SentAs(s, t, r, Failed)
  {
  }

  /** So a mark is left only by a choked server. */
  lemma {:induction false} MarkMeans(s: Dns, t: Dns, r: nat, answer: Sending)
    requires r in s.reqs && 0 <= s.reqs[r].ns < |s.servers| && SentAs(s, t, r, answer)
    ensures r in t.reqs
    ensures t.reqs[r].transmitMe ==>
              && t.reqs[r] == s.reqs[r].(transmitMe := true) && |t.servers| == |s.servers| && t.servers[t.reqs[r].ns].choked
              && LeftBehind(t, r)
    ensures !t.reqs[r].transmitMe ==>
              t.reqs[r] == s.reqs[r].(tx := s.reqs[r].tx + 1, sent := s.reqs[r].sent + 1, transmitMe := false, ns := t.reqs[r].ns)
    ensures forall x | x in s.reqs && x != r :: x in t.reqs && t.reqs[x] == s.reqs[x].(ns := t.reqs[x].ns)
    ensures |t.servers| == |s.servers| && (t.reqs[r].ns == s.reqs[r].ns || !t.servers[s.reqs[r].ns].up)
  {
  }

  /** A request just submitted: sent once, or kept back by its choked server. */
  ghost predicate FirstSend(t: Dns, r: nat, trans: nat) {
    && r in t.reqs && 0 <= t.reqs[r].ns < |t.servers|
    && t.reqs[r] == Req(trans, t.reqs[r].ns, t.reqs[r].tx, 0, t.reqs[r].transmitMe, t.reqs[r].tx)
    && (if t.reqs[r].transmitMe then t.reqs[r].tx == 0 && t.servers[t.reqs[r].ns].choked else t.reqs[r].tx == 1)
  }

  lemma {:induction false} SentFirst(s: Dns, t: Dns, r: nat, answer: Sending, trans: nat, k: nat)
    requires r in s.reqs && s.reqs[r] == Req(trans, k, 0, 0, false, 0) && k < |s.servers| && SentAs(s, t, r, answer)
    requires r in t.reqs && 0 <= t.reqs[r].ns < |t.servers| && Onward(s, t)
    ensures FirstSend(t, r, trans) && t.waiting == s.waiting && t.nInflight == s.nInflight && t.reqs.Keys == s.reqs.Keys
  {
    hide SentAs;
    MarkMeans(s, t, r, answer);
  }

  lemma {:induction false} FirstSendAs(t: Dns, r: nat, trans: nat)
    requires FirstSend(t, r, trans)
    ensures r in t.reqs && t.reqs[r].trans == trans
  {
  }

  /** The next server of the circular list. */
  function Next(k: nat, n: nat): nat {
    if k + 1 < n then k + 1 else 0
  }

  function Slot(start: nat, j: nat, n: nat): (k: nat)
    requires start < n && j <= n
    ensures k < n
  {
    if start + j < n then start + j else start + j - n
  }

  /** The choice of nameserver_pick from this head of the ring: the first good server
      there, or the one after the head if none is good. */
  ghost predicate Picked(s: Dns, ring: seq<nat>, head: nat, k: int) {
    if s.servers == [] then k == -1
    else
      && head < |ring| && 0 <= k < |s.servers|
      && if s.good == 0 then k == ring[Next(head, |ring|)] else exists seen: nat :: FirstGood(s, ring, head, seen, k)
  }

  ghost predicate FirstGood(s: Dns, ring: seq<nat>, head: nat, seen: nat, k: nat)
    requires head < |ring| && k < |s.servers|
  {
    && seen < |ring| && k == ring[Slot(head, seen, |ring|)] && s.servers[k].up
    && forall j | 0 <= j < seen :: ring[Slot(head, j, |ring|)] < |s.servers| && !s.servers[ring[Slot(head, j, |ring|)]].up
  }

  ghost predicate OtherUp(s: Dns, j: nat, k: int) {
    j < |s.servers| && j != k && s.servers[j].up
  }

  /** With another good server, a request sent before is not given back to its own. */
  lemma {:induction false} RefusedElsewhere(s: Dns, m: Dns, ring: seq<nat>, head: nat, k: nat, r: nat, other: int)
    requires OnlyUnsent(s, m, k) && !m.servers[k].up && r in s.reqs && s.reqs[r].ns == k && Inv(m)
    requires Picked(m, ring, head, other)
    ensures s.reqs[r].tx > 0 && (exists j :: OtherUp(s, j, k)) ==> m.reqs[r].ns == k && other != k
  {
    hide Inv;
    if j: nat :| OtherUp(s, j, k) {
      SomeGood(m, j);
    }
  }

  /** Whether an address fits its field, and what socket, bind and event_add answer. */
  datatype Setup = Setup(fits: bool, socketMade: bool, bound: bool, watched: bool)

  /** The circular list: every server is somewhere on it. */
  ghost predicate RingOk(ring: seq<nat>, n: nat) {
    && |ring| == n
    && (forall i | 0 <= i < |ring| :: ring[i] < n)
    && (forall k: nat | k < n :: k in ring)
  }

  class EvdnsBase {
    var reqs: map<nat, Req>
    var heads: seq<seq<nat>>
    var waiting: seq<nat>
    var nInflight: int
    var nWaiting: int
    var maxInflight: int
    var servers: seq<Server>
    var good: int
    var addresses: seq<nat>
    var ring: seq<nat>
    var serverHead: nat
    var drawn: nat
    var tries: nat
    const rng: nat -> u16
    const answers: nat -> Sending
    const maxRetransmits: nat
    const maxReissues: nat
    const maxServerTimeouts: nat

    ghost function View(): Dns
      reads this
    {
      Dns(reqs, heads, waiting, nInflight, nWaiting, maxInflight, servers, good, maxRetransmits, maxReissues)
    }

    ghost predicate Valid()
      reads this
    {
      && Inv(View()) && Fair(rng)
      && RingOk(ring, |servers|) && |addresses| == |servers| && (ring == [] || serverHead < |ring|)
    }

    /** request_find_from_trans_id: the request in flight under the identity, if any. */
    method FindFromTransId(trans: nat) returns (found: bool, r: nat)
      requires Valid()
      ensures found ==> Inflight(View(), r) && reqs[r].trans == trans
      ensures !found ==> forall q | Inflight(View(), q) :: reqs[q].trans != trans
    {
      hide Inv;
      BucketsExist(View());
      var q := heads[trans % |heads|];
      var i := 0;
      while i < |q|
        invariant 0 <= i <= |q|
        invariant forall j | 0 <= j < i :: q[j] in reqs && reqs[q[j]].trans != trans
      {
        InBucket(View(), trans, q[i]);
        if reqs[q[i]].trans == trans {
          return true, q[i];
        }
        i := i + 1;
      }
      forall x | Inflight(View(), x) ensures reqs[x].trans != trans {
        InBucket(View(), trans, x);
      }
      found, r := false, 0;
    }

    /** transaction_id_pick: the first draw that is free. Not ok is where the code
        would go on drawing for ever: exactly when every identity is taken. */
    method TransactionIdPick() returns (ok: bool, trans: nat)
      requires Valid()
      modifies this`drawn
      ensures Valid()
      ensures ok <==> nInflight < NO_ID
      ensures ok ==> FreeId(View(), trans) && drawn > old(drawn) && trans == rng(drawn - 1)
      ensures ok ==> forall i | old(drawn) <= i < drawn - 1 :: !FreeId(View(), rng(i))
      ensures !ok ==> drawn == old(drawn) && forall t: nat :: !FreeId(View(), t)
    {
      hide Inv, Fair, RingOk;
      IdsLeft(View());
      if nInflight >= NO_ID {
        return false, NO_ID;
      }
      ghost var end := SomeDraw(View(), rng, drawn);
      ok, trans := false, NO_ID;
      while !ok
        invariant old(drawn) <= drawn <= end + 1 && Valid()
        invariant ok ==> drawn > old(drawn) && trans == rng(drawn - 1) && FreeId(View(), trans)
        invariant !ok ==> drawn <= end
        invariant forall i | old(drawn) <= i < (if ok then drawn - 1 else drawn) :: !FreeId(View(), rng(i))
        decreases end + 1 - drawn
        modifies this`drawn
      {
        trans := rng(drawn);
        drawn := drawn + 1;
        if trans != NO_ID {
          var found, r := FindFromTransId(trans);
          ok := !found;
        }
      }
    }

    /** nameserver_pick: the first good server of the ring from its head on, or the one
        after the head if none is good; the head moves past a good one. */
    method Pick() returns (k: int, ghost seen: nat)
      requires Valid()
      modifies this`serverHead
      ensures Valid()
      ensures k == -1 <==> servers == []
      ensures -1 <= k < |servers|
      ensures k >= 0 && good > 0 ==> servers[k].up
      ensures Picked(View(), ring, old(serverHead), k)
      ensures servers == [] ==> serverHead == old(serverHead)
      ensures servers != [] && good == 0 ==> serverHead == Next(old(serverHead), |ring|) && k == ring[serverHead]
      ensures servers != [] && good != 0 ==>
                && seen < |ring| && k == ring[Slot(old(serverHead), seen, |ring|)]
                && serverHead == Slot(old(serverHead), if seen + 1 < |ring| then seen + 1 else 0, |ring|)
                && forall j | 0 <= j < seen :: !servers[ring[Slot(old(serverHead), j, |ring|)]].up
    {
      hide Inv, Fair;
      seen := 0;
      if servers == [] {
        return -1, seen;
      }
      if good == 0 {
        serverHead := Next(serverHead, |ring|);
        return ring[serverHead], seen;
      }
      ghost var start := serverHead;
      while !servers[ring[serverHead]].up
        invariant 0 <= seen < |ring| && start < |ring| && serverHead == Slot(start, seen, |ring|)
        invariant forall j | 0 <= j < seen :: !servers[ring[Slot(start, j, |ring|)]].up
        invariant Valid()
        decreases |ring| - seen
        modifies this`serverHead
      {
        SomeAhead(View(), ring, start, seen);
        serverHead := Next(serverHead, |ring|);
        seen := seen + 1;
      }
      k := ring[serverHead];
      assert FirstGood(View(), ring, start, seen, k);
      serverHead := Next(serverHead, |ring|);
    }

    /** request_swap_ns */
    method SwapNs(r: nat, k: int)
      requires Valid() && Inflight(View(), r) && -1 <= k < |servers|
      modifies this`servers, this`reqs
      ensures Valid() && r in reqs && 0 <= reqs[r].ns < |servers| && OnlyServers(old(View()), View())
      ensures |servers| == |old(servers)|
      ensures forall j | 0 <= j < |servers| :: servers[j] == old(servers)[j].(inflight := servers[j].inflight)
      ensures r in old(reqs) && reqs == old(reqs)[r := old(reqs)[r].(ns := if k >= 0 then k else old(reqs)[r].ns)]
    {
      hide Inv, TxOk;
      SwapKeeps(View(), r, k);
      if k >= 0 && reqs[r].ns != k {
        servers := Assigned(servers, reqs[r].ns, -1);
        servers := Assigned(servers, k, 1);
        reqs := reqs[r := reqs[r].(ns := k)];
      }
    }

    /** nameserver_failed: exactly the requests not sent yet move to another
        server, as long as there is a good one. */
    method NameserverFailed(k: nat)
      requires Valid() && k < |servers|
      modifies this`servers, this`reqs, this`good, this`serverHead
      ensures Valid() && OnlyServers(old(View()), View()) && !servers[k].up
      ensures OnlyUnsent(old(View()), View(), k)
      ensures old(servers)[k].up && good > 0 ==>
                forall r | Inflight(View(), r) && reqs[r].tx == 0 :: reqs[r].ns != k
    {
      hide Inv, TxOk, OnlyServers, OnlyUnsent, OffServer;
      OnlySelf(View());
      UnsentSelf(View(), k);
      if !servers[k].up {
        return;
      }
      SetUpKeeps(View(), k, false);
      SetUpOnly(View(), k);
      good := good - 1;
      servers := servers[k := servers[k].(up := false)];
      if good == 0 {
        return;
      }
      var i := 0;
      ghost var g := good;
      GoodCount(View());
      while i < |heads|
        invariant 0 <= i <= |heads| && Valid() && OnlyUnsent(old(View()), View(), k) && k < |servers| && !servers[k].up
        invariant good == g && g != 0 && forall j | 0 <= j < i :: OffServer(View(), heads[j], k)
      {
        ghost var m := View();
        MoveOff(heads[i], i, k);
        OnlyUnsentThen(old(View()), m, View(), k);
        forall j | 0 <= j < i ensures OffServer(View(), heads[j], k) { StaysOff(m, View(), heads[j], k); }
        i := i + 1;
      }
      UnsentOnly(old(View()), View(), k);
      forall r | Inflight(View(), r) && reqs[r].tx == 0 ensures reqs[r].ns != k {
        AllOff(View(), r, k);
      }
    }

    /** One bucket of that walk. */
    method MoveOff(q: seq<nat>, i: nat, k: nat)
      requires Valid() && i < |heads| && q == heads[i] && k < |servers| && !servers[k].up && good > 0
      modifies this`servers, this`reqs, this`good, this`serverHead
      ensures Valid() && OnlyUnsent(old(View()), View(), k) && k < |servers| && !servers[k].up && heads == old(heads)
      ensures good == old(good) && OffServer(View(), q, k)
    {
      hide Inv, TxOk, OnlyServers, OnlyUnsent, OffServer;
      UnsentSelf(View(), k);
      NoneOff(View(), k);
      var j := 0;
      assert q[..0] == [];
      while j < |q|
        invariant 0 <= j <= |q| && Valid() && OnlyUnsent(old(View()), View(), k) && i < |heads| && heads == old(heads)
        invariant k < |servers| && !servers[k].up && good == old(good) && OffServer(View(), q[..j], k)
      {
        ghost var m := View();
        MemberInflight(m, i, q[j]);
        UnsentSelf(m, k);
        if reqs[q[j]].tx == 0 && reqs[q[j]].ns == k {
          var other, _ := Pick();
          SwapNs(q[j], other);
          SwapUnsent(m, View(), q[j], k);
          OnlyHeads(m, View());
        }
        OnlyUnsentThen(old(View()), m, View(), k);
        StaysOff(m, View(), q[..j], k);
        OneMoreOff(View(), q, j, k);
        j := j + 1;
      }
      assert q[..|q|] == q;
    }

    /** evdns_request_transmit: allowed while the request has tries left. */
    method RequestTransmit(r: nat)
      requires Valid() && Inflight(View(), r) && reqs[r].tx < PerTry(View())
      modifies this
      ensures Valid() && Onward(old(View()), View()) && Inflight(View(), r)
      ensures 0 <= old(reqs)[r].ns < |old(servers)| && SentAs(old(View()), View(), r, answers(old(tries)))
      ensures tries == old(tries) + if old(servers)[old(reqs)[r].ns].choked then 0 else 1
      ensures drawn == old(drawn)
      ensures old(reqs)[r].transmitMe ==> OnlyMarked(old(View()), View())
    {
      hide Inv, TxOk, Fair, RingOk, Onward, SentAs, OnlyMarked;
      ghost var s := View();
      NsKnown(s, r);
      TriesOk(s, r);
      NoteKeeps(s, r, s.reqs[r].(transmitMe := true));
      reqs := reqs[r := reqs[r].(transmitMe := true)];
      ghost var m := View();
      MarkOnward(s, r);
      SendMarked(r);
      OnwardThen(s, m, View());
      SentMarked(s, View(), r, answers(old(tries)));
    }

    /** The rest of it, once the request is marked. */
    method SendMarked(r: nat)
      requires Valid() && Inflight(View(), r) && reqs[r].transmitMe && reqs[r].tx < PerTry(View())
      modifies this
      ensures Valid() && Onward(old(View()), View()) && Inflight(View(), r)
      ensures 0 <= old(reqs)[r].ns < |old(servers)| && SentAs(old(View()), View(), r, answers(old(tries)))
      ensures tries == old(tries) + if old(servers)[old(reqs)[r].ns].choked then 0 else 1
      ensures drawn == old(drawn)
    {
      hide Inv, TxOk, Fair, RingOk, OnlyUnsent, SentAs, Onward;
      ghost var s := View();
      NsKnown(s, r);
      OnwardSelf(s);
      var ns := reqs[r].ns;
      if servers[ns].choked {
        NotTried(s, r, answers(tries));
        return;
      }
      var result := answers(tries);
      tries := tries + 1;
      if result == Blocked {
        Choke(ns);
        SentBlocked(s, View(), r);
        return;
      }
      if result == Failed {
        NameserverFailed(ns);
        FailedOnward(s, View(), ns);
        FailedMoves(s, View(), ns, r);
      }
      ghost var m := View();
      CountSend(r);
      OnwardThen(s, m, View());
      if result == Failed {
        SentFailed(s, m, View(), r);
      } else {
        SentWell(s, View(), r);
      }
    }

    /** The server's socket takes nothing for now. */
    method Choke(k: nat)
      requires Valid() && k < |servers|
      modifies this`servers
      ensures Valid() && servers == old(servers)[k := old(servers)[k].(choked := true)] && Onward(old(View()), View())
    {
      hide Inv, TxOk, Fair, RingOk;
      SetServerKeeps(View(), k, true, servers[k].timedout);
      servers := servers[k := servers[k].(choked := true)];
    }

    /** One more transmission on record. */
    method CountSend(r: nat)
      requires Valid() && Inflight(View(), r) && reqs[r].tx < PerTry(View())
      modifies this`reqs
      ensures Valid() && reqs == old(reqs)[r := CountedSend(old(reqs)[r])] && Onward(old(View()), View()) && Inflight(View(), r)
    {
      hide Inv, TxOk, Fair, RingOk;
      TriesOk(View(), r);
      NoteKeeps(View(), r, CountedSend(reqs[r]));
      reqs := reqs[r := CountedSend(reqs[r])];
    }

    /** evdns_transmit: everything that is marked is tried, and what is marked still
        was kept back by a choked server. */
    method TransmitMarked()
      requires Valid()
      modifies this
      ensures Valid() && Onward(old(View()), View()) && OnlyMarked(old(View()), View()) && AllTried(View())
      ensures drawn == old(drawn)
    {
      hide Inv, TxOk, Onward, OnlyMarked, LeftBehind, Tried;
      OnwardSelf(View());
      MarkedSelf(View());
      var i := 0;
      while i < |heads|
        invariant 0 <= i <= |heads| && Valid() && Onward(old(View()), View()) && OnlyMarked(old(View()), View())
        invariant forall j | 0 <= j < i :: Tried(View(), heads[j])
        invariant drawn == old(drawn)
      {
        ghost var m := View();
        TransmitBucket(heads[i], i);
        OnwardThen(old(View()), m, View());
        OnlyMarkedThen(old(View()), m, View());
        OnwardHeads(m, View());
        forall j | 0 <= j < i ensures Tried(View(), heads[j]) { TriedStays(m, View(), heads[j]); }
        i := i + 1;
      }
      forall x | Inflight(View(), x) && reqs[x].transmitMe ensures LeftBehind(View(), x) {
        TriedAll(View(), x);
      }
    }

    method TransmitBucket(q: seq<nat>, i: nat)
      requires Valid() && i < |heads| && q == heads[i]
      modifies this
      ensures Valid() && Onward(old(View()), View()) && OnlyMarked(old(View()), View()) && Tried(View(), q)
      ensures drawn == old(drawn)
    {
      hide Inv, TxOk, Onward, OnlyMarked, LeftBehind, Tried, SentAs;
      OnwardSelf(View());
      MarkedSelf(View());
      TriedNone(View());
      var j := 0;
      assert q[..0] == [];
      while j < |q|
        invariant 0 <= j <= |q| && Valid() && Onward(old(View()), View()) && heads == old(heads) && OnlyMarked(old(View()), View())
        invariant Tried(View(), q[..j]) && drawn == old(drawn)
      {
        ghost var m := View();
        MemberInflight(m, i, q[j]);
        OnwardSelf(m);
        MarkedSelf(m);
        if reqs[q[j]].transmitMe {
          SendAllowed(m, q[j]);
          ghost var answer := answers(tries);
          RequestTransmit(q[j]);
          MarkMeans(m, View(), q[j], answer);
        }
        OnwardThen(old(View()), m, View());
        OnlyMarkedThen(old(View()), m, View());
        OnwardHeads(m, View());
        TriedStays(m, View(), q[..j]);
        TriedMore(View(), q, j);
        j := j + 1;
      }
      assert q[..|q|] == q;
    }

    /** evdns_requests_pump_waiting_queue. Requests are promoted in the order they
        wait; what was in flight stays so under its identity, and no server comes up.
        It is stuck exactly when it has to pick an identity and all are taken. */
    method PumpWaitingQueue() returns (stuck: bool)
      requires Valid()
      modifies this
      ensures Valid() && |servers| == old(|servers|) && nWaiting <= old(nWaiting)
      ensures stuck ==> NO_ID == nInflight < maxInflight && nWaiting > 0 && servers != []
      ensures !stuck ==> nWaiting == 0 || nInflight >= maxInflight || servers == []
      ensures nInflight <= old(nInflight) || nInflight <= maxInflight
      ensures maxInflight == old(maxInflight) && nInflight + nWaiting == old(nInflight + nWaiting)
      ensures Pumped(old(View()), View())
      ensures nWaiting < old(nWaiting) ==> AllTried(View())
    {
      hide Inv, TxOk, Steady, Fair, RingOk, Pumped, AllTried;
      stuck := false;
      WaitingCount(View());
      PumpedSelf(View());
      while nInflight < maxInflight && nWaiting > 0
        invariant Valid() && |servers| == old(|servers|) && nWaiting <= old(nWaiting)
        invariant nInflight <= old(nInflight) || nInflight <= maxInflight
        invariant maxInflight == old(maxInflight) && Pumped(old(View()), View())
        invariant nInflight + nWaiting == old(nInflight + nWaiting) && !stuck && nWaiting >= 0
        invariant nWaiting < old(nWaiting) ==> AllTried(View())
        decreases nWaiting
      {
        var k, _ := Pick();
        if k < 0 {
          return;
        }
        var ok, trans := TransactionIdPick();
        if !ok {
          IdsLeft(View());
          return true;
        }
        WaitingThere(View());
        ghost var m := View();
        PromoteOne(trans, k);
        PumpedThen(old(View()), m, View());
      }
    }

    /** The first that waits goes in flight, is sent, and so is all that is marked. */
    method PromoteOne(trans: nat, k: nat)
      requires Valid() && k < |servers| && waiting != [] && FreeId(View(), trans) && (good > 0 ==> servers[k].up)
      modifies this
      ensures Valid() && |servers| == old(|servers|) && nWaiting == old(nWaiting) - 1 && nInflight == old(nInflight) + 1
      ensures maxInflight == old(maxInflight) && waiting == old(waiting)[1..]
      ensures Inflight(View(), old(waiting)[0]) && reqs[old(waiting)[0]].trans == trans
      ensures Pumped(old(View()), View()) && AllTried(View())
    {
      hide Inv, TxOk, Onward, OnlyMarked, SentAs, AllTried, Pumped, Promote, Fair, RingOk;
      ghost var s := View();
      BucketsExist(s);
      var r := MoveUp(trans, k);
      ghost var m, before := View(), tries;
      RequestTransmit(r);
      ghost var m' := View();
      TransmitMarked();
      OnwardThen(m, m', View());
      SendsOnly(m, m', View(), r, answers(before));
      PromotedPumps(s, m, View(), r, trans, k);
    }

    /** The first that waits goes in flight. */
    method MoveUp(trans: nat, k: nat) returns (r: nat)
      requires Valid() && k < |servers| && waiting != [] && FreeId(View(), trans)
      modifies this`servers, this`waiting, this`nWaiting, this`nInflight, this`reqs, this`heads
      ensures Valid() && r == old(waiting)[0] && r in old(reqs) && old(reqs)[r].ns < 0 && View() == Promote(old(View()), trans, k)
      ensures Inflight(View(), r) && reqs[r].tx == 0 && reqs[r].trans == trans
    {
      hide Inv, TxOk, Fair, RingOk;
      ghost var s := View();
      HeadWaits(s);
      PromoteKeeps(s, trans, k);
      FreshTries(s, waiting[0]);
      BucketsExist(s);
      r := waiting[0];
      var b := trans % |heads|;
      servers := Assigned(servers, k, 1);
      waiting := waiting[1..];
      nWaiting := nWaiting - 1;
      nInflight := nInflight + 1;
      reqs := reqs[r := reqs[r].(ns := k, trans := trans)];
      heads := heads[b := heads[b] + [r]];
    }

    constructor (rng: nat -> u16, answers: nat -> Sending, maxRetransmits: nat, maxReissues: nat, maxServerTimeouts: nat, maxInflight: int)
      requires maxInflight >= 1 && Fair(rng)
      ensures Valid() && reqs == map[] && servers == [] && this.maxInflight == maxInflight
    {
      this.maxRetransmits, this.maxReissues, this.maxServerTimeouts := maxRetransmits, maxReissues, maxServerTimeouts;
      reqs, waiting, nInflight, nWaiting := map[], [], 0, 0;
      heads := Empties(Buckets(maxInflight));
      this.maxInflight := maxInflight;
      servers, good, addresses, ring, serverHead := [], 0, [], [], 0;
      this.rng, this.answers, drawn, tries := rng, answers, 0, 0;
      new;
      NewBaseOk(View());
    }

    /** The first loop of evdns_nameserver_add_impl_, once round the ring. */
    method HasAddress(address: nat) returns (known: bool)
      requires Valid()
      ensures known <==> address in addresses
    {
      hide Inv, Fair;
      var i := 0;
      while i < |ring|
        invariant 0 <= i <= |ring|
        invariant forall j | 0 <= j < i :: addresses[ring[Slot(serverHead, j, |ring|)]] != address
      {
        if addresses[ring[Slot(serverHead, i, |ring|)]] == address {
          return true;
        }
        i := i + 1;
      }
      forall k | 0 <= k < |addresses| ensures addresses[k] != address {
        var j := RingReached(ring, serverHead, k);
      }
      known := false;
    }

    /** evdns_nameserver_add_impl_: 3 for an address that is there already; the error
        of an address that is too long or of what the system refuses; else the new
        server is the one after the head of the ring. */
    method AddNameserver(address: nat, system: Setup) returns (r: int)
      requires Valid()
      modifies this
      ensures Valid()
      ensures r == if address in old(addresses) then 3
                   else if !system.fits then 2
                   else if !system.socketMade then 1
                   else if !system.bound || !system.watched then 2 else 0
      ensures r != 0 ==> View() == old(View()) && ring == old(ring) && addresses == old(addresses)
      ensures r == 0 ==>
                && View() == old(View()).(servers := old(servers) + [Server(0, true, false, 0)], good := old(good) + 1)
                && addresses == old(addresses) + [address]
                && serverHead < |ring| && Queues.RemoveOne(ring, |old(servers)|) == old(ring)
                && ring[Next(serverHead, |ring|)] == |old(servers)|
                && (old(ring) != [] ==> serverHead == old(serverHead))
    {
      hide Inv, Fair;
      var known := HasAddress(address);
      if known {
        return 3;
      }
      if !system.fits {
        return 2;
      }
      if !system.socketMade {
        return 1;
      }
      if !system.bound || !system.watched {
        return 2;
      }
      AddServerKeeps(View());
      var n := |servers|;
      if ring == [] {
        ring, serverHead := [n], 0;
      } else {
        RingInsert(ring, serverHead, n);
        ring := ring[..serverHead + 1] + [n] + ring[serverHead + 1..];
      }
      servers := servers + [Server(0, true, false, 0)];
      addresses := addresses + [address];
      good := good + 1;
      return 0;
    }

    /** request_finished: the request is freed, and waiting ones take its place while
        they can. */
    method RequestFinished(r: nat)
      requires Valid() && r in reqs
      modifies this
      ensures Valid() && reqs.Keys == old(reqs.Keys) - {r} && |servers| == old(|servers|) && maxInflight == old(maxInflight)
      ensures nInflight + nWaiting == old(nInflight + nWaiting) - 1
      ensures nWaiting == 0 || nInflight >= maxInflight || servers == [] || nInflight == NO_ID
      ensures forall x | x != r && Inflight(old(View()), x) :: Inflight(View(), x) && reqs[x].trans == old(reqs)[x].trans
      ensures forall j | 0 <= j < |servers| :: servers[j].up ==> old(servers)[j].up
    {
      hide Inv, TxOk, Fair, RingOk;
      Free(r);
      var _ := PumpWaitingQueue();
    }

    /** The request itself: off its list, off its server's count. */
    method Free(r: nat)
      requires Valid() && r in reqs
      modifies this`reqs, this`heads, this`nInflight, this`servers, this`waiting, this`nWaiting
      ensures Valid() && reqs == old(reqs) - {r} && |servers| == |old(servers)|
      ensures nInflight + nWaiting == old(nInflight + nWaiting) - 1
      ensures forall j | 0 <= j < |servers| :: servers[j] == old(servers)[j].(inflight := servers[j].inflight)
    {
      hide Inv, TxOk, Fair, RingOk;
      FinishKeeps(View(), r);
      BucketsExist(View());
      var q := reqs[r];
      reqs := reqs - {r};
      if q.ns >= 0 {
        var b := q.trans % |heads|;
        heads := heads[b := Queues.RemoveOne(heads[b], r)];
        nInflight := nInflight - 1;
        servers := Assigned(servers, q.ns, -1);
      } else {
        waiting := Queues.RemoveOne(waiting, r);
        nWaiting := nWaiting - 1;
      }
    }

    /** evdns_request_timeout_callback: given up, with its server down, exactly when
        its retransmissions are used up. Else it is sent again to the server k that
        is picked, or, should that be down by then, stays with another one, ns; it
        stays marked if ns is choked, and ns is down when it has let too many
        requests time out. */
    method OnTimeout(r: nat) returns (ghost ns: nat, ghost k: int)
      requires Valid() && Inflight(View(), r)
      modifies this
      ensures Valid() && ns < |servers| == |old(servers)|
      ensures old(reqs)[r].tx >= maxRetransmits ==>
                reqs.Keys == old(reqs.Keys) - {r} && ns == old(reqs)[r].ns && !servers[ns].up
      ensures old(reqs)[r].tx < maxRetransmits ==>
                && reqs.Keys == old(reqs.Keys) && Inflight(View(), r)
                && reqs[r] == (if reqs[r].transmitMe then old(reqs)[r].(transmitMe := true) else Counted(old(reqs)[r])).(ns := reqs[r].ns)
                && (reqs[r].transmitMe ==> servers[ns].choked)
                && (if old(servers)[ns].timedout + 1 > maxServerTimeouts then servers[ns].timedout == 0 && !servers[ns].up
                    else servers[ns].timedout == old(servers)[ns].timedout + 1 && reqs[r].ns == ns)
                && Picked(old(View()), old(ring), old(serverHead), k) && 0 <= k < |servers| && (ns == k || !servers[k].up)
    {
      hide Inv, TxOk, Fair, RingOk, OnlyUnsent, Picked;
      NsKnown(View(), r);
      ns, k := reqs[r].ns, reqs[r].ns;
      if reqs[r].tx >= maxRetransmits {
        var last := reqs[r].ns;
        RequestFinished(r);
        NameserverFailed(last);
      } else {
        ns, k := TryAgain(r);
      }
    }

    /** Another server is picked and the request is sent again. */
    method Resend(r: nat) returns (ghost k: int)
      requires Valid() && Inflight(View(), r) && reqs[r].tx < PerTry(View())
      modifies this
      ensures Valid() && Inflight(View(), r) && reqs.Keys == old(reqs.Keys) && |servers| == |old(servers)| && reqs[r].ns < |servers|
      ensures reqs[r] == (if reqs[r].transmitMe then old(reqs)[r].(transmitMe := true) else Counted(old(reqs)[r])).(ns := reqs[r].ns)
      ensures reqs[r].transmitMe ==> servers[reqs[r].ns].choked
      ensures forall j | 0 <= j < |servers| :: servers[j].timedout == old(servers)[j].timedout
      ensures Picked(old(View()), old(ring), old(serverHead), k) && 0 <= k < |servers| && (reqs[r].ns == k || !servers[k].up)
    {
      hide Inv, TxOk, Fair, RingOk, SentAs, Picked;
      NsKnown(View(), r);
      var other, _ := Pick();
      k := other;
      SwapNs(r, other);
      ghost var m, answer := View(), answers(tries);
      RequestTransmit(r);
      MarkMeans(m, View(), r, answer);
      NsKnown(View(), r);
    }

    method TryAgain(r: nat) returns (ns: nat, ghost k: int)
      requires Valid() && Inflight(View(), r) && reqs[r].tx < PerTry(View())
      modifies this
      ensures Valid() && Inflight(View(), r) && reqs.Keys == old(reqs.Keys) && ns < |servers| == |old(servers)|
      ensures reqs[r] == (if reqs[r].transmitMe then old(reqs)[r].(transmitMe := true) else Counted(old(reqs)[r])).(ns := reqs[r].ns)
      ensures reqs[r].transmitMe ==> servers[ns].choked
      ensures if old(servers)[ns].timedout + 1 > maxServerTimeouts then servers[ns].timedout == 0 && !servers[ns].up
              else servers[ns].timedout == old(servers)[ns].timedout + 1 && reqs[r].ns == ns
      ensures Picked(old(View()), old(ring), old(serverHead), k) && 0 <= k < |servers| && (ns == k || !servers[k].up)
    {
      hide Inv, TxOk, Fair, RingOk, Picked;
      k := Resend(r);
      ns := reqs[r].ns;
      var late := servers[ns].timedout + 1;
      SetServerKeeps(View(), ns, servers[ns].choked, if late > maxServerTimeouts then 0 else late);
      servers := servers[ns := servers[ns].(timedout := if late > maxServerTimeouts then 0 else late)];
      if late > maxServerTimeouts {
        NameserverFailed(ns);
      }
    }

    /** request_reissue: another server, if there is one, and a fresh count. */
    method Reissue(r: nat) returns (pointless: bool, ghost k: int)
      requires Valid() && Inflight(View(), r) && reqs[r].reissues < maxReissues
      modifies this`serverHead, this`servers, this`reqs
      ensures Valid() && Steady(old(View()), View()) && Inflight(View(), r)
      ensures Picked(old(View()), old(ring), old(serverHead), k) && (pointless <==> k == old(reqs)[r].ns)
      ensures reqs[r].ns == k && good == old(good) && (pointless ==> reqs[r] == old(reqs)[r])
      ensures !pointless ==>
                && reqs[r].ns != old(reqs)[r].ns
                && reqs[r] == old(reqs)[r].(ns := reqs[r].ns, reissues := old(reqs)[r].reissues + 1, tx := 0, transmitMe := true)
      ensures forall x | x in old(reqs) && x != r :: reqs[x] == old(reqs)[x]
      ensures |servers| == |old(servers)| && forall j | 0 <= j < |servers| :: servers[j] == old(servers)[j].(inflight := servers[j].inflight)
    {
      hide Inv, TxOk, Picked;
      NsKnown(View(), r);
      var last := reqs[r].ns;
      var other, _ := Pick();
      k := other;
      SwapNs(r, other);
      pointless := reqs[r].ns == last;
      if !pointless {
        TriesOk(View(), r);
        NoteKeeps(View(), r, Reissued(reqs[r]));
        reqs := reqs[r := Reissued(reqs[r])];
      }
    }

    /** The part of reply_handle about NOTIMPL and REFUSED: while it has reissues left
        its server is down, with its unsent requests moved, and the one picked then is
        tried; if that is its own, or without reissues, it is given up. */
    method OnRefusal(r: nat) returns (ghost mid: Dns, ghost head: nat, ghost k: int)
      requires Valid() && Inflight(View(), r)
      modifies this
      ensures Valid() && |servers| == |old(servers)|
      ensures reqs.Keys == old(reqs.Keys) || reqs.Keys == old(reqs.Keys) - {r}
      ensures r in reqs ==>
                && reqs[r].ns >= 0
                && reqs[r] == old(reqs)[r].(ns := reqs[r].ns, reissues := old(reqs)[r].reissues + 1, tx := 0, transmitMe := true)
      ensures old(reqs)[r].reissues >= maxReissues ==> r !in reqs
      ensures 0 <= old(reqs)[r].ns && old(reqs)[r].reissues < maxReissues ==>
                && OnlyUnsent(old(View()), mid, old(reqs)[r].ns) && Picked(mid, old(ring), head, k) && r in mid.reqs
                && (r in reqs <==> k != mid.reqs[r].ns)
      ensures old(reqs)[r].reissues < maxReissues && old(reqs)[r].tx > 0 && (exists j :: OtherUp(old(View()), j, old(reqs)[r].ns)) ==> r in reqs
      ensures 0 <= old(reqs)[r].ns < |servers| && (old(reqs)[r].reissues < maxReissues ==> !servers[old(reqs)[r].ns].up)
    {
      hide Inv, TxOk, Fair, RingOk, OnlyUnsent, Picked, OtherUp;
      NsKnown(View(), r);
      mid, head, k := View(), serverHead, -1;
      if reqs[r].reissues < maxReissues {
        ghost var s, last := View(), reqs[r].ns;
        NameserverFailed(reqs[r].ns);
        UnsentOnly(s, View(), last);
        mid, head := View(), serverHead;
        var pointless;
        pointless, k := Reissue(r);
        RefusedElsewhere(s, mid, ring, head, last, r, k);
        if !pointless {
          return;
        }
      }
      RequestFinished(r);
    }

    /** request_new and request_submit; not ok is where the code would draw for
        ever: below the maximum, with every identity taken. */
    method Submit(r: nat) returns (ok: bool, ghost to: int)
      requires Valid() && r !in reqs
      modifies this
      ensures Valid()
      ensures ok <==> !(NO_ID == old(nInflight) < old(maxInflight))
      ensures ok ==> reqs.Keys == old(reqs.Keys) + {r}
      ensures ok ==> (Inflight(View(), r) <==> old(nInflight) < old(maxInflight) && old(servers) != [])
      ensures ok && !Inflight(View(), r) ==> waiting == old(waiting) + [r] && reqs == old(reqs)[r := Req(reqs[r].trans, -1, 0, 0, false, 0)]
      ensures ok && Inflight(View(), r) ==> waiting == old(waiting) && FirstSend(View(), r, reqs[r].trans)
      ensures ok && Inflight(View(), r) ==>
                Picked(old(View()), old(ring), old(serverHead), to) && 0 <= to < |servers| && (reqs[r].ns == to || !servers[to].up)
      ensures ok ==> forall x | x in old(reqs) :: reqs[x] == old(reqs)[x].(ns := reqs[x].ns)
      ensures !ok ==> View() == old(View())
    {
      hide Inv, TxOk, Fair, RingOk, FirstSend, Picked;
      IdsLeft(View());
      var k, trans := -1, NO_ID;
      to := -1;
      if nInflight < maxInflight {
        ok, trans := TransactionIdPick();
        if !ok {
          return;
        }
        ghost var seen;
        k, seen := Pick();
        to := k;
      }
      ok := true;
      if k >= 0 {
        SubmitTo(r, trans, k);
        FirstSendAs(View(), r, trans);
      } else {
        SubmitWaitingKeeps(View(), r, trans);
        reqs := reqs[r := Req(trans, -1, 0, 0, false, 0)];
        waiting := waiting + [r];
        nWaiting := nWaiting + 1;
      }
    }

    /** request_submit with a nameserver, as nameserver_send_probe also does: in flight,
        and sent once or kept back by its choked server. */
    method SubmitTo(r: nat, trans: nat, k: nat)
      requires Valid() && r !in reqs && k < |servers| && FreeId(View(), trans)
      modifies this
      ensures Valid() && reqs.Keys == old(reqs.Keys) + {r} && nInflight == old(nInflight) + 1 && Inflight(View(), r)
      ensures FirstSend(View(), r, trans) && waiting == old(waiting)
      ensures |servers| == |old(servers)| && (reqs[r].ns == k || !servers[k].up)
      ensures forall x | x in old(reqs) :: reqs[x] == old(reqs)[x].(ns := reqs[x].ns)
    {
      hide Inv, TxOk, Fair, RingOk, SentAs, FirstSend, Onward;
      TakeOffGround(r, trans, k);
      ghost var m, answer := View(), answers(tries);
      RequestTransmit(r);
      MarkMeans(m, View(), r, answer);
      NsKnown(View(), r);
      SentFirst(m, View(), r, answer, trans, k);
    }

    /** A new request goes in flight. */
    method TakeOffGround(r: nat, trans: nat, k: nat)
      requires Valid() && r !in reqs && k < |servers| && FreeId(View(), trans)
      modifies this`reqs, this`heads, this`nInflight, this`servers
      ensures Valid() && reqs == old(reqs)[r := Req(trans, k, 0, 0, false, 0)] && nInflight == old(nInflight) + 1
      ensures Inflight(View(), r) && |servers| == |old(servers)|
    {
      hide Inv, TxOk, Fair, RingOk;
      SubmitInflightKeeps(View(), r, trans, k);
      BucketsExist(View());
      var b := trans % |heads|;
      reqs := reqs[r := Req(trans, k, 0, 0, false, 0)];
      heads := heads[b := heads[b] + [r]];
      nInflight := nInflight + 1;
      servers := Assigned(servers, k, 1);
    }

    /** evdns_base_set_max_requests_inflight: every request in flight is filed anew. */
    method SetMaxRequestsInflight(maximum: int)
      requires Valid()
      modifies this
      ensures Valid() && View() == Resize(old(View()), maximum)
      ensures maxInflight == (if maximum < 1 then 1 else maximum) && |heads| == (maxInflight + 4) / 5
      ensures reqs == old(reqs) && waiting == old(waiting) && servers == old(servers) && nInflight == old(nInflight)
    {
      hide Inv, TxOk, Rehash, Flat;
      ResizeKeeps(View(), maximum);
      var m := if maximum < 1 then 1 else maximum;
      var table := FileAll((m + 4) / 5);
      heads := table;
      maxInflight := m;
    }

    method FileAll(n: nat) returns (table: seq<seq<nat>>)
      requires n > 0
      ensures table == Rehash(Empties(n), reqs, Flat(heads))
    {
      hide Rehash, Flat;
      table := Empties(n);
      ghost var done: seq<nat> := [];
      RehashNone(table, reqs);
      var i := 0;
      assert heads[0..] == heads;
      while i < |heads|
        invariant 0 <= i <= |heads| && |table| == n
        invariant done + Flat(heads[i..]) == Flat(heads) && table == Rehash(Empties(n), reqs, done)
        modifies {}
      {
        FlatStep(heads, i);
        table, done := FileBucket(table, heads[i], Empties(n), done);
        i := i + 1;
      }
      FlatEnd(heads);
      assert i == |heads| && done + [] == done;
    }

    method FileBucket(table: seq<seq<nat>>, bucket: seq<nat>, ghost zero: seq<seq<nat>>, ghost done: seq<nat>)
      returns (filed: seq<seq<nat>>, ghost more: seq<nat>)
      requires |table| == |zero| > 0 && table == Rehash(zero, reqs, done)
      ensures |filed| == |zero| && filed == Rehash(zero, reqs, more) && more == done + bucket
    {
      filed, more := table, done;
      var left := bucket;
      while left != []
        invariant |filed| == |zero| && filed == Rehash(zero, reqs, more) && more + left == done + bucket
        decreases |left|
      {
        var r := left[0];
        RehashMore(zero, reqs, more, r);
        filed := Filed(filed, reqs, r);
        more := more + [r];
        left := left[1..];
      }
    }
  }

  /** While an identity is free, some later draw ends the search. */
  lemma {:induction false} SomeDraw(s: Dns, rng: nat -> u16, from: nat) returns (end: nat)
    requires Inv(s) && Fair(rng) && s.nInflight < NO_ID
    ensures end >= from && FreeId(s, rng(end))
  {
    hide Inv, FreeId;
    IdsLeft(s);
    var t: nat :| FreeId(s, t);
    FreeBelow(s, t);
    assert Comes(rng, t, from);
    end :| end >= from && rng(end) == t;
  }

  lemma {:induction false} FreeBelow(s: Dns, t: nat)
    requires FreeId(s, t)
    ensures t < NO_ID
  {
  }

  /** Every server is reached once round the ring, from any start. */
  lemma {:induction false} RingReached(ring: seq<nat>, start: nat, k: nat) returns (j: nat)
    requires RingOk(ring, |ring|) && start < |ring| && k < |ring|
    ensures j < |ring| && ring[Slot(start, j, |ring|)] == k
  {
    assert k in ring;
    var p :| 0 <= p < |ring| && ring[p] == k;
    j := if p >= start then p - start else p + |ring| - start;
  }

  /** One more server behind the head of the ring. */
  lemma {:induction false} RingInsert(ring: seq<nat>, head: nat, n: nat)
    requires RingOk(ring, n) && head < |ring|
    ensures var more := ring[..head + 1] + [n] + ring[head + 1..];
            && RingOk(more, n + 1) && more[Next(head, |more|)] == n && Queues.RemoveOne(more, n) == ring
  {
    var front, back := ring[..head + 1], ring[head + 1..];
    var more := front + [n] + back;
    assert ring == front + back;
    forall k: nat | k < n + 1 ensures k in more {
      if k < n {
        assert k in ring;
      }
    }
    RemoveBehind(front, n, back);
  }

  lemma {:induction false} RemoveBehind(front: seq<nat>, n: nat, back: seq<nat>)
    requires n !in front
    ensures Queues.RemoveOne(front + [n] + back, n) == front + back
  {
    if front == [] {
      assert front + [n] + back == [n] + back && ([n] + back)[1..] == back;
    } else {
      assert (front + [n] + back)[1..] == front[1..] + [n] + back;
      RemoveBehind(front[1..], n, back);
    }
  }

  /** The assertion of nameserver_pick: while a server is good, the walk finds it
      before it comes round. */
  lemma {:induction false} SomeAhead(s: Dns, ring: seq<nat>, start: nat, seen: nat)
    requires Inv(s) && s.good != 0 && RingOk(ring, |s.servers|) && start < |ring| && seen < |ring|
    requires forall j | 0 <= j <= seen :: !s.servers[ring[Slot(start, j, |ring|)]].up
    ensures seen + 1 < |ring|
  {
    hide Inv;
    if seen + 1 == |ring| {
      NoneUp(s, ring, start);
    }
  }

  lemma {:induction false} NoneUp(s: Dns, ring: seq<nat>, start: nat)
    requires Inv(s) && RingOk(ring, |s.servers|) && start < |ring|
    requires forall j | 0 <= j < |ring| :: !s.servers[ring[Slot(start, j, |ring|)]].up
    ensures s.good == 0
  {
    hide ReqAt, ServerAt, IdsUnique, Slot;
    forall k | 0 <= k < |s.servers| ensures !s.servers[k].up {
      var j := RingReached(ring, start, k);
    }
    assert Up(s.servers) == {};
  }

  lemma {:induction false} SomeGood(s: Dns, j: nat)
    requires Inv(s) && j < |s.servers| && s.servers[j].up
    ensures s.good > 0
  {
    hide ReqAt, ServerAt, IdsUnique;
    assert j in Up(s.servers);
    assert Up(s.servers) != {};
  }

  lemma {:induction false} BucketsExist(s: Dns)
    requires Inv(s)
    ensures |s.heads| > 0
  {
  }

  lemma {:induction false} OnlySelf(s: Dns)
    ensures OnlyServers(s, s)
  {
  }

  lemma {:induction false} OnlyHeads(s: Dns, t: Dns)
    requires OnlyServers(s, t)
    ensures t.heads == s.heads && Steady(s, t) && |t.servers| == |s.servers|
  {
  }

  lemma {:induction false} SetUpOnly(s: Dns, k: nat)
    requires k < |s.servers|
    ensures OnlyServers(s, SetUp(s, k, false)) && OnlyUnsent(s, SetUp(s, k, false), k)
  {
  }

  /** Everything in a bucket is in flight. */
  lemma {:induction false} MemberInflight(s: Dns, b: nat, r: nat)
    requires Inv(s) && b < |s.heads| && r in s.heads[b]
    ensures Inflight(s, r) && s.reqs[r].ns < |s.servers|
  {
    hide OnServer, Up, TxOk;
    assert ReqAt(s, r);
  }

  lemma {:induction false} NsKnown(s: Dns, r: nat)
    requires Inv(s) && Inflight(s, r)
    ensures s.reqs[r].ns < |s.servers|
  {
    hide QueuedAt, OnServer, Up, TxOk;
    assert ReqAt(s, r);
  }

  lemma {:induction false} FreshTries(s: Dns, r: nat)
    requires Inv(s) && r in s.reqs && s.reqs[r].ns < 0
    ensures s.reqs[r].tx == 0
  {
    hide QueuedAt, OnServer, Up, TxOk;
    assert ReqAt(s, r);
  }

  lemma {:induction false} WaitingCount(s: Dns)
    requires Inv(s)
    ensures s.nWaiting >= 0
  {
  }

  lemma {:induction false} WaitingThere(s: Dns)
    requires Inv(s) && s.nWaiting > 0
    ensures s.waiting != []
  {
  }

  lemma {:induction false} NewBaseOk(s: Dns)
    requires s.reqs == map[] && s.waiting == [] && s.nInflight == 0 && s.nWaiting == 0 && s.servers == [] && s.good == 0
    requires |s.heads| > 0 && forall b | 0 <= b < |s.heads| :: s.heads[b] == []
    ensures Inv(s)
  {
    EmptiesTotal(s.heads);
    forall r: nat ensures ReqAt(s, r) { }
    forall k: nat ensures ServerAt(s, k) { }
    assert Up(s.servers) == {};
  }

  lemma {:induction false} RehashNone(nh: seq<seq<nat>>, reqs: map<nat, Req>)
    ensures Rehash(nh, reqs, []) == nh
  {
  }

  lemma {:induction false} FlatStep(heads: seq<seq<nat>>, i: nat)
    requires i < |heads|
    ensures Flat(heads[i..]) == heads[i] + Flat(heads[i + 1..])
  {
    assert heads[i..][1..] == heads[i + 1..];
  }

  lemma {:induction false} FlatEnd(heads: seq<seq<nat>>)
    ensures Flat(heads[|heads|..]) == []
  {
  }

  lemma {:induction false} GoodCount(s: Dns)
    requires Inv(s)
    ensures s.good >= 0
  {
  }

  lemma {:induction false} UnsentSelf(s: Dns, k: nat)
    requires k < |s.servers|
    ensures OnlyUnsent(s, s, k)
  {
  }

  lemma {:induction false} UnsentOnly(s: Dns, t: Dns, k: nat)
    requires OnlyUnsent(s, t, k)
    ensures OnlyServers(s, t)
  {
  }

  lemma {:induction false} NoneOff(s: Dns, k: nat)
    ensures OffServer(s, [], k)
  {
  }

  lemma {:induction false} SwapUnsent(s: Dns, t: Dns, r: nat, k: nat)
    requires OnlyServers(s, t) && r in s.reqs && s.reqs[r].tx == 0 && s.reqs[r].ns == k < |s.servers|
    requires forall x | x in s.reqs && x != r :: t.reqs[x] == s.reqs[x]
    requires forall j | 0 <= j < |s.servers| :: t.servers[j] == s.servers[j].(inflight := t.servers[j].inflight)
    requires 0 <= t.reqs[r].ns < |t.servers| && t.servers[t.reqs[r].ns].up && !t.servers[k].up
    ensures OnlyUnsent(s, t, k)
  {
  }

  lemma {:induction false} OneMoreOff(s: Dns, q: seq<nat>, j: nat, k: nat)
    requires j < |q| && OffServer(s, q[..j], k) && (q[j] in s.reqs && s.reqs[q[j]].tx == 0 ==> s.reqs[q[j]].ns != k)
    ensures OffServer(s, q[..j + 1], k)
  {
    assert q[..j + 1] == q[..j] + [q[j]];
  }

  /** Every request in flight is in some bucket. */
  lemma {:induction false} AllOff(s: Dns, r: nat, k: nat)
    requires Inv(s) && Inflight(s, r) && s.reqs[r].tx == 0 && forall j | 0 <= j < |s.heads| :: OffServer(s, s.heads[j], k)
    ensures s.reqs[r].ns != k
  {
    hide Inv;
    BucketsExist(s);
    InBucket(s, s.reqs[r].trans, r);
    assert OffServer(s, s.heads[Bucket(s, s.reqs[r].trans)], k);
  }

  lemma {:induction false} MarkedSelf(s: Dns)
    ensures OnlyMarked(s, s)
  {
  }

  lemma {:induction false} OnwardSelf(s: Dns)
    ensures Onward(s, s)
  {
  }

  lemma {:induction false} OnwardHeads(s: Dns, t: Dns)
    requires Onward(s, t)
    ensures t.heads == s.heads
  {
  }

  lemma {:induction false} MarkOnward(s: Dns, r: nat)
    requires r in s.reqs
    ensures Onward(s, Note(s, r, s.reqs[r].(transmitMe := true)))
  {
  }

  lemma {:induction false} FailedOnward(s: Dns, t: Dns, k: nat)
    requires OnlyUnsent(s, t, k) && !t.servers[k].up
    ensures Onward(s, t)
  {
  }

  /** Everything of this list that is marked still was kept back. */
  ghost predicate Tried(t: Dns, q: seq<nat>) {
    forall x | x in q && Inflight(t, x) && t.reqs[x].transmitMe :: LeftBehind(t, x)
  }

  ghost predicate AllTried(t: Dns) {
    forall x | Inflight(t, x) && t.reqs[x].transmitMe :: LeftBehind(t, x)
  }

  lemma {:induction false} TriedNone(t: Dns)
    ensures Tried(t, [])
  {
  }

  lemma {:induction false} TriedStays(s: Dns, t: Dns, q: seq<nat>)
    requires Tried(s, q) && Onward(s, t) && OnlyMarked(s, t)
    ensures Tried(t, q)
  {
    hide LeftBehind, Steady;
    SteadySize(s, t);
    forall x | x in q && Inflight(t, x) && t.reqs[x].transmitMe ensures LeftBehind(t, x) {
      assert x in s.reqs;
      StillInflight(s, t, x);
      LeftStays(s, t, x);
    }
  }

  lemma {:induction false} StillInflight(s: Dns, t: Dns, x: nat)
    requires Steady(s, t)
    ensures Inflight(s, x) <==> Inflight(t, x)
  {
  }

  lemma {:induction false} TriedMore(t: Dns, q: seq<nat>, j: nat)
    requires j < |q| && Tried(t, q[..j]) && (Inflight(t, q[j]) && t.reqs[q[j]].transmitMe ==> LeftBehind(t, q[j]))
    ensures Tried(t, q[..j + 1])
  {
    hide LeftBehind;
    assert q[..j + 1] == q[..j] + [q[j]];
  }

  lemma {:induction false} TriedAll(t: Dns, x: nat)
    requires Inv(t) && Inflight(t, x) && t.reqs[x].transmitMe && forall j | 0 <= j < |t.heads| :: Tried(t, t.heads[j])
    ensures LeftBehind(t, x)
  {
    hide Inv, LeftBehind;
    BucketsExist(t);
    InBucket(t, t.reqs[x].trans, x);
    assert Tried(t, t.heads[Bucket(t, t.reqs[x].trans)]);
  }

  /** From s to t requests have been promoted in the order they waited; what was in
      flight is so under its identity, and no server has come up. */
  ghost predicate Pumped(s: Dns, t: Dns) {
    && |t.servers| == |s.servers| && t.reqs.Keys == s.reqs.Keys && |t.waiting| <= |s.waiting|
    && t.waiting == s.waiting[|s.waiting| - |t.waiting|..]
    && (forall x | Inflight(s, x) :: Inflight(t, x) && t.reqs[x].trans == s.reqs[x].trans)
    && (forall x | x in s.reqs :: t.reqs[x].reissues == s.reqs[x].reissues && t.reqs[x].sent >= s.reqs[x].sent)
    && (forall j | 0 <= j < |s.servers| :: t.servers[j].up ==> s.servers[j].up)
  }

  lemma {:induction false} PumpedSelf(s: Dns)
    ensures Pumped(s, s)
  {
  }

  lemma {:induction false} PumpedThen(s: Dns, m: Dns, t: Dns)
    requires Pumped(s, m) && Pumped(m, t)
    ensures Pumped(s, t)
  {
    assert forall x | x in s.reqs :: x in m.reqs;
  }

  lemma {:induction false} PromotedPumps(s: Dns, m: Dns, t: Dns, r: nat, trans: nat, k: nat)
    requires |s.heads| > 0 && s.waiting != [] && s.waiting[0] == r && r in s.reqs && s.reqs[r].ns < 0 && k < |s.servers|
    requires m == Promote(s, trans, k)
    requires Onward(m, t) && forall x | x in m.reqs :: x in t.reqs && t.reqs[x].reissues == m.reqs[x].reissues && t.reqs[x].sent >= m.reqs[x].sent
    ensures Pumped(s, t) && t.waiting == s.waiting[1..] && t.nWaiting == s.nWaiting - 1 && t.nInflight == s.nInflight + 1
    ensures t.maxInflight == s.maxInflight && Inflight(t, r) && t.reqs[r].trans == trans
  {
  }

  lemma {:induction false} SendsOnly(s: Dns, m: Dns, t: Dns, r: nat, answer: Sending)
    requires r in s.reqs && 0 <= s.reqs[r].ns < |s.servers| && SentAs(s, m, r, answer) && OnlyMarked(m, t)
    ensures forall x | x in s.reqs :: x in t.reqs && t.reqs[x].reissues == s.reqs[x].reissues && t.reqs[x].sent >= s.reqs[x].sent
  {
    hide SentAs;
    MarkMeans(s, m, r, answer);
    forall x | x in s.reqs ensures x in t.reqs && t.reqs[x].reissues == s.reqs[x].reissues && t.reqs[x].sent >= s.reqs[x].sent {
      assert x in m.reqs;
    }
  }
}
