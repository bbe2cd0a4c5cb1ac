/** The requests of an evdns base: the inflight buckets, the waiting queue,
    the nameservers they are assigned to, and how often each has been sent. */
module DnsRequests {
  import Queues

  /** A request that has not been freed. ns is -1 while it waits. sent counts
      every transmission that tx_count ever counted. */
  datatype Req = Req(trans: nat, ns: int, tx: nat, reissues: nat, transmitMe: bool, sent: nat)

  datatype Server = Server(inflight: int, up: bool, choked: bool, timedout: nat)

  datatype Dns = Dns(
    reqs: map<nat, Req>, heads: seq<seq<nat>>, waiting: seq<nat>,
    nInflight: int, nWaiting: int, maxInflight: int,
    servers: seq<Server>, good: int,
    maxRetransmits: nat, maxReissues: nat)

  const NO_ID: nat := 0xffff

  predicate Inflight(s: Dns, r: nat) {
    r in s.reqs && s.reqs[r].ns >= 0
  }

  /** One request gets at most this many counted transmissions per server tried. */
  function PerTry(s: Dns): nat {
    if s.maxRetransmits == 0 then 1 else s.maxRetransmits
  }

  predicate TxOk(q: Req, perTry: nat, maxReissues: nat) {
    && q.tx <= perTry && (q.transmitMe ==> q.tx < perTry)
    && q.reissues <= maxReissues && q.sent <= q.reissues * perTry + q.tx
  }

  /** In its own bucket and no other, or in the waiting queue. */
  ghost predicate QueuedAt(s: Dns, r: nat) {
    && (forall b | 0 <= b < |s.heads| ::
          Queues.Count(s.heads[b], r) == Queues.Flag(Inflight(s, r) && s.reqs[r].trans % |s.heads| == b))
    && Queues.Count(s.waiting, r) == Queues.Flag(r in s.reqs && s.reqs[r].ns < 0)
  }

  ghost predicate ReqAt(s: Dns, r: nat) {
    && QueuedAt(s, r)
    && (r in s.reqs ==>
          && -1 <= s.reqs[r].ns < |s.servers| && TxOk(s.reqs[r], PerTry(s), s.maxReissues)
          && (s.reqs[r].ns >= 0 ==> s.reqs[r].trans < NO_ID)
          && (s.reqs[r].ns < 0 ==> s.reqs[r].tx == 0 && s.reqs[r].reissues == 0))
  }

  ghost function OnServer(reqs: map<nat, Req>, k: int): set<nat> {
    set r | r in reqs && reqs[r].ns == k
  }

  ghost predicate ServerAt(s: Dns, k: nat) {
    k < |s.servers| ==> s.servers[k].inflight == |OnServer(s.reqs, k)|
  }

  ghost predicate IdsUnique(s: Dns) {
    forall q, r | Inflight(s, q) && Inflight(s, r) && s.reqs[q].trans == s.reqs[r].trans :: q == r
  }

  ghost function Up(servers: seq<Server>): set<nat> {
    set k | 0 <= k < |servers| && servers[k].up
  }

  ghost predicate Inv(s: Dns) {
    && |s.heads| > 0
    && (forall r: nat {:trigger ReqAt(s, r)} :: ReqAt(s, r))
    && (forall k: nat {:trigger ServerAt(s, k)} :: ServerAt(s, k))
    && s.nInflight == Queues.Total(s.heads) && s.nWaiting == |s.waiting|
    && IdsUnique(s)
    && s.good == |Up(s.servers)|
  }

  /* ----- the steps ----- */

  function Bucket(s: Dns, trans: nat): nat
    requires |s.heads| > 0
  {
    trans % |s.heads|
  }

  function Enlist(s: Dns, r: nat, trans: nat): Dns
    requires |s.heads| > 0
  {
    var b := Bucket(s, trans);
    s.(heads := s.heads[b := s.heads[b] + [r]], nInflight := s.nInflight + 1)
  }

  function Assigned(servers: seq<Server>, k: nat, d: int): seq<Server>
    requires k < |servers|
  {
    servers[k := servers[k].(inflight := servers[k].inflight + d)]
  }

  /** request_submit with a nameserver: straight into a bucket. */
  function SubmitInflight(s: Dns, r: nat, trans: nat, k: nat): Dns
    requires |s.heads| > 0 && k < |s.servers|
  {
    Enlist(s.(reqs := s.reqs[r := Req(trans, k, 0, 0, false, 0)], servers := Assigned(s.servers, k, 1)), r, trans)
  }

  function SubmitWaiting(s: Dns, r: nat, trans: nat): Dns {
    s.(reqs := s.reqs[r := Req(trans, -1, 0, 0, false, 0)], waiting := s.waiting + [r], nWaiting := s.nWaiting + 1)
  }

  /** One round of evdns_requests_pump_waiting_queue, up to the transmission. */
  function Promote(s: Dns, trans: nat, k: nat): Dns
    requires |s.heads| > 0 && k < |s.servers| && s.waiting != [] && s.waiting[0] in s.reqs
  {
    var r := s.waiting[0];
    Enlist(s.(reqs := s.reqs[r := s.reqs[r].(ns := k, trans := trans)], servers := Assigned(s.servers, k, 1),
              waiting := s.waiting[1..], nWaiting := s.nWaiting - 1), r, trans)
  }

  /** request_finished, before it pumps the waiting queue. */
  function Finish(s: Dns, r: nat): Dns
    requires |s.heads| > 0 && r in s.reqs && s.reqs[r].ns < |s.servers|
  {
    var q := s.reqs[r];
    if q.ns >= 0 then
      var b := Bucket(s, q.trans);
      s.(reqs := s.reqs - {r}, heads := s.heads[b := Queues.RemoveOne(s.heads[b], r)], nInflight := s.nInflight - 1,
         servers := Assigned(s.servers, q.ns, -1))
    else
      s.(reqs := s.reqs - {r}, waiting := Queues.RemoveOne(s.waiting, r), nWaiting := s.nWaiting - 1)
  }

  /** request_swap_ns; k is -1 when no nameserver was picked. */
  function Swap(s: Dns, r: nat, k: int): Dns
    requires r in s.reqs && 0 <= s.reqs[r].ns < |s.servers| && k < |s.servers|
  {
    var q := s.reqs[r];
    if k >= 0 && q.ns != k then
      s.(servers := Assigned(Assigned(s.servers, q.ns, -1), k, 1), reqs := s.reqs[r := q.(ns := k)])
    else s
  }

  /** A change to a request that moves it nowhere. */
  function Note(s: Dns, r: nat, q: Req): Dns {
    s.(reqs := s.reqs[r := q])
  }

  function CountedSend(q: Req): Req {
    q.(tx := q.tx + 1, sent := q.sent + 1, transmitMe := false)
  }

  function Reissued(q: Req): Req {
    q.(reissues := q.reissues + 1, tx := 0, transmitMe := true)
  }

  /** nameserver_failed and nameserver_up, for the server itself. */
  function SetUp(s: Dns, k: nat, up: bool): Dns
    requires k < |s.servers|
  {
    if s.servers[k].up == up then s
    else s.(servers := s.servers[k := s.servers[k].(up := up)], good := if up then s.good + 1 else s.good - 1)
  }

  function SetServer(s: Dns, k: nat, choked: bool, timedout: nat): Dns
    requires k < |s.servers|
  {
    s.(servers := s.servers[k := s.servers[k].(choked := choked, timedout := timedout)])
  }

  function AddServer(s: Dns): Dns {
    s.(servers := s.servers + [Server(0, true, false, 0)], good := s.good + 1)
  }
}
