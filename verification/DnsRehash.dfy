/** evdns_base_set_max_requests_inflight: a new number of buckets. */
module DnsRehash {
  import opened Queues
  import opened DnsRequests

  /** The buckets end to end. */
  function Flat(heads: seq<seq<nat>>): seq<nat> {
    if heads == [] then [] else heads[0] + Flat(heads[1..])
  }

  /** The identity a request is filed under. */
  function TransOf(reqs: map<nat, Req>, r: nat): nat {
    if r in reqs then reqs[r].trans else 0
  }

  function Filed(nh: seq<seq<nat>>, reqs: map<nat, Req>, r: nat): (f: seq<seq<nat>>)
    ensures |f| == |nh|
  {
    if |nh| == 0 then nh
    else var b := TransOf(reqs, r) % |nh|; nh[b := nh[b] + [r]]
  }

  /** The requests filed one after another into nh. */
  function Rehash(nh: seq<seq<nat>>, reqs: map<nat, Req>, flat: seq<nat>): (f: seq<seq<nat>>)
    ensures |f| == |nh|
    decreases |flat|
  {
    if flat == [] then nh else Rehash(Filed(nh, reqs, flat[0]), reqs, flat[1..])
  }

  lemma {:induction false} RehashMore(nh: seq<seq<nat>>, reqs: map<nat, Req>, a: seq<nat>, r: nat)
    ensures Rehash(nh, reqs, a + [r]) == Filed(Rehash(nh, reqs, a), reqs, r)
    decreases |a|
  {
    if a == [] {
      assert a + [r] == [r] && [r][1..] == [];
    } else {
      assert (a + [r])[1..] == a[1..] + [r];
      RehashMore(Filed(nh, reqs, a[0]), reqs, a[1..], r);
    }
  }

  /** Bucket b has exactly the requests of the list that belong there. */
  lemma {:induction false} RehashCount(nh: seq<seq<nat>>, reqs: map<nat, Req>, flat: seq<nat>, b: nat, x: nat)
    requires b < |nh|
    ensures Count(Rehash(nh, reqs, flat)[b], x) == Count(nh[b], x) + (if TransOf(reqs, x) % |nh| == b then Count(flat, x) else 0)
    decreases |flat|
  {
    if flat != [] {
      var c := TransOf(reqs, flat[0]) % |nh|;
      RehashCount(Filed(nh, reqs, flat[0]), reqs, flat[1..], b, x);
      CountAppend(nh[c], flat[0], x);
    }
  }

  lemma {:induction false} RehashTotal(nh: seq<seq<nat>>, reqs: map<nat, Req>, flat: seq<nat>)
    requires |nh| > 0
    ensures Total(Rehash(nh, reqs, flat)) == Total(nh) + |flat|
    decreases |flat|
  {
    if flat != [] {
      var c := TransOf(reqs, flat[0]) % |nh|;
      TotalUpdate(nh, c, nh[c] + [flat[0]]);
      RehashTotal(Filed(nh, reqs, flat[0]), reqs, flat[1..]);
    }
  }

  lemma {:induction false} FlatTotal(heads: seq<seq<nat>>)
    ensures |Flat(heads)| == Total(heads)
  {
    if heads != [] {
      FlatTotal(heads[1..]);
    }
  }

  /** x is in bucket b, counted from `from`, n times, and in no other. */
  lemma {:induction false} FlatCount(heads: seq<seq<nat>>, x: nat, b: int, n: nat)
    requires forall i | 0 <= i < |heads| :: Count(heads[i], x) == if i == b then n else 0
    ensures Count(Flat(heads), x) == if 0 <= b < |heads| then n else 0
  {
    if heads != [] {
      CountConcat(heads[0], Flat(heads[1..]), x);
      FlatCount(heads[1..], x, b - 1, n);
    }
  }

  function Empties(n: nat): seq<seq<nat>> {
    seq(n, i => [])
  }

  lemma {:induction false} EmptiesTotal(qs: seq<seq<nat>>)
    requires forall i | 0 <= i < |qs| :: qs[i] == []
    ensures Total(qs) == 0
  {
    if qs != [] {
      EmptiesTotal(qs[1..]);
    }
  }

  function Buckets(maxInflight: int): nat {
    var m := if maxInflight < 1 then 1 else maxInflight;
    (m + 4) / 5
  }

  function Resize(s: Dns, maxInflight: int): Dns {
    s.(heads := Rehash(Empties(Buckets(maxInflight)), s.reqs, Flat(s.heads)),
       maxInflight := if maxInflight < 1 then 1 else maxInflight)
  }

  lemma {:induction false} InFlat(s: Dns, x: nat)
    requires Inv(s)
    ensures Count(Flat(s.heads), x) == Flag(Inflight(s, x))
  {
    hide OnServer, Up, Count, Flat;
    assert ReqAt(s, x);
    FlatCount(s.heads, x, TransOf(s.reqs, x) % |s.heads|, Flag(Inflight(s, x)));
  }

  lemma {:induction false} ResizeKeeps(s: Dns, maxInflight: int)
    requires Inv(s)
    ensures Inv(Resize(s, maxInflight))
  {
    hide OnServer, Up, Count, Flat, Rehash;
    var n := Buckets(maxInflight);
    var t := Resize(s, maxInflight);
    forall x: nat ensures ReqAt(t, x) {
      assert ReqAt(s, x);
      InFlat(s, x);
      forall b | 0 <= b < n ensures Count(t.heads[b], x) == Flag(Inflight(t, x) && t.reqs[x].trans % n == b) {
        RehashCount(Empties(n), s.reqs, Flat(s.heads), b, x);
        CountNone(x);
      }
    }
    forall j: nat ensures ServerAt(t, j) { assert ServerAt(s, j); }
    RehashTotal(Empties(n), s.reqs, Flat(s.heads));
    EmptiesTotal(Empties(n));
    FlatTotal(s.heads);
    assert IdsUnique(t) by {
      forall q, r | Inflight(t, q) && Inflight(t, r) && t.reqs[q].trans == t.reqs[r].trans ensures q == r {
        assert Inflight(s, q) && Inflight(s, r);
      }
    }
  }

  lemma {:induction false} CountNone(x: nat)
    ensures Count([], x) == 0
  {
  }
}
