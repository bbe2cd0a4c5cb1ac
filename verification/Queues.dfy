/** Queues of identities: occurrences, removal, and sums over a table. */
module Queues {

  function Flag(b: bool): nat {
    if b then 1 else 0
  }

  function Count(q: seq<nat>, e: nat): (n: nat)
    ensures n > 0 <==> e in q
  {
    if q == [] then 0 else (if q[0] == e then 1 else 0) + Count(q[1..], e)
  }

  /** Nothing is there twice. */
  ghost predicate Once(q: seq<nat>) {
    forall i, j | 0 <= i < j < |q| :: q[i] != q[j]
  }

  /** TAILQ_REMOVE: the queue without its first occurrence of e. */
  function RemoveOne(q: seq<nat>, e: nat): seq<nat> {
    if q == [] then [] else if q[0] == e then q[1..] else [q[0]] + RemoveOne(q[1..], e)
  }

  lemma {:induction false} CountConcat(a: seq<nat>, b: seq<nat>, e: nat)
    ensures Count(a + b, e) == Count(a, e) + Count(b, e)
  {
    if a == [] {
      assert a + b == b;
    } else {
      assert (a + b)[1..] == a[1..] + b;
      CountConcat(a[1..], b, e);
    }
  }

  lemma {:induction false} CountOne(e: nat, x: nat)
    ensures Count([e], x) == if x == e then 1 else 0
  {
    assert [e][1..] == [];
  }

  lemma {:induction false} CountAppend(q: seq<nat>, e: nat, x: nat)
    ensures Count(q + [e], x) == Count(q, x) + if x == e then 1 else 0
  {
    CountConcat(q, [e], x);
    CountOne(e, x);
  }

  lemma {:induction false} CountRemove(q: seq<nat>, e: nat, x: nat)
    requires e in q
    ensures Count(RemoveOne(q, e), x) == Count(q, x) - if x == e then 1 else 0
    ensures |RemoveOne(q, e)| == |q| - 1
  {
    if q[0] != e {
      CountRemove(q[1..], e, x);
      assert ([q[0]] + RemoveOne(q[1..], e))[1..] == RemoveOne(q[1..], e);
    }
  }

  /** Removal keeps the order of the rest. */
  lemma {:induction false} RemoveAt(q: seq<nat>, e: nat) returns (i: nat)
    requires e in q
    ensures i < |q| && q[i] == e && RemoveOne(q, e) == q[..i] + q[i + 1..]
  {
    if q[0] == e {
      i := 0;
    } else {
      var k := RemoveAt(q[1..], e);
      i := k + 1;
      assert q[..i] == [q[0]] + q[1..][..k];
      assert q[i + 1..] == q[1..][k + 1..];
    }
  }

  /** Each identity once. */
  lemma {:induction false} CountTwice(q: seq<nat>, i: nat, j: nat)
    requires i < j < |q| && q[i] == q[j]
    ensures Count(q, q[i]) >= 2
  {
    assert q == q[..j] + q[j..];
    CountConcat(q[..j], q[j..], q[i]);
    assert q[..j][i] == q[i] && q[j..][0] == q[i];
  }

  function Total(qs: seq<seq<nat>>): nat {
    if qs == [] then 0 else |qs[0]| + Total(qs[1..])
  }

  lemma {:induction false} TotalUpdate(qs: seq<seq<nat>>, i: nat, q: seq<nat>)
    requires i < |qs|
    ensures Total(qs[i := q]) == Total(qs) - |qs[i]| + |q|
  {
    if i > 0 {
      assert qs[i := q][1..] == qs[1..][i - 1 := q];
      TotalUpdate(qs[1..], i - 1, q);
    } else {
      assert qs[i := q][1..] == qs[1..];
    }
  }

  function Sum(ns: seq<int>): int {
    if ns == [] then 0 else ns[0] + Sum(ns[1..])
  }

  lemma {:induction false} SumUpdate(ns: seq<int>, i: nat, n: int)
    requires i < |ns|
    ensures Sum(ns[i := n]) == Sum(ns) - ns[i] + n
  {
    if i > 0 {
      assert ns[i := n][1..] == ns[1..][i - 1 := n];
      SumUpdate(ns[1..], i - 1, n);
    } else {
      assert ns[i := n][1..] == ns[1..];
    }
  }

  lemma {:induction false} SumAppend(ns: seq<int>, n: int)
    ensures Sum(ns + [n]) == Sum(ns) + n
  {
    if ns == [] {
      assert [n][1..] == [] && ns + [n] == [n];
    } else {
      assert (ns + [n])[1..] == ns[1..] + [n];
      SumAppend(ns[1..], n);
    }
  }
}
