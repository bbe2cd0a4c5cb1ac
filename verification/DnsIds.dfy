/** transaction_id_pick: which identities are free, and why the drawing ends. */
module DnsIds {
  import Queues
  import opened DnsRequests
  import opened DnsRehash
  import opened DnsRuns

  type u16 = n: nat | n < 0x1_0000

  /** The draw comes up, from number i on. */
  ghost predicate Comes(rng: nat -> u16, t: nat, i: nat) {
    exists j: nat :: j >= i && rng(j) == t
  }

  /** Random draws: every identity comes up again and again. */
  ghost predicate Fair(rng: nat -> u16) {
    forall t: nat, i: nat {:trigger Comes(rng, t, i)} :: t < NO_ID ==> Comes(rng, t, i)
  }

  ghost function Elements(q: seq<nat>): set<nat> {
    set x | x in q
  }

  /** The numbers below n. */
  ghost function Below(n: nat): set<nat> {
    if n == 0 then {} else Below(n - 1) + {n - 1}
  }

  lemma {:induction false} ElementsSize(q: seq<nat>)
    requires Queues.Once(q)
    ensures |Elements(q)| == |q|
  {
    if q != [] {
      assert Elements(q) == {q[0]} + Elements(q[1..]);
      ElementsSize(q[1..]);
    }
  }

  lemma {:induction false} BelowSize(n: nat)
    ensures |Below(n)| == n && forall t: nat :: t in Below(n) <==> t < n
  {
    if n > 0 {
      BelowSize(n - 1);
    }
  }

  lemma {:induction false} Within(a: set<nat>, b: set<nat>)
    requires a <= b
    ensures |a| <= |b| && (|a| == |b| <==> a == b)
  {
    assert b == a + (b - a);
  }

  /** Different numbers below n: no more than n, and fewer leave one out. */
  lemma {:induction false} Pigeonhole(q: seq<nat>, n: nat)
    requires Queues.Once(q) && forall i | 0 <= i < |q| :: q[i] < n
    ensures |q| <= n
    ensures |q| < n <==> exists t: nat :: t < n && t !in q
  {
    ElementsSize(q);
    BelowSize(n);
    assert Elements(q) <= Below(n);
    Within(Elements(q), Below(n));
    if |q| < n {
      var t :| t in Below(n) && t !in Elements(q);
      assert t < n && t !in q;
    } else {
      forall t: nat | t < n ensures t in q {
        assert t in Elements(q);
      }
    }
  }

  /** The identities of everything in flight. */
  ghost function Taken(s: Dns): seq<nat> {
    var q := Flat(s.heads);
    seq(|q|, i requires 0 <= i < |q| => TransOf(s.reqs, q[i]))
  }

  lemma {:induction false} TakenOf(s: Dns, i: nat)
    requires Inv(s) && i < |Flat(s.heads)|
    ensures var r := Flat(s.heads)[i]; Inflight(s, r) && Taken(s)[i] == s.reqs[r].trans < NO_ID
  {
    hide QueuedAt, OnServer, Up, Flat, TxOk;
    var r := Flat(s.heads)[i];
    InFlat(s, r);
    assert ReqAt(s, r);
  }

  lemma {:induction false} TakenOnce(s: Dns)
    requires Inv(s)
    ensures Queues.Once(Taken(s))
  {
    hide ReqAt, ServerAt, Up, Flat, Taken;
    var q := Flat(s.heads);
    TakenSize(s);
    forall i, j | 0 <= i < j < |q| ensures Taken(s)[i] != Taken(s)[j] {
      TakenOf(s, i);
      TakenOf(s, j);
      if q[i] == q[j] {
        Queues.CountTwice(q, i, j);
        InFlat(s, q[i]);
      }
    }
  }

  lemma {:induction false} TakenSize(s: Dns)
    ensures |Taken(s)| == |Flat(s.heads)|
  {
  }

  /** An identity is free exactly when nothing in the list has it. */
  lemma {:induction false} FreeExactly(s: Dns, t: nat)
    requires Inv(s)
    ensures FreeId(s, t) <==> t < NO_ID && t !in Taken(s)
  {
    hide Inv, Flat, Taken;
    TakenSize(s);
    if t in Taken(s) {
      var i :| 0 <= i < |Taken(s)| && Taken(s)[i] == t;
      TakenOf(s, i);
    }
    if r :| Inflight(s, r) && s.reqs[r].trans == t {
      InFlat(s, r);
      var i :| 0 <= i < |Flat(s.heads)| && Flat(s.heads)[i] == r;
      TakenOf(s, i);
      assert Taken(s)[i] in Taken(s);
    }
  }

  lemma {:induction false} TakenCount(s: Dns)
    requires Inv(s)
    ensures |Taken(s)| == s.nInflight
  {
    hide ReqAt, ServerAt, IdsUnique, Up;
    FlatTotal(s.heads);
  }

  /** At most 65535 requests are in flight, and below that there is an identity
      to be drawn; with all of them taken there is none. */
  lemma {:induction false} IdsLeft(s: Dns)
    requires Inv(s)
    ensures s.nInflight <= NO_ID
    ensures s.nInflight < NO_ID <==> exists t: nat :: FreeId(s, t)
  {
    hide Inv, FreeId, Taken;
    TakenCount(s);
    TakenOnce(s);
    TakenSize(s);
    forall i | 0 <= i < |Taken(s)| ensures Taken(s)[i] < NO_ID {
      TakenOf(s, i);
    }
    Pigeonhole(Taken(s), NO_ID);
    if t: nat :| t < NO_ID && t !in Taken(s) {
      FreeExactly(s, t);
    }
    if t: nat :| FreeId(s, t) {
      FreeExactly(s, t);
    }
  }

  /* ----- all of them taken ----- */

  /** Requests 0 to n - 1 are in flight, each under its own number. */
  ghost predicate Filled(s: Dns, n: nat) {
    && Inv(s) && s.servers != [] && s.nInflight == n
    && (forall r: nat :: r in s.reqs <==> r < n)
    && (forall r: nat | r in s.reqs :: s.reqs[r].trans == r && s.reqs[r].ns >= 0)
  }

  /** The submissions from i up to n. */
  ghost function Submissions(i: nat, n: nat): seq<Action>
    decreases n - i
  {
    if i >= n then [] else [DoSubmit(i, i, 0)] + Submissions(i + 1, n)
  }

  lemma {:induction false} FillOne(s: Dns, n: nat)
    requires Filled(s, n) && n < NO_ID
    ensures Legal(s, DoSubmit(n, n, 0)) && Filled(Step(s, DoSubmit(n, n, 0)), n + 1)
  {
    hide Inv;
    StepKeeps(s, DoSubmit(n, n, 0));
    var t := Step(s, DoSubmit(n, n, 0));
    assert t.nInflight == s.nInflight + 1;
  }

  lemma {:induction false} FillUp(s: Dns, i: nat, n: nat)
    requires Filled(s, i) && i <= n <= NO_ID
    ensures LegalRun(s, Submissions(i, n)) && Filled(Run(s, Submissions(i, n)), n)
    decreases n - i
  {
    hide Inv, Filled, Legal, Step;
    FilledInv(s, i);
    if i < n {
      FillOne(s, i);
      StepKeeps(s, DoSubmit(i, i, 0));
      FillUp(Step(s, DoSubmit(i, i, 0)), i + 1, n);
      assert Submissions(i, n)[0] == DoSubmit(i, i, 0) && Submissions(i, n)[1..] == Submissions(i + 1, n);
    }
  }

  lemma {:induction false} FilledInv(s: Dns, n: nat)
    requires Filled(s, n)
    ensures Inv(s) && s.nInflight == n
  {
  }

  /** From any base with a server and no requests, 65535 submissions are a legal
      run, and after it transaction_id_pick finds nothing. */
  lemma {:induction false} IdsRunOut(s: Dns)
    requires Inv(s) && s.reqs == map[] && s.servers != []
    ensures LegalRun(s, Submissions(0, NO_ID))
    ensures var t := Run(s, Submissions(0, NO_ID)); t.nInflight == NO_ID && forall id: nat :: !FreeId(t, id)
  {
    hide Inv, LegalRun, Run, Submissions, FreeId;
    NoneYet(s);
    FillUp(s, 0, NO_ID);
    var t := Run(s, Submissions(0, NO_ID));
    FilledInv(t, NO_ID);
    IdsLeft(t);
  }

  lemma {:induction false} NoneYet(s: Dns)
    requires Inv(s) && s.reqs == map[]
    ensures s.nInflight == 0
  {
    hide Inv, Taken;
    TakenCount(s);
    TakenSize(s);
    if |Taken(s)| > 0 {
      TakenOf(s, 0);
    }
  }
}
