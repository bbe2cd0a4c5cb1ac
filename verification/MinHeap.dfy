/** The timer heap of minheap-internal.h: an array in heap order in which every
    event knows its own index. */
module MinHeap {
  import opened Queues
  import opened Timevals

  /** The deadlines of events. */
  type Due = nat -> Timeval

  function Parent(i: nat): nat
    requires i > 0
  {
    (i - 1) / 2
  }

  ghost predicate EdgeOk(q: seq<nat>, due: Due, i: nat) {
    0 < i < |q| ==> LE(due(q[Parent(i)]), due(q[i]))
  }

  ghost predicate Heap(q: seq<nat>, due: Due) {
    forall i: nat {:trigger EdgeOk(q, due, i)} :: EdgeOk(q, due, i)
  }

  /** Below the parent of h nothing is earlier than that parent. */
  ghost predicate Bridged(q: seq<nat>, due: Due, h: nat) {
    forall i: nat {:trigger q[i]} | 0 < i < |q| && Parent(i) == h < |q| && h > 0 :: LE(due(q[Parent(h)]), due(q[i]))
  }

  /** In order except that the event at h may be earlier than its parent. */
  ghost predicate HeapUp(q: seq<nat>, due: Due, h: nat) {
    && (forall i: nat {:trigger EdgeOk(q, due, i)} | i != h :: EdgeOk(q, due, i))
    && Bridged(q, due, h)
  }

  /** In order except that the event at h may be later than its children. */
  ghost predicate HeapDown(q: seq<nat>, due: Due, h: nat) {
    && (forall i: nat {:trigger EdgeOk(q, due, i)} | i == 0 || Parent(i) != h :: EdgeOk(q, due, i))
    && Bridged(q, due, h)
  }

  function Swapped(q: seq<nat>, i: nat, j: nat): seq<nat>
    requires i < |q| && j < |q|
  {
    q[i := q[j]][j := q[i]]
  }

  lemma {:induction false} SwapKeeps(q: seq<nat>, i: nat, j: nat)
    requires i < |q| && j < |q| && Once(q)
    ensures Once(Swapped(q, i, j)) && forall x: nat :: x in Swapped(q, i, j) <==> x in q
  {
    var r := Swapped(q, i, j);
    forall x: nat ensures x in r <==> x in q {
      if x in q {
        var k :| 0 <= k < |q| && q[k] == x;
        assert r[if k == i then j else if k == j then i else k] == x;
      }
    }
  }

  lemma {:induction false} LETotal(a: Timeval, b: Timeval)
    ensures LE(a, b) || LE(b, a)
  {
  }

  lemma {:induction false} LETrans(a: Timeval, b: Timeval, c: Timeval)
    requires LE(a, b) && LE(b, c)
    ensures LE(a, c)
  {
  }

  /** Moving the event at h above a later parent moves the exception up. */
  lemma {:induction false} UpStep(q: seq<nat>, due: Due, h: nat)
    requires 0 < h < |q| && HeapUp(q, due, h) && !LE(due(q[Parent(h)]), due(q[h]))
    ensures HeapUp(Swapped(q, h, Parent(h)), due, Parent(h))
  {
    hide LE;
    var p := Parent(h);
    var r := Swapped(q, h, p);
    LETotal(due(q[p]), due(q[h]));
    forall i: nat | i != p ensures EdgeOk(r, due, i) {
      assert i != h ==> EdgeOk(q, due, i);
      if 0 < i < |q| && i != h && Parent(i) == p {
        LETrans(due(q[h]), due(q[p]), due(q[i]));
      }
    }
    assert EdgeOk(q, due, p);
    forall i: nat | 0 < i < |r| && Parent(i) == p && p > 0 ensures LE(due(r[Parent(p)]), due(r[i])) {
      if i != h {
        assert EdgeOk(q, due, i);
        LETrans(due(q[Parent(p)]), due(q[p]), due(q[i]));
      }
    }
  }

  /** The event at h is no earlier than its parent: everything is in order. */
  lemma {:induction false} UpDone(q: seq<nat>, due: Due, h: nat)
    requires h < |q| && HeapUp(q, due, h) && (h == 0 || LE(due(q[Parent(h)]), due(q[h])))
    ensures Heap(q, due)
  {
    hide LE;
    forall i: nat ensures EdgeOk(q, due, i) {
      assert i != h ==> EdgeOk(q, due, i);
    }
  }

  /** The earlier child, as shift_down finds it. */
  ghost predicate MinChild(q: seq<nat>, due: Due, h: nat, m: nat) {
    && 0 < m < |q| && Parent(m) == h
    && forall i: nat {:trigger q[i]} | 0 < i < |q| && Parent(i) == h :: LE(due(q[m]), due(q[i]))
  }

  lemma {:induction false} DownStep(q: seq<nat>, due: Due, h: nat, m: nat)
    requires h < |q| && HeapDown(q, due, h) && MinChild(q, due, h, m) && !LE(due(q[h]), due(q[m]))
    ensures HeapDown(Swapped(q, h, m), due, m)
  {
    hide LE;
    var r := Swapped(q, h, m);
    LETotal(due(q[h]), due(q[m]));
    forall i: nat | i == 0 || Parent(i) != m ensures EdgeOk(r, due, i) {
      assert i == 0 || Parent(i) != h ==> EdgeOk(q, due, i);
      assert i == h && h > 0 ==> Parent(h) != h;
    }
    forall i: nat | 0 < i < |r| && Parent(i) == m && m > 0 ensures LE(due(r[Parent(m)]), due(r[i])) {
      assert EdgeOk(q, due, i);
    }
  }

  lemma {:induction false} DownDone(q: seq<nat>, due: Due, h: nat)
    requires h < |q| && HeapDown(q, due, h)
    requires forall i: nat {:trigger q[i]} | 0 < i < |q| && Parent(i) == h :: LE(due(q[h]), due(q[i]))
    ensures Heap(q, due)
  {
    hide LE;
    forall i: nat ensures EdgeOk(q, due, i) {
      assert i == 0 || Parent(i) != h ==> EdgeOk(q, due, i);
    }
  }

  /** The first event is the earliest. */
  lemma {:induction false} TopIsMin(q: seq<nat>, due: Due, i: nat)
    requires Heap(q, due) && i < |q|
    ensures LE(due(q[0]), due(q[i]))
  {
    hide LE;
    if i == 0 {
      LETotal(due(q[0]), due(q[0]));
    } else {
      assert EdgeOk(q, due, i);
      TopIsMin(q, due, Parent(i));
      LETrans(due(q[0]), due(q[Parent(i)]), due(q[i]));
    }
  }

  /** Everything but what is at h knows its index, and nothing else claims one. */
  ghost predicate IndexedBut(q: seq<nat>, idx: map<nat, int>, h: int, e: int) {
    && (forall i | 0 <= i < |q| && i != h :: q[i] in idx && idx[q[i]] == i)
    && (forall x | x in idx && x != e && idx[x] != -1 :: 0 <= idx[x] < |q| && q[idx[x]] == x)
  }

  lemma {:induction false} IndexStep(q: seq<nat>, idx: map<nat, int>, h: nat, m: nat)
    requires h < |q| && m < |q| && h != m && Once(q) && IndexedBut(q, idx, h, q[h])
    ensures IndexedBut(Swapped(q, h, m), idx[q[m] := h], m, q[h])
  {
  }

  lemma {:induction false} IndexDone(q: seq<nat>, idx: map<nat, int>, h: nat)
    requires h < |q| && Once(q) && IndexedBut(q, idx, h, q[h])
    ensures IndexedBut(q, idx[q[h] := h], -1, -1)
  {
  }

  class TimerHeap {
    var p: seq<nat>
    /** ev_timeout_pos.min_heap_idx, -1 for an event that is not in the heap. */
    var idx: map<nat, int>

    ghost predicate Valid(due: Due)
      reads this
    {
      Once(p) && Heap(p, due) && IndexedBut(p, idx, -1, -1)
    }

    constructor ()
      ensures p == [] && idx == map[]
    {
      p, idx := [], map[];
    }

    /** min_heap_top_ */
    method Top(due: Due) returns (e: nat)
      requires Valid(due) && p != []
      ensures e in p && forall x | x in p :: LE(due(e), due(x))
    {
      e := p[0];
      forall x | x in p ensures LE(due(e), due(x)) {
        var i :| 0 <= i < |p| && p[i] == x;
        TopIsMin(p, due, i);
      }
    }

    /** min_heap_shift_up_: e is put into the hole or above it. */
    method ShiftUp(hole: nat, e: nat, due: Due)
      requires hole < |p| && Once(p[hole := e]) && HeapUp(p[hole := e], due, hole) && IndexedBut(p[hole := e], idx, hole, e)
      modifies this
      ensures Valid(due) && |p| == |old(p)| && forall x: nat :: x in p <==> x in old(p)[hole := e]
      ensures forall x | x in old(idx) && old(idx)[x] == -1 && x != e :: x in idx && idx[x] == -1
      ensures idx.Keys == old(idx.Keys) + {e}
    {
      hide LE, HeapUp, Heap, Once, IndexedBut;
      ghost var q := p[hole := e];
      var h := hole;
      while h > 0 && !LE(due(p[Parent(h)]), due(e))
        invariant h < |p| == |old(p)| && q == p[h := e] && Once(q) && HeapUp(q, due, h) && IndexedBut(q, idx, h, e)
        invariant forall x: nat :: x in q <==> x in old(p)[hole := e]
        invariant forall x | x in old(idx) && old(idx)[x] == -1 && x != e :: x in idx && idx[x] == -1
        invariant idx.Keys <= old(idx.Keys) + {e} && old(idx.Keys) <= idx.Keys
        decreases h
      {
        var m := Parent(h);
        InIndex(q, idx, h, m);
        UpStep(q, due, h);
        SwapKeeps(q, h, m);
        IndexStep(q, idx, h, m);
        q := Swapped(q, h, m);
        p := p[h := p[m]];
        idx := idx[p[h] := h];
        h := m;
      }
      UpDone(q, due, h);
      IndexDone(q, idx, h);
      p := p[h := e];
      idx := idx[e := h];
    }

    /** The earlier child of h, given the index of its right child. */
    method EarlierChild(h: nat, due: Due, ghost q: seq<nat>) returns (m: nat)
      requires 2 * h + 1 < |p| && |q| == |p| && forall i | 0 <= i < |p| && i != h :: q[i] == p[i]
      ensures h < m < |p| && MinChild(q, due, h, m)
    {
      hide LE;
      m := 2 * (h + 1);
      if m == |p| || !LE(due(p[m]), due(p[m - 1])) {
        m := m - 1;
      }
      ChildrenOf(h);
      LETotal(due(q[2 * h + 1]), due(q[2 * h + 1]));
      if 2 * h + 2 < |q| {
        LETotal(due(q[2 * h + 1]), due(q[2 * h + 2]));
        LETotal(due(q[2 * h + 2]), due(q[2 * h + 2]));
      }
    }

    /** min_heap_shift_down_: e is put into the hole or below it. */
    method ShiftDown(hole: nat, e: nat, due: Due)
      requires hole < |p| && Once(p[hole := e]) && HeapDown(p[hole := e], due, hole) && IndexedBut(p[hole := e], idx, hole, e)
      modifies this
      ensures Valid(due) && |p| == |old(p)| && forall x: nat :: x in p <==> x in old(p)[hole := e]
      ensures forall x | x in old(idx) && old(idx)[x] == -1 && x != e :: x in idx && idx[x] == -1
      ensures idx.Keys == old(idx.Keys) + {e}
    {
      hide LE, HeapDown, Heap, Once, IndexedBut, MinChild;
      ghost var q := p[hole := e];
      var h := hole;
      while 2 * h + 1 < |p|
        invariant h < |p| == |old(p)| && q == p[h := e] && Once(q) && HeapDown(q, due, h) && IndexedBut(q, idx, h, e)
        invariant forall x: nat :: x in q <==> x in old(p)[hole := e]
        invariant forall x | x in old(idx) && old(idx)[x] == -1 && x != e :: x in idx && idx[x] == -1
        invariant idx.Keys <= old(idx.Keys) + {e} && old(idx.Keys) <= idx.Keys
        decreases |p| - h
      {
        var m := EarlierChild(h, due, q);
        if LE(due(e), due(p[m])) {
          SettledHere(q, due, h, m);
          break;
        }
        InIndex(q, idx, h, m);
        DownStep(q, due, h, m);
        SwapKeeps(q, h, m);
        IndexStep(q, idx, h, m);
        q := Swapped(q, h, m);
        p := p[h := p[m]];
        idx := idx[p[h] := h];
        h := m;
      }
      NoChildren(q, due, h);
      IndexDone(q, idx, h);
      p := p[h := e];
      idx := idx[e := h];
    }

    /** min_heap_push_ */
    method Push(e: nat, due: Due)
      requires Valid(due) && e !in p
      modifies this
      ensures Valid(due) && |p| == |old(p)| + 1 && forall x: nat :: x in p <==> x in old(p) || x == e
    {
      hide LE, HeapUp, Heap, IndexedBut;
      PushReady(p, idx, e, due);
      p := p + [e];
      ShiftUp(|p| - 1, e, due);
    }

    /** min_heap_erase_: the last event takes the place of e, and moves up or down from there. */
    method Erase(e: nat, due: Due) returns (code: int)
      requires Valid(due)
      modifies this
      ensures Valid(due)
      ensures code == if e in old(p) then 0 else -1
      ensures forall x: nat :: x in p <==> x in old(p) && x != e
      ensures e in idx ==> idx[e] == -1
    {
      hide LE, HeapUp, HeapDown, Heap, Once, IndexedBut;
      WhereIs(p, idx, e);
      if e !in idx || idx[e] == -1 {
        return -1;
      }
      var i, last := idx[e], p[|p| - 1];
      if i == |p| - 1 {
        CutLast(p, idx, due);
        p := p[..|p| - 1];
        idx := idx[e := -1];
      } else {
        ReplacedOnce(p, idx, i);
        ReplacedOrder(p, due, i);
        assert Replaced(p, i)[i] == last && last != e;
        p := p[..|p| - 1];
        idx := idx[e := -1];
        if i > 0 && !LE(due(p[Parent(i)]), due(last)) {
          ShiftUp(i, last, due);
        } else {
          ShiftDown(i, last, due);
        }
      }
      code := 0;
    }
  }

  lemma {:induction false} InIndex(q: seq<nat>, idx: map<nat, int>, h: nat, m: nat)
    requires m < |q| && h < |q| && m != h && IndexedBut(q, idx, h, q[h])
    ensures q[m] in idx && idx[q[m]] == m
  {
  }

  lemma {:induction false} ChildrenOf(h: nat)
    ensures forall i: nat | i > 0 :: Parent(i) == h <==> i == 2 * h + 1 || i == 2 * h + 2
  {
  }

  /** e is no later than the earlier child, so no later than any. */
  lemma {:induction false} SettledHere(q: seq<nat>, due: Due, h: nat, m: nat)
    requires h < |q| && MinChild(q, due, h, m) && LE(due(q[h]), due(q[m])) && HeapDown(q, due, h)
    ensures Heap(q, due)
  {
    hide LE, HeapDown, Heap;
    forall i: nat | 0 < i < |q| && Parent(i) == h ensures LE(due(q[h]), due(q[i])) {
      LETrans(due(q[h]), due(q[m]), due(q[i]));
    }
    DownDone(q, due, h);
  }

  lemma {:induction false} NoChildren(q: seq<nat>, due: Due, h: nat)
    requires h < |q| && HeapDown(q, due, h)
    ensures 2 * h + 1 >= |q| ==> Heap(q, due)
  {
    hide LE, HeapDown, Heap;
    if 2 * h + 1 >= |q| {
      ChildrenOf(h);
      DownDone(q, due, h);
    }
  }

  lemma {:induction false} PushReady(q: seq<nat>, idx: map<nat, int>, e: nat, due: Due)
    requires Once(q) && Heap(q, due) && IndexedBut(q, idx, -1, -1) && e !in q
    ensures var r := q + [e]; Once(r) && HeapUp(r, due, |q|) && IndexedBut(r, idx, |q|, e) && r[|q| := e] == r
  {
    hide LE;
    var r := q + [e];
    assert r[|q| := e] == r;
    forall i: nat | i != |q| ensures EdgeOk(r, due, i) { assert EdgeOk(q, due, i); }
  }

  lemma {:induction false} WhereIs(q: seq<nat>, idx: map<nat, int>, e: nat)
    requires IndexedBut(q, idx, -1, -1)
    ensures e in q <==> e in idx && idx[e] != -1
    ensures e in q ==> 0 <= idx[e] < |q| && q[idx[e]] == e
  {
  }

  /** The array without its last place, with the last event in place i. */
  function Replaced(q: seq<nat>, i: nat): seq<nat>
    requires i < |q| - 1
  {
    q[..|q| - 1][i := q[|q| - 1]]
  }

  lemma {:induction false} CutLast(q: seq<nat>, idx: map<nat, int>, due: Due)
    requires q != [] && Once(q) && Heap(q, due) && IndexedBut(q, idx, -1, -1)
    ensures var r, e := q[..|q| - 1], q[|q| - 1];
            && Once(r) && Heap(r, due) && IndexedBut(r, idx[e := -1], -1, -1)
            && forall x: nat :: x in r <==> x in q && x != e
  {
    hide LE;
    var r, e := q[..|q| - 1], q[|q| - 1];
    forall i: nat ensures EdgeOk(r, due, i) { assert EdgeOk(q, due, i); }
    forall x: nat ensures x in r <==> x in q && x != e {
      if x in q && x != e {
        var k :| 0 <= k < |q| && q[k] == x;
        assert r[k] == x;
      }
    }
  }

  lemma {:induction false} ReplacedOnce(q: seq<nat>, idx: map<nat, int>, i: nat)
    requires i < |q| - 1 && Once(q) && IndexedBut(q, idx, -1, -1)
    ensures var r := Replaced(q, i);
            && Once(r) && IndexedBut(r, idx[q[i] := -1], i, q[|q| - 1])
            && forall x: nat :: x in r <==> x in q && x != q[i]
  {
    var r, n := Replaced(q, i), |q| - 1;
    forall x: nat ensures x in r <==> x in q && x != q[i] {
      if x in q && x != q[i] {
        var k :| 0 <= k < |q| && q[k] == x;
        assert r[if k == n then i else k] == x;
      }
      if x in r {
        var k :| 0 <= k < |r| && r[k] == x;
        assert q[if k == i then n else k] == x;
      }
    }
  }

  /** What stood at i was between its parent and its children. */
  lemma {:induction false} ReplacedOrder(q: seq<nat>, due: Due, i: nat)
    requires i < |q| - 1 && Heap(q, due)
    ensures var r := Replaced(q, i);
            if i > 0 && !LE(due(r[Parent(i)]), due(r[i])) then HeapUp(r, due, i) else HeapDown(r, due, i)
  {
    hide LE;
    var r := Replaced(q, i);
    assert Bridged(r, due, i) by {
      forall j: nat | 0 < j < |r| && Parent(j) == i && i > 0 ensures LE(due(r[Parent(i)]), due(r[j])) {
        assert EdgeOk(q, due, i) && EdgeOk(q, due, j);
        LETrans(due(q[Parent(i)]), due(q[i]), due(q[j]));
      }
    }
    if i > 0 && !LE(due(r[Parent(i)]), due(r[i])) {
      LETotal(due(r[Parent(i)]), due(r[i]));
      forall j: nat | j != i ensures EdgeOk(r, due, j) {
        assert EdgeOk(q, due, j);
        if 0 < j < |r| && Parent(j) == i {
          LETrans(due(r[i]), due(r[Parent(i)]), due(r[j]));
        }
      }
    } else {
      forall j: nat | j == 0 || Parent(j) != i ensures EdgeOk(r, due, j) {
        assert EdgeOk(q, due, j);
      }
    }
  }
}
