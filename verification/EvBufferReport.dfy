/** What evbuffer callbacks are told: how much was there when they were last
    invoked, and how much was added and removed since. */
module EvBufferReport {
  import opened Options
  import Bytes
  import opened EvBuffer
  import opened Words

  lemma WrapBelow(n: nat)
    ensures Wrap(n) < TWO64
  {
  }

  lemma WrapSmall(n: nat)
    requires n < TWO64
    ensures Wrap(n) == n
  {
  }

  /** struct evbuffer_cb_info */
  datatype Info = Info(origSize: nat, nAdded: nat, nDeleted: nat)

  /** Adding before or after the reduction is the same. */
  lemma {:induction false} WrapLater(a: int, b: int)
    ensures (a + b % TWO64) % TWO64 == (a + b) % TWO64
  {
    var q := b / TWO64;
    assert b == q * TWO64 + b % TWO64;
    Multiples(a + b % TWO64, q);
  }

  lemma {:induction false} Multiples(x: int, q: int)
    ensures (x + q * TWO64) % TWO64 == x % TWO64
    decreases if q < 0 then -q else q
  {
    if q > 0 {
      Multiples(x + TWO64, q - 1);
      assert x + TWO64 + (q - 1) * TWO64 == x + q * TWO64;
    } else if q < 0 {
      Multiples(x - TWO64, q + 1);
      assert x - TWO64 + (q + 1) * TWO64 == x + q * TWO64;
    }
  }

  /** The counters lead from the size at the last clearing to the size now. */
  ghost predicate Leads(cleared: nat, size: nat, nAdd: nat, nDel: nat) {
    cleared == (size + nDel - nAdd) % TWO64
  }

  lemma {:induction false} LeadsAdd(cleared: nat, size: nat, nAdd: nat, nDel: nat, n: nat)
    requires Leads(cleared, size, nAdd, nDel)
    ensures Leads(cleared, size + n, Wrap(nAdd + n), nDel)
  {
    var m := (nAdd + n) / TWO64;
    assert (nAdd + n) % TWO64 == nAdd + n - m * TWO64;
    assert size + n + nDel - (nAdd + n) % TWO64 == size + nDel - nAdd + m * TWO64;
    Multiples(size + nDel - nAdd, m);
  }

  lemma {:induction false} LeadsDel(cleared: nat, size: nat, nAdd: nat, nDel: nat, n: nat)
    requires Leads(cleared, size, nAdd, nDel) && n <= size
    ensures Leads(cleared, size - n, nAdd, Wrap(nDel + n))
  {
    WrapLater(size - n - nAdd, nDel + n);
    assert size - n - nAdd + (nDel + n) == size + nDel - nAdd;
  }

  lemma {:induction false} LeadsNone(size: nat)
    requires size < TWO64
    ensures Leads(size, size, 0, 0)
  {
  }

  lemma {:induction false} SameRemainder(x: int, y: nat)
    requires y < TWO64
    ensures x % TWO64 == y <==> (x - y) % TWO64 == 0
  {
    Multiples(y, (x - y) / TWO64);
    if x % TWO64 == y {
      Multiples(0, x / TWO64);
    }
  }

  /** An entry of the callback list: its flags EVBUFFER_CB_ENABLED and
      EVBUFFER_CB_NODEFER. */
  datatype Entry = Entry(enabled: bool, nodefer: bool)

  /** Whether a pass of evbuffer_run_callbacks calls it. */
  predicate Due(e: Entry, deferred: bool, runningDeferred: bool) {
    e.enabled && (deferred ==> e.nodefer != runningDeferred)
  }

  /** An evbuffer with its callbacks. `cleared` is the size when the counters were
      last cleared, `passed` the size at the last pass, other than the deferred
      one, that had something to tell, and seen[k] the size when callback number k
      was last invoked, if it has been since it was added or its flags were set. */
  class Reported {
    const buf: Buffer
    var nAdd: nat
    var nDel: nat
    var entries: seq<Entry>
    var deferred: bool
    ghost var cleared: nat
    ghost var passed: nat
    ghost var seen: seq<Option<nat>>

    ghost predicate SeenOk(k: int)
      reads this`entries, this`cleared, this`passed, this`seen
    {
      0 <= k < |entries| && k < |seen| && seen[k].Some? ==>
        entries[k].enabled && seen[k].value == if entries[k].nodefer then passed else cleared
    }

    /** The counters and sizes agree when the buffer has this size. */
    ghost predicate CountedAt(size: nat)
      reads this
    {
      && Leads(cleared, size, nAdd, nDel) && size <= SIZE_MAX
      && nAdd < TWO64 && nDel < TWO64 && (!deferred ==> passed == cleared) && passed <= SIZE_MAX
      && |seen| == |entries| && forall k {:trigger SeenOk(k)} :: SeenOk(k)
    }

    ghost predicate Counted()
      reads this, buf
    {
      CountedAt(buf.totalLen)
    }

    /** The last pass told everything there was to tell. */
    ghost predicate AllTold()
      reads this`passed, buf`totalLen
    {
      passed == buf.totalLen
    }

    /** The counters count only what has not been passed on yet. */
    ghost predicate InStepAt(size: nat)
      reads this
    {
      !deferred || (size + nDel - nAdd - passed) % TWO64 == 0
    }

    ghost predicate InStep()
      reads this, buf
    {
      InStepAt(buf.totalLen)
    }

    /** What the documentation promises of each callback that was told something:
        the size when it was last invoked. With EVBUFFER_CB_NODEFER that is so
        exactly when the counters were in step. */
    ghost predicate Answers(told: seq<Option<Info>>, before: seq<Option<nat>>, inStep: bool)
      reads this`entries
    {
      && |told| == |before| == |entries|
      && forall k | 0 <= k < |entries| && told[k].Some? && before[k].Some? ::
           told[k].value.origSize == before[k].value <==> !entries[k].nodefer || inStep
    }

    /** After a pass that told everything, that is to say that callbacks are not
        deferred or the counters are equal. */
    lemma InStepWhen()
      requires Counted() && AllTold()
      ensures InStep() <==> !deferred || nAdd == nDel
    {
    }

    lemma SeenAt()
      requires Counted()
      ensures |seen| == |entries| && forall k | 0 <= k < |entries| && seen[k].Some? ::
                entries[k].enabled && seen[k].value == if entries[k].nodefer then passed else cleared
    {
      hide Leads;
      forall k | 0 <= k < |entries| && seen[k].Some?
        ensures entries[k].enabled && seen[k].value == if entries[k].nodefer then passed else cleared
      {
        assert SeenOk(k);
      }
    }

    lemma InStepExact(size: nat)
      requires CountedAt(size)
      ensures InStepAt(size) <==> cleared == passed
    {
      hide SeenOk;
      if deferred {
        SameRemainder(size + nDel - nAdd, passed);
      }
    }

    constructor ()
      ensures fresh(buf) && buf.Valid() && buf.chains == [] && !buf.freezeStart && !buf.freezeEnd && Counted()
      ensures nAdd == nDel == cleared == passed == 0 && entries == [] && seen == [] && !deferred
    {
      buf := new Buffer();
      nAdd, nDel, entries, deferred, cleared, passed, seen := 0, 0, [], false, 0, 0, [];
      new;
      LeadsNone(0);
    }

    /** Those told something have now been invoked at this size. */
    ghost predicate Remembered(told: seq<Option<Info>>, before: seq<Option<nat>>)
      reads this`seen, buf`totalLen
    {
      && |told| == |before| == |seen|
      && forall k | 0 <= k < |seen| :: seen[k] == if told[k].Some? then Some(buf.totalLen) else before[k]
    }

    /** evbuffer_add_cb */
    method AddCallback()
      requires Counted()
      modifies this`entries, this`seen
      ensures Counted() && entries == [Entry(true, false)] + old(entries) && seen == [None] + old(seen)
    {
      hide Leads;
      entries, seen := [Entry(true, false)] + entries, [None] + seen;
      forall k ensures SeenOk(k) { assert old(SeenOk(k - 1)); }
    }

    /** evbuffer_cb_set_flags and evbuffer_cb_clear_flags */
    method SetFlags(i: nat, e: Entry)
      requires Counted() && i < |entries|
      modifies this`entries, this`seen
      ensures Counted() && entries == old(entries)[i := e] && seen == old(seen)[i := None]
    {
      hide Leads;
      entries, seen := entries[i := e], seen[i := None];
      forall k ensures SeenOk(k) { assert old(SeenOk(k)); }
    }

    /** evbuffer_remove_cb_entry */
    method RemoveCallback(i: nat)
      requires Counted() && i < |entries|
      modifies this`entries, this`seen
      ensures Counted() && entries == old(entries)[..i] + old(entries)[i + 1..]
    {
      hide Leads;
      entries, seen := entries[..i] + entries[i + 1..], seen[..i] + seen[i + 1..];
      forall k ensures SeenOk(k) { assert old(SeenOk(k)) && old(SeenOk(k + 1)); }
    }

    /** evbuffer_defer_callbacks */
    method DeferCallbacks()
      requires Counted()
      modifies this`deferred
      ensures Counted() && deferred
    {
      deferred := true;
    }

    method Forget()
      requires buf.totalLen <= SIZE_MAX
      modifies this`nAdd, this`nDel, this`cleared
      ensures nAdd == nDel == 0 && cleared == buf.totalLen && Leads(cleared, buf.totalLen, nAdd, nDel)
    {
      nAdd, nDel := 0, 0;
      cleared := buf.totalLen;
      LeadsNone(cleared);
    }

    /** What callback k is told by a pass. */
    ghost function Telling(k: int, runningDeferred: bool): Option<Info>
      reads this`entries, this`deferred, this`nAdd, this`nDel, this`cleared
    {
      if 0 <= k < |entries| && (nAdd != 0 || nDel != 0) && Due(entries[k], deferred, runningDeferred)
      then Some(Info(cleared, nAdd, nDel)) else None
    }

    /** The loop of evbuffer_run_callbacks. */
    method CallAll(runningDeferred: bool, info: Info) returns (told: seq<Option<Info>>)
      requires |seen| == |entries|
      modifies this`seen
      ensures |told| == |seen| == |entries|
      ensures forall k | 0 <= k < |entries| ::
                told[k] == if Due(entries[k], deferred, runningDeferred) then Some(info) else None
      ensures forall k | 0 <= k < |entries| ::
                seen[k] == if Due(entries[k], deferred, runningDeferred) then Some(buf.totalLen) else old(seen)[k]
    {
      told := [];
      for i := 0 to |entries|
        invariant |told| == i && |seen| == |entries|
        invariant forall k | 0 <= k < i :: told[k] == if Due(entries[k], deferred, runningDeferred) then Some(info) else None
        invariant forall k | 0 <= k < |entries| ::
                    seen[k] == if k < i && Due(entries[k], deferred, runningDeferred) then Some(buf.totalLen) else old(seen)[k]
      {
        if Due(entries[i], deferred, runningDeferred) {
          told := told + [Some(info)];
          seen := seen[i := Some(buf.totalLen)];
        } else {
          told := told + [None];
        }
      }
    }

    /** evbuffer_run_callbacks. The callbacks that are due are told the size when
        the counters were last cleared. For one without EVBUFFER_CB_NODEFER that is
        always the size when it was last invoked, as the documentation says; for
        one with it, exactly while the counters are in step. */
    method RunCallbacks(runningDeferred: bool) returns (told: seq<Option<Info>>)
      requires Counted() && (runningDeferred ==> deferred)
      modifies this`nAdd, this`nDel, this`cleared, this`passed, this`seen
      ensures Counted() && |told| == |entries|
      ensures forall k | 0 <= k < |entries| :: told[k] == old(Telling(k, runningDeferred))
      ensures Answers(told, old(seen), old(InStep()))
      ensures Remembered(told, old(seen))
      ensures !runningDeferred && (entries == [] || old(nAdd) != 0 || old(nDel) != 0) ==> AllTold()
      ensures if entries != [] && deferred && !runningDeferred
              then nAdd == old(nAdd) && nDel == old(nDel) && cleared == old(cleared)
              else nAdd == 0 && nDel == 0
    {
      InStepExact(buf.totalLen);
      SeenAt();
      assert cleared == (buf.totalLen + nDel - nAdd) % TWO64;
      hide Leads, InStepAt;
      told := seq(|entries|, i => None);
      if entries == [] {
        Forget();
        passed := buf.totalLen;
      } else if nAdd != 0 || nDel != 0 {
        var info := Info((buf.totalLen + nDel - nAdd) % TWO64, nAdd, nDel);
        if runningDeferred || !deferred {
          Forget();
        }
        if !runningDeferred {
          passed := buf.totalLen;
        }
        told := CallAll(runningDeferred, info);
        forall k ensures SeenOk(k) {
          assert old(SeenOk(k));
        }
      }
    }

    lemma Bounds()
      requires Counted()
      ensures Wrap(nAdd) == nAdd && Wrap(nDel) == nDel && nAdd < TWO64 && nDel < TWO64 && buf.totalLen <= SIZE_MAX
      ensures Leads(cleared, buf.totalLen, nAdd, nDel)
    {
      hide Leads, SeenOk;
      WrapSmall(nAdd);
      WrapSmall(nDel);
    }

    lemma SizeOf()
      requires buf.Valid()
      ensures buf.totalLen == |buf.Content()|
    {
    }

    /** What evbuffer_invoke_callbacks_ tells callback k, with these counters. */
    ghost predicate Told(told: seq<Option<Info>>, size: nat, a: nat, d: nat)
      reads this`entries, this`deferred
    {
      && |told| == |entries|
      && forall k | 0 <= k < |entries| ::
           told[k] == if (a != 0 || d != 0) && Due(entries[k], deferred, false) then Some(Info(size, a, d)) else None
    }

    /** A pass of evbuffer_invoke_callbacks_ with the counters at a and d, and the
        size `size` when they were last cleared: what each callback is told, that
        the documentation is right about it where it can be, and what is left. */
    ghost predicate Passed(told: seq<Option<Info>>, before: seq<Option<nat>>, inStep: bool, size: nat, a: nat, d: nat)
      reads this, buf
    {
      && Told(told, size, a, d) && Answers(told, before, inStep) && Remembered(told, before)
      && (a != 0 || d != 0 || entries == [] ==> AllTold())
      && (entries != [] && deferred ==> nAdd == a && nDel == d && cleared == size)
    }

    /** The change is counted, and evbuffer_invoke_callbacks_ runs what is not
        deferred; the rest is RunCallbacks(true), later. A callback with
        EVBUFFER_CB_NODEFER is told the size when it was last invoked exactly if
        the counters were in step before the change. */
    method Note(added: nat, deleted: nat, ghost was: nat) returns (told: seq<Option<Info>>)
      requires CountedAt(was)
      requires buf.totalLen == was + added - deleted && deleted <= was + added && buf.totalLen <= SIZE_MAX
      modifies this`nAdd, this`nDel, this`cleared, this`passed, this`seen
      ensures Counted()
      ensures Passed(told, old(seen), old(InStepAt(was)), old(cleared), Wrap(old(nAdd) + added), Wrap(old(nDel) + deleted))
    {
      hide Leads, SeenOk;
      WrapBelow(nAdd + added);
      WrapBelow(nDel + deleted);
      InStepExact(was);
      LeadsAdd(cleared, was, nAdd, nDel, added);
      LeadsDel(cleared, was + added, Wrap(nAdd + added), nDel, deleted);
      hide Wrap;
      nAdd := Wrap(nAdd + added);
      nDel := Wrap(nDel + deleted);
      forall k ensures SeenOk(k) { assert old(SeenOk(k)); }
      InStepExact(buf.totalLen);
      told := RunCallbacks(false);
    }

    /** evbuffer_add, and what it tells. */
    method Add(data: seq<Bytes.byte>) returns (r: int, told: seq<Option<Info>>)
      requires buf.Valid() && Counted()
      modifies this`nAdd, this`nDel, this`cleared, this`passed, this`seen, buf, (set x | x in buf.chains)
      ensures buf.Valid() && Counted()
      ensures forall x | x in buf.chains :: x in old(buf.chains) || fresh(x)
      ensures buf.freezeStart == old(buf.freezeStart)
      ensures r == if old(buf.freezeEnd || |data| > SIZE_MAX - buf.totalLen || buf.TooMuch(|data|)) then -1 else 0
      ensures buf.Content() == if r == 0 then old(buf.Content()) + data else old(buf.Content())
      ensures r == -1 ==> told == [] && nAdd == old(nAdd) && nDel == old(nDel) && passed == old(passed) && seen == old(seen)
      ensures r == 0 ==> Passed(told, old(seen), old(InStep()), old(cleared), Wrap(old(nAdd) + |data|), old(nDel))
    {
      hide Buffer.Valid, Leads, Buffer.TooMuch, Wrap, SeenOk, CountedAt, InStepAt, Passed;
      Bounds();
      SizeOf();
      ghost var was := buf.totalLen;
      r := buf.Add(data);
      SizeOf();
      told := [];
      if r == 0 {
        told := Note(|data|, 0, was);
      }
    }

    /** evbuffer_prepend: the part it puts in place before it fails is counted but
        not told. */
    method Prepend(data: seq<Bytes.byte>) returns (r: int, told: seq<Option<Info>>)
      requires buf.Valid() && Counted()
      modifies this`nAdd, this`nDel, this`cleared, this`passed, this`seen, buf, (set x | x in buf.chains)
      ensures Counted() && (buf.Valid() <==> !(r == 0 && old(buf.GapBefore(|data|))))
      ensures r == 0 ==> buf.Content() == data + old(buf.Content())
      ensures r == 0 ==> Passed(told, old(seen), old(InStep()), old(cleared), Wrap(old(nAdd) + |data|), old(nDel))
      ensures r == -1 ==>
                && told == [] && passed == old(passed) && seen == old(seen) && cleared == old(cleared)
                && buf.totalLen == old(buf.totalLen + buf.PutAnyway(|data|))
                && nAdd == Wrap(old(nAdd + buf.PutAnyway(|data|))) && nDel == old(nDel)
    {
      hide Buffer.Valid, Leads, Buffer.TooMuchBefore, Buffer.GapBefore, Buffer.FrontRoom, Wrap, SeenOk, InStepAt, Passed;
      WrapSmall(nDel);
      SizeOf();
      var was := buf.totalLen;
      r := buf.Prepend(data);
      told := [];
      var added := buf.totalLen - was;
      if r == 0 {
        told := Note(added, 0, was);
      } else {
        WrapBelow(nAdd + added);
        LeadsAdd(cleared, was, nAdd, nDel, added);
        nAdd := Wrap(nAdd + added);
        forall k ensures SeenOk(k) { assert old(SeenOk(k)); }
      }
    }

    /** How many bytes evbuffer_drain takes away. */
    ghost function Gone(len: nat): nat
      reads buf`totalLen
    {
      if len < buf.totalLen then len else buf.totalLen
    }

    /** The draining itself. */
    method Take(len: nat) returns (r: int, gone: nat)
      requires buf.Valid()
      modifies buf, (set x | x in buf.chains)
      ensures buf.Valid() && r == if old(buf.totalLen) != 0 && old(buf.freezeStart) then -1 else 0
      ensures gone == old(Gone(len)) <= |old(buf.Content())|
      ensures buf.Content() == if r == 0 then old(buf.Content())[gone..] else old(buf.Content())
      ensures buf.totalLen == if r == 0 then old(buf.totalLen) - gone else old(buf.totalLen)
    {
      hide Buffer.Valid;
      SizeOf();
      gone := if len < buf.totalLen then len else buf.totalLen;
      r := buf.Drain(len);
      SizeOf();
    }

    /** evbuffer_drain, and what it tells. */
    method Drain(len: nat) returns (r: int, told: seq<Option<Info>>)
      requires buf.Valid() && Counted()
      modifies this`nAdd, this`nDel, this`cleared, this`passed, this`seen, buf, (set x | x in buf.chains)
      ensures buf.Valid() && Counted() && old(Gone(len)) <= |old(buf.Content())|
      ensures r == if old(buf.totalLen != 0 && buf.freezeStart) then -1 else 0
      ensures buf.Content() == if r == 0 then old(buf.Content())[old(Gone(len))..] else old(buf.Content())
      ensures r == -1 || old(buf.totalLen) == 0 ==> told == []
      ensures r == 0 && old(buf.totalLen) != 0 ==>
                Passed(told, old(seen), old(InStep()), old(cleared), old(nAdd), Wrap(old(nDel) + old(Gone(len))))
    {
      hide Buffer.Valid, Leads, Wrap, SeenOk, CountedAt, InStepAt, Passed;
      Bounds();
      var was := buf.totalLen;
      var gone;
      r, gone := Take(len);
      told := [];
      if was != 0 && r == 0 {
        told := Note(0, gone, was);
      }
    }
  }

  lemma EmptyTakes(b: Buffer, n: nat)
    requires b.Valid() && b.chains == [] && n <= ROOM
    ensures !b.TooMuch(n) && b.Content() == [] && b.totalLen == 0
  {
  }

  /** An ordinary callback and one with EVBUFFER_CB_NODEFER. */
  const BOTH: seq<Entry> := [Entry(true, false), Entry(true, true)]

  /** A new buffer with both, whose callbacks are deferred. */
  method WithBoth() returns (b: Reported)
    ensures fresh(b) && fresh(b.buf) && b.buf.Valid() && b.buf.chains == [] && !b.buf.freezeStart && !b.buf.freezeEnd
    ensures b.Counted() && b.entries == BOTH && b.deferred && b.nAdd == b.nDel == b.cleared == 0
    ensures b.seen == [None, None]
  {
    hide Buffer.Valid, Leads, Reported.CountedAt;
    b := new Reported();
    b.AddCallback();
    b.SetFlags(0, Entry(true, true));
    b.AddCallback();
    b.DeferCallbacks();
    assert b.seen == [None] + ([None] + [])[0 := None];
  }

  /** The first data: only the second callback is told. */
  method ToldOnce(data: seq<Bytes.byte>) returns (b: Reported, told: seq<Option<Info>>)
    requires 0 < |data| <= ROOM
    ensures fresh(b) && fresh(b.buf) && forall x | x in b.buf.chains :: fresh(x)
    ensures b.buf.Valid() && b.Counted() && b.buf.Content() == data && !b.buf.freezeStart && b.entries == BOTH && b.deferred
    ensures b.nAdd == |data| && b.nDel == 0 && b.cleared == 0 && told == [None, Some(Info(0, |data|, 0))]
    ensures b.seen == [None, Some(|data|)]
  {
    hide Buffer.Valid, Buffer.TooMuch, Wrap, Leads, Reported.CountedAt, Reported.Passed, Reported.InStepAt;
    WrapSmall(|data|);
    b := WithBoth();
    EmptyTakes(b.buf, |data|);
    b.SizeOf();
    ghost var inStep := b.InStep();
    var r;
    r, told := b.Add(data);
    b.SizeOf();
    OnlySecond(b, told, [None, None], inStep, 0, |data|, 0);
  }

  /** A pass that is not the deferred one. */
  lemma OnlySecond(b: Reported, told: seq<Option<Info>>, before: seq<Option<nat>>, inStep: bool, size: nat, a: nat, d: nat)
    requires b.entries == BOTH && b.deferred && a != 0 && b.Passed(told, before, inStep, size, a, d)
    ensures told == [None, Some(Info(size, a, d))] && b.nAdd == a && b.nDel == d && b.cleared == size
    ensures |before| == 2 && b.seen == [before[0], Some(b.buf.totalLen)]
  {
  }

  /** The data go again. The second callback is told that the buffer was empty when
      it was last invoked, and it was not; the first, when it is its turn, is told
      what is so. */
  method ToldAgain(data: seq<Bytes.byte>)
    returns (first: seq<Option<Info>>, second: seq<Option<Info>>, third: seq<Option<Info>>)
    requires 0 < |data| <= ROOM
    ensures first == [None, Some(Info(0, |data|, 0))] && second == [None, Some(Info(0, |data|, |data|))]
    ensures third == [Some(Info(0, |data|, |data|)), None]
  {
    hide Buffer.Valid, Wrap, Leads, Reported.CountedAt, Reported.Passed, Reported.InStepAt, Reported.Answers;
    WrapSmall(|data|);
    var b;
    b, first := ToldOnce(data);
    b.SizeOf();
    ghost var inStep := b.InStep();
    var r;
    r, second := b.Drain(|data|);
    OnlySecond(b, second, [None, Some(|data|)], inStep, 0, |data|, |data|);
    third := b.RunCallbacks(true);
  }
}
