/** Times, and the common-timeout slot hidden in the upper bits of tv_usec. */
module Timevals {

  const MILLION: nat := 1000000
  /** One more than COMMON_TIMEOUT_MICROSECONDS_MASK. */
  const MICROS: nat := 0x100000
  /** The magic nibble above eight bits of index. */
  const MAGIC: nat := 0x500
  const MAX_COMMON_TIMEOUTS: nat := 256

  datatype Timeval = Timeval(sec: int, usec: nat)

  const ZERO := Timeval(0, 0)

  predicate LE(a: Timeval, b: Timeval) {
    a.sec < b.sec || (a.sec == b.sec && a.usec <= b.usec)
  }

  /** evutil_timeradd */
  function Plus(a: Timeval, b: Timeval): Timeval {
    if a.usec + b.usec >= MILLION then Timeval(a.sec + b.sec + 1, a.usec + b.usec - MILLION)
    else Timeval(a.sec + b.sec, a.usec + b.usec)
  }

  /** A time in microseconds. */
  function Microseconds(tv: Timeval): int {
    tv.sec * MILLION + tv.usec
  }

  /** Adding normal times adds them up and gives a normal time, and LE compares them. */
  lemma {:induction false} PlusTotal(a: Timeval, b: Timeval)
    requires Normal(a) && Normal(b)
    ensures Normal(Plus(a, b)) && Microseconds(Plus(a, b)) == Microseconds(a) + Microseconds(b)
    ensures LE(a, b) <==> Microseconds(a) <= Microseconds(b)
  {
    if a.sec < b.sec {
      assert (b.sec - a.sec) * MILLION >= MILLION;
    } else if a.sec > b.sec {
      assert (a.sec - b.sec) * MILLION >= MILLION;
    }
  }

  /** tv_usec & MICROSECONDS_MASK */
  function Micros(tv: Timeval): nat {
    tv.usec % MICROS
  }

  /** tv_usec & ~MICROSECONDS_MASK, shifted down */
  function High(tv: Timeval): nat {
    tv.usec / MICROS
  }

  function Index(tv: Timeval): nat {
    High(tv) % 256
  }

  /** is_common_timeout */
  predicate IsCommon(tv: Timeval, n: nat) {
    High(tv) / 256 % 16 == 5 && Index(tv) < n
  }

  /** The time itself, without the slot. */
  function Real(tv: Timeval): Timeval {
    Timeval(tv.sec, Micros(tv))
  }

  function Tagged(tv: Timeval, high: nat): Timeval {
    Timeval(tv.sec, tv.usec + high * MICROS)
  }

  /** An ordinary time, such as a reading of the clock. */
  predicate Normal(tv: Timeval) {
    tv.usec < MILLION
  }

  /** A time carrying one of n slots; a common duration may have a million microseconds. */
  predicate Coded(tv: Timeval, n: nat) {
    MAGIC <= High(tv) < MAGIC + n && n <= MAX_COMMON_TIMEOUTS && Micros(tv) <= MILLION
  }

  predicate TimeOk(tv: Timeval, n: nat) {
    Normal(tv) || Coded(tv, n)
  }

  /** A deadline: a time, in a slot or not, with fewer than a million microseconds. */
  predicate DueOk(at: Timeval, n: nat) {
    TimeOk(at, n) && Micros(at) < MILLION
  }

  lemma {:induction false} TaggedParts(tv: Timeval, high: nat)
    requires tv.usec < MICROS
    ensures High(Tagged(tv, high)) == high && Micros(Tagged(tv, high)) == tv.usec && Real(Tagged(tv, high)) == tv
  {
  }

  /** The slot written into a time is the slot read back. */
  lemma {:induction false} SlotRoundTrip(tv: Timeval, i: nat, n: nat)
    requires tv.usec <= MILLION && i < n <= MAX_COMMON_TIMEOUTS
    ensures var c := Tagged(tv, MAGIC + i);
            IsCommon(c, n) && Index(c) == i && Coded(c, n) && Real(c) == tv
  {
    TaggedParts(tv, MAGIC + i);
  }

  lemma {:induction false} CommonWhenCoded(tv: Timeval, n: nat)
    requires TimeOk(tv, n) && n <= MAX_COMMON_TIMEOUTS
    ensures IsCommon(tv, n) <==> Coded(tv, n)
    ensures IsCommon(tv, n) ==> High(tv) == MAGIC + Index(tv)
    ensures !IsCommon(tv, n) ==> High(tv) == 0 && Real(tv) == tv
    ensures IsCommon(tv, n) <==> High(tv) != 0
  {
  }

  lemma {:induction false} CommonIndex(tv: Timeval, n: nat)
    ensures IsCommon(tv, n) ==> Index(tv) < n
  {
  }

  /** In one slot the raw order is the order of the times. */
  lemma {:induction false} SameSlotOrder(a: Timeval, b: Timeval)
    requires High(a) == High(b)
    ensures LE(a, b) <==> LE(Real(a), Real(b))
  {
  }

  /** now + tv, in the slot of tv. */
  function After(now: Timeval, tv: Timeval, n: nat): Timeval {
    if IsCommon(tv, n) then Tagged(Plus(now, Real(tv)), High(tv)) else Plus(now, tv)
  }

  lemma {:induction false} AfterOk(now: Timeval, tv: Timeval, n: nat)
    requires Normal(now) && TimeOk(tv, n) && n <= MAX_COMMON_TIMEOUTS
    ensures DueOk(After(now, tv, n), n) && High(After(now, tv, n)) == High(tv)
    ensures Real(After(now, tv, n)) == Plus(now, Real(tv))
  {
    CommonWhenCoded(tv, n);
    if IsCommon(tv, n) {
      TaggedParts(Plus(now, Real(tv)), High(tv));
    }
  }

  /** When a persistent event runs next: its interval after the time it was due,
      or after now when it ran for another reason or is already late. */
  function NextRun(at: Timeval, interval: Timeval, timedOut: bool, now: Timeval, n: nat): Timeval {
    var slotted := IsCommon(at, n);
    var delay := if slotted then Real(interval) else interval;
    var since := if timedOut then (if slotted then Real(at) else at) else now;
    var run := Plus(since, delay);
    Tagged(if LE(now, run) then run else Plus(now, delay), if slotted then High(interval) else 0)
  }

  lemma {:induction false} NextRunOk(at: Timeval, interval: Timeval, timedOut: bool, now: Timeval, n: nat)
    requires DueOk(at, n) && TimeOk(interval, n) && Normal(now) && n <= MAX_COMMON_TIMEOUTS && High(at) == High(interval)
    ensures var r := NextRun(at, interval, timedOut, now, n); DueOk(r, n) && High(r) == High(interval)
    ensures interval.sec >= 0 ==> LE(now, Real(NextRun(at, interval, timedOut, now, n)))
    ensures Real(NextRun(at, interval, timedOut, now, n)) ==
              if timedOut && LE(now, Plus(Real(at), Real(interval))) then Plus(Real(at), Real(interval))
              else Plus(now, Real(interval))
  {
    CommonWhenCoded(at, n);
    CommonWhenCoded(interval, n);
    var slotted := IsCommon(at, n);
    var delay := Real(interval);
    var run := Plus(if timedOut then Real(at) else now, delay);
    var due := if LE(now, run) then run else Plus(now, delay);
    assert due.usec < MILLION && (interval.sec >= 0 ==> LE(now, due));
    TaggedParts(due, if slotted then High(interval) else 0);
  }
}
