/** Token buckets: the overflow-avoiding refill, ticks that wrap around, and
    what a bucket lets through. */
module TokenBucket {
  import opened Words

  /** One direction of struct ev_token_bucket_cfg. */
  datatype Rate = Rate(rate: nat, maximum: nat)

  datatype Cfg = Cfg(read: Rate, write: Rate, msecPerTick: nat)

  /** What ev_token_bucket_cfg_new accepts. */
  predicate RateOk(r: Rate) {
    1 <= r.rate <= r.maximum <= SSIZE_MAX
  }

  predicate CfgOk(c: Cfg) {
    RateOk(c.read) && RateOk(c.write)
  }

  predicate Ssize(x: int) {
    -SSIZE_MAX - 1 <= x <= SSIZE_MAX
  }

  /** A 64-bit word read as a signed one. */
  function Signed(x: nat): int {
    if x % TWO64 <= SSIZE_MAX then x % TWO64 else x % TWO64 - TWO64
  }

  function Min(a: int, b: int): int {
    if a <= b then a else b
  }

  function Max(a: int, b: int): int {
    if a <= b then b else a
  }

  /** One direction of ev_token_bucket_update_, as the machine computes it. */
  function Refill(limit: int, r: Rate, n: nat): int
    requires n > 0
  {
    if Wrap(r.maximum - limit) / n < r.rate then r.maximum
    else Signed(Wrap(Wrap(limit) + Wrap(n * r.rate)))
  }

  lemma {:induction false} DivLess(a: nat, n: nat, rate: nat)
    requires n > 0
    ensures a / n < rate <==> a < n * rate
  {
    var q, m := a / n, a % n;
    assert a == n * q + m;
    if q < rate {
      assert n * rate >= n * (q + 1) by { MulMono(n, q + 1, rate); }
    } else {
      assert n * q >= n * rate by { MulMono(n, rate, q); }
    }
  }

  lemma {:induction false} MulMono(n: nat, a: nat, b: nat)
    requires a <= b
    ensures n * a <= n * b
  {
  }

  /** The refill is min(limit + n*rate, maximum) exactly when the limit is not
      above the maximum, or so much is added that the wrapped difference gives way. */
  lemma {:induction false} RefillExact(limit: int, r: Rate, n: nat)
    requires n > 0 && RateOk(r) && Ssize(limit)
    ensures Refill(limit, r, n) == Min(limit + n * r.rate, r.maximum) <==>
            limit <= r.maximum || n * r.rate >= TWO64 - (limit - r.maximum)
  {
    var add := n * r.rate;
    assert add >= 1 by { MulMono(n, 1, r.rate); }
    DivLess(Wrap(r.maximum - limit), n, r.rate);
    if limit <= r.maximum {
      RefillBelow(limit, r, n, add);
    } else {
      assert Min(limit + add, r.maximum) == r.maximum;
      RefillAbove(limit, r, n, add);
    }
  }

  lemma {:induction false} RefillBelow(limit: int, r: Rate, n: nat, add: nat)
    requires n > 0 && RateOk(r) && Ssize(limit) && add == n * r.rate && limit <= r.maximum
    requires Wrap(r.maximum - limit) / n < r.rate <==> Wrap(r.maximum - limit) < add
    ensures Refill(limit, r, n) == Min(limit + add, r.maximum)
  {
    hide Wrap, Signed;
    WrapIs(r.maximum - limit, 0, r.maximum - limit);
    if limit + add <= r.maximum {
      SignedSum(limit, add);
    }
  }

  lemma {:induction false} WrapIs(x: int, k: int, y: nat)
    requires x == k * TWO64 + y && y < TWO64 && -1 <= k <= 1
    ensures Wrap(x) == y
  {
    assert k == -1 || k == 0 || k == 1;
  }

  lemma {:induction false} SignedIs(x: int)
    requires Ssize(x)
    ensures Signed(if x < 0 then x + TWO64 else x) == x
  {
    hide Wrap;
  }

  lemma {:induction false} SignedSum(limit: int, add: nat)
    requires Ssize(limit) && add < TWO64 && Ssize(limit + add)
    ensures Signed(Wrap(Wrap(limit) + Wrap(add))) == limit + add
  {
    hide Wrap, Signed;
    WrapIs(add, 0, add);
    var sum := limit + add;
    SignedIs(sum);
    if limit >= 0 {
      WrapIs(limit, 0, limit);
      WrapIs(sum, 0, sum);
    } else {
      WrapIs(limit, -1, limit + TWO64);
      if sum >= 0 {
        WrapIs(sum + TWO64, 1, sum);
      } else {
        WrapIs(sum + TWO64, 0, sum + TWO64);
      }
    }
  }

  lemma {:induction false} RefillAbove(limit: int, r: Rate, n: nat, add: nat)
    requires n > 0 && RateOk(r) && Ssize(limit) && add == n * r.rate && limit > r.maximum
    requires Wrap(r.maximum - limit) / n < r.rate <==> Wrap(r.maximum - limit) < add
    requires add >= 1
    ensures Refill(limit, r, n) == r.maximum <==> add >= TWO64 - (limit - r.maximum)
  {
    hide Wrap, Signed;
    WrapAbove(limit, r.maximum);
    var gap := TWO64 - (limit - r.maximum);
    if add <= gap {
      SignedAbove(limit, add, r.maximum);
    }
  }

  lemma {:induction false} WrapAbove(limit: int, maximum: int)
    requires 0 <= maximum < limit <= SSIZE_MAX
    ensures Wrap(maximum - limit) == TWO64 - (limit - maximum) && Wrap(limit) == limit
  {
  }

  lemma {:induction false} SignedAbove(limit: int, add: nat, maximum: int)
    requires 0 <= maximum < limit <= SSIZE_MAX && 1 <= add <= TWO64 - (limit - maximum)
    ensures Wrap(add) == add
    ensures Signed(Wrap(limit + add)) == maximum <==> add == TWO64 - (limit - maximum)
  {
    assert Wrap(add) == add;
    var sum := limit + add;
    if sum < TWO64 {
      assert Wrap(sum) == sum;
    } else {
      assert Wrap(sum) == sum - TWO64;
    }
  }

  /** What callers rely on: limits start at or below the maximum and stay there. */
  lemma {:induction false} RefillMin(limit: int, r: Rate, n: nat)
    requires n > 0 && RateOk(r) && Ssize(limit) && limit <= r.maximum
    ensures Refill(limit, r, n) == Min(limit + n * r.rate, r.maximum)
    ensures limit <= Refill(limit, r, n) <= r.maximum && Ssize(Refill(limit, r, n))
  {
    hide Refill;
    RefillExact(limit, r, n);
    assert n * r.rate >= 1 by { MulMono(n, 1, r.rate); }
  }

  /** A limit above its maximum is pushed further up, not clipped. */
  lemma {:induction false} RefillOvershoots()
    ensures Refill(11, Rate(1, 10), 1) == 12
  {
  }

  /* ----- buckets and ticks ----- */

  datatype Bucket = Bucket(read: int, write: int, updated: nat)

  ghost predicate BucketOk(b: Bucket, c: Cfg) {
    b.updated < TWO32 && Ssize(b.read) && Ssize(b.write) && b.read <= c.read.maximum && b.write <= c.write.maximum
  }

  /** Ticks from one to another, modulo 2^32. */
  function Elapsed(from: nat, to: nat): nat {
    (to - from) % TWO32
  }

  predicate Forward(from: nat, to: nat) {
    1 <= Elapsed(from, to) <= INT_MAX
  }

  /** ev_token_bucket_update_ */
  function Update(b: Bucket, c: Cfg, tick: nat): Bucket {
    var n := Elapsed(b.updated, tick);
    if n == 0 || n > INT_MAX then b
    else Bucket(Refill(b.read, c.read, n), Refill(b.write, c.write, n), tick)
  }

  lemma {:induction false} UpdateOk(b: Bucket, c: Cfg, tick: nat)
    requires CfgOk(c) && BucketOk(b, c) && tick < TWO32
    ensures var u, n := Update(b, c, tick), Elapsed(b.updated, tick);
            && BucketOk(u, c) && b.read <= u.read && b.write <= u.write
            && (Forward(b.updated, tick) ==>
                  u == Bucket(Min(b.read + n * c.read.rate, c.read.maximum), Min(b.write + n * c.write.rate, c.write.maximum), tick))
            && (!Forward(b.updated, tick) ==> u == b)
  {
    hide Refill, Ssize;
    if Forward(b.updated, tick) {
      RefillMin(b.read, c.read, Elapsed(b.updated, tick));
      RefillMin(b.write, c.write, Elapsed(b.updated, tick));
    }
  }

  lemma {:induction false} MinTwice(limit: int, rate: nat, maximum: int, n: nat, m: nat)
    ensures Min(Min(limit + n * rate, maximum) + m * rate, maximum) == Min(limit + (n + m) * rate, maximum)
  {
    assert (n + m) * rate == n * rate + m * rate;
    assert m * rate >= 0;
  }

  lemma {:induction false} ElapsedAdds(a: nat, b: nat, c: nat)
    requires a < TWO32 && b < TWO32 && c < TWO32 && Elapsed(a, b) + Elapsed(b, c) <= INT_MAX
    ensures Elapsed(a, c) == Elapsed(a, b) + Elapsed(b, c)
  {
  }

  /** Updating twice is updating once, as long as the clock only moves forward. */
  lemma {:induction false} UpdatesCompose(b: Bucket, c: Cfg, t1: nat, t2: nat)
    requires CfgOk(c) && BucketOk(b, c) && t1 < TWO32 && t2 < TWO32
    requires Elapsed(b.updated, t1) + Elapsed(t1, t2) <= INT_MAX
    ensures Update(Update(b, c, t1), c, t2) == Update(b, c, t2)
  {
    hide Refill, Ssize, Update, Min;
    var n, m := Elapsed(b.updated, t1), Elapsed(t1, t2);
    ElapsedAdds(b.updated, t1, t2);
    UpdateOk(b, c, t1);
    UpdateOk(Update(b, c, t1), c, t2);
    UpdateOk(b, c, t2);
    MinTwice(b.read, c.read.rate, c.read.maximum, n, m);
    MinTwice(b.write, c.write.rate, c.write.maximum, n, m);
    SameTick(b.updated, t1);
    SameTick(t1, t2);
  }

  lemma {:induction false} SameTick(a: nat, b: nat)
    requires a < TWO32 && b < TWO32
    ensures Elapsed(a, b) == 0 <==> a == b
  {
  }

  /* ----- what gets through ----- */

  /** A tick of the clock noticed by bufferevent_get_rlim_max_, or bytes charged
      when the connection's group allowed at most share. */
  datatype Use = Tick(tick: nat) | Charge(writing: bool, bytes: nat, share: int)

  /** bufferevent_get_rlim_max_: the limit, lowered to the group's share, and never negative. */
  function Allowed(limit: int, share: int): nat {
    Max(Min(limit, share), 0)
  }

  /** What a member sees of its group in one direction. */
  datatype GroupNow = GroupNow(suspended: bool, limit: int, members: nat, minShare: int)

  /** A member's share: nothing while the group is suspended, else an equal part
      of its limit (C division truncates) but at least the minimum share. */
  function GroupShare(g: GroupNow): int
    requires g.members > 0
  {
    if g.suspended then 0 else Max(if g.limit < 0 then -(-g.limit / g.members) else g.limit / g.members, g.minShare)
  }

  function LimitOf(b: Bucket, writing: bool): int {
    if writing then b.write else b.read
  }

  function RateOf(c: Cfg, writing: bool): Rate {
    if writing then c.write else c.read
  }

  function Charged(b: Bucket, writing: bool, bytes: nat): Bucket {
    if writing then b.(write := b.write - bytes) else b.(read := b.read - bytes)
  }

  ghost predicate WithinLimits(b: Bucket, c: Cfg, uses: seq<Use>)
    decreases |uses|
  {
    if uses == [] then true
    else match uses[0]
      case Tick(t) => t < TWO32 && WithinLimits(Update(b, c, t), c, uses[1..])
      case Charge(w, n, share) => n <= Allowed(LimitOf(b, w), share) && WithinLimits(Charged(b, w, n), c, uses[1..])
  }

  /** The bytes charged in one direction. */
  function Bytes(uses: seq<Use>, writing: bool): nat {
    if uses == [] then 0
    else (if uses[0].Charge? && uses[0].writing == writing then uses[0].bytes else 0) + Bytes(uses[1..], writing)
  }

  /** The forward ticks of a run. */
  function Ticks(updated: nat, uses: seq<Use>): nat
    decreases |uses|
  {
    if uses == [] then 0
    else if uses[0].Tick? && Forward(updated, uses[0].tick) then
      Elapsed(updated, uses[0].tick) + Ticks(uses[0].tick, uses[1..])
    else Ticks(updated, uses[1..])
  }

  lemma {:induction false} ChargedOk(b: Bucket, c: Cfg, writing: bool, n: nat, share: int)
    requires BucketOk(b, c) && n <= Allowed(LimitOf(b, writing), share)
    ensures var d := Charged(b, writing, n);
            BucketOk(d, c) && d.updated == b.updated && Max(LimitOf(d, writing), 0) + n <= Max(LimitOf(b, writing), 0)
            && LimitOf(d, !writing) == LimitOf(b, !writing)
  {
  }

  lemma {:induction false} UpdatedLimit(b: Bucket, c: Cfg, tick: nat, writing: bool)
    requires CfgOk(c) && BucketOk(b, c) && tick < TWO32 && Forward(b.updated, tick)
    ensures var u := Update(b, c, tick);
            u.updated == tick && LimitOf(u, writing) <= LimitOf(b, writing) + Elapsed(b.updated, tick) * RateOf(c, writing).rate
  {
    hide Refill, Ssize, Elapsed;
    UpdateOk(b, c, tick);
  }

  lemma {:induction false} ThroughputFrom(b: Bucket, c: Cfg, uses: seq<Use>, writing: bool)
    requires CfgOk(c) && BucketOk(b, c) && WithinLimits(b, c, uses)
    ensures Bytes(uses, writing) <= Max(LimitOf(b, writing), 0) + Ticks(b.updated, uses) * RateOf(c, writing).rate
    decreases |uses|
  {
    hide Refill, Update, Elapsed, Max, LimitOf, RateOf, Charged, BucketOk;
    if uses == [] {
      NoBytes(LimitOf(b, writing));
    } else {
      match uses[0]
      case Tick(t) =>
        var u := Update(b, c, t);
        UpdateOk(b, c, t);
        ThroughputFrom(u, c, uses[1..], writing);
        if Forward(b.updated, t) {
          UpdatedLimit(b, c, t, writing);
          TickStep(LimitOf(b, writing), LimitOf(u, writing), RateOf(c, writing).rate, Elapsed(b.updated, t), Ticks(t, uses[1..]), Bytes(uses[1..], writing));
        }
      case Charge(w, n, share) =>
        ChargedOk(b, c, w, n, share);
        ThroughputFrom(Charged(b, w, n), c, uses[1..], writing);
    }
  }

  lemma {:induction false} NoBytes(limit: int)
    ensures Max(limit, 0) >= 0
  {
  }

  lemma {:induction false} TickStep(limit: int, next: int, rate: nat, n: nat, k: nat, bytes: nat)
    requires bytes <= Max(next, 0) + k * rate && next <= limit + n * rate
    ensures bytes <= Max(limit, 0) + (n + k) * rate
  {
    assert (n + k) * rate == n * rate + k * rate;
    assert n * rate >= 0;
  }

  /** Over any run in which each charge respects bufferevent_get_rlim_max_, with a
      group or without, no more than one full bucket and one rate per tick gets
      through in either direction. */
  lemma {:induction false} Throughput(b: Bucket, c: Cfg, uses: seq<Use>, writing: bool)
    requires CfgOk(c) && BucketOk(b, c) && WithinLimits(b, c, uses)
    ensures Bytes(uses, writing) <= RateOf(c, writing).maximum + Ticks(b.updated, uses) * RateOf(c, writing).rate
  {
    hide WithinLimits, Bytes, Ticks;
    ThroughputFrom(b, c, uses, writing);
  }
}
