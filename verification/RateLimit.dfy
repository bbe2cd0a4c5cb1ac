/** The rate limit of one connection: suspension bits and the refill timer. */
module RateLimit {
  import opened Options
  import opened TokenBucket
  import opened Words

  /** A configuration object; two are the same only if their identities are. */
  datatype Config = Config(id: nat, cfg: Cfg)

  /** The limited state of a connection: the BEV_SUSPEND_BW bits of both
      directions, and whether refill_bucket_event is pending. */
  datatype Conn = Conn(config: Option<Config>, bucket: Bucket, readBw: bool, writeBw: bool, pending: bool)

  ghost predicate Inv(c: Conn) {
    match c.config
    case None => !c.readBw && !c.writeBw && !c.pending
    case Some(k) =>
      && CfgOk(k.cfg) && BucketOk(c.bucket, k.cfg)
      && (c.bucket.read <= 0 ==> c.readBw) && (c.bucket.write <= 0 ==> c.writeBw)
      && (c.readBw || c.writeBw ==> c.pending)
  }

  /** bufferevent_decrement_read_buckets_, the connection's own part. */
  function ChargeRead(c: Conn, bytes: int): Conn {
    if c.config.None? then c
    else
      var d := c.(bucket := c.bucket.(read := c.bucket.read - bytes));
      if d.bucket.read <= 0 then d.(readBw := true, pending := true)
      else if d.readBw then d.(pending := d.pending && d.writeBw, readBw := false)
      else d
  }

  function ChargeWrite(c: Conn, bytes: int): Conn {
    if c.config.None? then c
    else
      var d := c.(bucket := c.bucket.(write := c.bucket.write - bytes));
      if d.bucket.write <= 0 then d.(writeBw := true, pending := true)
      else if d.writeBw then d.(pending := d.pending && d.readBw, writeBw := false)
      else d
  }

  /** bufferevent_decrement_read_limit */
  function DecrementRead(c: Conn, decr: int): Conn {
    var d := c.(bucket := c.bucket.(read := c.bucket.read - decr));
    if c.bucket.read > 0 && d.bucket.read <= 0 then d.(readBw := true, pending := true)
    else if c.bucket.read <= 0 && d.bucket.read > 0 then d.(pending := d.pending && d.writeBw, readBw := false)
    else d
  }

  function DecrementWrite(c: Conn, decr: int): Conn {
    var d := c.(bucket := c.bucket.(write := c.bucket.write - decr));
    if c.bucket.write > 0 && d.bucket.write <= 0 then d.(writeBw := true, pending := true)
    else if c.bucket.write <= 0 && d.bucket.write > 0 then d.(pending := d.pending && d.readBw, writeBw := false)
    else d
  }

  /** bufferevent_update_buckets */
  function Notice(c: Conn, tick: nat): Conn {
    if c.config.None? then c else c.(bucket := Update(c.bucket, c.config.value.cfg, tick))
  }

  /** bev_refill_callback_: the timer has just fired, so it is not pending. */
  function RefillCallback(c: Conn, tick: nat): Conn {
    if c.config.None? then c.(pending := false)
    else
      var d := Notice(c, tick);
      var stillRead, stillWrite := d.readBw && d.bucket.read <= 0, d.writeBw && d.bucket.write <= 0;
      d.(readBw := stillRead, writeBw := stillWrite, pending := stillRead || stillWrite)
  }

  /** ev_token_bucket_init_ */
  function InitBucket(b: Bucket, c: Cfg, tick: nat, again: bool): Bucket {
    if again then b.(read := Min(b.read, c.read.maximum), write := Min(b.write, c.write.maximum))
    else Bucket(c.read.rate, c.write.rate, tick)
  }

  /** bufferevent_set_rate_limit */
  function SetRateLimit(c: Conn, config: Option<Config>, tick: nat): Conn {
    match config
    case None => Conn(None, c.bucket, false, false, false)
    case Some(k) =>
      if c.config.Some? && c.config.value.id == k.id then c
      else
        var b := InitBucket(c.bucket, k.cfg, tick, c.config.Some?);
        var r, w := b.read <= 0, b.write <= 0;
        Conn(config, b, r, w, r || w)
  }

  datatype Op =
    | OpChargeRead(bytes: int) | OpChargeWrite(bytes: int)
    | OpDecrementRead(decr: int) | OpDecrementWrite(decr: int)
    | OpNotice(tick: nat) | OpRefill(tick: nat)
    | OpSet(config: Option<Config>, tick: nat)

  /** Charges keep the limits in range and do not refund past the maximum; the
      timer fires only when it is pending. */
  predicate Legal(c: Conn, op: Op) {
    match op
    case OpChargeRead(n) => c.config.Some? ==> Ssize(c.bucket.read - n) && c.bucket.read - n <= c.config.value.cfg.read.maximum
    case OpChargeWrite(n) => c.config.Some? ==> Ssize(c.bucket.write - n) && c.bucket.write - n <= c.config.value.cfg.write.maximum
    case OpDecrementRead(n) => c.config.Some? && Ssize(c.bucket.read - n) && c.bucket.read - n <= c.config.value.cfg.read.maximum
    case OpDecrementWrite(n) => c.config.Some? && Ssize(c.bucket.write - n) && c.bucket.write - n <= c.config.value.cfg.write.maximum
    case OpNotice(t) => t < TWO32
    case OpRefill(t) => t < TWO32 && c.pending
    case OpSet(k, t) => t < TWO32 && (k.Some? ==> CfgOk(k.value.cfg))
  }

  function Step(c: Conn, op: Op): Conn {
    match op
    case OpChargeRead(n) => ChargeRead(c, n)
    case OpChargeWrite(n) => ChargeWrite(c, n)
    case OpDecrementRead(n) => DecrementRead(c, n)
    case OpDecrementWrite(n) => DecrementWrite(c, n)
    case OpNotice(t) => Notice(c, t)
    case OpRefill(t) => RefillCallback(c, t)
    case OpSet(k, t) => SetRateLimit(c, k, t)
  }

  lemma {:induction false} StepKeeps(c: Conn, op: Op)
    requires Inv(c) && Legal(c, op)
    ensures Inv(Step(c, op))
  {
    hide Update, Ssize;
    match op
    case OpNotice(t) => if c.config.Some? { UpdateOk(c.bucket, c.config.value.cfg, t); }
    case OpRefill(t) => if c.config.Some? { UpdateOk(c.bucket, c.config.value.cfg, t); }
    case OpSet(k, t) => if k.Some? { InitOk(c, k.value.cfg, t); }
    case _ =>
  }

  lemma {:induction false} InitOk(c: Conn, k: Cfg, tick: nat)
    requires Inv(c) && CfgOk(k) && tick < TWO32
    ensures BucketOk(InitBucket(c.bucket, k, tick, c.config.Some?), k)
  {
  }

  ghost predicate LegalRun(c: Conn, ops: seq<Op>)
    decreases |ops|
  {
    ops == [] || (Legal(c, ops[0]) && LegalRun(Step(c, ops[0]), ops[1..]))
  }

  function Run(c: Conn, ops: seq<Op>): Conn
    decreases |ops|
  {
    if ops == [] then c else Run(Step(c, ops[0]), ops[1..])
  }

  /** After any run: an exhausted direction is suspended, and a suspended
      direction has its refill timer pending. */
  lemma {:induction false} NoLostWakeUp(c: Conn, ops: seq<Op>)
    requires Inv(c) && LegalRun(c, ops)
    ensures var d := Run(c, ops);
            && Inv(d)
            && (d.config.Some? && d.bucket.read <= 0 ==> d.readBw && d.pending)
            && (d.config.Some? && d.bucket.write <= 0 ==> d.writeBw && d.pending)
            && (d.readBw || d.writeBw ==> d.pending)
    decreases |ops|
  {
    hide Step, Legal;
    if ops != [] {
      StepKeeps(c, ops[0]);
      NoLostWakeUp(Step(c, ops[0]), ops[1..]);
    }
  }

  /* ----- what each operation does to the limits ----- */

  /** A charge is taken off its own limit and nothing else; a tick refills; only
      setting a limit changes the configuration. */
  lemma {:induction false} StepBucket(c: Conn, op: Op)
    requires Inv(c) && Legal(c, op) && c.config.Some? && !op.OpSet?
    ensures var d, b := Step(c, op), c.bucket;
            && d.config == c.config
            && d.bucket == match op
                           case OpChargeRead(n) => Bucket(b.read - n, b.write, b.updated)
                           case OpDecrementRead(n) => Bucket(b.read - n, b.write, b.updated)
                           case OpChargeWrite(n) => Bucket(b.read, b.write - n, b.updated)
                           case OpDecrementWrite(n) => Bucket(b.read, b.write - n, b.updated)
                           case OpNotice(t) => Update(b, c.config.value.cfg, t)
                           case OpRefill(t) => Update(b, c.config.value.cfg, t)
  {
    hide Update;
  }

  /** Charging bytes is what TokenBucket charges. */
  lemma {:induction false} ChargeIsCharged(c: Conn, n: nat)
    requires c.config.Some?
    ensures ChargeRead(c, n).bucket == Charged(c.bucket, false, n) && ChargeWrite(c, n).bucket == Charged(c.bucket, true, n)
  {
  }

  /** bufferevent_set_rate_limit: a new limit starts with one tick's worth, a change of
      limit keeps what is left but for what is above the new maximum, the same
      configuration changes nothing, and none lets everything go. */
  lemma {:induction false} SetStarts(c: Conn, config: Option<Config>, tick: nat)
    ensures var d := SetRateLimit(c, config, tick);
            && d.config == (if config.Some? && c.config.Some? && c.config.value.id == config.value.id then c.config else config)
            && (config.None? ==> !d.readBw && !d.writeBw && !d.pending)
            && (config.Some? && c.config.Some? && c.config.value.id == config.value.id ==> d == c)
            && (config.Some? && c.config.None? ==> d.bucket == Bucket(config.value.cfg.read.rate, config.value.cfg.write.rate, tick))
            && (config.Some? && c.config.Some? && c.config.value.id != config.value.id ==>
                  d.bucket == c.bucket.(read := Min(c.bucket.read, config.value.cfg.read.maximum),
                                        write := Min(c.bucket.write, config.value.cfg.write.maximum)))
  {
  }

  /* ----- what gets through a run ----- */

  /** The bytes an operation charges in one direction. */
  function ChargedBy(op: Op, writing: bool): int {
    match op
    case OpChargeRead(n) => if writing then 0 else n
    case OpChargeWrite(n) => if writing then n else 0
    case _ => 0
  }

  /** What an adjustment gives back. */
  function RefundedBy(op: Op, writing: bool): nat {
    match op
    case OpDecrementRead(n) => if writing then 0 else Max(-n, 0)
    case OpDecrementWrite(n) => if writing then Max(-n, 0) else 0
    case _ => 0
  }

  /** The ticks that pass. */
  function PassedBy(updated: nat, op: Op): nat {
    if (op.OpNotice? || op.OpRefill?) && Forward(updated, op.tick) then Elapsed(updated, op.tick) else 0
  }

  function ChargedIn(ops: seq<Op>, writing: bool): int {
    if ops == [] then 0 else ChargedBy(ops[0], writing) + ChargedIn(ops[1..], writing)
  }

  function RefundedIn(ops: seq<Op>, writing: bool): nat {
    if ops == [] then 0 else RefundedBy(ops[0], writing) + RefundedIn(ops[1..], writing)
  }

  function PassedIn(updated: nat, ops: seq<Op>): nat
    decreases |ops|
  {
    if ops == [] then 0
    else PassedBy(updated, ops[0]) +
         PassedIn(if (ops[0].OpNotice? || ops[0].OpRefill?) && Forward(updated, ops[0].tick) then ops[0].tick else updated, ops[1..])
  }

  /** No charge is above what bufferevent_get_rlim_max_ allows, and the limit is not set anew. */
  predicate Respects(c: Conn, op: Op) {
    match op
    case OpChargeRead(n) => 0 <= n <= Max(c.bucket.read, 0)
    case OpChargeWrite(n) => 0 <= n <= Max(c.bucket.write, 0)
    case OpSet(_, _) => false
    case _ => true
  }

  ghost predicate RespectsAll(c: Conn, ops: seq<Op>)
    decreases |ops|
  {
    ops == [] || (Respects(c, ops[0]) && RespectsAll(Step(c, ops[0]), ops[1..]))
  }

  lemma {:induction false} StepThrough(c: Conn, op: Op, writing: bool)
    requires Inv(c) && Legal(c, op) && c.config.Some? && Respects(c, op)
    ensures var d := Step(c, op);
            && Max(LimitOf(d.bucket, writing), 0) + ChargedBy(op, writing)
               <= Max(LimitOf(c.bucket, writing), 0) + PassedBy(c.bucket.updated, op) * RateOf(c.config.value.cfg, writing).rate
                  + RefundedBy(op, writing)
            && d.bucket.updated == if (op.OpNotice? || op.OpRefill?) && Forward(c.bucket.updated, op.tick) then op.tick else c.bucket.updated
  {
    hide Update, Elapsed, Forward, Ssize, Step;
    StepBucket(c, op);
    if op.OpNotice? || op.OpRefill? {
      UpdateOk(c.bucket, c.config.value.cfg, op.tick);
      TickThrough(LimitOf(c.bucket, writing), LimitOf(Step(c, op).bucket, writing), RateOf(c.config.value.cfg, writing), PassedBy(c.bucket.updated, op));
    } else {
      NoTicks(RateOf(c.config.value.cfg, writing).rate);
    }
  }

  lemma {:induction false} NoTicks(rate: nat)
    ensures 0 * rate == 0
  {
  }

  lemma {:induction false} TickThrough(was: int, now: int, r: Rate, n: nat)
    requires now <= was + n * r.rate
    ensures Max(now, 0) <= Max(was, 0) + n * r.rate
  {
    assert n * r.rate >= 0;
  }

  /** Over any legal run in which each charge stays within what is allowed, no more
      than a full bucket, one rate per tick and what was given back gets through in
      either direction. */
  lemma {:induction false} RunThroughput(c: Conn, ops: seq<Op>, writing: bool)
    requires Inv(c) && c.config.Some? && LegalRun(c, ops) && RespectsAll(c, ops)
    ensures var r := RateOf(c.config.value.cfg, writing);
            ChargedIn(ops, writing) <= Max(LimitOf(c.bucket, writing), 0) + PassedIn(c.bucket.updated, ops) * r.rate + RefundedIn(ops, writing)
    ensures Max(LimitOf(c.bucket, writing), 0) <= RateOf(c.config.value.cfg, writing).maximum
    decreases |ops|
  {
    hide Step, Legal, Respects, Forward, Elapsed, ChargedBy, RefundedBy, PassedBy, Ssize;
    var rate := RateOf(c.config.value.cfg, writing).rate;
    if ops == [] {
      NoTicks(rate);
    } else {
      var op := ops[0];
      var d := Step(c, op);
      StepKeeps(c, op);
      NotSet(c, op);
      StepBucket(c, op);
      StepThrough(c, op, writing);
      RunThroughput(d, ops[1..], writing);
      Distributes(PassedBy(c.bucket.updated, op), PassedIn(d.bucket.updated, ops[1..]), rate);
    }
  }

  lemma {:induction false} NotSet(c: Conn, op: Op)
    requires Respects(c, op)
    ensures !op.OpSet?
  {
  }

  lemma {:induction false} Distributes(a: nat, b: nat, rate: nat)
    ensures (a + b) * rate == a * rate + b * rate
  {
  }

  /* ----- the wake-up comes ----- */

  /** One firing of the timer lets a direction go exactly when its refilled limit is positive. */
  lemma {:induction false} RefillLetsGo(c: Conn, tick: nat)
    requires Inv(c) && c.config.Some? && tick < TWO32 && Forward(c.bucket.updated, tick)
    ensures var d, k, n := RefillCallback(c, tick), c.config.value.cfg, Elapsed(c.bucket.updated, tick);
            && (d.readBw <==> c.readBw && Min(c.bucket.read + n * k.read.rate, k.read.maximum) <= 0)
            && (d.writeBw <==> c.writeBw && Min(c.bucket.write + n * k.write.rate, k.write.maximum) <= 0)
            && d.bucket.read == Min(c.bucket.read + n * k.read.rate, k.read.maximum)
            && d.bucket.write == Min(c.bucket.write + n * k.write.rate, k.write.maximum)
            && d.bucket.updated == tick && d.config == c.config
  {
    hide Update, Ssize, Elapsed;
    UpdateOk(c.bucket, c.config.value.cfg, tick);
  }

  /** Ticks at which the timer fires, each later than the one before. */
  ghost predicate Onward(updated: nat, ticks: seq<nat>)
    decreases |ticks|
  {
    ticks == [] || (ticks[0] < TWO32 && Forward(updated, ticks[0]) && Onward(ticks[0], ticks[1..]))
  }

  /** The firings as operations of a run. */
  function Firings(ticks: seq<nat>): (ops: seq<Op>)
    ensures |ops| == |ticks|
  {
    if ticks == [] then [] else [OpRefill(ticks[0])] + Firings(ticks[1..])
  }

  predicate Suspended(c: Conn, writing: bool) {
    if writing then c.writeBw else c.readBw
  }

  lemma {:induction false} FiringLegal(c: Conn, tick: nat, writing: bool)
    requires Inv(c) && Suspended(c, writing) && tick < TWO32
    ensures c.config.Some? && Legal(c, OpRefill(tick)) && Step(c, OpRefill(tick)) == RefillCallback(c, tick)
  {
    hide BucketOk, CfgOk;
  }

  lemma {:induction false} RunFiring(c: Conn, d: Conn, tick: nat, ops: seq<Op>)
    requires Legal(c, OpRefill(tick)) && d == Step(c, OpRefill(tick)) && LegalRun(d, ops)
    ensures LegalRun(c, [OpRefill(tick)] + ops) && Run(c, [OpRefill(tick)] + ops) == Run(d, ops)
  {
    hide Legal, Step;
    assert ([OpRefill(tick)] + ops)[1..] == ops;
  }

  /** After one firing: fewer are needed, and none when the limit is positive. */
  lemma {:induction false} OneFiring(c: Conn, tick: nat, writing: bool, k: nat)
    requires Inv(c) && c.config.Some? && tick < TWO32 && Forward(c.bucket.updated, tick) && k >= 1
    requires k * RateOf(c.config.value.cfg, writing).rate > -LimitOf(c.bucket, writing)
    ensures var d := RefillCallback(c, tick);
            && Inv(d) && d.config == c.config && d.bucket.updated == tick
            && (k - 1) * RateOf(c.config.value.cfg, writing).rate > -LimitOf(d.bucket, writing)
            && (k == 1 ==> !Suspended(d, writing))
  {
    hide RefillCallback, Elapsed, Forward, Ssize;
    FiringKeeps(c, tick);
    RefillLetsGo(c, tick);
    var r := RateOf(c.config.value.cfg, writing);
    FiringAdds(LimitOf(c.bucket, writing), r.rate, r.maximum, ElapsedSome(c.bucket.updated, tick), k);
  }

  ghost function ElapsedSome(a: nat, b: nat): (n: nat)
    requires Forward(a, b)
    ensures n == Elapsed(a, b) && n >= 1
  {
    Elapsed(a, b)
  }

  /** A suspended direction is let go by a legal run of firings on new ticks:
      the timer stays pending until then, and -limit / rate + 1 ticks are enough. */
  lemma {:induction false} FiringsClear(c: Conn, ticks: seq<nat>, writing: bool) returns (k: nat)
    requires Inv(c) && c.config.Some? && Onward(c.bucket.updated, ticks) && ticks != []
    requires |ticks| * RateOf(c.config.value.cfg, writing).rate > -LimitOf(c.bucket, writing)
    ensures k <= |ticks| && LegalRun(c, Firings(ticks[..k]))
    ensures var d := Run(c, Firings(ticks[..k])); Inv(d) && d.config == c.config && !Suspended(d, writing)
    decreases |ticks|
  {
    hide Inv, RefillCallback, Forward, RateOf, LimitOf, Step, Legal, Suspended;
    k := 0;
    assert ticks[..0] == [];
    if Suspended(c, writing) {
      var t := ticks[0];
      FiringLegal(c, t, writing);
      OneFiring(c, t, writing, |ticks|);
      var d := RefillCallback(c, t);
      var j := 0;
      if |ticks| > 1 {
        j := FiringsClear(d, ticks[1..], writing);
      } else {
        assert ticks[1..][..0] == [];
      }
      k := j + 1;
      assert ticks[..k][0] == t && ticks[..k][1..] == ticks[1..][..j];
      RunFiring(c, d, t, Firings(ticks[1..][..j]));
    }
  }

  lemma {:induction false} FiringKeeps(c: Conn, tick: nat)
    requires Inv(c) && tick < TWO32
    ensures Inv(RefillCallback(c, tick))
  {
    hide Update, Ssize;
    if c.config.Some? {
      UpdateOk(c.bucket, c.config.value.cfg, tick);
    }
  }

  lemma {:induction false} FiringAdds(limit: int, rate: nat, maximum: int, n: nat, k: nat)
    requires n >= 1 && k >= 1 && 1 <= rate <= maximum && k * rate > -limit
    ensures var next := Min(limit + n * rate, maximum); (k - 1) * rate > -next && (k == 1 ==> next > 0)
  {
    assert n * rate >= rate by { MulMono(rate, 1, n); }
    assert (k - 1) * rate == k * rate - rate;
    assert (k - 1) * rate >= 0 by { MulMono(rate, 0, k - 1); }
  }

  /* ----- the object ----- */

  /** A suspended group leaves its members nothing. */
  lemma SuspendedShare(group: Option<GroupNow>)
    requires group.Some? ==> group.value.members > 0
    ensures group.Some? && group.value.suspended ==> GroupShare(group.value) == 0
  {
  }

  class Connection {
    var config: Option<Config>
    var bucket: Bucket
    var readBw: bool
    var writeBw: bool
    var pending: bool

    ghost function View(): Conn
      reads this
    {
      Conn(config, bucket, readBw, writeBw, pending)
    }

    ghost predicate Valid()
      reads this
    {
      Inv(View())
    }

    constructor ()
      ensures Valid() && config == None && !pending
    {
      config, bucket, readBw, writeBw, pending := None, Bucket(0, 0, 0), false, false, false;
    }

    method DecrementReadBuckets(bytes: int)
      requires Valid() && Legal(View(), OpChargeRead(bytes))
      modifies this
      ensures Valid() && View() == ChargeRead(old(View()), bytes) && config == old(config)
      ensures bucket == if config.Some? then old(bucket).(read := old(bucket).read - bytes) else old(bucket)
      ensures writeBw == old(writeBw) && (config.None? ==> readBw == old(readBw))
      ensures config.Some? ==> (readBw <==> bucket.read <= 0)
    {
      StepKeeps(View(), OpChargeRead(bytes));
      if config.Some? {
        bucket := bucket.(read := bucket.read - bytes);
        if bucket.read <= 0 {
          readBw, pending := true, true;
        } else if readBw {
          if !writeBw {
            pending := false;
          }
          readBw := false;
        }
      }
    }

    method DecrementWriteBuckets(bytes: int)
      requires Valid() && Legal(View(), OpChargeWrite(bytes))
      modifies this
      ensures Valid() && View() == ChargeWrite(old(View()), bytes) && config == old(config)
      ensures bucket == if config.Some? then old(bucket).(write := old(bucket).write - bytes) else old(bucket)
      ensures readBw == old(readBw) && (config.None? ==> writeBw == old(writeBw))
      ensures config.Some? ==> (writeBw <==> bucket.write <= 0)
    {
      StepKeeps(View(), OpChargeWrite(bytes));
      if config.Some? {
        bucket := bucket.(write := bucket.write - bytes);
        if bucket.write <= 0 {
          writeBw, pending := true, true;
        } else if writeBw {
          if !readBw {
            pending := false;
          }
          writeBw := false;
        }
      }
    }

    method DecrementReadLimit(decr: int)
      requires Valid() && Legal(View(), OpDecrementRead(decr))
      modifies this
      ensures Valid() && View() == DecrementRead(old(View()), decr) && config == old(config)
      ensures bucket == old(bucket).(read := old(bucket).read - decr) && writeBw == old(writeBw)
      ensures readBw == if old(bucket).read > 0 && bucket.read <= 0 then true
                        else if old(bucket).read <= 0 && bucket.read > 0 then false else old(readBw)
    {
      StepKeeps(View(), OpDecrementRead(decr));
      var was := bucket.read;
      bucket := bucket.(read := was - decr);
      if was > 0 && bucket.read <= 0 {
        readBw, pending := true, true;
      } else if was <= 0 && bucket.read > 0 {
        if !writeBw {
          pending := false;
        }
        readBw := false;
      }
    }

    method DecrementWriteLimit(decr: int)
      requires Valid() && Legal(View(), OpDecrementWrite(decr))
      modifies this
      ensures Valid() && View() == DecrementWrite(old(View()), decr) && config == old(config)
      ensures bucket == old(bucket).(write := old(bucket).write - decr) && readBw == old(readBw)
      ensures writeBw == if old(bucket).write > 0 && bucket.write <= 0 then true
                         else if old(bucket).write <= 0 && bucket.write > 0 then false else old(writeBw)
    {
      StepKeeps(View(), OpDecrementWrite(decr));
      var was := bucket.write;
      bucket := bucket.(write := was - decr);
      if was > 0 && bucket.write <= 0 {
        writeBw, pending := true, true;
      } else if was <= 0 && bucket.write > 0 {
        if !readBw {
          pending := false;
        }
        writeBw := false;
      }
    }

    /** bufferevent_get_rlim_max_: what may be read or written now, given the
        connection's group, if it is in one; and whether that group makes it wait. */
    method GetRlimMax(tick: nat, maxSingle: nat, group: Option<GroupNow>, writing: bool) returns (n: nat, wait: bool)
      requires Valid() && tick < TWO32 && (group.Some? ==> group.value.members > 0)
      modifies this
      ensures Valid() && View() == Notice(old(View()), tick)
      ensures View() == old(View()).(bucket := if config.Some? then Update(old(bucket), config.value.cfg, tick) else old(bucket))
      ensures var own := if config.Some? then LimitOf(bucket, writing) else maxSingle;
              n == if group.Some? then Allowed(own, GroupShare(group.value)) else Max(own, 0)
      ensures wait <==> group.Some? && group.value.suspended
      ensures wait ==> n == 0
    {
      hide GroupShare;
      StepKeeps(View(), OpNotice(tick));
      SuspendedShare(group);
      var maxSoFar: int := maxSingle;
      if config.Some? {
        if tick != bucket.updated {
          bucket := Update(bucket, config.value.cfg, tick);
        }
        maxSoFar := if writing then bucket.write else bucket.read;
      }
      wait := group.Some? && group.value.suspended;
      if group.Some? {
        var share := GroupShare(group.value);
        maxSoFar := if maxSoFar > share then share else maxSoFar;
      }
      n := if maxSoFar < 0 then 0 else maxSoFar;
    }

    method OnRefillTimer(tick: nat)
      requires Valid() && Legal(View(), OpRefill(tick))
      modifies this
      ensures Valid() && View() == RefillCallback(old(View()), tick) && config == old(config)
      ensures config.Some? ==>
                && bucket == Update(old(bucket), config.value.cfg, tick)
                && readBw == (old(readBw) && bucket.read <= 0) && writeBw == (old(writeBw) && bucket.write <= 0)
                && pending == (readBw || writeBw)
    {
      StepKeeps(View(), OpRefill(tick));
      pending := false;
      if config.None? {
        return;
      }
      var again := false;
      bucket := Update(bucket, config.value.cfg, tick);
      if readBw {
        if bucket.read > 0 {
          readBw := false;
        } else {
          again := true;
        }
      }
      if writeBw {
        if bucket.write > 0 {
          writeBw := false;
        } else {
          again := true;
        }
      }
      if again {
        pending := true;
      }
    }

    method SetLimit(k: Option<Config>, tick: nat)
      requires Valid() && Legal(View(), OpSet(k, tick))
      modifies this
      ensures Valid() && View() == SetRateLimit(old(View()), k, tick)
      ensures k.None? ==> config == None && !readBw && !writeBw && !pending
      ensures k.Some? && old(config).Some? && old(config).value.id == k.value.id ==> View() == old(View())
      ensures k.Some? && (old(config).None? || old(config).value.id != k.value.id) ==>
                && config == k && readBw == (bucket.read <= 0) && writeBw == (bucket.write <= 0) && pending == (readBw || writeBw)
                && bucket == if old(config).None? then Bucket(k.value.cfg.read.rate, k.value.cfg.write.rate, tick)
                             else old(bucket).(read := Min(old(bucket).read, k.value.cfg.read.maximum),
                                               write := Min(old(bucket).write, k.value.cfg.write.maximum))
    {
      StepKeeps(View(), OpSet(k, tick));
      if k.None? {
        config, readBw, writeBw, pending := None, false, false, false;
        return;
      }
      if config.Some? && config.value.id == k.value.id {
        return;
      }
      var again := config.Some?;
      config := k;
      bucket := InitBucket(bucket, k.value.cfg, tick, again);
      if again {
        pending := false;
      }
      var suspended := false;
      if bucket.read > 0 {
        readBw := false;
      } else {
        readBw, suspended := true, true;
      }
      if bucket.write > 0 {
        writeBw := false;
      } else {
        writeBw, suspended := true, true;
      }
      if suspended {
        pending := true;
      }
    }
  }
}
