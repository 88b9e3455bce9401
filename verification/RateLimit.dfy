/** The per-client token bucket (api/rate_limit.rs). Times are exact seconds. */
module RateLimit {
  import opened Common

  datatype Bucket = Bucket(tokens: real, updatedAt: real)

  function Min(a: real, b: real): real { if a < b then a else b }

  function Max(a: real, b: real): real { if a > b then a else b }

  /** Tokens per second. */
  function RefillRate(limit: nat): real { limit as real / 60.0 }

  /** The tokens of a client's bucket at `now`; a client without a bucket has a full one. */
  function TokensAt(limit: nat, b: Option<Bucket>, now: real): real {
    match b
    case None => limit as real
    case Some(bucket) =>
      Min(bucket.tokens + Max(now - bucket.updatedAt, 0.0) * RefillRate(limit), limit as real)
  }

  /** One request: the new bucket, and how long to wait if it is refused. */
  function CheckBucket(limit: nat, b: Option<Bucket>, now: real): (Bucket, Option<real>)
    requires limit > 0
  {
    var t := TokensAt(limit, b, now);
    if t >= 1.0 then (Bucket(t - 1.0, now), None)
    else (Bucket(t, now), Some(Max((1.0 - t) / RefillRate(limit), 1.0)))
  }

  predicate GoodBucket(limit: nat, b: Option<Bucket>) { b.Some? ==> 0.0 <= b.value.tokens <= limit as real }

  lemma CheckKeepsGood(limit: nat, b: Option<Bucket>, now: real)
    requires limit > 0 && GoodBucket(limit, b)
    ensures GoodBucket(limit, Some(CheckBucket(limit, b, now).0))
    ensures 0.0 <= TokensAt(limit, b, now) <= limit as real
  {
    if b.Some? {
      assert Max(now - b.value.updatedAt, 0.0) * RefillRate(limit) >= 0.0;
    }
  }

  /** Waiting the returned time, which is never less than a second, refills a token. */
  lemma WaitingRefills(limit: nat, b: Option<Bucket>, now: real, later: real)
    requires limit > 0 && GoodBucket(limit, b) && CheckBucket(limit, b, now).1.Some?
    requires later >= now + CheckBucket(limit, b, now).1.value
    ensures CheckBucket(limit, b, now).1.value >= 1.0
    ensures TokensAt(limit, Some(CheckBucket(limit, b, now).0), later) >= 1.0
  {
    CheckKeepsGood(limit, b, now);
    WaitIsEnough(TokensAt(limit, b, now), RefillRate(limit), limit as real, Max(later - now, 0.0));
  }

  /** Nothing shorter would do, unless a second is more than it takes. */
  lemma WaitingLessIsNotEnough(limit: nat, b: Option<Bucket>, now: real, later: real)
    requires limit > 0 && GoodBucket(limit, b) && CheckBucket(limit, b, now).1.Some?
    requires CheckBucket(limit, b, now).1.value > 1.0
    requires now <= later < now + CheckBucket(limit, b, now).1.value
    ensures TokensAt(limit, Some(CheckBucket(limit, b, now).0), later) < 1.0
  {
    NotYetRefilled(TokensAt(limit, b, now), RefillRate(limit), Max(later - now, 0.0));
  }

  lemma NotYetRefilled(tokens: real, rate: real, elapsed: real)
    requires rate > 0.0 && elapsed < (1.0 - tokens) / rate
    ensures tokens + elapsed * rate < 1.0
  {
    var need := (1.0 - tokens) / rate;
    assert need * rate == 1.0 - tokens;
    RateStrict(elapsed, need, rate);
  }

  lemma RateStrict(a: real, b: real, rate: real)
    requires a < b && rate > 0.0
    ensures a * rate < b * rate
  {
  }

  lemma WaitIsEnough(tokens: real, rate: real, cap: real, elapsed: real)
    requires rate > 0.0 && cap >= 1.0 && elapsed >= (1.0 - tokens) / rate
    ensures Min(tokens + elapsed * rate, cap) >= 1.0
  {
    var need := (1.0 - tokens) / rate;
    assert need * rate == 1.0 - tokens;
    RateMonotone(need, elapsed, rate);
  }

  lemma RateMonotone(a: real, b: real, rate: real)
    requires a <= b && rate >= 0.0
    ensures a * rate <= b * rate
  {
  }

  // ---------------------------------------------------------------- the limiter and its cleanup

  class RateLimiter {
    const limitPerMinute: nat
    var buckets: map<nat, Bucket>

    constructor (limitPerMinute: nat)
      ensures this.limitPerMinute == limitPerMinute && buckets == map[]
    {
      this.limitPerMinute := limitPerMinute;
      buckets := map[];
    }

    /** Consume a token for `ip`, or tell how long to wait. Other clients are not affected. */
    method Check(ip: nat, now: real) returns (retryAfter: Option<real>)
      modifies this
      ensures (buckets, retryAfter) == CheckMap(limitPerMinute, old(buckets), ip, now)
    {
      if limitPerMinute == 0 {
        retryAfter := None;
        return;
      }
      if ip !in buckets {
        buckets := buckets[ip := Bucket(limitPerMinute as real, now)];
      }
      var entry := buckets[ip];
      assert old(ip !in buckets) ==> Max(now - entry.updatedAt, 0.0) * RefillRate(limitPerMinute) == 0.0;
      var elapsed := Max(now - entry.updatedAt, 0.0);
      var tokens := Min(entry.tokens + elapsed * RefillRate(limitPerMinute), limitPerMinute as real);
      if tokens >= 1.0 {
        buckets := buckets[ip := Bucket(tokens - 1.0, now)];
        retryAfter := None;
      } else {
        buckets := buckets[ip := Bucket(tokens, now)];
        retryAfter := Some(Max((1.0 - tokens) / RefillRate(limitPerMinute), 1.0));
      }
      assert buckets == old(buckets)[ip := buckets[ip]];
    }

    method Cleanup(now: real, idleTtl: real)
      modifies this
      ensures buckets == CleanMap(old(buckets), now, idleTtl)
    {
      buckets := map ip | ip in buckets && Max(now - buckets[ip].updatedAt, 0.0) <= idleTtl :: buckets[ip];
    }
  }

  function Lookup(m: map<nat, Bucket>, ip: nat): Option<Bucket> { if ip in m then Some(m[ip]) else None }

  function CheckMap(limit: nat, m: map<nat, Bucket>, ip: nat, now: real): (map<nat, Bucket>, Option<real>) {
    if limit == 0 then (m, None)
    else
      var (b, r) := CheckBucket(limit, Lookup(m, ip), now);
      (m[ip := b], r)
  }

  function CleanMap(m: map<nat, Bucket>, now: real, ttl: real): map<nat, Bucket> {
    map ip | ip in m && Max(now - m[ip].updatedAt, 0.0) <= ttl :: m[ip]
  }

  /** A sweep forgets exactly the clients that were idle for longer than the time-to-live, and changes no other. */
  lemma CleaningIsExact(m: map<nat, Bucket>, now: real, ttl: real, ip: nat)
    requires ttl >= 0.0
    ensures ip in CleanMap(m, now, ttl) <==> ip in m && now <= m[ip].updatedAt + ttl
    ensures ip in CleanMap(m, now, ttl) ==> CleanMap(m, now, ttl)[ip] == m[ip]
  {
  }

  datatype Op = Request(ip: nat, at: real) | Sweep(at: real, ttl: real)

  /** The operations that can touch the bucket of client `ip`: its own requests, and sweeps. */
  predicate Concerns(op: Op, ip: nat) { op.Sweep? || op.ip == ip }

  /** As far as client `ip` is concerned, times do not run backwards from `now` on or beyond `end`, and sweeps spare
      buckets used within the last minute. The requests of other clients may carry any times. */
  predicate GoodOps(ops: seq<Op>, ip: nat, now: real, end: real) {
    && (forall i :: 0 <= i < |ops| && Concerns(ops[i], ip) ==>
          now <= ops[i].at <= end && (ops[i].Sweep? ==> ops[i].ttl >= 60.0))
    && (forall i, j :: 0 <= i <= j < |ops| && Concerns(ops[i], ip) && Concerns(ops[j], ip) ==> ops[i].at <= ops[j].at)
  }

  ghost predicate GoodMap(limit: nat, m: map<nat, Bucket>) { forall ip :: ip in m ==> GoodBucket(limit, Some(m[ip])) }

  function StepMap(limit: nat, m: map<nat, Bucket>, op: Op): map<nat, Bucket> {
    match op
    case Request(ip, at) => CheckMap(limit, m, ip, at).0
    case Sweep(at, ttl) => CleanMap(m, at, ttl)
  }

  function MapAfter(limit: nat, m: map<nat, Bucket>, ops: seq<Op>): map<nat, Bucket>
    decreases |ops|
  {
    if ops == [] then m else MapAfter(limit, StepMap(limit, m, ops[0]), ops[1..])
  }

  /** The answers to the requests of client `ip` in a run, in order. */
  function Answers(limit: nat, m: map<nat, Bucket>, ops: seq<Op>, ip: nat): seq<Option<real>>
    decreases |ops|
  {
    if ops == [] then []
    else (if ops[0].Request? && ops[0].ip == ip then [CheckMap(limit, m, ip, ops[0].at).1] else []) +
         Answers(limit, StepMap(limit, m, ops[0]), ops[1..], ip)
  }

  /** `op` is a request of client `ip` that is admitted. */
  predicate Admits(limit: nat, m: map<nat, Bucket>, op: Op, ip: nat) {
    op.Request? && op.ip == ip && CheckMap(limit, m, ip, op.at).1.None?
  }

  /** How many requests of client `ip` a run admits. */
  function Admissions(limit: nat, m: map<nat, Bucket>, ops: seq<Op>, ip: nat): nat
    decreases |ops|
  {
    if ops == [] then 0
    else (if Admits(limit, m, ops[0], ip) then 1 else 0) + Admissions(limit, StepMap(limit, m, ops[0]), ops[1..], ip)
  }

  lemma StepKeepsGood(limit: nat, m: map<nat, Bucket>, op: Op)
    requires GoodMap(limit, m)
    ensures GoodMap(limit, StepMap(limit, m, op))
  {
    if limit > 0 && op.Request? { CheckKeepsGood(limit, Lookup(m, op.ip), op.at); }
  }

  lemma {:induction false} RunKeepsGood(limit: nat, m: map<nat, Bucket>, ops: seq<Op>)
    requires GoodMap(limit, m)
    ensures GoodMap(limit, MapAfter(limit, m, ops))
    decreases |ops|
  {
    if ops != [] {
      StepKeepsGood(limit, m, ops[0]);
      RunKeepsGood(limit, StepMap(limit, m, ops[0]), ops[1..]);
    }
  }

  // ---------------------------------------------------------------- at most L + L * t / 60 in t seconds

  /** `count` admissions are paid for by `tokens` and the refill over `span` seconds. */
  predicate Paid(limit: nat, count: nat, tokens: real, span: real) {
    count as real <= tokens + span * RefillRate(limit)
  }

  /** Tokens grow no faster than the refill rate. */
  lemma TokensGrow(limit: nat, b: Option<Bucket>, start: real, next: real)
    requires start <= next
    ensures TokensAt(limit, b, next) <= TokensAt(limit, b, start) + (next - start) * RefillRate(limit)
  {
    if b.Some? {
      RefillGrows(b.value.tokens, limit as real, RefillRate(limit),
                  start - b.value.updatedAt, next - b.value.updatedAt);
    } else {
      RateMonotone(0.0, next - start, RefillRate(limit));
    }
  }

  lemma RefillGrows(tokens: real, cap: real, rate: real, early: real, late: real)
    requires early <= late && rate >= 0.0
    ensures Min(tokens + Max(late, 0.0) * rate, cap) <=
            Min(tokens + Max(early, 0.0) * rate, cap) + (late - early) * rate
  {
    RateMonotone(0.0, late - early, rate);
    RateMonotone(Max(late, 0.0), Max(early, 0.0) + (late - early), rate);
    RateDistributes(Max(early, 0.0), late - early, rate);
  }

  lemma RateDistributes(a: real, b: real, rate: real)
    ensures (a + b) * rate == a * rate + b * rate
  {
  }

  /** Admissions paid for from `next` on are paid for from `start` on, by the tokens it takes to get there. */
  lemma PaidEarlier(limit: nat, count: nat, tokens: real, later: real, start: real, next: real, end: real)
    requires later <= tokens + (next - start) * RefillRate(limit)
    requires Paid(limit, count, later, end - next)
    ensures Paid(limit, count, tokens, end - start)
  {
    RateDistributes(next - start, end - next, RefillRate(limit));
    assert (next - start) + (end - next) == end - start;
  }

  /** A bucket idle for a minute is full, like no bucket at all. */
  lemma IdleIsFull(limit: nat, b: Bucket, now: real)
    requires limit > 0 && GoodBucket(limit, Some(b)) && b.updatedAt + 60.0 <= now
    ensures TokensAt(limit, Some(b), now) == TokensAt(limit, None, now)
  {
    var rate := RefillRate(limit);
    RateMonotone(60.0, now - b.updatedAt, rate);
    assert 60.0 * rate == limit as real;
  }

  /** A step takes a token from the client it admits and changes no other client's tokens. */
  lemma StepPays(limit: nat, m: map<nat, Bucket>, op: Op, ip: nat)
    requires limit > 0 && GoodMap(limit, m) && (op.Sweep? ==> op.ttl >= 60.0)
    ensures TokensAt(limit, Lookup(m, ip), op.at) == TokensAt(limit, Lookup(StepMap(limit, m, op), ip), op.at) +
            (if Admits(limit, m, op, ip) then 1.0 else 0.0)
  {
    CheckKeepsGood(limit, Lookup(m, ip), op.at);
    if op.Sweep? && ip in m && ip !in StepMap(limit, m, op) { IdleIsFull(limit, m[ip], op.at); }
  }

  lemma PaidStep(limit: nat, m: map<nat, Bucket>, op: Op, ip: nat, count: nat, start: real, end: real)
    requires limit > 0 && GoodMap(limit, m) && Concerns(op, ip) && (op.Sweep? ==> op.ttl >= 60.0) && start <= op.at
    requires Paid(limit, count, TokensAt(limit, Lookup(StepMap(limit, m, op), ip), op.at), end - op.at)
    ensures Paid(limit, (if Admits(limit, m, op, ip) then 1 else 0) + count,
                 TokensAt(limit, Lookup(m, ip), start), end - start)
  {
    var admitted, b := Admits(limit, m, op, ip), Lookup(m, ip);
    StepPays(limit, m, op, ip);
    OneMorePaid(limit, count, TokensAt(limit, Lookup(StepMap(limit, m, op), ip), op.at), admitted, end - op.at);
    PaidFrom(limit, b, (if admitted then 1 else 0) + count, start, op.at, end);
  }

  lemma OneMorePaid(limit: nat, count: nat, tokens: real, admitted: bool, span: real)
    requires Paid(limit, count, tokens, span)
    ensures Paid(limit, (if admitted then 1 else 0) + count, tokens + (if admitted then 1.0 else 0.0), span)
  {
  }

  lemma PaidFrom(limit: nat, b: Option<Bucket>, count: nat, start: real, next: real, end: real)
    requires start <= next && Paid(limit, count, TokensAt(limit, b, next), end - next)
    ensures Paid(limit, count, TokensAt(limit, b, start), end - start)
  {
    TokensGrow(limit, b, start, next);
    PaidEarlier(limit, count, TokensAt(limit, b, start), TokensAt(limit, b, next), start, next, end);
  }

  lemma NothingPaid(limit: nat, tokens: real, span: real)
    requires tokens >= 0.0 && span >= 0.0
    ensures Paid(limit, 0, tokens, span)
  {
    RateMonotone(0.0, span, RefillRate(limit));
  }

  /** The admissions of a client are paid for by its tokens at the start and the refill until the end, whatever the
      other clients do. */
  lemma {:induction false} AdmissionsPaid(limit: nat, m: map<nat, Bucket>, ops: seq<Op>, ip: nat, start: real,
                                          end: real)
    requires limit > 0 && GoodMap(limit, m) && GoodOps(ops, ip, start, end) && start <= end
    ensures Paid(limit, Admissions(limit, m, ops, ip), TokensAt(limit, Lookup(m, ip), start), end - start)
    decreases |ops|
  {
    CheckKeepsGood(limit, Lookup(m, ip), start);
    if ops == [] {
      NothingPaid(limit, TokensAt(limit, Lookup(m, ip), start), end - start);
    } else {
      var op, rest := ops[0], ops[1..];
      StepKeepsGood(limit, m, op);
      if Concerns(op, ip) {
        AdmissionsPaid(limit, StepMap(limit, m, op), rest, ip, op.at, end);
        PaidStep(limit, m, op, ip, Admissions(limit, StepMap(limit, m, op), rest, ip), start, end);
      } else {
        AdmissionsPaid(limit, StepMap(limit, m, op), rest, ip, start, end);
      }
    }
  }

  /** In any stretch of any run of the limiter, at most L + L * t / 60 requests of one client are admitted, where t is
      the time between the first and the last operation that concerns it. */
  lemma WindowBound(limit: nat, ops: seq<Op>, ip: nat, i: nat, j: nat, start: real, end: real)
    requires limit > 0 && i <= j <= |ops| && GoodOps(ops[i..j], ip, start, end) && start <= end
    ensures Paid(limit, Admissions(limit, MapAfter(limit, map[], ops[..i]), ops[i..j], ip), limit as real, end - start)
  {
    var m, window := MapAfter(limit, map[], ops[..i]), ops[i..j];
    RunKeepsGood(limit, map[], ops[..i]);
    AdmissionsPaid(limit, m, window, ip, start, end);
    CheckKeepsGood(limit, Lookup(m, ip), start);
    PaidByMore(limit, Admissions(limit, m, window, ip), TokensAt(limit, Lookup(m, ip), start), limit as real,
               end - start);
  }

  lemma PaidByMore(limit: nat, count: nat, tokens: real, more: real, span: real)
    requires Paid(limit, count, tokens, span) && tokens <= more
    ensures Paid(limit, count, more, span)
  {
  }

  // ---------------------------------------------------------------- waiting as told is enough

  /** What other clients and sweeps do in between does not change a client's tokens at a later time. */
  lemma {:induction false} TokensKept(limit: nat, m: map<nat, Bucket>, ops: seq<Op>, ip: nat, now: real, later: real)
    requires limit > 0 && GoodMap(limit, m) && GoodOps(ops, ip, now, later)
    requires forall i :: 0 <= i < |ops| && ops[i].Request? ==> ops[i].ip != ip
    ensures TokensAt(limit, Lookup(MapAfter(limit, m, ops), ip), later) == TokensAt(limit, Lookup(m, ip), later)
    decreases |ops|
  {
    if ops != [] {
      var op := ops[0];
      var m' := StepMap(limit, m, op);
      StepKeepsGood(limit, m, op);
      TokensKept(limit, m', ops[1..], ip, now, later);
      if op.Sweep? && ip in m && ip !in m' { IdleIsFull(limit, m[ip], later); }
    }
  }

  /** A refused client that waits the returned time, at least a second, and sends nothing meanwhile is admitted,
      whatever other clients and sweeps do in between. */
  lemma WaitingGuaranteesAdmission(limit: nat, m: map<nat, Bucket>, ip: nat, now: real, ops: seq<Op>, later: real)
    requires limit > 0 && GoodMap(limit, m) && CheckMap(limit, m, ip, now).1.Some?
    requires later >= now + CheckMap(limit, m, ip, now).1.value && GoodOps(ops, ip, now, later)
    requires forall i :: 0 <= i < |ops| && ops[i].Request? ==> ops[i].ip != ip
    ensures CheckMap(limit, m, ip, now).1.value >= 1.0
    ensures CheckMap(limit, MapAfter(limit, CheckMap(limit, m, ip, now).0, ops), ip, later).1.None?
  {
    var m1 := CheckMap(limit, m, ip, now).0;
    WaitingRefills(limit, Lookup(m, ip), now, later);
    StepKeepsGood(limit, m, Request(ip, now));
    TokensKept(limit, m1, ops, ip, now, later);
  }

  /** A client that was never seen has exactly the limit of requests admitted at once. */
  lemma NewClientBurst(limit: nat, m: map<nat, Bucket>, ip: nat, at: real)
    requires limit > 0 && ip !in m
    ensures Answers(limit, m, Burst(ip, at, limit), ip) == seq(limit, _ => None)
    ensures CheckMap(limit, MapAfter(limit, m, Burst(ip, at, limit)), ip, at).1.Some?
  {
    BurstDrains(limit, m, ip, at, limit, []);
    assert Burst(ip, at, limit) + [] == Burst(ip, at, limit);
    BurstEmpties(limit, m, ip, at, limit);
  }

  lemma {:induction false} BurstEmpties(limit: nat, m: map<nat, Bucket>, ip: nat, at: real, n: nat)
    requires limit > 0 && n > 0 && TokensAt(limit, Lookup(m, ip), at) == n as real <= limit as real
    ensures Lookup(MapAfter(limit, m, Burst(ip, at, n)), ip) == Some(Bucket(0.0, at))
    decreases n
  {
    var m' := CheckMap(limit, m, ip, at).0;
    assert Burst(ip, at, n)[1..] == Burst(ip, at, n - 1);
    if n > 1 { BurstEmpties(limit, m', ip, at, n - 1); }
  }

  /** A limit of 0 means no limit. */
  lemma ZeroIsUnlimited(m: map<nat, Bucket>, ip: nat, now: real)
    ensures CheckMap(0, m, ip, now) == (m, None)
  {
  }

  // ---------------------------------------------------------------- sweeping

  function WithoutSweeps(ops: seq<Op>): seq<Op> {
    if ops == [] then [] else (if ops[0].Request? then [ops[0]] else []) + WithoutSweeps(ops[1..])
  }

  /** A client's bucket with and without sweeping: the same, or swept after a minute without use. */
  predicate SweptOf(limit: nat, b: Option<Bucket>, full: Option<Bucket>, now: real) {
    && GoodBucket(limit, full)
    && (b == full || (b.None? && full.value.updatedAt + 60.0 <= now))
  }

  lemma RequestAgrees(limit: nat, b: Option<Bucket>, full: Option<Bucket>, now: real, at: real)
    requires limit > 0 && SweptOf(limit, b, full, now) && at >= now
    ensures CheckBucket(limit, b, at) == CheckBucket(limit, full, at)
    ensures GoodBucket(limit, Some(CheckBucket(limit, full, at).0))
  {
    if b != full { IdleIsFull(limit, full.value, at); }
    CheckKeepsGood(limit, full, at);
  }

  /** Sweeping with a time-to-live of at least a minute changes no answer to any client in any run. */
  lemma {:induction false} SweepingIsInvisible(limit: nat, m: map<nat, Bucket>, full: map<nat, Bucket>, ops: seq<Op>,
                                               ip: nat, now: real, end: real)
    requires SweptOf(limit, Lookup(m, ip), Lookup(full, ip), now) && GoodOps(ops, ip, now, end)
    ensures Answers(limit, m, ops, ip) == Answers(limit, full, WithoutSweeps(ops), ip)
    decreases |ops|
  {
    if ops != [] {
      var op, rest := ops[0], WithoutSweeps(ops[1..]);
      var m', full' := StepMap(limit, m, op), if op.Request? then StepMap(limit, full, op) else full;
      var next := if Concerns(op, ip) then op.at else now;
      if limit > 0 && op.Request? && op.ip == ip { RequestAgrees(limit, Lookup(m, ip), Lookup(full, ip), now, op.at); }
      SweepingIsInvisible(limit, m', full', ops[1..], ip, next, end);
      if op.Request? {
        assert ([op] + rest)[1..] == rest;
      } else {
        assert [] + rest == rest;
      }
    }
  }

  /** `n` requests of one client at one time. */
  function Burst(ip: nat, at: real, n: nat): seq<Op> { seq(n, _ => Request(ip, at)) }

  lemma BurstStep(limit: nat, m: map<nat, Bucket>, ip: nat, at: real, n: nat, rest: seq<Op>)
    requires n > 0
    ensures Answers(limit, m, Burst(ip, at, n) + rest, ip) ==
            [CheckMap(limit, m, ip, at).1] +
            Answers(limit, CheckMap(limit, m, ip, at).0, Burst(ip, at, n - 1) + rest, ip)
  {
    assert (Burst(ip, at, n) + rest)[1..] == Burst(ip, at, n - 1) + rest;
  }

  /** A client with `n` tokens has `n` requests admitted at once, which leaves it none. */
  lemma {:induction false} BurstDrains(limit: nat, m: map<nat, Bucket>, ip: nat, at: real, n: nat, rest: seq<Op>)
    requires limit > 0 && n > 0 && TokensAt(limit, Lookup(m, ip), at) == n as real <= limit as real
    ensures Answers(limit, m, Burst(ip, at, n) + rest, ip) ==
            seq(n, _ => None) + Answers(limit, m[ip := Bucket(0.0, at)], rest, ip)
    decreases n
  {
    BurstStep(limit, m, ip, at, n, rest);
    var m' := CheckMap(limit, m, ip, at).0;
    if n == 1 {
      assert Burst(ip, at, 0) + rest == rest;
    } else {
      BurstDrains(limit, m', ip, at, n - 1, rest);
      assert m'[ip := Bucket(0.0, at)] == m[ip := Bucket(0.0, at)];
    }
  }

  /** A client with fewer than `n` tokens has one of `n` requests refused. */
  lemma {:induction false} BurstStarves(limit: nat, m: map<nat, Bucket>, ip: nat, at: real, n: nat)
    requires limit > 0 && GoodMap(limit, m) && TokensAt(limit, Lookup(m, ip), at) < n as real
    ensures exists k :: 0 <= k < |Answers(limit, m, Burst(ip, at, n), ip)| &&
                        Answers(limit, m, Burst(ip, at, n), ip)[k].Some?
    decreases n
  {
    CheckKeepsGood(limit, Lookup(m, ip), at);
    BurstStep(limit, m, ip, at, n, []);
    assert Burst(ip, at, n) + [] == Burst(ip, at, n) && Burst(ip, at, n - 1) + [] == Burst(ip, at, n - 1);
    if TokensAt(limit, Lookup(m, ip), at) < 1.0 {
      assert Answers(limit, m, Burst(ip, at, n), ip)[0].Some?;
    } else {
      var m' := CheckMap(limit, m, ip, at).0;
      BurstStarves(limit, m', ip, at, n - 1);
      var later := Answers(limit, m', Burst(ip, at, n - 1), ip);
      var k :| 0 <= k < |later| && later[k].Some?;
      assert Answers(limit, m, Burst(ip, at, n), ip)[k + 1].Some?;
    }
  }

  lemma {:induction false} BurstKept(ip: nat, at: real, n: nat, rest: seq<Op>)
    ensures WithoutSweeps(Burst(ip, at, n) + rest) == Burst(ip, at, n) + WithoutSweeps(rest)
    decreases n
  {
    if n == 0 {
      assert Burst(ip, at, n) + rest == rest;
    } else {
      BurstKept(ip, at, n - 1, rest);
      assert (Burst(ip, at, n) + rest)[1..] == Burst(ip, at, n - 1) + rest;
    }
  }

  predicate AllAdmitted(answers: seq<Option<real>>) { forall i :: 0 <= i < |answers| ==> answers[i].None? }

  /** Use up a bucket, sweep it at `t` and ask again. */
  function SpoiledRun(limit: nat, t: real, ttl: real): seq<Op> {
    Burst(0, 0.0, limit) + ([Sweep(t, ttl)] + Burst(0, t, limit))
  }

  lemma SpoiledRunSwept(limit: nat, t: real, ttl: real)
    requires limit > 0 && 0.0 <= ttl < t
    ensures AllAdmitted(Answers(limit, map[], SpoiledRun(limit, t, ttl), 0))
  {
    var rest := [Sweep(t, ttl)] + Burst(0, t, limit);
    BurstDrains(limit, map[], 0, 0.0, limit, rest);
    var used: map<nat, Bucket> := map[][0 := Bucket(0.0, 0.0)];
    assert rest[1..] == Burst(0, t, limit) && StepMap(limit, used, rest[0]) == map[];
    assert Answers(limit, used, rest, 0) == [] + Answers(limit, map[], Burst(0, t, limit), 0);
    BurstDrains(limit, map[], 0, t, limit, []);
    assert Burst(0, t, limit) + [] == Burst(0, t, limit);
  }

  lemma SpoiledRunKept(limit: nat, t: real, ttl: real)
    ensures WithoutSweeps(SpoiledRun(limit, t, ttl)) == Burst(0, 0.0, limit) + Burst(0, t, limit)
  {
    var again := Burst(0, t, limit);
    BurstKept(0, 0.0, limit, [Sweep(t, ttl)] + again);
    BurstKept(0, t, limit, []);
    assert again + [] == again;
    assert ([Sweep(t, ttl)] + again)[1..] == again;
    assert WithoutSweeps([Sweep(t, ttl)] + again) == [] + again;
  }

  lemma SpoiledRunUnswept(limit: nat, t: real, ttl: real)
    requires limit > 0 && 0.0 <= t < 60.0
    ensures !AllAdmitted(Answers(limit, map[], WithoutSweeps(SpoiledRun(limit, t, ttl)), 0))
  {
    var again := Burst(0, t, limit);
    SpoiledRunKept(limit, t, ttl);
    BurstDrains(limit, map[], 0, 0.0, limit, again);
    UsedUp(limit, t);
    var used: map<nat, Bucket> := map[][0 := Bucket(0.0, 0.0)];
    BurstStarves(limit, used, 0, t, limit);
    var refused := Answers(limit, used, again, 0);
    var k :| 0 <= k < |refused| && refused[k].Some?;
    assert (seq(limit, _ => None) + refused)[limit + k].Some?;
  }

  /** A minute is exact: with any shorter time-to-live there is a run in which sweeping changes an answer. */
  lemma ShorterSweepsShow(limit: nat, ttl: real) returns (ops: seq<Op>)
    requires limit > 0 && 0.0 <= ttl < 60.0
    ensures forall i, j :: 0 <= i <= j < |ops| ==> ops[i].at <= ops[j].at
    ensures forall i :: 0 <= i < |ops| && ops[i].Sweep? ==> ops[i].ttl == ttl
    ensures Answers(limit, map[], ops, 0) != Answers(limit, map[], WithoutSweeps(ops), 0)
  {
    var t := (ttl + 60.0) / 2.0;
    ops := SpoiledRun(limit, t, ttl);
    SpoiledRunSwept(limit, t, ttl);
    SpoiledRunUnswept(limit, t, ttl);
  }

  /** A bucket emptied less than a minute ago is not full. */
  lemma UsedUp(limit: nat, t: real)
    requires limit > 0 && 0.0 <= t < 60.0
    ensures TokensAt(limit, Some(Bucket(0.0, 0.0)), t) < limit as real
  {
    assert (60.0 - t) * RefillRate(limit) > 0.0;
    RateDistributes(60.0 - t, t, RefillRate(limit));
    assert 60.0 * RefillRate(limit) == limit as real;
  }
}
