/** The per-client rate limiter of the public API: a map of token buckets that is swept lazily (middleware.go).
    Buckets behave as golang.org/x/time/rate documents, in real arithmetic; requests come one at a time. */
module RateLimiter {
  import opened Wrappers

  /** Requests per second, burst, visitor lifetime and cleanup interval in seconds. */
  datatype Settings = Settings(rate: real, burst: nat, ttl: real, interval: real)

  /** What the configuration accepts for an enabled limiter. */
  predicate Valid(s: Settings) {
    s.rate > 0.0 && s.burst >= 1 && s.ttl > 0.0 && s.interval > 0.0
  }

  datatype Bucket = Bucket(tokens: real, last: real)

  datatype Visitor = Visitor(bucket: Bucket, lastSeen: real)

  datatype Limiter = Limiter(visitors: map<string, Visitor>, lastCleanup: Option<real>)

  datatype Decision = Admitted | Rejected(delay: real, retryAfter: int)

  datatype Request = Request(ip: string, at: real)

  // ---- the bucket ----

  function Min(a: real, b: real): real {
    if a <= b then a else b
  }

  function FullBucket(s: Settings, now: real): Bucket {
    Bucket(s.burst as real, now)
  }

  /** Tokens that flow in over a time. */
  function Inflow(s: Settings, span: real): real {
    span * s.rate
  }

  /** Tokens at a time: the bucket refills at the rate up to the burst. */
  function Level(s: Settings, b: Bucket, now: real): real {
    Min(s.burst as real, b.tokens + (if now < b.last then 0.0 else Inflow(s, now - b.last)))
  }

  /** `ReserveN(now, 1)` takes a token, into debt if need be. */
  function Taken(s: Settings, b: Bucket, now: real): Bucket {
    Bucket(Level(s, b, now) - 1.0, now)
  }

  function Delay(s: Settings, b: Bucket): real
    requires s.rate != 0.0
  {
    if b.tokens < 0.0 then -b.tokens / s.rate else 0.0
  }

  /** `CancelAt(now)` gives the token back. */
  function Returned(s: Settings, b: Bucket, now: real): Bucket {
    Bucket(Min(s.burst as real, Level(s, b, now) + 1.0), now)
  }

  function Ceil(x: real): int {
    -((-x).Floor)
  }

  function RetryAfter(delay: real): int {
    if Ceil(delay) < 1 then 1 else Ceil(delay)
  }

  /** Reserve, and cancel if the reservation is not for now. */
  function Decide(s: Settings, b: Bucket, now: real): (Bucket, Decision)
    requires s.rate != 0.0
  {
    var after := Taken(s, b, now);
    var delay := Delay(s, after);
    if delay > 0.0 then (Returned(s, after, now), Rejected(delay, RetryAfter(delay))) else (after, Admitted)
  }

  // ---- the limiter ----

  predicate Sweeps(s: Settings, lastCleanup: Option<real>, now: real) {
    s.interval > 0.0 && s.ttl > 0.0 && (lastCleanup.None? || now - lastCleanup.value >= s.interval)
  }

  predicate Stale(s: Settings, v: Visitor, now: real) {
    now - v.lastSeen > s.ttl
  }

  function Cleaned(s: Settings, l: Limiter, now: real): Limiter {
    if !Sweeps(s, l.lastCleanup, now) then l
    else Limiter(map ip | ip in l.visitors && !Stale(s, l.visitors[ip], now) :: l.visitors[ip], Some(now))
  }

  function BucketOf(s: Settings, l: Limiter, ip: string, now: real): Bucket {
    if ip in l.visitors then l.visitors[ip].bucket else FullBucket(s, now)
  }

  function Handle(s: Settings, l: Limiter, r: Request): (Limiter, Decision)
    requires Valid(s)
  {
    var swept := Cleaned(s, l, r.at);
    var d := Decide(s, BucketOf(s, swept, r.ip, r.at), r.at);
    (swept.(visitors := swept.visitors[r.ip := Visitor(d.0, r.at)]), d.1)
  }

  const EMPTY := Limiter(map[], None)

  function After(s: Settings, l: Limiter, requests: seq<Request>): Limiter
    requires Valid(s)
  {
    if requests == [] then l
    else Handle(s, After(s, l, requests[..|requests| - 1]), requests[|requests| - 1]).0
  }

  function Decisions(s: Settings, l: Limiter, requests: seq<Request>): (r: seq<Decision>)
    requires Valid(s)
    ensures |r| == |requests|
  {
    if requests == [] then []
    else
      var before := requests[..|requests| - 1];
      Decisions(s, l, before) + [Handle(s, After(s, l, before), requests[|requests| - 1]).1]
  }

  predicate Ordered(requests: seq<Request>) {
    forall i, j | 0 <= i < j < |requests| :: requests[i].at <= requests[j].at
  }

  // ---- the source's form ----

  class IpRateLimiter {
    const settings: Settings
    var visitors: map<string, Visitor>
    var lastCleanup: Option<real>

    ghost function State(): Limiter
      reads this
    {
      Limiter(visitors, lastCleanup)
    }

    constructor (s: Settings)
      ensures settings == s && State() == EMPTY
    {
      settings := s;
      visitors := map[];
      lastCleanup := None;
    }

    method CleanupVisitors(now: real)
      modifies this
      ensures State() == Cleaned(settings, old(State()), now)
    {
      if settings.interval <= 0.0 || settings.ttl <= 0.0 {
        return;
      }
      if lastCleanup.Some? && now - lastCleanup.value < settings.interval {
        return;
      }
      ghost var before := visitors;
      var todo := visitors.Keys;
      while todo != {}
        invariant todo <= before.Keys && lastCleanup == old(lastCleanup)
        invariant visitors == map ip | ip in before && (ip in todo || !Stale(settings, before[ip], now)) :: before[ip]
      {
        var ip :| ip in todo;
        if now - visitors[ip].lastSeen > settings.ttl {
          visitors := visitors - {ip};
        }
        todo := todo - {ip};
      }
      lastCleanup := Some(now);
    }

    /** `reserve`, as far as the bucket: the reservation's bucket is stored, its delay is the caller's. */
    method Reserve(ip: string, now: real) returns (delay: real)
      requires Valid(settings)
      modifies this
      ensures var swept := Cleaned(settings, old(State()), now);
              var taken := Taken(settings, BucketOf(settings, swept, ip, now), now);
              && State() == swept.(visitors := swept.visitors[ip := Visitor(taken, now)])
              && delay == Delay(settings, taken)
    {
      CleanupVisitors(now);
      if ip !in visitors {
        visitors := visitors[ip := Visitor(FullBucket(settings, now), now)];
      }
      var taken := Taken(settings, visitors[ip].bucket, now);
      visitors := visitors[ip := Visitor(taken, now)];
      delay := Delay(settings, taken);
    }

    /** The decision of `withRateLimit`. */
    method Admit(ip: string, now: real) returns (d: Decision)
      requires Valid(settings)
      modifies this
      ensures (State(), d) == Handle(settings, old(State()), Request(ip, now))
    {
      hide Cleaned;
      hide Level;
      hide Delay;
      var delay := Reserve(ip, now);
      ghost var swept := Cleaned(settings, old(State()), now);
      ghost var outcome := Decide(settings, BucketOf(settings, swept, ip, now), now);
      if delay > 0.0 {
        visitors := visitors[ip := visitors[ip].(bucket := Returned(settings, visitors[ip].bucket, now))];
        assert visitors == swept.visitors[ip := Visitor(outcome.0, now)];
        var retryAfter := Ceil(delay);
        if retryAfter < 1 {
          retryAfter := 1;
        }
        return Rejected(delay, retryAfter);
      }
      return Admitted;
    }
  }

  // ---- one bucket ----

  lemma InflowAdds(s: Settings, a: real, b: real)
    ensures Inflow(s, a + b) == Inflow(s, a) + Inflow(s, b) && Inflow(s, 0.0) == 0.0
  {
  }

  lemma InflowGrows(s: Settings, a: real, b: real)
    requires a <= b && s.rate >= 0.0
    ensures Inflow(s, a) <= Inflow(s, b)
  {
    assert (b - a) * s.rate >= 0.0;
  }

  lemma PositiveQuotient(a: real, b: real)
    requires a > 0.0 && b > 0.0
    ensures a / b > 0.0 && (a / b) * b == a
  {
    var q := a / b;
    assert q * b == a;
  }

  lemma DelayPositive(s: Settings, b: Bucket)
    requires s.rate > 0.0
    ensures Delay(s, b) > 0.0 <==> b.tokens < 0.0
    ensures b.tokens < 0.0 ==> Inflow(s, Delay(s, b)) == -b.tokens
  {
    if b.tokens < 0.0 {
      PositiveQuotient(-b.tokens, s.rate);
    }
  }

  lemma LevelNow(s: Settings, b: Bucket)
    ensures Level(s, b, b.last) == Min(s.burst as real, b.tokens)
  {
    InflowAdds(s, 0.0, 0.0);
  }

  /** The tokens at hand are those left and those that have flowed in since, up to the burst; a clock that goes back
      brings none. */
  lemma LevelExactly(s: Settings, b: Bucket, now: real)
    requires Valid(s)
    ensures var flowed := b.tokens + (if now > b.last then (now - b.last) * s.rate else 0.0);
            Level(s, b, now) == if flowed > s.burst as real then s.burst as real else flowed
  {
    InflowAdds(s, 0.0, 0.0);
  }

  /** Admitted exactly with a whole token at hand; a rejection leaves the tokens as they are, its delay is the time
      until the missing part of a token has flowed in, and Retry-After is that delay in whole seconds, at least one. */
  lemma DecideByLevel(s: Settings, b: Bucket, now: real)
    requires Valid(s) && b.last <= now
    ensures var d := Decide(s, b, now);
            var level := Level(s, b, now);
            && (d.1.Admitted? <==> level >= 1.0)
            && d.0 == Bucket(if level >= 1.0 then level - 1.0 else level, now)
            && (d.1.Rejected? ==>
                  && Inflow(s, d.1.delay) == 1.0 - level
                  && d.1.retryAfter >= 1 && d.1.retryAfter as real >= d.1.delay
                  && (d.1.retryAfter == 1 || d.1.retryAfter as real < d.1.delay + 1.0))
  {
    var taken := Taken(s, b, now);
    DelayPositive(s, taken);
    LevelNow(s, taken);
    hide Inflow;
    hide Delay;
  }

  /** The level only depends on an earlier level and the time since, and only grows. */
  lemma LevelOver(s: Settings, b: Bucket, t: real, now: real)
    requires Valid(s) && b.last <= t <= now
    ensures Level(s, b, now) == Min(s.burst as real, Level(s, b, t) + Inflow(s, now - t))
    ensures Level(s, b, t) <= Level(s, b, now)
  {
    InflowAdds(s, t - b.last, now - t);
    InflowAdds(s, 0.0, 0.0);
    InflowGrows(s, 0.0, now - t);
    hide Inflow;
    assert (t - b.last) + (now - t) == now - b.last;
  }

  // ---- a limiter that never evicts ----

  type Buckets = map<string, Bucket>

  function BucketFor(s: Settings, m: Buckets, ip: string, now: real): Bucket {
    if ip in m then m[ip] else FullBucket(s, now)
  }

  function Keep(s: Settings, m: Buckets, r: Request): (Buckets, Decision)
    requires Valid(s)
  {
    var d := Decide(s, BucketFor(s, m, r.ip, r.at), r.at);
    (m[r.ip := d.0], d.1)
  }

  function Kept(s: Settings, m: Buckets, requests: seq<Request>): Buckets
    requires Valid(s)
  {
    if requests == [] then m else Keep(s, Kept(s, m, requests[..|requests| - 1]), requests[|requests| - 1]).0
  }

  function KeptDecisions(s: Settings, m: Buckets, requests: seq<Request>): (r: seq<Decision>)
    requires Valid(s)
    ensures |r| == |requests|
  {
    if requests == [] then []
    else
      var before := requests[..|requests| - 1];
      KeptDecisions(s, m, before) + [Keep(s, Kept(s, m, before), requests[|requests| - 1]).1]
  }

  // ---- eviction is invisible ----

  predicate BucketOk(s: Settings, b: Bucket, now: real) {
    0.0 <= b.tokens <= s.burst as real && b.last <= now
  }

  /** Nobody is forgotten who is not back at a full bucket. */
  ghost predicate Follows(s: Settings, l: Limiter, m: Buckets, now: real) {
    && (forall ip | ip in m :: BucketOk(s, m[ip], now))
    && (forall ip | ip in l.visitors :: ip in m && l.visitors[ip] == Visitor(m[ip], m[ip].last))
    && (forall ip | ip in m && ip !in l.visitors :: Level(s, m[ip], now) == s.burst as real)
  }

  lemma StaleIsFull(s: Settings, b: Bucket, now: real)
    requires Valid(s) && s.ttl * s.rate >= s.burst as real && BucketOk(s, b, now) && now - b.last > s.ttl
    ensures Level(s, b, now) == s.burst as real
  {
    InflowGrows(s, s.ttl, now - b.last);
  }

  lemma FullStaysFull(s: Settings, b: Bucket, t: real, now: real)
    requires Valid(s) && BucketOk(s, b, t) && t <= now && Level(s, b, t) == s.burst as real
    ensures Level(s, b, now) == s.burst as real
  {
    LevelOver(s, b, t, now);
  }

  lemma CleanedFollows(s: Settings, l: Limiter, m: Buckets, t: real, now: real)
    requires Valid(s) && s.ttl * s.rate >= s.burst as real && Follows(s, l, m, t) && t <= now
    ensures Follows(s, Cleaned(s, l, now), m, now)
  {
    var swept := Cleaned(s, l, now);
    forall ip | ip in m && ip !in swept.visitors ensures Level(s, m[ip], now) == s.burst as real {
      if ip in l.visitors {
        StaleIsFull(s, m[ip], now);
      } else {
        FullStaysFull(s, m[ip], t, now);
      }
    }
  }

  lemma NewIsFull(s: Settings, now: real)
    requires Valid(s)
    ensures Level(s, FullBucket(s, now), now) == s.burst as real && BucketOk(s, FullBucket(s, now), now)
  {
    InflowAdds(s, 0.0, 0.0);
  }

  lemma DecideKeepsOk(s: Settings, b: Bucket, now: real)
    requires Valid(s) && BucketOk(s, b, now)
    ensures BucketOk(s, Decide(s, b, now).0, now) && Decide(s, b, now).0.last == now
  {
    DecideByLevel(s, b, now);
    InflowAdds(s, 0.0, 0.0);
    InflowGrows(s, 0.0, now - b.last);
  }

  /** Equal levels decide alike. */
  lemma SameLevelSameDecision(s: Settings, a: Bucket, b: Bucket, now: real)
    requires Valid(s) && BucketOk(s, a, now) && BucketOk(s, b, now) && Level(s, a, now) == Level(s, b, now)
    ensures Decide(s, a, now) == Decide(s, b, now)
  {
    assert Taken(s, a, now) == Taken(s, b, now);
  }

  lemma HandleFollows(s: Settings, l: Limiter, m: Buckets, t: real, r: Request)
    requires Valid(s) && s.ttl * s.rate >= s.burst as real && Follows(s, l, m, t) && t <= r.at
    ensures Handle(s, l, r).1 == Keep(s, m, r).1
    ensures Follows(s, Handle(s, l, r).0, Keep(s, m, r).0, r.at)
  {
    var swept := Cleaned(s, l, r.at);
    CleanedFollows(s, l, m, t, r.at);
    NewIsFull(s, r.at);
    var a, b := BucketOf(s, swept, r.ip, r.at), BucketFor(s, m, r.ip, r.at);
    hide Level;
    hide Decide;
    hide Cleaned;
    hide BucketOk;
    SameLevelSameDecision(s, a, b, r.at);
    DecideKeepsOk(s, b, r.at);
  }

  function Clock(requests: seq<Request>): real {
    if requests == [] then 0.0 else requests[|requests| - 1].at
  }

  lemma {:induction false} RunFollows(s: Settings, requests: seq<Request>)
    requires Valid(s) && s.ttl * s.rate >= s.burst as real && Ordered(requests)
    ensures Decisions(s, EMPTY, requests) == KeptDecisions(s, map[], requests)
    ensures Follows(s, After(s, EMPTY, requests), Kept(s, map[], requests), Clock(requests))
  {
    if requests != [] {
      var before, last := requests[..|requests| - 1], requests[|requests| - 1];
      RunFollows(s, before);
      if before == [] {
        HandleFollows(s, EMPTY, map[], last.at, last);
      } else {
        HandleFollows(s, After(s, EMPTY, before), Kept(s, map[], before), Clock(before), last);
      }
    }
  }

  // ---- and visible otherwise ----

  function Burst(ip: string, at: real, n: nat): seq<Request> {
    seq(n, _ => Request(ip, at))
  }

  lemma {:induction false} AfterConcat(s: Settings, l: Limiter, first: seq<Request>, more: seq<Request>)
    requires Valid(s)
    ensures After(s, l, first + more) == After(s, After(s, l, first), more)
    ensures Decisions(s, l, first + more) == Decisions(s, l, first) + Decisions(s, After(s, l, first), more)
  {
    if more == [] {
      assert first + more == first;
    } else {
      var all := first + more;
      assert all[..|all| - 1] == first + more[..|more| - 1] && all[|all| - 1] == more[|more| - 1];
      AfterConcat(s, l, first, more[..|more| - 1]);
    }
  }

  lemma {:induction false} KeptConcat(s: Settings, m: Buckets, first: seq<Request>, more: seq<Request>)
    requires Valid(s)
    ensures Kept(s, m, first + more) == Kept(s, Kept(s, m, first), more)
    ensures KeptDecisions(s, m, first + more) == KeptDecisions(s, m, first) + KeptDecisions(s, Kept(s, m, first), more)
  {
    if more == [] {
      assert first + more == first;
    } else {
      var all := first + more;
      assert all[..|all| - 1] == first + more[..|more| - 1] && all[|all| - 1] == more[|more| - 1];
      KeptConcat(s, m, first, more[..|more| - 1]);
    }
  }

  predicate AllAdmitted(decisions: seq<Decision>) {
    forall i | 0 <= i < |decisions| :: decisions[i].Admitted?
  }

  /** Requests at one moment are all admitted exactly if there is a token for each. */
  lemma {:induction false} BurstAdmitted(s: Settings, m: Buckets, ip: string, at: real, n: nat)
    requires Valid(s) && BucketOk(s, BucketFor(s, m, ip, at), at)
    ensures AllAdmitted(KeptDecisions(s, m, Burst(ip, at, n))) <==> n == 0 || Level(s, BucketFor(s, m, ip, at), at) >= n as real
    ensures n > 0 && AllAdmitted(KeptDecisions(s, m, Burst(ip, at, n))) ==>
              Kept(s, m, Burst(ip, at, n)) == m[ip := Bucket(Level(s, BucketFor(s, m, ip, at), at) - n as real, at)]
  {
    var b := BucketFor(s, m, ip, at);
    if n > 0 {
      var all, before := Burst(ip, at, n), Burst(ip, at, n - 1);
      assert all[..n - 1] == before && all[n - 1] == Request(ip, at);
      BurstAdmitted(s, m, ip, at, n - 1);
      var d := KeptDecisions(s, m, before);
      assert AllAdmitted(KeptDecisions(s, m, all)) <==> AllAdmitted(d) && Keep(s, Kept(s, m, before), Request(ip, at)).1.Admitted? by {
        assert KeptDecisions(s, m, all) == d + [Keep(s, Kept(s, m, before), Request(ip, at)).1];
        LastAdmitted(d, Keep(s, Kept(s, m, before), Request(ip, at)).1);
      }
      if AllAdmitted(d) {
        NextOfBurst(s, m, Kept(s, m, before), ip, at, n);
      }
    }
  }

  lemma LastAdmitted(d: seq<Decision>, last: Decision)
    ensures AllAdmitted(d + [last]) <==> AllAdmitted(d) && last.Admitted?
  {
    if AllAdmitted(d + [last]) {
      assert (d + [last])[|d|] == last;
      forall i | 0 <= i < |d| ensures d[i].Admitted? {
        assert (d + [last])[i] == d[i];
      }
    }
  }

  lemma NextOfBurst(s: Settings, m: Buckets, before: Buckets, ip: string, at: real, n: nat)
    requires Valid(s) && BucketOk(s, BucketFor(s, m, ip, at), at) && n > 0
    requires n == 1 ==> before == m
    requires n > 1 ==> before == m[ip := Bucket(Level(s, BucketFor(s, m, ip, at), at) - (n - 1) as real, at)]
                       && Level(s, BucketFor(s, m, ip, at), at) >= (n - 1) as real
    ensures var d := Keep(s, before, Request(ip, at));
            var level := Level(s, BucketFor(s, m, ip, at), at);
            && (d.1.Admitted? <==> level >= n as real)
            && (d.1.Admitted? ==> d.0 == m[ip := Bucket(level - n as real, at)])
  {
    var b := BucketFor(s, before, ip, at);
    var level := Level(s, BucketFor(s, m, ip, at), at);
    assert (n - 1) as real == n as real - 1.0;
    if n > 1 {
      LevelNow(s, b);
    }
    assert Level(s, b, at) == level - (n - 1) as real;
    DecideByLevel(s, b, at);
    hide Level;
    hide Decide;
    var d := Keep(s, before, Request(ip, at));
    if d.1.Admitted? {
      assert d.0 == m[ip := Bucket(level - n as real, at)];
    }
  }

  function BucketsIn(l: Limiter): Buckets {
    map ip | ip in l.visitors :: l.visitors[ip].bucket
  }

  /** Between sweeps the limiter is the one that never evicts. */
  lemma {:induction false} NoSweepKeeps(s: Settings, l: Limiter, ip: string, at: real, n: nat)
    requires Valid(s) && !Sweeps(s, l.lastCleanup, at)
    ensures Decisions(s, l, Burst(ip, at, n)) == KeptDecisions(s, BucketsIn(l), Burst(ip, at, n))
    ensures BucketsIn(After(s, l, Burst(ip, at, n))) == Kept(s, BucketsIn(l), Burst(ip, at, n))
    ensures After(s, l, Burst(ip, at, n)).lastCleanup == l.lastCleanup
    ensures forall v | v in After(s, l, Burst(ip, at, n)).visitors ::
              v == ip || (v in l.visitors && After(s, l, Burst(ip, at, n)).visitors[v] == l.visitors[v])
    ensures n > 0 ==> ip in After(s, l, Burst(ip, at, n)).visitors && After(s, l, Burst(ip, at, n)).visitors[ip].lastSeen == at
  {
    if n > 0 {
      var all, before := Burst(ip, at, n), Burst(ip, at, n - 1);
      assert all[..n - 1] == before && all[n - 1] == Request(ip, at);
      NoSweepKeeps(s, l, ip, at, n - 1);
      OneWithoutSweep(s, After(s, l, before), Request(ip, at));
    }
  }

  lemma OneWithoutSweep(s: Settings, l: Limiter, r: Request)
    requires Valid(s) && !Sweeps(s, l.lastCleanup, r.at)
    ensures var h, k := Handle(s, l, r), Keep(s, BucketsIn(l), r);
            h.1 == k.1 && BucketsIn(h.0) == k.0 && h.0.lastCleanup == l.lastCleanup
  {
  }

  /** A sweep at the first of several requests at one moment is the only one. */
  lemma {:induction false} SweepFirst(s: Settings, l: Limiter, ip: string, at: real, n: nat)
    requires Valid(s) && n > 0
    ensures Decisions(s, l, Burst(ip, at, n)) == Decisions(s, Cleaned(s, l, at), Burst(ip, at, n))
    ensures After(s, l, Burst(ip, at, n)) == After(s, Cleaned(s, l, at), Burst(ip, at, n))
  {
    var swept := Cleaned(s, l, at);
    assert Cleaned(s, swept, at) == swept;
    var all, before := Burst(ip, at, n), Burst(ip, at, n - 1);
    assert all[..n - 1] == before && all[n - 1] == Request(ip, at);
    if n > 1 {
      SweepFirst(s, l, ip, at, n - 1);
    }
  }

  /** A rest between the lifetime and the time a drained bucket takes to fill, and when to begin it. */
  function Rest(s: Settings): real
    requires Valid(s)
  {
    (s.ttl + s.burst as real / s.rate) / 2.0
  }

  function DrainAt(s: Settings): real
    requires Valid(s)
  {
    if s.interval > Rest(s) then s.interval - Rest(s) else 0.0
  }

  /** Client "a" drains its bucket, rests, and asks again. */
  function TwoBursts(s: Settings): seq<Request>
    requires Valid(s)
  {
    Burst("a", DrainAt(s), s.burst) + Burst("a", DrainAt(s) + Rest(s), s.burst)
  }

  /** Before that someone starts the sweeping clock. */
  function Witness(s: Settings): seq<Request>
    requires Valid(s)
  {
    [Request("b", 0.0)] + TwoBursts(s)
  }

  lemma RestFits(s: Settings)
    requires Valid(s) && s.ttl * s.rate < s.burst as real
    ensures s.ttl < Rest(s) && Inflow(s, Rest(s)) < s.burst as real
    ensures 0.0 <= DrainAt(s) < s.interval <= DrainAt(s) + Rest(s)
  {
    var q := s.burst as real / s.rate;
    PositiveQuotient(s.burst as real, s.rate);
    if q <= s.ttl {
      InflowGrows(s, q, s.ttl);
    }
    assert Inflow(s, Rest(s)) * 2.0 == Inflow(s, s.ttl) + Inflow(s, q);
  }

  lemma DrainedAtFirst(s: Settings, l: Limiter)
    requires Valid(s) && s.ttl * s.rate < s.burst as real
    requires l.lastCleanup == Some(0.0) && l.visitors.Keys == {"b"}
    ensures var v := After(s, l, Burst("a", DrainAt(s), s.burst));
            && v.lastCleanup == Some(0.0) && v.visitors.Keys == {"a", "b"}
            && v.visitors["a"] == Visitor(Bucket(0.0, DrainAt(s)), DrainAt(s))
    ensures var m := Kept(s, BucketsIn(l), Burst("a", DrainAt(s), s.burst)); "a" in m && m["a"] == Bucket(0.0, DrainAt(s))
    ensures AllAdmitted(Decisions(s, l, Burst("a", DrainAt(s), s.burst)))
  {
    RestFits(s);
    var at := DrainAt(s);
    var v := After(s, l, Burst("a", at, s.burst));
    NoSweepKeeps(s, l, "a", at, s.burst);
    NewIsFull(s, at);
    assert "a" !in BucketsIn(l);
    BurstAdmitted(s, BucketsIn(l), "a", at, s.burst);
    assert BucketsIn(v) == BucketsIn(l)["a" := Bucket(0.0, at)];
    assert v.visitors.Keys == BucketsIn(v).Keys;
    assert v.visitors["a"].bucket == BucketsIn(v)["a"];
  }

  /** The client has been evicted, so its new bucket is full. */
  lemma EvictedStartsAfresh(s: Settings, l: Limiter)
    requires Valid(s) && s.ttl * s.rate < s.burst as real
    requires l.lastCleanup == Some(0.0) && "a" in l.visitors && l.visitors["a"] == Visitor(Bucket(0.0, DrainAt(s)), DrainAt(s))
    ensures AllAdmitted(Decisions(s, l, Burst("a", DrainAt(s) + Rest(s), s.burst)))
  {
    hide *;
    var now := DrainAt(s) + Rest(s);
    var swept := Cleaned(s, l, now);
    var m := BucketsIn(swept);
    EvictedByThen(s, l);
    SweepFirst(s, l, "a", now, s.burst);
    NoSweepKeeps(s, swept, "a", now, s.burst);
    NewIsFull(s, now);
    BurstAdmitted(s, m, "a", now, s.burst);
  }

  lemma EvictedByThen(s: Settings, l: Limiter)
    requires Valid(s) && s.ttl * s.rate < s.burst as real
    requires l.lastCleanup == Some(0.0) && "a" in l.visitors && l.visitors["a"] == Visitor(Bucket(0.0, DrainAt(s)), DrainAt(s))
    ensures var now := DrainAt(s) + Rest(s);
            var swept := Cleaned(s, l, now);
            && s.burst > 0 && !Sweeps(s, swept.lastCleanup, now)
            && BucketFor(s, BucketsIn(swept), "a", now) == FullBucket(s, now)
  {
    RestFits(s);
    hide Rest;
    hide DrainAt;
    assert "a" !in Cleaned(s, l, DrainAt(s) + Rest(s)).visitors;
  }

  /** The kept bucket has not filled up. */
  lemma KeptIsShort(s: Settings, m: Buckets)
    requires Valid(s) && s.ttl * s.rate < s.burst as real && "a" in m && m["a"] == Bucket(0.0, DrainAt(s))
    ensures !AllAdmitted(KeptDecisions(s, m, Burst("a", DrainAt(s) + Rest(s), s.burst)))
  {
    RestFits(s);
    var now := DrainAt(s) + Rest(s);
    assert now - DrainAt(s) == Rest(s);
    BurstAdmitted(s, m, "a", now, s.burst);
    hide KeptDecisions;
    hide Rest;
    hide DrainAt;
    hide Inflow;
  }

  lemma WitnessOrdered(s: Settings)
    requires Valid(s) && s.ttl * s.rate < s.burst as real
    ensures Ordered(Witness(s))
  {
    RestFits(s);
    hide Rest;
    hide DrainAt;
  }

  lemma WitnessDiffers(s: Settings)
    requires Valid(s) && s.ttl * s.rate < s.burst as real
    ensures Ordered(Witness(s)) && Decisions(s, EMPTY, Witness(s)) != KeptDecisions(s, map[], Witness(s))
  {
    WitnessOrdered(s);
    var first, drain := [Request("b", 0.0)], Burst("a", DrainAt(s), s.burst);
    var again := Burst("a", DrainAt(s) + Rest(s), s.burst);
    assert Witness(s) == first + (drain + again) && Valid(s);
    hide *;
    var l, m := After(s, EMPTY, first), Kept(s, map[], first);
    FirstRequest(s);
    DrainedAtFirst(s, l);
    EvictedStartsAfresh(s, After(s, l, drain));
    KeptIsShort(s, Kept(s, m, drain));
    AfterConcat(s, EMPTY, first, drain + again);
    AfterConcat(s, l, drain, again);
    KeptConcat(s, map[], first, drain + again);
    KeptConcat(s, m, drain, again);
    TailsDiffer(Decisions(s, EMPTY, first), Decisions(s, l, drain), Decisions(s, After(s, l, drain), again),
                KeptDecisions(s, map[], first), KeptDecisions(s, m, drain), KeptDecisions(s, Kept(s, m, drain), again));
  }

  lemma FirstRequest(s: Settings)
    requires Valid(s)
    ensures var l := After(s, EMPTY, [Request("b", 0.0)]);
            l.lastCleanup == Some(0.0) && l.visitors.Keys == {"b"} && BucketsIn(l) == Kept(s, map[], [Request("b", 0.0)])
  {
    var r := Request("b", 0.0);
    assert [r][..0] == [];
    assert After(s, EMPTY, [r]) == Handle(s, EMPTY, r).0;
    assert Kept(s, map[], [r]) == Keep(s, map[], r).0;
  }

  lemma TailsDiffer(a: seq<Decision>, b: seq<Decision>, c: seq<Decision>, x: seq<Decision>, y: seq<Decision>, z: seq<Decision>)
    requires |a| == |x| && |b| == |y| && |c| == |z| && AllAdmitted(c) && !AllAdmitted(z)
    ensures a + (b + c) != x + (y + z)
  {
    assert c != z;
    assert (a + (b + c))[|a| + |b|..] == c;
    assert (x + (y + z))[|x| + |y|..] == z;
  }

  /** The limiter answers every sequence of requests as if it never evicted anyone. */
  ghost predicate EvictionInvisible(s: Settings)
    requires Valid(s)
  {
    forall requests | Ordered(requests) :: Decisions(s, EMPTY, requests) == KeptDecisions(s, map[], requests)
  }

  /** Eviction is invisible, in decisions and delays, exactly if a bucket refills within a visitor's lifetime. */
  lemma InvisibleExactly(s: Settings)
    requires Valid(s)
    ensures EvictionInvisible(s) <==> s.ttl * s.rate >= s.burst as real
  {
    if s.ttl * s.rate >= s.burst as real {
      forall requests | Ordered(requests) ensures Decisions(s, EMPTY, requests) == KeptDecisions(s, map[], requests) {
        RunFollows(s, requests);
      }
    } else {
      WitnessDiffers(s);
    }
  }

  // ---- how many requests get through ----

  function AdmittedOf(ip: string, requests: seq<Request>, decisions: seq<Decision>): nat
    requires |decisions| == |requests|
  {
    if requests == [] then 0
    else
      AdmittedOf(ip, requests[..|requests| - 1], decisions[..|requests| - 1])
      + (if requests[|requests| - 1].ip == ip && decisions[|requests| - 1].Admitted? then 1 else 0)
  }

  lemma DecidePays(s: Settings, b: Bucket, now: real)
    requires Valid(s) && BucketOk(s, b, now)
    ensures var d := Decide(s, b, now);
            Level(s, d.0, now) + (if d.1.Admitted? then 1.0 else 0.0) == Level(s, b, now)
  {
    DecideByLevel(s, b, now);
    DecideKeepsOk(s, b, now);
    LevelNow(s, Decide(s, b, now).0);
  }

  ghost predicate BucketsOk(s: Settings, m: Buckets, now: real) {
    forall ip | ip in m :: BucketOk(s, m[ip], now)
  }

  lemma Grown(s: Settings, m: Buckets, ip: string, t: real, now: real)
    requires Valid(s) && BucketsOk(s, m, t) && t <= now
    ensures Level(s, BucketFor(s, m, ip, now), now) <= Level(s, BucketFor(s, m, ip, t), t) + Inflow(s, now - t)
    ensures BucketOk(s, BucketFor(s, m, ip, now), now)
  {
    NewIsFull(s, t);
    NewIsFull(s, now);
    InflowAdds(s, 0.0, 0.0);
    InflowGrows(s, 0.0, now - t);
    hide Inflow;
    if ip in m {
      LevelOver(s, m[ip], t, now);
    }
  }

  function LevelFor(s: Settings, m: Buckets, ip: string, now: real): real {
    Level(s, BucketFor(s, m, ip, now), now)
  }

  lemma OnePaid(s: Settings, m: Buckets, ip: string, t: real, r: Request)
    requires Valid(s) && BucketsOk(s, m, t) && t <= r.at
    ensures var k := Keep(s, m, r);
            && BucketsOk(s, k.0, r.at)
            && LevelFor(s, k.0, ip, r.at) + (if r.ip == ip && k.1.Admitted? then 1 else 0) as real
               <= LevelFor(s, m, ip, t) + Inflow(s, r.at - t)
  {
    Grown(s, m, ip, t, r.at);
    Grown(s, m, r.ip, t, r.at);
    DecideKeepsOk(s, BucketFor(s, m, r.ip, r.at), r.at);
    DecidePays(s, BucketFor(s, m, r.ip, r.at), r.at);
  }

  lemma LevelBounds(s: Settings, m: Buckets, ip: string, now: real)
    requires Valid(s) && BucketsOk(s, m, now)
    ensures 0.0 <= LevelFor(s, m, ip, now) <= s.burst as real
  {
    NewIsFull(s, now);
    InflowAdds(s, 0.0, 0.0);
    InflowGrows(s, 0.0, now - BucketFor(s, m, ip, now).last);
    hide Inflow;
  }

  function End(start: real, requests: seq<Request>): real {
    if requests == [] then start else requests[|requests| - 1].at
  }

  /** What a client is admitted from some moment on is paid for by the tokens it had and those that flowed in. */
  ghost predicate Paid(s: Settings, m: Buckets, ip: string, start: real, requests: seq<Request>)
    requires Valid(s)
  {
    AdmittedOf(ip, requests, KeptDecisions(s, m, requests)) as real + LevelFor(s, Kept(s, m, requests), ip, End(start, requests))
    <= LevelFor(s, m, ip, start) + Inflow(s, End(start, requests) - start)
  }

  /** The last request of a run, in the terms of `Paid`. */
  lemma LastOfRun(s: Settings, m: Buckets, ip: string, start: real, requests: seq<Request>)
    requires Valid(s) && requests != []
    ensures var before, last := requests[..|requests| - 1], requests[|requests| - 1];
            var k := Keep(s, Kept(s, m, before), last);
            && End(start, requests) == last.at && Kept(s, m, requests) == k.0
            && AdmittedOf(ip, requests, KeptDecisions(s, m, requests))
               == AdmittedOf(ip, before, KeptDecisions(s, m, before)) + (if last.ip == ip && k.1.Admitted? then 1 else 0)
  {
    var before := requests[..|requests| - 1];
    assert KeptDecisions(s, m, requests)[..|before|] == KeptDecisions(s, m, before);
    hide Keep;
  }

  lemma SumPaid(admitted: nat, one: nat, before: real, level: real, first: real, inflow: real, more: real)
    requires admitted as real + before <= first + inflow && level + one as real <= before + more
    ensures (admitted + one) as real + level <= first + inflow + more
  {
  }

  lemma PaidMeans(s: Settings, m: Buckets, ip: string, start: real, requests: seq<Request>)
    requires Valid(s)
    ensures Paid(s, m, ip, start, requests) <==>
              AdmittedOf(ip, requests, KeptDecisions(s, m, requests)) as real + LevelFor(s, Kept(s, m, requests), ip, End(start, requests))
              <= LevelFor(s, m, ip, start) + Inflow(s, End(start, requests) - start)
  {
  }

  lemma PaidStep(s: Settings, m: Buckets, ip: string, start: real, requests: seq<Request>)
    requires Valid(s) && requests != [] && Paid(s, m, ip, start, requests[..|requests| - 1])
    requires BucketsOk(s, Kept(s, m, requests[..|requests| - 1]), End(start, requests[..|requests| - 1]))
    requires End(start, requests[..|requests| - 1]) <= requests[|requests| - 1].at
    ensures Paid(s, m, ip, start, requests) && BucketsOk(s, Kept(s, m, requests), End(start, requests))
  {
    hide *;
    var before, last := requests[..|requests| - 1], requests[|requests| - 1];
    var k := Keep(s, Kept(s, m, before), last);
    var t, now := End(start, before), last.at;
    LastOfRun(s, m, ip, start, requests);
    OnePaid(s, Kept(s, m, before), ip, t, last);
    InflowAdds(s, t - start, now - t);
    assert (t - start) + (now - t) == now - start;
    PaidMeans(s, m, ip, start, before);
    PaidMeans(s, m, ip, start, requests);
    SumPaid(AdmittedOf(ip, before, KeptDecisions(s, m, before)), if last.ip == ip && k.1.Admitted? then 1 else 0,
            LevelFor(s, Kept(s, m, before), ip, t), LevelFor(s, k.0, ip, now), LevelFor(s, m, ip, start),
            Inflow(s, t - start), Inflow(s, now - t));
  }

  lemma {:induction false} AdmissionsPaid(s: Settings, m: Buckets, ip: string, start: real, requests: seq<Request>)
    requires Valid(s) && BucketsOk(s, m, start) && Ordered(requests)
    requires requests != [] ==> start <= requests[0].at
    ensures Paid(s, m, ip, start, requests) && BucketsOk(s, Kept(s, m, requests), End(start, requests))
  {
    if requests == [] {
      InflowAdds(s, 0.0, 0.0);
    } else {
      hide Paid;
      hide BucketsOk;
      hide Kept;
      AdmissionsPaid(s, m, ip, start, requests[..|requests| - 1]);
      PaidStep(s, m, ip, start, requests);
    }
  }

  /** Admission bound: with buckets that refill within a lifetime, a client is admitted at most burst + rate * T
      times in any window of length T of any run, evictions included. */
  lemma {:induction false} AdmissionBound(s: Settings, first: seq<Request>, window: seq<Request>, ip: string, span: real)
    requires Valid(s) && s.ttl * s.rate >= s.burst as real && Ordered(first + window) && window != []
    requires window[|window| - 1].at - window[0].at <= span
    ensures AdmittedOf(ip, window, Decisions(s, After(s, EMPTY, first), window)) as real <= s.burst as real + s.rate * span
  {
    var m := Kept(s, map[], first);
    var start := window[0].at;
    assert End(start, window) == window[|window| - 1].at;
    OrderedParts(first, window);
    KeptOk(s, first, start);
    SameDecisionsLater(s, first, window);
    AdmissionsPaid(s, m, ip, start, window);
    hide *;
    PaidBound(s, m, ip, start, window, span);
  }

  /** What the limiter is for: in no window of any run is a client admitted more often than burst + rate * T. */
  ghost predicate AdmissionsBounded(s: Settings)
    requires Valid(s)
  {
    forall first: seq<Request>, window: seq<Request>, ip: string |
      Ordered(first + window) && window != [] ::
      AdmittedOf(ip, window, Decisions(s, After(s, EMPTY, first), window)) as real
      <= s.burst as real + s.rate * (window[|window| - 1].at - window[0].at)
  }

  lemma {:induction false} AllCounted(ip: string, requests: seq<Request>, decisions: seq<Decision>)
    requires |decisions| == |requests| && AllAdmitted(decisions) && forall i | 0 <= i < |requests| :: requests[i].ip == ip
    ensures AdmittedOf(ip, requests, decisions) == |requests|
  {
    if requests != [] {
      AllCounted(ip, requests[..|requests| - 1], decisions[..|requests| - 1]);
    }
  }

  lemma TwoBurstsShape(s: Settings)
    requires Valid(s)
    ensures var w := TwoBursts(s);
            && |w| == 2 * s.burst && w[|w| - 1].at - w[0].at == Rest(s)
            && forall i | 0 <= i < |w| :: w[i].ip == "a"
  {
    hide Rest;
    hide DrainAt;
  }

  lemma TwiceTheBurst(s: Settings)
    requires Valid(s) && s.ttl * s.rate < s.burst as real
    ensures var l := After(s, EMPTY, [Request("b", 0.0)]);
            AdmittedOf("a", TwoBursts(s), Decisions(s, l, TwoBursts(s))) == 2 * s.burst
  {
    var first, drain, again := [Request("b", 0.0)], Burst("a", DrainAt(s), s.burst), Burst("a", DrainAt(s) + Rest(s), s.burst);
    assert TwoBursts(s) == drain + again;
    hide *;
    var l := After(s, EMPTY, first);
    FirstRequest(s);
    DrainedAtFirst(s, l);
    EvictedStartsAfresh(s, After(s, l, drain));
    AfterConcat(s, l, drain, again);
    BothAdmitted(Decisions(s, l, drain), Decisions(s, After(s, l, drain), again));
    TwoBurstsShape(s);
    AllCounted("a", drain + again, Decisions(s, l, drain + again));
  }

  lemma BothAdmitted(a: seq<Decision>, b: seq<Decision>)
    requires AllAdmitted(a) && AllAdmitted(b)
    ensures AllAdmitted(a + b)
  {
  }

  /** The bound holds exactly if a bucket refills within a visitor's lifetime: otherwise a client that drains its
      bucket, rests until it is forgotten, and comes back is admitted twice its burst. */
  lemma {:induction false} AdmissionBoundExactly(s: Settings)
    requires Valid(s)
    ensures AdmissionsBounded(s) <==> s.ttl * s.rate >= s.burst as real
  {
    hide Decisions;
    hide After;
    hide AdmittedOf;
    hide Ordered;
    hide Rest;
    if s.ttl * s.rate >= s.burst as real {
      forall first: seq<Request>, window: seq<Request>, ip: string | Ordered(first + window) && window != []
        ensures AdmittedOf(ip, window, Decisions(s, After(s, EMPTY, first), window)) as real
             <= s.burst as real + s.rate * (window[|window| - 1].at - window[0].at)
      {
        AdmissionBound(s, first, window, ip, window[|window| - 1].at - window[0].at);
      }
    } else {
      WitnessOrdered(s);
      RestFits(s);
      TwoBurstsShape(s);
      TwiceTheBurst(s);
      assert Witness(s) == [Request("b", 0.0)] + TwoBursts(s);
      assert s.rate * Rest(s) == Inflow(s, Rest(s));
    }
  }

  lemma PaidBound(s: Settings, m: Buckets, ip: string, start: real, window: seq<Request>, span: real)
    requires Valid(s) && Paid(s, m, ip, start, window) && End(start, window) - start <= span
    requires BucketsOk(s, m, start) && BucketsOk(s, Kept(s, m, window), End(start, window))
    ensures AdmittedOf(ip, window, KeptDecisions(s, m, window)) as real <= s.burst as real + s.rate * span
  {
    hide *;
    PaidMeans(s, m, ip, start, window);
    LevelBounds(s, m, ip, start);
    LevelBounds(s, Kept(s, m, window), ip, End(start, window));
    InflowBounded(s, End(start, window) - start, span);
  }

  lemma InflowBounded(s: Settings, a: real, span: real)
    requires Valid(s) && a <= span
    ensures Inflow(s, a) <= s.rate * span
  {
    InflowGrows(s, a, span);
  }

  lemma KeptOk(s: Settings, requests: seq<Request>, now: real)
    requires Valid(s) && s.ttl * s.rate >= s.burst as real && Ordered(requests)
    requires requests != [] ==> Clock(requests) <= now
    ensures BucketsOk(s, Kept(s, map[], requests), now)
  {
    RunFollows(s, requests);
  }

  lemma SameDecisionsLater(s: Settings, first: seq<Request>, window: seq<Request>)
    requires Valid(s) && s.ttl * s.rate >= s.burst as real && Ordered(first + window)
    ensures Decisions(s, After(s, EMPTY, first), window) == KeptDecisions(s, Kept(s, map[], first), window)
  {
    OrderedParts(first, window);
    RunFollows(s, first);
    RunFollows(s, first + window);
    AfterConcat(s, EMPTY, first, window);
    KeptConcat(s, map[], first, window);
    var a, b := Decisions(s, After(s, EMPTY, first), window), KeptDecisions(s, Kept(s, map[], first), window);
    var d := Decisions(s, EMPTY, first);
    assert |d| == |first|;
    hide *;
    assert (d + a)[|d|..] == a && (d + b)[|d|..] == b;
  }

  lemma OrderedParts(first: seq<Request>, window: seq<Request>)
    requires Ordered(first + window)
    ensures Ordered(first) && Ordered(window)
    ensures first != [] && window != [] ==> Clock(first) <= window[0].at
  {
    var all := first + window;
    forall i, j | 0 <= i < j < |first| ensures first[i].at <= first[j].at {
      assert all[i] == first[i] && all[j] == first[j];
    }
    forall i, j | 0 <= i < j < |window| ensures window[i].at <= window[j].at {
      assert all[|first| + i] == window[i] && all[|first| + j] == window[j];
    }
    if first != [] && window != [] {
      assert all[|first| - 1] == first[|first| - 1] && all[|first|] == window[0];
    }
  }

  // ---- Retry-After keeps its word ----

  /** The client's own entry, unless evicted, is untouched by requests of others. */
  lemma {:induction false} OthersLeaveEntry(s: Settings, l: Limiter, ip: string, requests: seq<Request>)
    requires Valid(s) && ip in l.visitors && forall i | 0 <= i < |requests| :: requests[i].ip != ip
    ensures var v := After(s, l, requests); ip in v.visitors ==> v.visitors[ip] == l.visitors[ip]
  {
    if requests != [] {
      OthersLeaveEntry(s, l, ip, requests[..|requests| - 1]);
    }
  }

  ghost predicate VisitorsOk(s: Settings, l: Limiter, now: real) {
    forall ip | ip in l.visitors :: BucketOk(s, l.visitors[ip].bucket, now)
  }

  lemma HandleKeepsOk(s: Settings, l: Limiter, t: real, r: Request)
    requires Valid(s) && VisitorsOk(s, l, t) && t <= r.at
    ensures VisitorsOk(s, Handle(s, l, r).0, r.at) && BucketOk(s, BucketOf(s, Cleaned(s, l, r.at), r.ip, r.at), r.at)
  {
    NewIsFull(s, r.at);
    DecideKeepsOk(s, BucketOf(s, Cleaned(s, l, r.at), r.ip, r.at), r.at);
  }

  lemma {:induction false} EntriesOk(s: Settings, requests: seq<Request>)
    requires Valid(s) && Ordered(requests)
    ensures VisitorsOk(s, After(s, EMPTY, requests), Clock(requests))
  {
    if requests != [] {
      var before, last := requests[..|requests| - 1], requests[|requests| - 1];
      EntriesOk(s, before);
      HandleKeepsOk(s, After(s, EMPTY, before), if before == [] then last.at else Clock(before), last);
    }
  }

  lemma RejectedWaits(s: Settings, b: Bucket, now: real, again: real)
    requires Valid(s) && BucketOk(s, b, now) && Decide(s, b, now).1.Rejected?
    requires again >= now + Decide(s, b, now).1.retryAfter as real
    ensures Level(s, Decide(s, b, now).0, again) >= 1.0
  {
    var d := Decide(s, b, now);
    DecideByLevel(s, b, now);
    InflowGrows(s, d.1.delay, again - now);
    hide Inflow;
  }

  lemma OrderedBefore(first: seq<Request>, r: Request, others: seq<Request>, again: Request)
    requires Ordered(first + [r] + others + [again])
    ensures Ordered(first) && (first != [] ==> Clock(first) <= r.at)
  {
    var all := first + [r] + others + [again];
    assert all == first + ([r] + others + [again]);
    OrderedParts(first, [r] + others + [again]);
  }

  /** A rejected client that sends nothing for Retry-After seconds is admitted next, whatever others send
      meanwhile and whether or not it has been evicted. */
  lemma {:induction false} RetryAfterIsKept(s: Settings, first: seq<Request>, r: Request, others: seq<Request>, again: Request)
    requires Valid(s) && Ordered(first + [r] + others + [again]) && again.ip == r.ip
    requires forall i | 0 <= i < |others| :: others[i].ip != r.ip
    requires var d := Handle(s, After(s, EMPTY, first), r).1; d.Rejected? && again.at >= r.at + d.retryAfter as real
    ensures Handle(s, After(s, Handle(s, After(s, EMPTY, first), r).0, others), again).1.Admitted?
  {
    var l := After(s, EMPTY, first);
    OrderedBefore(first, r, others, again);
    EntriesOk(s, first);
    HandleKeepsOk(s, l, if first == [] then r.at else Clock(first), r);
    var b := BucketOf(s, Cleaned(s, l, r.at), r.ip, r.at);
    RejectedWaits(s, b, r.at, again.at);
    var rejected := Handle(s, l, r).0;
    assert r.ip in rejected.visitors && rejected.visitors[r.ip].bucket == Decide(s, b, r.at).0;
    assert rejected.visitors[r.ip].bucket.last == r.at;
    hide Level;
    hide Decide;
    hide Handle;
    hide After;
    OthersLeaveEntry(s, rejected, r.ip, others);
    AdmittedNext(s, After(s, rejected, others), again, rejected.visitors[r.ip].bucket);
  }

  lemma AdmittedNext(s: Settings, l: Limiter, r: Request, b: Bucket)
    requires Valid(s) && b.last <= r.at && Level(s, b, r.at) >= 1.0
    requires r.ip in l.visitors ==> l.visitors[r.ip].bucket == b
    ensures Handle(s, l, r).1.Admitted?
  {
    NewIsFull(s, r.at);
    DecideByLevel(s, BucketOf(s, Cleaned(s, l, r.at), r.ip, r.at), r.at);
    hide Level;
    hide Decide;
  }

  // ---- who is remembered ----

  /** When the client last sent a request. */
  function LastRequest(ip: string, requests: seq<Request>): Option<real> {
    if requests == [] then None
    else if requests[|requests| - 1].ip == ip then Some(requests[|requests| - 1].at)
    else LastRequest(ip, requests[..|requests| - 1])
  }

  /** The last sweep is less than an interval ago; who is remembered had been seen within a lifetime of it. */
  ghost predicate Remembers(s: Settings, l: Limiter, requests: seq<Request>)
    requires requests != []
  {
    && l.lastCleanup.Some? && l.lastCleanup.value <= Clock(requests) < l.lastCleanup.value + s.interval
    && (forall ip | ip in l.visitors ::
          LastRequest(ip, requests) == Some(l.visitors[ip].lastSeen) && l.lastCleanup.value - l.visitors[ip].lastSeen <= s.ttl)
    && (forall ip | LastRequest(ip, requests).Some? && Clock(requests) - LastRequest(ip, requests).value <= s.ttl :: ip in l.visitors)
  }

  lemma HandleRemembers(s: Settings, l: Limiter, before: seq<Request>, r: Request)
    requires Valid(s) && (if before == [] then l == EMPTY else Remembers(s, l, before) && Clock(before) <= r.at)
    ensures Remembers(s, Handle(s, l, r).0, before + [r])
  {
    hide Decide;
    var after := before + [r];
    assert after[..|after| - 1] == before;
    forall ip ensures LastRequest(ip, after) == if ip == r.ip then Some(r.at) else LastRequest(ip, before) {
    }
  }

  /** Memory: after any run a client is remembered if its last request is at most a visitor's lifetime ago, and only if
      it is less than a lifetime and a cleanup interval ago. */
  lemma {:induction false} MemoryIsBounded(s: Settings, requests: seq<Request>)
    requires Valid(s) && Ordered(requests) && requests != []
    ensures Remembers(s, After(s, EMPTY, requests), requests)
    ensures forall ip :: var last := LastRequest(ip, requests);
              && (ip in After(s, EMPTY, requests).visitors ==> last.Some? && Clock(requests) - last.value < s.ttl + s.interval)
              && (last.Some? && Clock(requests) - last.value <= s.ttl ==> ip in After(s, EMPTY, requests).visitors)
  {
    hide Handle;
    var before, r := requests[..|requests| - 1], requests[|requests| - 1];
    assert requests == before + [r];
    if before != [] {
      MemoryIsBounded(s, before);
    }
    HandleRemembers(s, After(s, EMPTY, before), before, r);
  }
}
