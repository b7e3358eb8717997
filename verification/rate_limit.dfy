/** The per-user token bucket.  Floating-point seconds and tokens are modelled as reals; a clock
    reading earlier than the last refill counts as no time passed, as `duration_since` does. */
module RateLimit {
  datatype Verdict = Allowed(tokensRemaining: nat) | Denied(retryAfter: real)

  datatype Bucket = Bucket(tokens: real, lastRefill: real)

  type Buckets = map<string, Bucket>

  /** A limiter's settings: tokens per second, what flows in over a stretch of time, and the clamped cap. */
  datatype Settings = Settings(rate: real, inflow: real -> real, max: nat)

  type Limits = l: Settings | l.rate > 0.0 && l.max >= 1 witness Settings(1.0, d => d, 1)

  /** `tokens_per_window` over `window`, with `max` raised to at least `tokens_per_window`. */
  function LimitsFor(tokensPerWindow: nat, window: real, max: nat): Limits
    requires tokensPerWindow >= 1 && window > 0.0
  {
    var rate := tokensPerWindow as real / window;
    Settings(rate, d => d * rate, if max < tokensPerWindow then tokensPerWindow else max)
  }

  predicate Adds(f: real -> real, a: real, b: real) {
    f(a + b) == f(a) + f(b) && f(a) >= 0.0 && f(b) >= 0.0
  }

  /** Tokens flow in at a steady rate: what the run properties need to know of `inflow`. */
  ghost predicate Steady(l: Limits) {
    forall a: real, b: real :: a >= 0.0 && b >= 0.0 ==> Adds(l.inflow, a, b)
  }

  lemma LimitsForIsSteady(tokensPerWindow: nat, window: real, max: nat)
    requires tokensPerWindow >= 1 && window > 0.0
    ensures var l := LimitsFor(tokensPerWindow, window, max);
      Steady(l) && l.rate == tokensPerWindow as real / window && forall d: real :: AtRate(l, d)
  {
    var l := LimitsFor(tokensPerWindow, window, max);
    forall a: real, b: real | a >= 0.0 && b >= 0.0 ensures Adds(l.inflow, a, b) {
      Distribute(l.rate, a, b);
    }
  }

  lemma Distribute(r: real, a: real, b: real)
    requires r > 0.0 && a >= 0.0 && b >= 0.0
    ensures (a + b) * r == a * r + b * r && a * r >= 0.0 && b * r >= 0.0
  {
  }

  function Min(a: real, b: real): real { if a <= b then a else b }

  function Elapsed(from: real, now: real): real { if now >= from then now - from else 0.0 }

  function Entry(l: Limits, bs: Buckets, user: string, now: real): Bucket {
    if user in bs then bs[user] else Bucket(l.max as real, now)
  }

  /** The tokens a user would hold at `now`. */
  function Level(l: Limits, bs: Buckets, user: string, now: real): real {
    var b := Entry(l, bs, user, now);
    Min(b.tokens + l.inflow(Elapsed(b.lastRefill, now)), l.max as real)
  }

  function Judge(l: Limits, level: real): Verdict {
    if level >= 1.0 then Allowed((level - 1.0).Floor) else Denied((1.0 - level) / l.rate)
  }

  ghost predicate Healthy(l: Limits, bs: Buckets) {
    forall u :: u in bs ==> 0.0 <= bs[u].tokens <= l.max as real
  }

  lemma LevelIsBounded(l: Limits, bs: Buckets, user: string, now: real)
    requires Steady(l) && Healthy(l, bs)
    ensures 0.0 <= Level(l, bs, user, now) <= l.max as real
    ensures user !in bs ==> Level(l, bs, user, now) == l.max as real
  {
    var b := Entry(l, bs, user, now);
    assert Adds(l.inflow, Elapsed(b.lastRefill, now), 0.0);
    assert Adds(l.inflow, 0.0, 0.0);
  }

  function Next(l: Limits, bs: Buckets, user: string, now: real): Buckets {
    var level := Level(l, bs, user, now);
    bs[user := Bucket(if level >= 1.0 then level - 1.0 else level, now)]
  }

  lemma NextIsHealthy(l: Limits, bs: Buckets, user: string, now: real)
    requires Steady(l) && Healthy(l, bs)
    ensures Healthy(l, Next(l, bs, user, now))
  {
    LevelIsBounded(l, bs, user, now);
  }

  class RateLimitPerUser {
    const limits: Limits
    var buckets: Buckets

    ghost predicate Valid()
      reads this
    {
      Steady(limits) && Healthy(limits, buckets)
    }

    /** `max` is clamped up to the long-run rate. */
    constructor (tokensPerWindow: nat, window: real, max: nat)
      requires tokensPerWindow >= 1 && window > 0.0
      ensures Valid() && buckets == map[]
      ensures limits == LimitsFor(tokensPerWindow, window, max)
    {
      LimitsForIsSteady(tokensPerWindow, window, max);
      limits := LimitsFor(tokensPerWindow, window, max);
      buckets := map[];
    }

    method TryAcquireAt(user: string, now: real) returns (v: Verdict)
      requires Valid()
      modifies this
      ensures Valid()
      ensures buckets == Next(limits, old(buckets), user, now)
      ensures v == Judge(limits, Level(limits, old(buckets), user, now))
      ensures user in buckets && buckets[user].lastRefill == now && buckets - {user} == old(buckets) - {user}
      ensures user !in old(buckets) ==> v == Allowed(limits.max - 1) && buckets[user].tokens == limits.max as real - 1.0
      ensures v.Allowed? ==> v.tokensRemaining == buckets[user].tokens.Floor
      ensures v.Denied? ==> buckets[user].tokens < 1.0
    {
      NextIsHealthy(limits, buckets, user, now);
      LevelIsBounded(limits, buckets, user, now);
      hide Steady;
      hide Healthy;
      var max := limits.max as real;
      var bucket := if user in buckets then buckets[user] else Bucket(max, now);
      var elapsed := Elapsed(bucket.lastRefill, now);
      bucket := Bucket(Min(bucket.tokens + limits.inflow(elapsed), max), now);
      if bucket.tokens >= 1.0 {
        bucket := bucket.(tokens := bucket.tokens - 1.0);
        v := Allowed(bucket.tokens.Floor);
      } else {
        var needed := 1.0 - bucket.tokens;
        v := Denied(needed / limits.rate);
      }
      buckets := buckets[user := bucket];
    }
  }

  // ---------------------------------------------------------------- lazy refill composes

  ghost predicate Recent(bs: Buckets, now: real) {
    forall u :: u in bs ==> bs[u].lastRefill <= now
  }

  lemma Split(l: Limits, a: real, b: real, c: real)
    requires Steady(l) && a <= b <= c
    ensures l.inflow(c - a) == l.inflow(b - a) + l.inflow(c - b)
    ensures l.inflow(b - a) >= 0.0 && l.inflow(c - b) >= 0.0
  {
    assert Adds(l.inflow, b - a, c - b);
    assert (b - a) + (c - b) == c - a;
  }

  /** Waiting in two stretches refills as much as waiting once, cap or no cap. */
  lemma RefillComposes(l: Limits, bs: Buckets, user: string, t: real, t': real)
    requires Steady(l) && Healthy(l, bs) && Recent(bs, t) && t <= t'
    ensures Level(l, bs, user, t') == Min(Level(l, bs, user, t) + l.inflow(t' - t), l.max as real)
  {
    if user in bs {
      Split(l, bs[user].lastRefill, t, t');
    } else {
      LevelIsBounded(l, bs, user, t);
      LevelIsBounded(l, bs, user, t');
      Split(l, t, t, t');
    }
  }

  /** One call costs its own user one token if it is allowed and nothing else, now or later. */
  lemma CallCosts(l: Limits, bs: Buckets, caller: string, now: real, user: string)
    requires Steady(l) && Healthy(l, bs) && Recent(bs, now)
    ensures var before := Level(l, bs, user, now);
      Level(l, Next(l, bs, caller, now), user, now) ==
      if user == caller && before >= 1.0 then before - 1.0 else before
    ensures Recent(Next(l, bs, caller, now), now) && Healthy(l, Next(l, bs, caller, now))
  {
    NextIsHealthy(l, bs, caller, now);
    LevelIsBounded(l, bs, user, now);
    assert Adds(l.inflow, 0.0, 0.0);
    assert now - now == 0.0;
  }

  // ---------------------------------------------------------------- runs

  datatype Call = Call(user: string, at: real)

  function Verdicts(l: Limits, bs: Buckets, calls: seq<Call>): (vs: seq<Verdict>)
    ensures |vs| == |calls|
    decreases |calls|
  {
    if calls == [] then []
    else
      [Judge(l, Level(l, bs, calls[0].user, calls[0].at))]
      + Verdicts(l, Next(l, bs, calls[0].user, calls[0].at), calls[1..])
  }

  function Afterwards(l: Limits, bs: Buckets, calls: seq<Call>): Buckets
    decreases |calls|
  {
    if calls == [] then bs else Afterwards(l, Next(l, bs, calls[0].user, calls[0].at), calls[1..])
  }

  ghost predicate InOrder(calls: seq<Call>, from: real) {
    && (forall c :: c in calls ==> from <= c.at)
    && (forall i, j :: 0 <= i < j < |calls| ==> calls[i].at <= calls[j].at)
  }

  lemma TailInOrder(calls: seq<Call>, from: real)
    requires calls != [] && InOrder(calls, from)
    ensures from <= calls[0].at && InOrder(calls[1..], calls[0].at)
  {
    assert calls[0] in calls;
    forall c | c in calls[1..] ensures calls[0].at <= c.at {
      var i :| 1 <= i < |calls| && calls[i] == c;
    }
  }

  /** How many of the user's calls in [s, t] were allowed. */
  function AllowedIn(calls: seq<Call>, vs: seq<Verdict>, user: string, s: real, t: real): nat
    requires |calls| == |vs|
    decreases |calls|
  {
    if calls == [] then 0
    else
      (if calls[0].user == user && s <= calls[0].at <= t && vs[0].Allowed? then 1 else 0)
      + AllowedIn(calls[1..], vs[1..], user, s, t)
  }

  function AllowedInRun(l: Limits, bs: Buckets, calls: seq<Call>, user: string, s: real, t: real): nat {
    AllowedIn(calls, Verdicts(l, bs, calls), user, s, t)
  }

  lemma RunHead(l: Limits, bs: Buckets, calls: seq<Call>, user: string, s: real, t: real)
    requires calls != []
    ensures var c := calls[0];
      AllowedInRun(l, bs, calls, user, s, t) ==
      (if c.user == user && s <= c.at <= t && Level(l, bs, user, c.at) >= 1.0 then 1 else 0)
      + AllowedInRun(l, Next(l, bs, c.user, c.at), calls[1..], user, s, t)
  {
    var vs := Verdicts(l, bs, calls);
    assert vs[1..] == Verdicts(l, Next(l, bs, calls[0].user, calls[0].at), calls[1..]);
  }

  /** From the moment `from` on, allowed calls are paid from the level at `from` and what flows in. */
  lemma {:induction false} AllowedIsPaidFor(l: Limits, bs: Buckets, calls: seq<Call>, user: string,
                                            s: real, t: real, from: real)
    requires Steady(l) && Healthy(l, bs) && Recent(bs, from) && InOrder(calls, from)
    ensures from <= t ==>
      AllowedInRun(l, bs, calls, user, s, t) as real <= Level(l, bs, user, from) + l.inflow(t - from)
    ensures from > t ==> AllowedInRun(l, bs, calls, user, s, t) == 0
    decreases |calls|
  {
    LevelIsBounded(l, bs, user, from);
    if from <= t { Split(l, from, from, t); }
    if calls != [] {
      var c := calls[0];
      TailInOrder(calls, from);
      RunHead(l, bs, calls, user, s, t);
      CallCosts(l, bs, c.user, c.at, user);
      AllowedIsPaidFor(l, Next(l, bs, c.user, c.at), calls[1..], user, s, t, c.at);
      if c.at <= t {
        RefillComposes(l, bs, user, from, c.at);
        Split(l, from, c.at, t);
      }
    }
  }

  lemma {:induction false} RunBoundFrom(l: Limits, bs: Buckets, calls: seq<Call>, user: string,
                                        s: real, t: real, from: real)
    requires Steady(l) && Healthy(l, bs) && Recent(bs, from) && InOrder(calls, from) && s <= t
    ensures AllowedInRun(l, bs, calls, user, s, t) as real <= l.max as real + l.inflow(t - s)
    decreases |calls|
  {
    Split(l, s, s, t);
    if calls != [] {
      var c := calls[0];
      TailInOrder(calls, from);
      if c.at < s {
        RunHead(l, bs, calls, user, s, t);
        CallCosts(l, bs, c.user, c.at, user);
        RunBoundFrom(l, Next(l, bs, c.user, c.at), calls[1..], user, s, t, c.at);
      } else {
        StartAtHead(calls, from);
        AllowedIsPaidFor(l, bs, calls, user, s, t, c.at);
        LevelIsBounded(l, bs, user, c.at);
        if c.at <= t { Split(l, s, c.at, t); }
      }
    }
  }

  lemma StartAtHead(calls: seq<Call>, from: real)
    requires calls != [] && InOrder(calls, from)
    ensures InOrder(calls, calls[0].at)
  {
    TailInOrder(calls, from);
    assert calls == [calls[0]] + calls[1..];
  }

  /** Main result: in any run from fresh buckets at non-decreasing times, whatever other users do, a
      user is allowed at most `max + rate * (t - s)` calls in any interval [s, t]. */
  lemma RunBound(tokensPerWindow: nat, window: real, max: nat, calls: seq<Call>, user: string,
                 s: real, t: real, from: real)
    requires tokensPerWindow >= 1 && window > 0.0 && InOrder(calls, from) && s <= t
    ensures var l := LimitsFor(tokensPerWindow, window, max);
      AllowedInRun(l, map[], calls, user, s, t) as real <=
      l.max as real + (t - s) * (tokensPerWindow as real / window)
  {
    LimitsForIsSteady(tokensPerWindow, window, max);
    assert AtRate(LimitsFor(tokensPerWindow, window, max), t - s);
    RunBoundFrom(LimitsFor(tokensPerWindow, window, max), map[], calls, user, s, t, from);
  }

  // ---------------------------------------------------------------- what the settings buy

  /** `tokens_per_window` tokens flow in per window, and the cap is the larger of the two parameters. */
  lemma SettingsMean(tokensPerWindow: nat, window: real, max: nat)
    requires tokensPerWindow >= 1 && window > 0.0
    ensures var l := LimitsFor(tokensPerWindow, window, max);
      && l.inflow(window) == tokensPerWindow as real && l.inflow(0.0) == 0.0 && Steady(l)
      && l.rate * window == tokensPerWindow as real
      && l.max >= tokensPerWindow && l.max >= max && l.max in {tokensPerWindow, max}
  {
    LimitsForIsSteady(tokensPerWindow, window, max);
    assert AtRate(LimitsFor(tokensPerWindow, window, max), window);
  }

  /** A reading before the user's last call counts as no time passed: nothing flows in. */
  lemma EarlierReadingAddsNothing(l: Limits, bs: Buckets, user: string, now: real)
    requires Steady(l) && Healthy(l, bs) && user in bs && now <= bs[user].lastRefill
    ensures Level(l, bs, user, now) == bs[user].tokens
  {
    assert Adds(l.inflow, 0.0, 0.0);
    assert now == bs[user].lastRefill ==> now - bs[user].lastRefill == 0.0;
  }

  function Burst(user: string, at: real, n: nat): seq<Call> {
    seq(n, _ => Call(user, at))
  }

  /** With k whole tokens, k calls at one instant are allowed, and the rest wait for one token. */
  lemma {:induction false} BurstFrom(l: Limits, bs: Buckets, user: string, at: real, k: nat, n: nat)
    requires Steady(l) && Healthy(l, bs) && Recent(bs, at) && Level(l, bs, user, at) == k as real
    ensures Verdicts(l, bs, Burst(user, at, n)) ==
      seq(n, i requires 0 <= i < n => if i < k then Allowed(k - 1 - i) else Denied(1.0 / l.rate))
    decreases n
  {
    if n > 0 {
      CallCosts(l, bs, user, at, user);
      assert Burst(user, at, n)[1..] == Burst(user, at, n - 1);
      BurstFrom(l, Next(l, bs, user, at), user, at, if k > 0 then k - 1 else 0, n - 1);
    }
  }

  /** Main result: a user never seen before is allowed exactly the larger parameter of calls at one
      instant, the remaining count falling by one each time; the next is told to wait window / tokens. */
  lemma FreshUserBurst(tokensPerWindow: nat, window: real, max: nat, user: string, at: real, n: nat)
    requires tokensPerWindow >= 1 && window > 0.0
    ensures var cap := if max >= tokensPerWindow then max else tokensPerWindow;
      var vs := Verdicts(LimitsFor(tokensPerWindow, window, max), map[], Burst(user, at, n));
      forall i :: 0 <= i < n ==>
        vs[i] == if i < cap then Allowed(cap - 1 - i) else Denied(window / tokensPerWindow as real)
  {
    var l := LimitsFor(tokensPerWindow, window, max);
    LimitsForIsSteady(tokensPerWindow, window, max);
    LevelIsBounded(l, map[], user, at);
    BurstFrom(l, map[], user, at, l.max, n);
    Inverted(tokensPerWindow as real, window);
  }

  lemma Inverted(tokens: real, window: real)
    requires tokens > 0.0 && window > 0.0
    ensures 1.0 / (tokens / window) == window / tokens
  {
    assert tokens / window * window == tokens;
    Quotient(tokens / window, window, tokens);
  }

  lemma Quotient(rate: real, window: real, tokens: real)
    requires rate > 0.0 && window > 0.0 && tokens == rate * window
    ensures tokens > 0.0 && 1.0 / rate == window / tokens
  {
    var wait := 1.0 / rate;
    assert wait * rate == 1.0;
    assert wait * tokens == (wait * rate) * window;
    assert wait * tokens / tokens == wait;
  }

  // ---------------------------------------------------------------- users do not affect each other

  function Mine(calls: seq<Call>, user: string): seq<Call> {
    if calls == [] then []
    else if calls[0].user == user then [calls[0]] + Mine(calls[1..], user)
    else Mine(calls[1..], user)
  }

  function MyVerdicts(calls: seq<Call>, vs: seq<Verdict>, user: string): seq<Verdict>
    requires |calls| == |vs|
  {
    if calls == [] then []
    else if calls[0].user == user then [vs[0]] + MyVerdicts(calls[1..], vs[1..], user)
    else MyVerdicts(calls[1..], vs[1..], user)
  }

  ghost predicate SameBucket(a: Buckets, b: Buckets, user: string) {
    (user in a <==> user in b) && (user in a ==> a[user] == b[user])
  }

  /** Main result: a user gets exactly the verdicts it would get with nobody else calling. */
  lemma {:induction false} UsersAreIndependent(l: Limits, a: Buckets, b: Buckets, calls: seq<Call>, user: string)
    requires Steady(l) && Healthy(l, a) && Healthy(l, b) && SameBucket(a, b, user)
    ensures MyVerdicts(calls, Verdicts(l, a, calls), user) == Verdicts(l, b, Mine(calls, user))
    decreases |calls|
  {
    if calls != [] {
      var c := calls[0];
      LevelIsBounded(l, a, c.user, c.at);
      NextIsHealthy(l, a, c.user, c.at);
      var vs := Verdicts(l, a, calls);
      assert vs[1..] == Verdicts(l, Next(l, a, c.user, c.at), calls[1..]);
      if c.user == user {
        NextIsHealthy(l, b, user, c.at);
        UsersAreIndependent(l, Next(l, a, user, c.at), Next(l, b, user, c.at), calls[1..], user);
        assert Mine(calls, user)[1..] == Mine(calls[1..], user);
      } else {
        UsersAreIndependent(l, Next(l, a, c.user, c.at), b, calls[1..], user);
      }
    }
  }

  // ---------------------------------------------------------------- retry_after is exact

  ghost predicate NoneAllowed(l: Limits, bs: Buckets, calls: seq<Call>, user: string)
    decreases |calls|
  {
    calls == [] ||
    ((calls[0].user == user ==> Level(l, bs, user, calls[0].at) < 1.0)
     && NoneAllowed(l, Next(l, bs, calls[0].user, calls[0].at), calls[1..], user))
  }

  lemma {:induction false} LevelOnlyRefills(l: Limits, bs: Buckets, calls: seq<Call>, user: string, from: real, at: real)
    requires Steady(l) && Healthy(l, bs) && Recent(bs, from) && InOrder(calls, from)
    requires from <= at && forall c :: c in calls ==> c.at <= at
    requires NoneAllowed(l, bs, calls, user)
    ensures Level(l, Afterwards(l, bs, calls), user, at) == Level(l, bs, user, at)
    ensures Healthy(l, Afterwards(l, bs, calls)) && Recent(Afterwards(l, bs, calls), at)
    decreases |calls|
  {
    if calls != [] {
      var c := calls[0];
      TailInOrder(calls, from);
      assert c in calls && Recent(bs, c.at);
      CallCosts(l, bs, c.user, c.at, user);
      var bs' := Next(l, bs, c.user, c.at);
      LevelOnlyRefills(l, bs', calls[1..], user, c.at, at);
      RefillComposes(l, bs, user, c.at, at);
      RefillComposes(l, bs', user, c.at, at);
    }
  }

  /** Main result: after a denial at `t` with `retry_after` r, as long as nothing else is allowed for
      that user, a call at `u` is allowed exactly when `u >= t + r`. */
  lemma RetryAfterIsExact(l: Limits, bs: Buckets, user: string, t: real, between: seq<Call>, u: real)
    requires Steady(l) && forall d: real :: AtRate(l, d)
    requires Healthy(l, bs) && Recent(bs, t) && t <= u
    requires Judge(l, Level(l, bs, user, t)).Denied?
    requires InOrder(between, t) && forall c :: c in between ==> c.at <= u
    requires NoneAllowed(l, Next(l, bs, user, t), between, user)
    ensures var r := Judge(l, Level(l, bs, user, t)).retryAfter;
      Judge(l, Level(l, Afterwards(l, Next(l, bs, user, t), between), user, u)).Allowed? <==> u >= t + r
  {
    CallCosts(l, bs, user, t, user);
    var bs' := Next(l, bs, user, t);
    LevelOnlyRefills(l, bs', between, user, t, u);
    RefillComposes(l, bs', user, t, u);
    assert AtRate(l, u - t);
    WaitReachesOne(l, Level(l, bs, user, t), u - t);
  }

  predicate AtRate(l: Limits, d: real) {
    l.inflow(d) == d * l.rate
  }

  lemma WaitReachesOne(l: Limits, level: real, wait: real)
    requires AtRate(l, wait)
    ensures Min(level + l.inflow(wait), l.max as real) >= 1.0 <==> wait >= (1.0 - level) / l.rate
  {
    Reach(1.0 - level, l.rate, wait);
  }

  lemma Reach(needed: real, rate: real, wait: real)
    requires rate > 0.0
    ensures wait * rate >= needed <==> wait >= needed / rate
  {
    var r := needed / rate;
    assert r * rate == needed;
    assert (wait - r) * rate == wait * rate - needed;
    SignOfProduct(wait - r, rate);
  }

  lemma SignOfProduct(x: real, rate: real)
    requires rate > 0.0
    ensures x >= 0.0 <==> x * rate >= 0.0
  {
  }

  // ---------------------------------------------------------------- denied calls leave no trace

  function Granted(calls: seq<Call>, vs: seq<Verdict>): seq<Call>
    requires |calls| == |vs|
  {
    if calls == [] then []
    else if vs[0].Allowed? then [calls[0]] + Granted(calls[1..], vs[1..])
    else Granted(calls[1..], vs[1..])
  }

  function Grants(vs: seq<Verdict>): seq<Verdict> {
    if vs == [] then [] else if vs[0].Allowed? then [vs[0]] + Grants(vs[1..]) else Grants(vs[1..])
  }

  ghost predicate SameLevels(l: Limits, a: Buckets, b: Buckets, at: real)
  {
    forall u :: Level(l, a, u, at) == Level(l, b, u, at)
  }

  lemma SameLevelsLater(l: Limits, a: Buckets, b: Buckets, from: real, at: real)
    requires Steady(l) && Healthy(l, a) && Healthy(l, b) && Recent(a, from) && Recent(b, from) && from <= at
    requires SameLevels(l, a, b, from)
    ensures SameLevels(l, a, b, at)
  {
    forall u ensures Level(l, a, u, at) == Level(l, b, u, at) {
      RefillComposes(l, a, u, from, at);
      RefillComposes(l, b, u, from, at);
    }
  }

  lemma SameLevelsAfter(l: Limits, a: Buckets, b: Buckets, c: Call)
    requires Steady(l) && Healthy(l, a) && Healthy(l, b) && Recent(a, c.at) && Recent(b, c.at)
    requires SameLevels(l, a, b, c.at)
    ensures SameLevels(l, Next(l, a, c.user, c.at), if Level(l, a, c.user, c.at) >= 1.0 then Next(l, b, c.user, c.at) else b, c.at)
  {
    var a', b' := Next(l, a, c.user, c.at), Next(l, b, c.user, c.at);
    forall u ensures Level(l, a', u, c.at) == Level(l, if Level(l, a, c.user, c.at) >= 1.0 then b' else b, u, c.at) {
      CallCosts(l, a, c.user, c.at, u);
      CallCosts(l, b, c.user, c.at, u);
    }
  }

  /** Main result: deleting every denied call from a run changes no other verdict. */
  lemma {:induction false} DeniedCallsLeaveNoTrace(l: Limits, a: Buckets, b: Buckets, calls: seq<Call>, from: real)
    requires Steady(l) && Healthy(l, a) && Healthy(l, b) && Recent(a, from) && Recent(b, from)
    requires SameLevels(l, a, b, from) && InOrder(calls, from)
    ensures Verdicts(l, b, Granted(calls, Verdicts(l, a, calls))) == Grants(Verdicts(l, a, calls))
    decreases |calls|
  {
    if calls != [] {
      var c := calls[0];
      TailInOrder(calls, from);
      assert Recent(a, c.at) && Recent(b, c.at);
      SameLevelsLater(l, a, b, from, c.at);
      LevelIsBounded(l, a, c.user, c.at);
      SameLevelsAfter(l, a, b, c);
      CallCosts(l, a, c.user, c.at, c.user);
      CallCosts(l, b, c.user, c.at, c.user);
      var a', b' := Next(l, a, c.user, c.at), Next(l, b, c.user, c.at);
      var vs := Verdicts(l, a, calls);
      assert vs[1..] == Verdicts(l, a', calls[1..]);
      if vs[0].Allowed? {
        DeniedCallsLeaveNoTrace(l, a', b', calls[1..], c.at);
        assert Granted(calls, vs)[1..] == Granted(calls[1..], vs[1..]);
      } else {
        DeniedCallsLeaveNoTrace(l, a', b, calls[1..], c.at);
      }
    }
  }
}
