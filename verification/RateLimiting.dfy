/** The per-user token bucket of the gateway. Clock readings are minutes, as in the
    refill formula; every user starts with a full bucket of `rate` tokens. */
module RateLimiting {

  datatype Bucket = Bucket(tokens: real, lastRefillAt: real)

  /** One call to the limiter: `created` is read only when the user is new. */
  datatype Call = Call(user: string, created: real, now: real)

  function Min(a: real, b: real): real { if a < b then a else b }

  function Cost(allowed: bool): real { if allowed then 1.0 else 0.0 }

  /** Tokens earned between two clock readings. */
  function Gain(rate: real, from: real, to: real): real { (to - from) * rate }

  // ---- What the limiter does to its table of buckets --------------------------------

  function Refill(b: Bucket, rate: real, now: real): Bucket {
    Bucket(Min(rate, b.tokens + Gain(rate, b.lastRefillAt, now)), now)
  }

  /** Refill, then take one token if a whole one is there. */
  function TakeToken(b: Bucket, rate: real, now: real): (Bucket, bool) {
    var full := Refill(b, rate, now);
    var ok := full.tokens >= 1.0;
    (full.(tokens := full.tokens - Cost(ok)), ok)
  }

  function AllowStep(buckets: map<string, Bucket>, call: Call, rate: real): (map<string, Bucket>, bool) {
    if rate == 0.0 then (buckets, true)
    else
      var b := if call.user in buckets then buckets[call.user] else Bucket(rate, call.created);
      var (after, ok) := TakeToken(b, rate, call.now);
      (buckets[call.user := after], ok)
  }

  class UserRateLimit {
    var tokens: real
    var lastRefillAt: real

    constructor (tokens: real, lastRefillAt: real)
      ensures this.tokens == tokens && this.lastRefillAt == lastRefillAt
    {
      this.tokens, this.lastRefillAt := tokens, lastRefillAt;
    }

    function Value(): Bucket
      reads this
    {
      Bucket(tokens, lastRefillAt)
    }

    /** The part of the limiter that runs under the user's own lock. */
    method Take(rate: real, now: real) returns (ok: bool)
      modifies this
      ensures (Value(), ok) == TakeToken(old(Value()), rate, now)
    {
      var tokensToAdd := Gain(rate, lastRefillAt, now);
      var newTokens := tokens + tokensToAdd;
      if newTokens > rate {
        tokens := rate;
      } else {
        tokens := newTokens;
      }
      lastRefillAt := now;
      if tokens >= 1.0 {
        tokens := tokens - 1.0;
        return true;
      }
      return false;
    }
  }

  class RateLimiter {
    var limits: map<string, UserRateLimit>

    ghost predicate Valid()
      reads this
    {
      forall u, v | u in limits && v in limits && u != v :: limits[u] != limits[v]
    }

    ghost function Buckets(): map<string, Bucket>
      reads this, limits.Values
    {
      map u | u in limits :: limits[u].Value()
    }

    constructor ()
      ensures Valid() && Buckets() == map[]
    {
      limits := map[];
    }

    /** The critical section under the limiter's lock: find the user's bucket or create it, full. */
    method FindOrCreate(user: string, rate: real, created: real) returns (limit: UserRateLimit)
      requires Valid()
      modifies this
      ensures Valid() && fresh(limits.Values - old(limits.Values))
      ensures user in limits && limit == limits[user]
      ensures Buckets() == if user in old(limits) then old(Buckets()) else old(Buckets())[user := Bucket(rate, created)]
    {
      if user !in limits {
        limit := new UserRateLimit(rate, created);
        limits := limits[user := limit];
      }
      limit := limits[user];
    }

    /** The rest runs under the user's own lock and changes that bucket alone. */
    method Charge(user: string, limit: UserRateLimit, rate: real, now: real) returns (ok: bool)
      requires Valid() && user in limits && limits[user] == limit
      modifies limit
      ensures Buckets() == old(Buckets())[user := TakeToken(old(Buckets()[user]), rate, now).0]
      ensures ok == TakeToken(old(Buckets()[user]), rate, now).1
    {
      hide TakeToken;
      ok := limit.Take(rate, now);
      assert forall u | u in limits && u != user :: limits[u] != limit;
    }

    method Allow(user: string, rate: real, created: real, now: real) returns (ok: bool)
      requires Valid()
      modifies this, limits.Values
      ensures Valid() && fresh(limits.Values - old(limits.Values))
      ensures (Buckets(), ok) == AllowStep(old(Buckets()), Call(user, created, now), rate)
    {
      hide TakeToken;
      if rate == 0.0 {
        return true;
      }
      var limit := FindOrCreate(user, rate, created);
      ghost var found := Buckets();
      ghost var after := TakeToken(found[user], rate, now).0;
      assert found[user := after] == old(Buckets())[user := after];
      ok := Charge(user, limit, rate, now);
    }
  }

  /** The decisions of a whole run, and the table it leaves. */
  function Run(calls: seq<Call>, rate: real): (r: (map<string, Bucket>, seq<bool>))
    ensures |r.1| == |calls|
  {
    if calls == [] then (map[], [])
    else
      var before := Run(calls[..|calls| - 1], rate);
      var (buckets, ok) := AllowStep(before.0, calls[|calls| - 1], rate);
      (buckets, before.1 + [ok])
  }

  // ---- One user's calls, and any way of choosing which to admit ---------------------

  lemma GainSplits(rate: real, from: real, mid: real, to: real)
    ensures Gain(rate, from, to) == Gain(rate, from, mid) + Gain(rate, mid, to)
  {
  }

  lemma GainNonNegative(rate: real, from: real, to: real)
    requires rate > 0.0 && from <= to
    ensures Gain(rate, from, to) >= 0.0
  {
  }

  /** Tokens just before call `n` is decided, when the earlier calls were decided as in `taken`. */
  function Level(rate: real, times: seq<real>, taken: seq<bool>, n: nat): real
    requires n < |times| && n <= |taken|
  {
    if n == 0 then rate
    else Min(rate, Level(rate, times, taken, n - 1) - Cost(taken[n - 1]) + Gain(rate, times[n - 1], times[n]))
  }

  /** What the limiter decides: admit whenever a whole token is there. */
  function Decisions(rate: real, times: seq<real>): (ds: seq<bool>)
    ensures |ds| == |times|
  {
    if times == [] then []
    else
      var n := |times| - 1;
      var earlier := Decisions(rate, times[..n]);
      earlier + [Level(rate, times, earlier, n) >= 1.0]
  }

  function Count(taken: seq<bool>, k: nat, n: nat): (c: nat)
    requires k <= n <= |taken|
    ensures c <= n - k
  {
    if k == n then 0 else Count(taken, k, n - 1) + if taken[n - 1] then 1 else 0
  }

  /** Admitting call `n` keeps every window that ends at it within rate + rate * length. */
  ghost predicate Fits(rate: real, times: seq<real>, taken: seq<bool>, n: nat)
    requires n < |times| && n <= |taken|
  {
    forall k: nat | k <= n :: Count(taken, k, n) as real + 1.0 <= rate + Gain(rate, times[k], times[n])
  }

  lemma {:induction false} LevelBelowWindow(rate: real, times: seq<real>, taken: seq<bool>, k: nat, n: nat)
    requires k <= n < |times| && n <= |taken|
    ensures Level(rate, times, taken, n) <= rate + Gain(rate, times[k], times[n]) - Count(taken, k, n) as real
  {
    if k < n {
      LevelBelowWindow(rate, times, taken, k, n - 1);
      GainSplits(rate, times[k], times[n - 1], times[n]);
    }
  }

  lemma {:induction false} LevelIsSomeWindow(rate: real, times: seq<real>, taken: seq<bool>, n: nat) returns (k: nat)
    requires n < |times| && n <= |taken|
    ensures k <= n
    ensures Level(rate, times, taken, n) == rate + Gain(rate, times[k], times[n]) - Count(taken, k, n) as real
  {
    if n == 0 || Level(rate, times, taken, n) == rate {
      k := n;
    } else {
      k := LevelIsSomeWindow(rate, times, taken, n - 1);
      GainSplits(rate, times[k], times[n - 1], times[n]);
    }
  }

  /** The bucket level is the tightest of all windows ending at the call. */
  lemma LevelIffFits(rate: real, times: seq<real>, taken: seq<bool>, n: nat)
    requires n < |times| && n <= |taken|
    ensures Level(rate, times, taken, n) >= 1.0 <==> Fits(rate, times, taken, n)
  {
    forall k: nat | k <= n
      ensures Level(rate, times, taken, n) <= rate + Gain(rate, times[k], times[n]) - Count(taken, k, n) as real
    {
      LevelBelowWindow(rate, times, taken, k, n);
    }
    var k := LevelIsSomeWindow(rate, times, taken, n);
  }

  lemma {:induction false} LevelFrame(rate: real, ts: seq<real>, us: seq<real>, s: seq<bool>, t: seq<bool>, n: nat)
    requires n < |ts| && n < |us| && n <= |s| && n <= |t|
    requires forall i | 0 <= i <= n :: ts[i] == us[i]
    requires forall i | 0 <= i < n :: s[i] == t[i]
    ensures Level(rate, ts, s, n) == Level(rate, us, t, n)
  {
    if n > 0 {
      LevelFrame(rate, ts, us, s, t, n - 1);
    }
  }

  lemma {:induction false} DecisionsPrefix(rate: real, times: seq<real>, m: nat)
    requires m <= |times|
    ensures Decisions(rate, times)[..m] == Decisions(rate, times[..m])
  {
    if m == |times| {
      assert times[..m] == times;
    } else {
      var n := |times| - 1;
      DecisionsPrefix(rate, times[..n], m);
      assert times[..n][..m] == times[..m];
    }
  }

  lemma DecisionsAt(rate: real, times: seq<real>, n: nat)
    requires n < |times|
    ensures Decisions(rate, times)[n] <==> Level(rate, times, Decisions(rate, times), n) >= 1.0
  {
    var ds := Decisions(rate, times);
    var upTo := times[..n + 1];
    DecisionsPrefix(rate, times, n + 1);
    DecisionsPrefix(rate, times, n);
    assert upTo[..n] == times[..n];
    assert Decisions(rate, upTo)[n] == ds[..n + 1][n] == ds[n];
    LevelFrame(rate, upTo, times, Decisions(rate, times[..n]), ds, n);
  }

  // ---- Main results -----------------------------------------------------------------

  /** Exactness: a call is admitted if and only if no window ending at it would overflow. */
  lemma AdmittedIffEveryWindowFits(rate: real, times: seq<real>, n: nat)
    requires n < |times|
    ensures Decisions(rate, times)[n] <==> Fits(rate, times, Decisions(rate, times), n)
  {
    DecisionsAt(rate, times, n);
    LevelIffFits(rate, times, Decisions(rate, times), n);
  }

  ghost predicate RespectsWindows(rate: real, times: seq<real>, taken: seq<bool>)
    requires |taken| == |times|
  {
    forall n: nat | n < |times| && taken[n] :: Fits(rate, times, taken, n)
  }

  lemma DecisionsRespectWindows(rate: real, times: seq<real>)
    ensures RespectsWindows(rate, times, Decisions(rate, times))
  {
    forall n: nat | n < |times| && Decisions(rate, times)[n] ensures Fits(rate, times, Decisions(rate, times), n) {
      AdmittedIffEveryWindowFits(rate, times, n);
    }
  }

  lemma WindowEndingAtAdmitted(rate: real, times: seq<real>, k: nat, n: nat)
    requires k <= n < |times| && Decisions(rate, times)[n]
    ensures Count(Decisions(rate, times), k, n + 1) as real <= rate + Gain(rate, times[k], times[n])
  {
    AdmittedIffEveryWindowFits(rate, times, n);
  }

  /** Hence no window, from call k to call n, ever holds more than rate + rate * length. */
  lemma {:induction false} WindowBound(rate: real, times: seq<real>, k: nat, n: nat)
    requires rate > 0.0 && k <= n < |times|
    requires forall i, j | 0 <= i <= j < |times| :: times[i] <= times[j]
    ensures Count(Decisions(rate, times), k, n + 1) as real <= rate + Gain(rate, times[k], times[n])
  {
    if Decisions(rate, times)[n] {
      WindowEndingAtAdmitted(rate, times, k, n);
    } else if k == n {
      GainNonNegative(rate, times[n], times[n]);
    } else {
      WindowBound(rate, times, k, n - 1);
      assert Count(Decisions(rate, times), k, n + 1) == Count(Decisions(rate, times), k, n);
      GainSplits(rate, times[k], times[n - 1], times[n]);
      GainNonNegative(rate, times[n - 1], times[n]);
    }
  }

  /** Optimality: after every prefix, no selection within the window bounds has admitted more. */
  lemma {:induction false} NoSelectionAdmitsMore(rate: real, times: seq<real>, taken: seq<bool>, n: nat)
    requires |taken| == |times| && n <= |times| && RespectsWindows(rate, times, taken)
    ensures Count(taken, 0, n) <= Count(Decisions(rate, times), 0, n)
    ensures n < |times| ==>
              Level(rate, times, taken, n) + Count(taken, 0, n) as real
              <= Level(rate, times, Decisions(rate, times), n) + Count(Decisions(rate, times), 0, n) as real
  {
    var ds := Decisions(rate, times);
    if n > 0 {
      NoSelectionAdmitsMore(rate, times, taken, n - 1);
      DecisionsAt(rate, times, n - 1);
      LevelIffFits(rate, times, taken, n - 1);
    }
  }

  /** The calls admitted from instant `from` to instant `to`, among the first `n`. */
  function CountBetween(times: seq<real>, taken: seq<bool>, from: real, to: real, n: nat): (c: nat)
    requires n <= |times| && n <= |taken|
  {
    if n == 0 then 0
    else CountBetween(times, taken, from, to, n - 1) + if taken[n - 1] && from <= times[n - 1] <= to then 1 else 0
  }

  /** None of them comes before the first call `i` of the interval. */
  lemma {:induction false} CountFromFirst(times: seq<real>, taken: seq<bool>, from: real, to: real, n: nat)
    returns (i: nat)
    requires n <= |times| && n <= |taken| && forall i, j | 0 <= i <= j < |times| :: times[i] <= times[j]
    ensures i <= n && (i < n ==> from <= times[i]) && CountBetween(times, taken, from, to, n) <= Count(taken, i, n)
  {
    if n == 0 {
      i := 0;
    } else {
      i := CountFromFirst(times, taken, from, to, n - 1);
      if i == n - 1 && times[n - 1] < from {
        i := n;
      }
    }
  }

  /** So no interval of time, wherever it starts and ends, holds more than rate + rate * length. */
  lemma {:induction false} IntervalBound(rate: real, times: seq<real>, from: real, to: real, n: nat)
    requires rate > 0.0 && from <= to && n <= |times|
    requires forall i, j | 0 <= i <= j < |times| :: times[i] <= times[j]
    ensures CountBetween(times, Decisions(rate, times), from, to, n) as real <= rate + Gain(rate, from, to)
  {
    var ds := Decisions(rate, times);
    if n == 0 {
      GainNonNegative(rate, from, to);
    } else if ds[n - 1] && from <= times[n - 1] <= to {
      var i := CountFromFirst(times, ds, from, to, n);
      WindowBound(rate, times, i, n - 1);
      WiderGain(rate, from, times[i], times[n - 1], to);
    } else {
      IntervalBound(rate, times, from, to, n - 1);
    }
  }

  lemma WiderGain(rate: real, from: real, a: real, b: real, to: real)
    requires rate > 0.0 && from <= a && b <= to
    ensures Gain(rate, a, b) <= Gain(rate, from, to)
  {
    GainSplits(rate, from, a, b);
    GainSplits(rate, from, b, to);
    GainNonNegative(rate, from, a);
    GainNonNegative(rate, b, to);
  }

  /** A rate of 0 means no limit: every call is allowed and no bucket is touched. */
  lemma {:induction false} ZeroRateAdmitsAll(buckets: map<string, Bucket>, calls: seq<Call>)
    ensures forall call :: AllowStep(buckets, call, 0.0) == (buckets, true)
    ensures Run(calls, 0.0).0 == map[] && forall i | 0 <= i < |calls| :: Run(calls, 0.0).1[i]
  {
    if calls != [] {
      ZeroRateAdmitsAll(buckets, calls[..|calls| - 1]);
    }
  }

  /** A rate below one token never admits anything. */
  lemma FractionalRateAdmitsNothing(rate: real, times: seq<real>, n: nat)
    requires rate < 1.0 && n < |times|
    ensures !Decisions(rate, times)[n]
  {
    DecisionsAt(rate, times, n);
  }

  // ---- Many users: the table is independent buckets ---------------------------------

  function TimesOf(calls: seq<Call>, user: string): seq<real> {
    if calls == [] then []
    else
      var last := calls[|calls| - 1];
      TimesOf(calls[..|calls| - 1], user) + if last.user == user then [last.now] else []
  }

  ghost predicate BucketOf(buckets: map<string, Bucket>, rate: real, times: seq<real>, user: string) {
    if times == [] then user !in buckets
    else
      var n := |times| - 1;
      var ds := Decisions(rate, times);
      user in buckets && buckets[user] == Bucket(Level(rate, times, ds, n) - Cost(ds[n]), times[n])
  }

  lemma {:induction false} TableIsPerUser(calls: seq<Call>, rate: real, user: string)
    requires rate > 0.0 && forall c | c in calls :: c.created <= c.now
    ensures BucketOf(Run(calls, rate).0, rate, TimesOf(calls, user), user)
  {
    if calls != [] {
      var n := |calls| - 1;
      TableIsPerUser(calls[..n], rate, user);
      if calls[n].user != user {
        assert TimesOf(calls, user) == TimesOf(calls[..n], user);
      } else {
        StepExtendsUser(Run(calls[..n], rate).0, TimesOf(calls[..n], user), calls[n], rate);
      }
    }
  }

  lemma StepExtendsUser(buckets: map<string, Bucket>, times: seq<real>, call: Call, rate: real)
    requires rate > 0.0 && call.created <= call.now && BucketOf(buckets, rate, times, call.user)
    ensures var (after, ok) := AllowStep(buckets, call, rate);
            && BucketOf(after, rate, times + [call.now], call.user)
            && ok == Decisions(rate, times + [call.now])[|times|]
  {
    var longer := times + [call.now];
    var n := |times|;
    var ds := Decisions(rate, longer);
    var earlier := Decisions(rate, times);
    assert longer[..n] == times;
    assert ds == earlier + [ds[n]];
    DecisionsAt(rate, longer, n);
    if n == 0 {
      GainNonNegative(rate, call.created, call.now);
    } else {
      LevelFrame(rate, times, longer, earlier, ds, n - 1);
    }
  }

  /** The verdict on every call of a run with any number of users is the verdict of that
      user's own bucket, so exactness and optimality hold for each user separately. */
  lemma EachUserHasItsOwnBucket(calls: seq<Call>, rate: real, i: nat)
    requires rate > 0.0 && i < |calls| && forall c | c in calls :: c.created <= c.now
    ensures var times := TimesOf(calls[..i + 1], calls[i].user);
            times != [] && Run(calls, rate).1[i] == Decisions(rate, times)[|times| - 1]
  {
    RunPrefix(calls, rate, i + 1);
    var upTo := calls[..i + 1];
    assert upTo[..i] == calls[..i];
    TableIsPerUser(calls[..i], rate, calls[i].user);
    StepExtendsUser(Run(calls[..i], rate).0, TimesOf(calls[..i], calls[i].user), calls[i], rate);
    assert Run(calls, rate).1[..i + 1][i] == Run(calls, rate).1[i];
  }

  lemma {:induction false} RunPrefix(calls: seq<Call>, rate: real, m: nat)
    requires m <= |calls|
    ensures Run(calls, rate).1[..m] == Run(calls[..m], rate).1
  {
    if m == |calls| {
      assert calls[..m] == calls;
    } else {
      var n := |calls| - 1;
      RunPrefix(calls[..n], rate, m);
      assert calls[..n][..m] == calls[..m];
    }
  }
}
