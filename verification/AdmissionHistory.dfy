/** What the controller's current state says about the observations that led to it. */
module AdmissionHistory {
  import opened Wrappers
  import opened MetricsParser
  import opened Admission
  import opened AdmissionRuns

  // ---- The calm timer ---------------------------------------------------------------

  /** Observation `i`, if it recorded an EMA, was below soft and below 0.9 of the cap in force. */
  ghost predicate CalmAt(c: Config, vram: int, obs: seq<Observation>, i: nat)
    requires i < |obs|
  {
    obs[i].sample.hasCacheUsage ==>
      var ema := After(c, vram, Fresh(c), obs, i + 1).ema;
      ema < c.softCachePct && !Stressed(ema, After(c, vram, Fresh(c), obs, i).cap)
  }

  /** A timer set to t was started by an observation at t, and all was calm ever since. */
  lemma {:induction false} CalmTimerMeansCalm(c: Config, vram: int, obs: seq<Observation>, n: nat) returns (j: nat)
    requires InRange(c) && n <= |obs| && After(c, vram, Fresh(c), obs, n).calmSince.Some?
    ensures j < n && obs[j].sample.hasCacheUsage && Some(obs[j].now) == After(c, vram, Fresh(c), obs, n).calmSince
    ensures forall i: nat | j <= i < n :: CalmAt(c, vram, obs, i)
  {
    var before := After(c, vram, Fresh(c), obs, n - 1);
    if before.calmSince == After(c, vram, Fresh(c), obs, n).calmSince {
      j := CalmTimerMeansCalm(c, vram, obs, n - 1);
      assert CalmAt(c, vram, obs, n - 1);
    } else {
      j := n - 1;
    }
  }

  ghost predicate Raised(c: Config, vram: int, obs: seq<Observation>, i: nat)
    requires i < |obs|
  {
    After(c, vram, Fresh(c), obs, i + 1).cap > After(c, vram, Fresh(c), obs, i).cap
  }

  /** The cap is raised only at the end of a full calm window, and by at most half a margin. */
  lemma RaiseFollowsCalmWindow(c: Config, vram: int, obs: seq<Observation>, n: nat) returns (j: nat)
    requires InRange(c) && n < |obs| && Raised(c, vram, obs, n)
    ensures j <= n && obs[n].now - obs[j].now >= c.calmDuration
    ensures forall i: nat | j <= i <= n :: CalmAt(c, vram, obs, i)
    ensures After(c, vram, Fresh(c), obs, n + 1).cap <= After(c, vram, Fresh(c), obs, n).cap + c.stressMargin / 2.0
    ensures After(c, vram, Fresh(c), obs, n + 1).calmSince == Some(obs[n].now)
  {
    var before := After(c, vram, Fresh(c), obs, n);
    assert before.calmSince.Some?;
    j := CalmTimerMeansCalm(c, vram, obs, n);
    assert CalmAt(c, vram, obs, n);
  }

  /** Without a raise the timer goes on or starts now. */
  lemma NoRaise(c: Config, vram: int, obs: seq<Observation>, n: nat)
    requires n < |obs| && !Raised(c, vram, obs, n)
    ensures var before, after := After(c, vram, Fresh(c), obs, n), After(c, vram, Fresh(c), obs, n + 1);
            && after.cap <= before.cap
            && (after.calmSince.Some? ==> after.calmSince == before.calmSince || after.calmSince == Some(obs[n].now))
  {
  }

  ghost function Raises(c: Config, vram: int, obs: seq<Observation>, a: nat, b: nat): nat
    requires a <= b <= |obs|
  {
    if a == b then 0
    else Raises(c, vram, obs, a, b - 1) + if Raised(c, vram, obs, b - 1) then 1 else 0
  }

  /** Between observations a and b-1 there are at most 1 + elapsed / calmDuration raises, and
      the cap rises by at most half a margin for each. `u` is the last raise, if any. */
  lemma {:induction false} RaisesAreSpaced(c: Config, vram: int, obs: seq<Observation>, a: nat, b: nat) returns (u: nat)
    requires InRange(c) && a <= b <= |obs| && InOrder(obs)
    ensures var count := Raises(c, vram, obs, a, b);
            && (count > 0 ==>
                  && a <= u < b
                  && (count - 1) * c.calmDuration <= obs[u].now - obs[a].now
                  && var since := After(c, vram, Fresh(c), obs, b).calmSince;
                     since.Some? ==> since.value >= obs[u].now)
            && After(c, vram, Fresh(c), obs, b).cap
               <= After(c, vram, Fresh(c), obs, a).cap + Scaled(count, c.stressMargin / 2.0)
  {
    hide After, Raised, InRange, Scaled, Fresh;
    u := a;
    ScaledNext(0, c.stressMargin / 2.0);
    if a < b {
      u := RaisesAreSpaced(c, vram, obs, a, b - 1);
      var count := Raises(c, vram, obs, a, b - 1);
      ScaledNext(count, c.stressMargin / 2.0);
      if Raised(c, vram, obs, b - 1) {
        var j := RaiseFollowsCalmWindow(c, vram, obs, b - 1);
        LastRaise(c, vram, obs, b - 1, u, count);
        OneMoreWindow(count, c.calmDuration);
        u := b - 1;
      } else {
        NoRaise(c, vram, obs, b - 1);
      }
    }
  }

  lemma OneMoreWindow(count: nat, d: int)
    ensures count * d == (count - 1) * d + d && 0 * d == 0
  {
  }

  /** A raise comes a full window after the previous one, because the timer restarted there. */
  lemma LastRaise(c: Config, vram: int, obs: seq<Observation>, n: nat, u: nat, count: nat)
    requires InRange(c) && n < |obs| && Raised(c, vram, obs, n)
    requires count > 0 ==>
               && u < n
               && var since := After(c, vram, Fresh(c), obs, n).calmSince; since.Some? ==> since.value >= obs[u].now
    ensures count > 0 ==> obs[n].now - obs[u].now >= c.calmDuration
  {
  }

  // ---- The EMA in closed form -------------------------------------------------------

  function EmaOf(alpha: real, xs: seq<real>, n: nat): real
    requires n <= |xs|
  {
    if n == 0 then 0.0 else NextEma(alpha, EmaOf(alpha, xs, n - 1), xs[n - 1])
  }

  /** The cache-usage samples among the first `n` observations. */
  function Usage(obs: seq<Observation>, n: nat): seq<real>
    requires n <= |obs|
  {
    if n == 0 then []
    else Usage(obs, n - 1) + if obs[n - 1].sample.hasCacheUsage then [obs[n - 1].sample.cacheUsagePct] else []
  }

  lemma {:induction false} EmaOfPrefix(alpha: real, xs: seq<real>, ys: seq<real>, n: nat)
    requires n <= |xs| <= |ys| && ys[..|xs|] == xs
    ensures EmaOf(alpha, xs, n) == EmaOf(alpha, ys, n)
  {
    if n > 0 {
      EmaOfPrefix(alpha, xs, ys, n - 1);
      assert xs[n - 1] == ys[..|xs|][n - 1];
    }
  }

  /** The controller's EMA depends on the recorded samples alone. */
  lemma {:induction false} EmaDependsOnSamplesOnly(c: Config, vram: int, obs: seq<Observation>, n: nat)
    requires n <= |obs|
    ensures After(c, vram, Fresh(c), obs, n).ema == EmaOf(c.emaAlpha, Usage(obs, n), |Usage(obs, n)|)
  {
    if n > 0 {
      EmaDependsOnSamplesOnly(c, vram, obs, n - 1);
      EmaOfPrefix(c.emaAlpha, Usage(obs, n - 1), Usage(obs, n), |Usage(obs, n - 1)|);
    }
  }

  // Products of reals are named so that proofs can pass them on without multiplying out.
  function Times(x: real, y: real): real { x * y }

  function Pow(b: real, n: nat): real { if n == 0 then 1.0 else Times(b, Pow(b, n - 1)) }

  /** Sum of alpha * (1 - alpha)^(n - 1 - i) * xs[i] for i from k to n - 1. */
  function WeightedTail(alpha: real, xs: seq<real>, k: nat, n: nat): real
    requires k <= n <= |xs|
    decreases n - k
  {
    if k == n then 0.0
    else Times(alpha, Times(Pow(1.0 - alpha, n - 1 - k), xs[k])) + WeightedTail(alpha, xs, k + 1, n)
  }

  /** Sample `k` was the last one to seed the EMA. */
  ghost predicate SeededAt(alpha: real, xs: seq<real>, k: nat, n: nat)
    requires k < n <= |xs|
  {
    EmaOf(alpha, xs, k) == 0.0 && forall i: nat | k < i < n :: EmaOf(alpha, xs, i) != 0.0
  }

  lemma {:induction false} SomeSampleSeeded(alpha: real, xs: seq<real>, n: nat) returns (k: nat)
    requires 0 < n <= |xs|
    ensures k < n && SeededAt(alpha, xs, k, n)
  {
    if EmaOf(alpha, xs, n - 1) == 0.0 {
      k := n - 1;
    } else {
      k := SomeSampleSeeded(alpha, xs, n - 1);
    }
  }

  lemma Associate(a: real, b: real, c: real)
    ensures Times(a, Times(b, c)) == Times(Times(a, b), c)
  {
  }

  lemma Exchange(a: real, b: real, c: real)
    ensures Times(a, Times(b, c)) == Times(b, Times(a, c))
  {
  }

  lemma Distribute(a: real, b: real, c: real)
    ensures Times(a, b + c) == Times(a, b) + Times(a, c)
  {
  }

  lemma MixSplits(alpha: real, sample: real, a: real, b: real)
    ensures Mix(alpha, sample, a + b) == Times(1.0 - alpha, a) + (Times(1.0 - alpha, b) + Times(alpha, sample))
  {
    Distribute(1.0 - alpha, a, b);
  }

  /** The two parts of the closed form, as one more sample makes them: the seed aged `age` times,
      and the later samples. */
  function Aged(beta: real, seed: real, age: nat): real {
    if age == 0 then seed else Times(beta, Aged(beta, seed, age - 1))
  }

  function Later(alpha: real, xs: seq<real>, k: nat, n: nat): real
    requires k <= n <= |xs|
  {
    if k == n then 0.0 else Times(1.0 - alpha, Later(alpha, xs, k, n - 1)) + Times(alpha, xs[n - 1])
  }

  lemma {:induction false} AgedIsPower(beta: real, seed: real, age: nat)
    ensures Aged(beta, seed, age) == Times(Pow(beta, age), seed)
  {
    if age > 0 {
      hide Times;
      AgedIsPower(beta, seed, age - 1);
      Associate(beta, Pow(beta, age - 1), seed);
    }
  }

  lemma LaterStarts(alpha: real, xs: seq<real>, n: nat)
    requires n < |xs|
    ensures Later(alpha, xs, n, n + 1) == Times(alpha, Times(Pow(1.0 - alpha, 0), xs[n]))
  {
  }

  /** Leaving the oldest sample out leaves its own weight out. */
  lemma {:induction false} LaterWithoutOldest(alpha: real, xs: seq<real>, k: nat, n: nat)
    requires k < n <= |xs|
    ensures Later(alpha, xs, k, n)
         == Times(alpha, Times(Pow(1.0 - alpha, n - 1 - k), xs[k])) + Later(alpha, xs, k + 1, n)
  {
    if k == n - 1 {
      LaterStarts(alpha, xs, k);
    } else {
      hide Times;
      var beta, p := 1.0 - alpha, Pow(1.0 - alpha, n - 2 - k);
      LaterWithoutOldest(alpha, xs, k, n - 1);
      Distribute(beta, Times(alpha, Times(p, xs[k])), Later(alpha, xs, k + 1, n - 1));
      Exchange(beta, alpha, Times(p, xs[k]));
      Associate(beta, p, xs[k]);
    }
  }

  lemma {:induction false} LaterIsTail(alpha: real, xs: seq<real>, k: nat, n: nat)
    requires k <= n <= |xs|
    ensures Later(alpha, xs, k, n) == WeightedTail(alpha, xs, k, n)
    decreases n - k
  {
    if k < n {
      hide Times, Pow;
      LaterWithoutOldest(alpha, xs, k, n);
      LaterIsTail(alpha, xs, k + 1, n);
    }
  }

  lemma {:induction false} EmaIsAgedSeedAndLater(alpha: real, xs: seq<real>, k: nat, n: nat)
    requires k < n <= |xs| && SeededAt(alpha, xs, k, n)
    ensures EmaOf(alpha, xs, n) == Aged(1.0 - alpha, xs[k], n - 1 - k) + Later(alpha, xs, k + 1, n)
  {
    if n > k + 1 {
      hide Times, Mix;
      assert SeededAt(alpha, xs, k, n - 1);
      EmaIsAgedSeedAndLater(alpha, xs, k, n - 1);
      MixSplits(alpha, xs[n - 1], Aged(1.0 - alpha, xs[k], n - 2 - k), Later(alpha, xs, k + 1, n - 1));
    }
  }

  /** Closed form: the seed and every later sample, each weighted geometrically by its age. */
  lemma EmaClosedForm(alpha: real, xs: seq<real>, k: nat, n: nat)
    requires k < n <= |xs| && SeededAt(alpha, xs, k, n)
    ensures EmaOf(alpha, xs, n) == Times(Pow(1.0 - alpha, n - 1 - k), xs[k]) + WeightedTail(alpha, xs, k + 1, n)
  {
    hide *;
    EmaIsAgedSeedAndLater(alpha, xs, k, n);
    AgedIsPower(1.0 - alpha, xs[k], n - 1 - k);
    LaterIsTail(alpha, xs, k + 1, n);
  }

  /** After n equal samples the distance to them has shrunk by exactly (1 - alpha)^n, as long
      as no EMA on the way was exactly 0; a 0 on the way jumps to the sample at once. */
  function Repeated(alpha: real, ema: real, sample: real, n: nat): real {
    if n == 0 then ema else NextEma(alpha, Repeated(alpha, ema, sample, n - 1), sample)
  }

  lemma {:induction false} EqualSamplesConverge(alpha: real, ema: real, sample: real, n: nat)
    requires forall i: nat | i < n :: Repeated(alpha, ema, sample, i) != 0.0
    ensures Repeated(alpha, ema, sample, n) - sample == Times(Pow(1.0 - alpha, n), ema - sample)
  {
    if n > 0 {
      hide Times, Mix;
      EqualSamplesConverge(alpha, ema, sample, n - 1);
      ShrinkOnce(alpha, Repeated(alpha, ema, sample, n - 1), sample);
      Associate(1.0 - alpha, Pow(1.0 - alpha, n - 1), ema - sample);
    }
  }

  lemma ShrinkOnce(alpha: real, ema: real, sample: real)
    ensures Mix(alpha, sample, ema) - sample == Times(1.0 - alpha, ema - sample)
  {
  }

  lemma {:induction false} ZeroOnTheWayJumps(alpha: real, ema: real, sample: real, i: nat, n: nat)
    requires i < n && Repeated(alpha, ema, sample, i) == 0.0
    ensures Repeated(alpha, ema, sample, n) == sample
  {
    if i < n - 1 {
      ZeroOnTheWayJumps(alpha, ema, sample, i, n - 1);
      MixOfEqual(alpha, sample);
    }
  }

  /** These are the controller's own EMAs while the samples stay equal. */
  lemma {:induction false} RepeatedIsTheController(c: Config, vram: int, obs: seq<Observation>, k: nat, n: nat,
                                                   sample: real)
    requires k + n <= |obs|
    requires forall i | k <= i < k + n :: obs[i].sample.hasCacheUsage && obs[i].sample.cacheUsagePct == sample
    ensures After(c, vram, Fresh(c), obs, k + n).ema
         == Repeated(c.emaAlpha, After(c, vram, Fresh(c), obs, k).ema, sample, n)
  {
    if n > 0 {
      RepeatedIsTheController(c, vram, obs, k, n - 1, sample);
      assert obs[k + n - 1].sample.cacheUsagePct == sample;
    }
  }
}
