/** What the admission controller keeps and reaches over whole runs of observations. */
module AdmissionRuns {
  import opened Wrappers
  import opened MetricsParser
  import opened Admission

  datatype Observation = Observation(sample: ModelMetrics, running: int, now: int)

  /** One model's state after the first `n` observations of a run that starts in `st`. */
  function After(c: Config, vram: int, st: State, obs: seq<Observation>, n: nat): State
    requires n <= |obs|
  {
    if n == 0 then st
    else
      var o := obs[n - 1];
      Observed(c, vram, After(c, vram, st, obs, n - 1), o.sample, o.running, o.now)
  }

  ghost predicate InOrder(obs: seq<Observation>) {
    forall i, j | 0 <= i <= j < |obs| :: obs[i].now <= obs[j].now
  }

  // ---- Bounds and verdicts ----------------------------------------------------------

  /** In every reachable state the cap lies between floor and ceiling. */
  lemma {:induction false} CapStaysInBand(c: Config, vram: int, obs: seq<Observation>, n: nat)
    requires InRange(c) && n <= |obs|
    ensures Min(c.minHardCachePct, c.hardCachePct) <= After(c, vram, Fresh(c), obs, n).cap <= c.hardCachePct
  {
    if n > 0 {
      CapStaysInBand(c, vram, obs, n - 1);
    }
  }

  lemma NonNegative(x: real, y: real)
    requires x >= 0.0 && y >= 0.0
    ensures x * y >= 0.0
  {
  }

  lemma MixBetween(alpha: real, x: real, y: real, lo: real, hi: real)
    requires 0.0 < alpha <= 1.0 && lo <= x <= hi && lo <= y <= hi
    ensures lo <= Mix(alpha, x, y) <= hi
  {
    var beta := 1.0 - alpha;
    NonNegative(alpha, x - lo);
    NonNegative(alpha, hi - x);
    NonNegative(beta, y - lo);
    NonNegative(beta, hi - y);
    assert alpha * lo + beta * lo == lo && alpha * hi + beta * hi == hi;
  }

  ghost predicate SamplesWithin(obs: seq<Observation>, lo: real, hi: real) {
    forall i | 0 <= i < |obs| && obs[i].sample.hasCacheUsage :: lo <= obs[i].sample.cacheUsagePct <= hi
  }

  /** The EMA lies between the least and the greatest sample; 0 means none was recorded. */
  lemma {:induction false} EmaBetweenSamples(c: Config, vram: int, obs: seq<Observation>, n: nat, lo: real, hi: real)
    requires InRange(c) && n <= |obs| && SamplesWithin(obs, lo, hi)
    ensures var st := After(c, vram, Fresh(c), obs, n);
            && (st.ema == 0.0 || lo <= st.ema <= hi)
            && ((exists i :: 0 <= i < n && obs[i].sample.hasCacheUsage) ==> lo <= st.ema <= hi)
            && (st.lastSample.hasCacheUsage ==> lo <= st.ema <= hi)
  {
    if n > 0 {
      EmaBetweenSamples(c, vram, obs, n - 1, lo, hi);
      var st := After(c, vram, Fresh(c), obs, n - 1);
      var s := obs[n - 1].sample;
      if s.hasCacheUsage && st.ema != 0.0 {
        MixBetween(c.emaAlpha, s.cacheUsagePct, st.ema, lo, hi);
      }
    }
  }

  /** The controller fails open: whatever happened, a model is shed only on telemetry it has, that
      is at most three polls old, and that shows the EMA at its cap or the queue at its share. */
  lemma ShedOnlyOnFreshEvidence(c: Config, vram: int, obs: seq<Observation>, now: int)
    requires InRange(c)
    ensures !Verdict(c, if obs == [] then None else Some(After(c, vram, Fresh(c), obs, |obs|)), now).allow ==>
              && c.enabled && obs != []
              && var last := obs[|obs| - 1];
                 var st := After(c, vram, Fresh(c), obs, |obs|);
              && last.sample.hasCacheUsage && now - last.now <= 3 * c.pollInterval
              && (st.ema >= Min(c.minHardCachePct, c.hardCachePct)
                  || (vram > 0 && last.running > 0 && last.sample.requestsWaiting >= QueueDepth(c, vram, last.running)))
  {
    CapStaysInBand(c, vram, obs, |obs|);
  }

  /** Pressure that stayed below the floor never sheds, unless the queue is at its share. */
  lemma LowPressureIsNeverShed(c: Config, vram: int, obs: seq<Observation>, lo: real, hi: real, now: int)
    requires InRange(c) && c.minHardCachePct <= c.hardCachePct
    requires SamplesWithin(obs, lo, hi) && hi < c.minHardCachePct
    ensures var st := After(c, vram, Fresh(c), obs, |obs|);
            !Verdict(c, Some(st), now).allow ==>
              st.maxQueueDepth > 0 && st.lastSample.requestsWaiting >= st.maxQueueDepth
  {
    CapStaysInBand(c, vram, obs, |obs|);
    EmaBetweenSamples(c, vram, obs, |obs|, lo, hi);
  }

  /** Pressure that stayed at or above the ceiling is always shed while telemetry is fresh. */
  lemma HighPressureIsAlwaysShed(c: Config, vram: int, obs: seq<Observation>, lo: real, hi: real, now: int)
    requires InRange(c) && c.enabled && obs != []
    requires SamplesWithin(obs, lo, hi) && c.hardCachePct <= lo
    requires obs[|obs| - 1].sample.hasCacheUsage && now - obs[|obs| - 1].now <= 3 * c.pollInterval
    ensures Verdict(c, Some(After(c, vram, Fresh(c), obs, |obs|)), now) == Decision(false, CacheAboveCap, 5 * SECOND)
  {
    CapStaysInBand(c, vram, obs, |obs|);
    EmaBetweenSamples(c, vram, obs, |obs|, lo, hi);
  }

  /** The queue share is the largest number of slots that, given to every running model,
      stays within the host budget; a share below one slot is rounded up to one. */
  lemma QueueSharesFitTheBudget(c: Config, vram: int, running: int, slots: int)
    requires vram > 0 && running > 0 && c.maxQueuePerGB > 0
    ensures var q := QueueDepth(c, vram, running);
            && q >= 1
            && (slots > 1 ==> (slots <= q <==> slots * running * GIBIBYTE <= vram * c.maxQueuePerGB))
  {
    var gb := vram as real / GIBIBYTE as real;
    var r := running as real;
    var m := c.maxQueuePerGB as real;
    var share := gb / r * m;
    ShareTimesRunning(gb, r, m);
    var s := slots as real;
    assert s <= share <==> s * r <= share * r by { Scale(s, share, r); }
    assert s * r <= gb * m <==> s * r * GIBIBYTE as real <= vram as real * m by {
      assert gb * m * GIBIBYTE as real == vram as real * m;
    }
    assert (slots * running * GIBIBYTE) as real == s * r * GIBIBYTE as real;
    assert (vram * c.maxQueuePerGB) as real == vram as real * m;
    assert s <= share <==> slots <= share.Floor;
  }

  lemma ShareTimesRunning(gb: real, r: real, m: real)
    requires r > 0.0
    ensures gb / r * m * r == gb * m
  {
    assert gb / r * r == gb;
    assert gb / r * m * r == gb / r * r * m;
  }

  lemma Scale(x: real, y: real, r: real)
    requires r > 0.0
    ensures x <= y <==> x * r <= y * r
  {
    assert (y - x) * r >= 0.0 <==> y - x >= 0.0;
  }

  // ---- When exactly a model is shed -------------------------------------------------

  /** The share of the host budget that the waiting requests would need is not there: one more waiting
      request in each of the running models would exceed the slots per gigabyte of the host's memory. */
  predicate QueueFull(c: Config, vram: int, o: Observation) {
    && vram > 0 && o.running > 0 && c.maxQueuePerGB > 0 && o.sample.requestsWaiting >= 1
    && (o.sample.requestsWaiting + 1) * o.running * 1_073_741_824 > vram * c.maxQueuePerGB
  }

  lemma QueueCapIsFull(c: Config, vram: int, o: Observation)
    ensures var q := QueueDepth(c, vram, o.running);
            q > 0 && o.sample.requestsWaiting >= q <==> QueueFull(c, vram, o)
  {
    if vram > 0 && o.running > 0 && c.maxQueuePerGB > 0 {
      QueueSharesFitTheBudget(c, vram, o.running, o.sample.requestsWaiting + 1);
    }
  }

  lemma LastObserved(c: Config, vram: int, obs: seq<Observation>)
    requires obs != []
    ensures var st, o := After(c, vram, Fresh(c), obs, |obs|), obs[|obs| - 1];
            && st.lastSample == o.sample && st.updatedAt == o.now && st.maxQueueDepth == QueueDepth(c, vram, o.running)
  {
    hide QueueDepth, NextEma, Stressed;
  }

  /** What is answered after any run, case by case in this order: a disabled controller, one without
      telemetry and one whose telemetry is older than three polls admit; then pressure at the cap is
      refused for 5 seconds, and a full queue for 10; anything else is admitted. */
  lemma VerdictAfterRun(c: Config, vram: int, obs: seq<Observation>, now: int)
    ensures var st := After(c, vram, Fresh(c), obs, |obs|);
            Verdict(c, if obs == [] then None else Some(st), now) ==
              if !c.enabled then Decision(true, Disabled, 0)
              else if obs == [] || !obs[|obs| - 1].sample.hasCacheUsage then Decision(true, NoTelemetry, 0)
              else if obs[|obs| - 1].now + 3 * c.pollInterval < now then Decision(true, StaleTelemetry, 0)
              else if st.ema >= st.cap then Decision(false, CacheAboveCap, 5_000_000_000)
              else if QueueFull(c, vram, obs[|obs| - 1]) then Decision(false, QueueAboveCap, 10_000_000_000)
              else Decision(true, WithinLimits, 0)
  {
    hide After, QueueDepth, QueueFull;
    if obs != [] {
      LastObserved(c, vram, obs);
      QueueCapIsFull(c, vram, obs[|obs| - 1]);
    }
  }

  /** So a model whose samples all stayed below the floor is shed, while its telemetry is fresh, if and
      only if more requests wait at it than its share of the host budget. */
  lemma FullQueueIsShedIff(c: Config, vram: int, obs: seq<Observation>, lo: real, hi: real, now: int)
    requires InRange(c) && c.enabled && c.minHardCachePct <= c.hardCachePct && obs != []
    requires SamplesWithin(obs, lo, hi) && hi < c.minHardCachePct
    requires obs[|obs| - 1].sample.hasCacheUsage && now - obs[|obs| - 1].now <= 3 * c.pollInterval
    ensures var o := obs[|obs| - 1];
            Verdict(c, Some(After(c, vram, Fresh(c), obs, |obs|)), now) ==
              if vram > 0 && o.running > 0 && c.maxQueuePerGB > 0 && o.sample.requestsWaiting >= 1
                 && (o.sample.requestsWaiting + 1) * o.running * 1_073_741_824 > vram * c.maxQueuePerGB
              then Decision(false, QueueAboveCap, 10_000_000_000)
              else Decision(true, WithinLimits, 0)
  {
    VerdictAfterRun(c, vram, obs, now);
    CapStaysInBand(c, vram, obs, |obs|);
    EmaBetweenSamples(c, vram, obs, |obs|, lo, hi);
  }

  /** One poll of distinct models observes each of them whose metrics arrived once, with the number of
      listed models as running count, and leaves every other model alone. */
  lemma {:induction false} PollObservesEachOnce(c: Config, vram: int, models: map<string, State>, names: seq<string>,
                                                fetched: seq<Option<ModelMetrics>>, nows: seq<int>, n: nat, m: string)
    requires n <= |names| == |fetched| == |nows| && forall i, j | 0 <= i < j < |names| :: names[i] != names[j]
    ensures var after := TickSteps(c, vram, models, names, fetched, nows, n);
            && (forall i | 0 <= i < n && names[i] == m && fetched[i].Some? ::
                  && m in after
                  && after[m] == Observed(c, vram, if m in models then models[m] else Fresh(c),
                                          fetched[i].value, |names|, nows[i]))
            && ((forall i | 0 <= i < n :: names[i] != m || fetched[i].None?) ==>
                  (m in after <==> m in models) && (m in models ==> after[m] == models[m]))
  {
    hide Observed;
    if n > 0 {
      PollObservesEachOnce(c, vram, models, names, fetched, nows, n - 1, m);
    }
  }

  // ---- Constant pressure: no oscillation --------------------------------------------

  /** Every observation repeats the pressure `e`. */
  ghost predicate Constant(obs: seq<Observation>, e: real) {
    forall i | 0 <= i < |obs| :: obs[i].sample.hasCacheUsage && obs[i].sample.cacheUsagePct == e
  }

  /** Repeating the current EMA leaves it unchanged, so only the threshold rule acts. */
  lemma ConstantStep(c: Config, vram: int, st: State, o: Observation)
    requires o.sample.hasCacheUsage && o.sample.cacheUsagePct == st.ema
    ensures var after := Observed(c, vram, st, o.sample, o.running, o.now);
            var adjusted := Adjusted(c, st, o.now);
            after.ema == st.ema && after.cap == adjusted.cap && after.calmSince == adjusted.calmSince
  {
    MixOfEqual(c.emaAlpha, st.ema);
  }

  lemma MixOfEqual(alpha: real, x: real)
    ensures Mix(alpha, x, x) == x
  {
  }

  lemma {:induction false} EmaStaysConstant(c: Config, vram: int, st: State, obs: seq<Observation>, n: nat)
    requires n <= |obs| && Constant(obs, st.ema)
    ensures After(c, vram, st, obs, n).ema == st.ema
  {
    if n > 0 {
      EmaStaysConstant(c, vram, st, obs, n - 1);
      ConstantStep(c, vram, After(c, vram, st, obs, n - 1), obs[n - 1]);
    }
  }

  function Scaled(n: nat, x: real): real { n as real * x }

  lemma ScaledNext(n: nat, x: real)
    ensures Scaled(n + 1, x) == Scaled(n, x) + x && Scaled(0, x) == 0.0
    ensures x >= 0.0 ==> Scaled(n, x) >= 0.0
  {
  }

  lemma ScaledMonotone(m: nat, n: nat, x: real)
    requires m <= n && x >= 0.0
    ensures Scaled(m, x) <= Scaled(n, x)
  {
    assert (n - m) as real * x >= 0.0;
  }

  /** Under stress the cap falls by one margin an observation to the floor and stays there. */
  lemma {:induction false} StressRatchetsToFloor(c: Config, vram: int, st: State, obs: seq<Observation>, n: nat)
    requires InRange(c) && n <= |obs| && Constant(obs, st.ema) && st.ema >= 0.9 * st.cap
    ensures After(c, vram, st, obs, n).cap == Min(st.cap, Max(st.cap - Scaled(n, c.stressMargin), c.minHardCachePct))
    ensures n > 0 ==> After(c, vram, st, obs, n).calmSince == None
  {
    if n > 0 {
      StressRatchetsToFloor(c, vram, st, obs, n - 1);
      EmaStaysConstant(c, vram, st, obs, n - 1);
      ConstantStep(c, vram, After(c, vram, st, obs, n - 1), obs[n - 1]);
      ScaledNext(n - 1, c.stressMargin);
    } else {
      ScaledNext(0, c.stressMargin);
    }
  }

  /** Between the soft threshold and the stress band nothing moves. */
  lemma {:induction false} MiddlePressureHolds(c: Config, vram: int, st: State, obs: seq<Observation>, n: nat)
    requires n <= |obs| && Constant(obs, st.ema) && c.softCachePct <= st.ema < 0.9 * st.cap
    ensures After(c, vram, st, obs, n).cap == st.cap
  {
    if n > 0 {
      MiddlePressureHolds(c, vram, st, obs, n - 1);
      EmaStaysConstant(c, vram, st, obs, n - 1);
      ConstantStep(c, vram, After(c, vram, st, obs, n - 1), obs[n - 1]);
    }
  }

  /** A calm timer that restarts each time a full calm window has passed. */
  datatype Timer = Timer(since: Option<int>, windows: nat)

  function Ticked(t: Timer, now: int, calmDuration: int): Timer {
    var since := if t.since.None? then now else t.since.value;
    if now - since >= calmDuration then Timer(Some(now), t.windows + 1) else Timer(Some(since), t.windows)
  }

  function TimerAfter(since: Option<int>, obs: seq<Observation>, calmDuration: int, n: nat): Timer
    requires n <= |obs|
  {
    if n == 0 then Timer(since, 0)
    else Ticked(TimerAfter(since, obs, calmDuration, n - 1), obs[n - 1].now, calmDuration)
  }

  /** One calm observation: the timer ticks while the cap is below the ceiling, and each window raises it. */
  lemma CalmStep(c: Config, st: State, now: int, t: Timer, start: real)
    requires InRange(c) && st.ema < c.softCachePct && !Stressed(st.ema, st.cap)
    requires st.cap == Min(start + Scaled(t.windows, c.stressMargin / 2.0), c.hardCachePct)
    requires st.cap < c.hardCachePct ==> st.calmSince == t.since
    ensures var after, ticked := Adjusted(c, st, now), Ticked(t, now, c.calmDuration);
            && after.cap == Min(start + Scaled(ticked.windows, c.stressMargin / 2.0), c.hardCachePct)
            && after.cap >= st.cap
            && (after.cap < c.hardCachePct ==> after.calmSince == ticked.since)
  {
    hide Scaled;
    ScaledNext(t.windows, c.stressMargin / 2.0);
  }

  /** In calm the cap climbs by half a margin per calm window up to the configured ceiling. */
  lemma {:induction false} CalmClimbsToCeiling(c: Config, vram: int, st: State, obs: seq<Observation>, n: nat)
    requires InRange(c) && n <= |obs| && Constant(obs, st.ema)
    requires st.ema < c.softCachePct && st.ema < 0.9 * st.cap && st.cap <= c.hardCachePct
    ensures var after := After(c, vram, st, obs, n);
            var timer := TimerAfter(st.calmSince, obs, c.calmDuration, n);
            && after.cap == Min(st.cap + Scaled(timer.windows, c.stressMargin / 2.0), c.hardCachePct)
            && after.cap >= st.cap && (after.cap < c.hardCachePct ==> after.calmSince == timer.since)
  {
    hide Observed, Adjusted, Ticked, Scaled, InRange;
    if n > 0 {
      var before := After(c, vram, st, obs, n - 1);
      CalmClimbsToCeiling(c, vram, st, obs, n - 1);
      EmaStaysConstant(c, vram, st, obs, n - 1);
      ConstantStep(c, vram, before, obs[n - 1]);
      CalmStep(c, before, obs[n - 1].now, TimerAfter(st.calmSince, obs, c.calmDuration, n - 1), st.cap);
    } else {
      ScaledNext(0, c.stressMargin / 2.0);
    }
  }

  /** At the ceiling, calm changes nothing but a timer that was not running. */
  lemma CeilingKeepsTheTimer(c: Config, st: State, now: int)
    requires st.ema < c.softCachePct && st.ema < 0.9 * st.cap && st.cap == c.hardCachePct
    ensures Adjusted(c, st, now) == if st.calmSince.None? then st.(calmSince := Some(now)) else st
  {
  }

  lemma NextMultiple(n: nat, x: int)
    ensures (n + 1) * x == n * x + x
  {
  }

  /** One more observation: either the window goes on, or it is complete and a new one begins. */
  lemma PaceKept(windows: nat, short: int, long: int, start: int, since: int, next: int)
    requires windows * short <= since - start <= windows * long
    requires since + short <= next <= since + long
    ensures (windows + 1) * short <= next - start <= (windows + 1) * long
  {
    NextMultiple(windows, short);
    NextMultiple(windows, long);
  }

  /** Windows complete at least every calmDuration + gap, and not faster than calmDuration. */
  lemma {:induction false} WindowsKeepPace(obs: seq<Observation>, calmDuration: int, gap: int, n: nat)
    requires 0 < n <= |obs| && calmDuration > 0 && InOrder(obs)
    requires forall i | 0 < i < |obs| :: obs[i].now - obs[i - 1].now <= gap
    ensures var t := TimerAfter(None, obs, calmDuration, n);
            && t.since.Some?
            && 0 <= obs[n - 1].now - t.since.value < calmDuration
            && t.windows * calmDuration <= t.since.value - obs[0].now <= t.windows * (calmDuration + gap)
  {
    if n > 1 {
      WindowsKeepPace(obs, calmDuration, gap, n - 1);
      var before := TimerAfter(None, obs, calmDuration, n - 1);
      if obs[n - 1].now - before.since.value >= calmDuration {
        PaceKept(before.windows, calmDuration, calmDuration + gap, obs[0].now, before.since.value, obs[n - 1].now);
      }
    }
  }

  lemma {:induction false} OneMorePace(m: nat, n: nat, pace: nat)
    requires m < n
    ensures m * pace + pace <= n * pace
  {
    NextMultiple(n - 1, pace);
    if m < n - 1 {
      OneMorePace(m, n - 1, pace);
    }
  }

  lemma EnoughWindows(obs: seq<Observation>, calmDuration: int, gap: int, steps: nat)
    requires obs != [] && calmDuration > 0 && gap >= 0 && InOrder(obs)
    requires forall i | 0 < i < |obs| :: obs[i].now - obs[i - 1].now <= gap
    requires obs[|obs| - 1].now - obs[0].now >= steps * (calmDuration + gap)
    ensures TimerAfter(None, obs, calmDuration, |obs|).windows >= steps
  {
    WindowsKeepPace(obs, calmDuration, gap, |obs|);
    var windows := TimerAfter(None, obs, calmDuration, |obs|).windows;
    if windows < steps {
      OneMorePace(windows, steps, calmDuration + gap);
    }
  }

  /** Recovery time: with observations at most `gap` apart, calm pressure following a stressed
      observation brings the cap back to the ceiling within `steps` windows of calmDuration + gap,
      where `steps` half-margins cover the distance. */
  lemma RecoversInTime(c: Config, vram: int, st: State, obs: seq<Observation>, gap: int, steps: nat)
    requires InRange(c) && obs != [] && InOrder(obs) && Constant(obs, st.ema)
    requires st.ema < c.softCachePct && st.ema < 0.9 * st.cap && st.cap <= c.hardCachePct && st.calmSince == None
    requires forall i | 0 < i < |obs| :: obs[i].now - obs[i - 1].now <= gap
    requires c.hardCachePct - st.cap <= Scaled(steps, c.stressMargin / 2.0)
    requires gap >= 0 && obs[|obs| - 1].now - obs[0].now >= steps * (c.calmDuration + gap)
    ensures After(c, vram, st, obs, |obs|).cap == c.hardCachePct
  {
    var n := |obs|;
    CalmClimbsToCeiling(c, vram, st, obs, n);
    EnoughWindows(obs, c.calmDuration, gap, steps);
    ScaledMonotone(steps, TimerAfter(None, obs, c.calmDuration, n).windows, c.stressMargin / 2.0);
  }
}
