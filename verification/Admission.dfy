/** The adaptive admission controller: an EMA of kv-cache pressure per model and a hard cap
    that tightens under stress and relaxes after calm. Percentages are reals, instants and
    durations are nanoseconds. */
module Admission {
  import opened Wrappers
  import opened MetricsParser

  datatype Config = Config(
    enabled: bool,
    hardCachePct: real,
    softCachePct: real,
    maxQueuePerGB: int,
    pollInterval: int,
    emaAlpha: real,
    calmDuration: int,
    stressMargin: real,
    minHardCachePct: real)

  const SECOND := 1_000_000_000
  const GIBIBYTE := 1_073_741_824

  function WithDefaults(c: Config): Config {
    Config(
      c.enabled,
      if c.hardCachePct == 0.0 then 95.0 else c.hardCachePct,
      if c.softCachePct == 0.0 then 80.0 else c.softCachePct,
      if c.maxQueuePerGB == 0 then 4 else c.maxQueuePerGB,
      if c.pollInterval == 0 then 5 * SECOND else c.pollInterval,
      if c.emaAlpha == 0.0 then 0.2 else c.emaAlpha,
      if c.calmDuration == 0 then 300 * SECOND else c.calmDuration,
      if c.stressMargin == 0.0 then 10.0 else c.stressMargin,
      if c.minHardCachePct == 0.0 then 60.0 else c.minHardCachePct)
  }

  /** The documented ranges of the parameters the state machine depends on. */
  predicate InRange(c: Config) {
    0.0 < c.emaAlpha <= 1.0 && 0.0 < c.stressMargin && 0 < c.calmDuration
  }

  /** Zero means "use the default", so a zero or in-range parameter ends up in range. */
  lemma DefaultsAreInRange(c: Config)
    ensures InRange(WithDefaults(c)) <==> 0.0 <= c.emaAlpha <= 1.0 && 0.0 <= c.stressMargin && 0 <= c.calmDuration
    ensures WithDefaults(WithDefaults(c)) == WithDefaults(c)
  {
  }

  /** The documented defaults: a parameter left at zero gets its default and any other is kept. */
  lemma ZeroMeansDefault(c: Config)
    ensures var d := WithDefaults(c);
            && d.enabled == c.enabled
            && (if c.hardCachePct == 0.0 then d.hardCachePct == 95.0 else d.hardCachePct == c.hardCachePct)
            && (if c.softCachePct == 0.0 then d.softCachePct == 80.0 else d.softCachePct == c.softCachePct)
            && (if c.maxQueuePerGB == 0 then d.maxQueuePerGB == 4 else d.maxQueuePerGB == c.maxQueuePerGB)
            && (if c.pollInterval == 0 then d.pollInterval == 5_000_000_000 else d.pollInterval == c.pollInterval)
            && (if c.emaAlpha == 0.0 then d.emaAlpha == 0.2 else d.emaAlpha == c.emaAlpha)
            && (if c.calmDuration == 0 then d.calmDuration == 300_000_000_000 else d.calmDuration == c.calmDuration)
            && (if c.stressMargin == 0.0 then d.stressMargin == 10.0 else d.stressMargin == c.stressMargin)
            && (if c.minHardCachePct == 0.0 then d.minHardCachePct == 60.0 else d.minHardCachePct == c.minHardCachePct)
  {
  }

  // ---- State of one model -----------------------------------------------------------

  /** `calmSince` is None where the source keeps the zero time. */
  datatype State = State(
    lastSample: ModelMetrics,
    ema: real,
    cap: real,
    calmSince: Option<int>,
    updatedAt: int,
    maxQueueDepth: int)

  function Fresh(c: Config): State {
    State(NO_METRICS, 0.0, c.hardCachePct, None, 0, 0)
  }

  function Max(a: real, b: real): real { if a < b then b else a }
  function Min(a: real, b: real): real { if a < b then a else b }

  function Mix(alpha: real, sample: real, ema: real): real { alpha * sample + (1.0 - alpha) * ema }

  /** An EMA of exactly 0 counts as "no sample yet" and is seeded again. */
  function NextEma(alpha: real, ema: real, sample: real): real {
    if ema == 0.0 then sample else Mix(alpha, sample, ema)
  }

  predicate Stressed(ema: real, cap: real) { ema >= 0.9 * cap }

  function Tightened(c: Config, cap: real): real {
    Min(cap, Max(cap - c.stressMargin, c.minHardCachePct))
  }

  function Relaxed(c: Config, cap: real): real {
    Min(cap + c.stressMargin / 2.0, c.hardCachePct)
  }

  function Adjusted(c: Config, st: State, now: int): State {
    if Stressed(st.ema, st.cap) then
      st.(cap := Tightened(c, st.cap), calmSince := None)
    else if st.ema < c.softCachePct then
      var since := if st.calmSince.None? then now else st.calmSince.value;
      if now - since >= c.calmDuration && st.cap < c.hardCachePct then
        st.(cap := Relaxed(c, st.cap), calmSince := Some(now))
      else
        st.(calmSince := Some(since))
    else
      st.(calmSince := None)
  }

  /** Fair share of the queue budget; 0 means no cap. */
  function QueueDepth(c: Config, vramBytes: int, runningCount: int): int {
    if vramBytes <= 0 || runningCount <= 0 || c.maxQueuePerGB <= 0 then 0
    else
      var share := vramBytes as real / GIBIBYTE as real / runningCount as real * c.maxQueuePerGB as real;
      if share.Floor < 1 then 1 else share.Floor
  }

  function Observed(c: Config, vramBytes: int, st: State, sample: ModelMetrics, runningCount: int, now: int): State {
    var seen := st.(lastSample := sample, updatedAt := now, maxQueueDepth := QueueDepth(c, vramBytes, runningCount));
    if !sample.hasCacheUsage then seen
    else Adjusted(c, seen.(ema := NextEma(c.emaAlpha, st.ema, sample.cacheUsagePct)), now)
  }

  datatype Decision = Decision(allow: bool, reason: Reason, retryAfter: int)
  datatype Reason = Disabled | NoTelemetry | StaleTelemetry | CacheAboveCap | QueueAboveCap | WithinLimits

  function Verdict(c: Config, st: Option<State>, now: int): Decision {
    if !c.enabled then Decision(true, Disabled, 0)
    else if st.None? || !st.value.lastSample.hasCacheUsage then Decision(true, NoTelemetry, 0)
    else
      var s := st.value;
      if now - s.updatedAt > 3 * c.pollInterval then Decision(true, StaleTelemetry, 0)
      else if s.ema >= s.cap then Decision(false, CacheAboveCap, 5 * SECOND)
      else if s.maxQueueDepth > 0 && s.lastSample.requestsWaiting >= s.maxQueueDepth then
        Decision(false, QueueAboveCap, 10 * SECOND)
      else Decision(true, WithinLimits, 0)
  }

  // ---- The controller ---------------------------------------------------------------

  class ModelState {
    var lastSample: ModelMetrics
    var cacheUsageEMA: real
    var hardThresholdPct: real
    var calmSince: Option<int>
    var updatedAt: int
    var maxQueueDepth: int

    constructor (hardThresholdPct: real)
      ensures Value() == State(NO_METRICS, 0.0, hardThresholdPct, None, 0, 0)
    {
      this.lastSample, this.cacheUsageEMA, this.hardThresholdPct := NO_METRICS, 0.0, hardThresholdPct;
      this.calmSince, this.updatedAt, this.maxQueueDepth := None, 0, 0;
    }

    function Value(): State
      reads this
    {
      State(lastSample, cacheUsageEMA, hardThresholdPct, calmSince, updatedAt, maxQueueDepth)
    }
  }

  class Controller {
    const cfg: Config
    const vramBytes: int
    var states: map<string, ModelState>

    ghost predicate Valid()
      reads this
    {
      forall m, n | m in states && n in states && m != n :: states[m] != states[n]
    }

    ghost function Models(): map<string, State>
      reads this, states.Values
    {
      map m | m in states :: states[m].Value()
    }

    constructor (cfg: Config, vramBytes: int)
      ensures Valid() && Models() == map[]
      ensures this.cfg == WithDefaults(cfg) && this.vramBytes == vramBytes
    {
      this.cfg := WithDefaults(cfg);
      this.vramBytes := vramBytes;
      states := map[];
    }

    method AdjustThreshold(st: ModelState, now: int)
      modifies st
      ensures st.Value() == Adjusted(cfg, old(st.Value()), now)
    {
      var stressBand := 0.9 * st.hardThresholdPct;
      if st.cacheUsageEMA >= stressBand {
        var newCap := st.hardThresholdPct - cfg.stressMargin;
        if newCap < cfg.minHardCachePct {
          newCap := cfg.minHardCachePct;
        }
        if newCap < st.hardThresholdPct {
          st.hardThresholdPct := newCap;
        }
        st.calmSince := None;
        return;
      }
      if st.cacheUsageEMA < cfg.softCachePct {
        if st.calmSince.None? {
          st.calmSince := Some(now);
        }
        if now - st.calmSince.value >= cfg.calmDuration && st.hardThresholdPct < cfg.hardCachePct {
          st.hardThresholdPct := st.hardThresholdPct + cfg.stressMargin / 2.0;
          if st.hardThresholdPct > cfg.hardCachePct {
            st.hardThresholdPct := cfg.hardCachePct;
          }
          st.calmSince := Some(now);
        }
        return;
      }
      st.calmSince := None;
    }

    method Record(st: ModelState, sample: ModelMetrics, runningCount: int, now: int)
      modifies st
      ensures st.Value() == Observed(cfg, vramBytes, old(st.Value()), sample, runningCount, now)
    {
      st.lastSample := sample;
      st.updatedAt := now;
      st.maxQueueDepth := QueueDepth(cfg, vramBytes, runningCount);
      if !sample.hasCacheUsage {
        return;
      }
      if st.cacheUsageEMA == 0.0 {
        st.cacheUsageEMA := sample.cacheUsagePct;
      } else {
        st.cacheUsageEMA := Mix(cfg.emaAlpha, sample.cacheUsagePct, st.cacheUsageEMA);
      }
      AdjustThreshold(st, now);
    }

    /** Observing one model changes that model and no other. */
    method Observe(model: string, sample: ModelMetrics, runningCount: int, now: int)
      requires Valid()
      modifies this, states.Values
      ensures Valid() && fresh(states.Values - old(states.Values))
      ensures Models() == ObserveStep(cfg, vramBytes, old(Models()), model, sample, runningCount, now)
    {
      hide Observed;
      if model !in states {
        var created := new ModelState(cfg.hardCachePct);
        states := states[model := created];
      }
      Record(states[model], sample, runningCount, now);
      ghost var expected := ObserveStep(cfg, vramBytes, old(Models()), model, sample, runningCount, now);
      assert forall m | m in states && m != model :: states[m] == old(states[m]) && states[m] != states[model];
      assert Models() == expected;
    }

    /** One poll cycle: a model whose metrics could not be fetched is skipped. */
    method Tick(models: seq<string>, fetched: seq<Option<ModelMetrics>>, nows: seq<int>)
      requires Valid() && |models| == |fetched| == |nows|
      modifies this, states.Values
      ensures Valid() && fresh(states.Values - old(states.Values))
      ensures Models() == TickSteps(cfg, vramBytes, old(Models()), models, fetched, nows, |models|)
    {
      for i := 0 to |models|
        invariant Valid() && fresh(states.Values - old(states.Values))
        invariant Models() == TickSteps(cfg, vramBytes, old(Models()), models, fetched, nows, i)
      {
        if fetched[i].Some? {
          Observe(models[i], fetched[i].value, |models|, nows[i]);
        }
      }
    }

    method Allow(model: string, now: int) returns (d: Decision)
      ensures d == Verdict(cfg, if model in states then Some(states[model].Value()) else None, now)
    {
      if !cfg.enabled {
        return Decision(true, Disabled, 0);
      }
      if model !in states || !states[model].lastSample.hasCacheUsage {
        return Decision(true, NoTelemetry, 0);
      }
      var st := states[model];
      if now - st.updatedAt > 3 * cfg.pollInterval {
        return Decision(true, StaleTelemetry, 0);
      }
      if st.cacheUsageEMA >= st.hardThresholdPct {
        return Decision(false, CacheAboveCap, 5 * SECOND);
      }
      if st.maxQueueDepth > 0 && st.lastSample.requestsWaiting >= st.maxQueueDepth {
        return Decision(false, QueueAboveCap, 10 * SECOND);
      }
      return Decision(true, WithinLimits, 0);
    }
  }

  function ObserveStep(c: Config, vramBytes: int, models: map<string, State>, model: string,
                       sample: ModelMetrics, runningCount: int, now: int): map<string, State> {
    var st := if model in models then models[model] else Fresh(c);
    models[model := Observed(c, vramBytes, st, sample, runningCount, now)]
  }

  function TickSteps(c: Config, vramBytes: int, models: map<string, State>, names: seq<string>,
                     fetched: seq<Option<ModelMetrics>>, nows: seq<int>, n: nat): map<string, State>
    requires n <= |names| == |fetched| == |nows|
  {
    if n == 0 then models
    else
      var before := TickSteps(c, vramBytes, models, names, fetched, nows, n - 1);
      if fetched[n - 1].None? then before
      else ObserveStep(c, vramBytes, before, names[n - 1], fetched[n - 1].value, |names|, nows[n - 1])
  }
}
