/** The in-process quota backend: one counter per user, reset lazily when its window is over,
    and updated under two locks so that other calls may run between its two halves. */
module MemoryQuota {
  import opened QuotaPeriods

  datatype Counter = Counter(used: int, resetAt: nat)

  type Counters = map<string, Counter>

  /** First half of an add, under the table lock: find the user's counter or create it. */
  function LookUp(p: Period, cs: Counters, user: string, created: nat): Counters {
    if user in cs then cs else cs[user := Counter(0, NextReset(p, created))]
  }

  /** Second half, under the counter's lock; `reset` is read only if the window is over. */
  function Bump(p: Period, c: Counter, tokens: int, checked: nat, reset: nat): Counter {
    var current := if checked > c.resetAt then Counter(0, NextReset(p, reset)) else c;
    current.(used := current.used + tokens)
  }

  function AddTo(p: Period, cs: Counters, user: string, tokens: int, created: nat, checked: nat, reset: nat): Counters {
    var found := LookUp(p, cs, user, created);
    found[user := Bump(p, found[user], tokens, checked, reset)]
  }

  function GetFrom(cs: Counters, user: string, now: nat): int {
    if user !in cs || now > cs[user].resetAt then 0 else cs[user].used
  }

  class MemoryCounter {
    var used: int
    var resetAt: nat

    constructor (resetAt: nat)
      ensures used == 0 && this.resetAt == resetAt
    {
      this.used, this.resetAt := 0, resetAt;
    }

    function Value(): Counter
      reads this
    {
      Counter(used, resetAt)
    }

    method Add(p: Period, tokens: int, checked: nat, reset: nat)
      modifies this
      ensures Value() == Bump(p, old(Value()), tokens, checked, reset)
    {
      if checked > resetAt {
        used := 0;
        resetAt := NextReset(p, reset);
      }
      used := used + tokens;
    }
  }

  /** A map from users to counters, shared by reference. */
  class CounterMap {
    const period: Period
    var counters: map<string, MemoryCounter>

    /** No two users share a counter. */
    ghost predicate Valid()
      reads this
    {
      forall u, v | u in counters && v in counters && u != v :: counters[u] != counters[v]
    }

    ghost function Contents(): Counters
      reads this, counters.Values
    {
      map u | u in counters :: counters[u].Value()
    }

    constructor (period: Period)
      ensures Valid() && Contents() == map[] && this.period == period && counters == map[]
    {
      this.period, counters := period, map[];
    }

    /** The critical section under the table lock. */
    method FindOrCreate(user: string, created: nat) returns (counter: MemoryCounter)
      requires Valid()
      modifies this
      ensures Valid() && fresh(counters.Values - old(counters.Values))
      ensures user in counters && counter == counters[user]
      ensures Contents() == LookUp(period, old(Contents()), user, created)
    {
      if user !in counters {
        counter := new MemoryCounter(NextReset(period, created));
        counters := counters[user := counter];
      }
      counter := counters[user];
    }

    method AddTokens(user: string, tokens: int, created: nat, checked: nat, reset: nat)
      requires Valid()
      modifies this, counters.Values
      ensures Valid() && fresh(counters.Values - old(counters.Values))
      ensures Contents() == AddTo(period, old(Contents()), user, tokens, created, checked, reset)
    {
      var counter := FindOrCreate(user, created);
      ghost var found := Contents();
      counter.Add(period, tokens, checked, reset);
      assert forall u | u in counters && u != user :: counters[u] != counter;
      assert Contents() == found[user := Bump(period, found[user], tokens, checked, reset)];
    }

    method Get(user: string, now: nat) returns (tokens: int)
      ensures tokens == GetFrom(Contents(), user, now)
    {
      if user !in counters || now > counters[user].resetAt {
        return 0;
      }
      return counters[user].used;
    }
  }

  class MemoryQuotaBackend {
    const daily: CounterMap
    const monthly: CounterMap

    ghost predicate Valid()
      reads this, daily, monthly
    {
      && daily.Valid() && monthly.Valid() && daily != monthly
      && daily.period == Daily && monthly.period == Monthly
      && daily.counters.Values !! monthly.counters.Values
    }

    constructor ()
      ensures Valid() && daily.Contents() == map[] && monthly.Contents() == map[]
    {
      daily := new CounterMap(Daily);
      monthly := new CounterMap(Monthly);
    }

    /** Daily and monthly counters are independent. */
    method AddDaily(user: string, tokens: int, created: nat, checked: nat, reset: nat)
      requires Valid()
      modifies daily, daily.counters.Values
      ensures Valid() && fresh(daily.counters.Values - old(daily.counters.Values))
      ensures daily.Contents() == AddTo(Daily, old(daily.Contents()), user, tokens, created, checked, reset)
      ensures monthly.Contents() == old(monthly.Contents())
    {
      daily.AddTokens(user, tokens, created, checked, reset);
    }

    method AddMonthly(user: string, tokens: int, created: nat, checked: nat, reset: nat)
      requires Valid()
      modifies monthly, monthly.counters.Values
      ensures Valid() && fresh(monthly.counters.Values - old(monthly.counters.Values))
      ensures monthly.Contents() == AddTo(Monthly, old(monthly.Contents()), user, tokens, created, checked, reset)
      ensures daily.Contents() == old(daily.Contents())
    {
      monthly.AddTokens(user, tokens, created, checked, reset);
    }
  }

  // ---- Any interleaving of any number of adds ---------------------------------------

  datatype Step =
    | LookedUp(user: string, created: nat)
    | Updated(user: string, tokens: int, checked: nat, reset: nat)
  {
    function First(): nat { if LookedUp? then created else checked }
    function Last(): nat { if LookedUp? then created else reset }
  }

  /** The counters, and the adds completed so far, each at the clock reading that chose its
      window: the check, or the reading taken for the reset. */
  datatype Run = Run(counters: Counters, adds: seq<Add>)

  function After(p: Period, steps: seq<Step>): Run {
    if steps == [] then Run(map[], [])
    else Next(p, After(p, steps[..|steps| - 1]), steps[|steps| - 1])
  }

  function Next(p: Period, run: Run, s: Step): Run {
    match s
    case LookedUp(user, created) => run.(counters := LookUp(p, run.counters, user, created))
    case Updated(user, tokens, checked, reset) =>
      if user !in run.counters then run
      else
        var c := run.counters[user];
        Run(run.counters[user := Bump(p, c, tokens, checked, reset)],
            run.adds + [Add(p, user, tokens, if checked > c.resetAt then reset else checked)])
  }

  /** Clock readings never go back, and an update follows the look-up of its counter. The second
      reading of an update is taken only for a reset; otherwise it is the first. */
  ghost predicate Possible(p: Period, steps: seq<Step>) {
    steps != [] ==>
      var n := |steps| - 1;
      var s := steps[n];
      var counters := After(p, steps[..n]).counters;
      && Possible(p, steps[..n])
      && s.First() <= s.Last()
      && (n > 0 ==> steps[n - 1].Last() <= s.First())
      && (s.Updated? ==> s.user in counters && (s.checked <= counters[s.user].resetAt ==> s.reset == s.checked))
  }

  /** What an update with tokens must avoid: checking exactly at the reset instant, resetting on a
      date whose day number the next month does not have, and adding to a counter whose window is
      not the period the clock is in. A look-up can do no harm. */
  predicate Clean(p: Period, cs: Counters, s: Step) {
    s.Updated? && s.user in cs && s.tokens != 0 ==>
      var resetAt := cs[s.user].resetAt;
      && s.checked != resetAt
      && (if s.checked > resetAt then Regular(p, s.reset) else PeriodOf(p, s.checked) + 1 == PeriodOf(p, resetAt))
  }

  ghost predicate AllClean(p: Period, steps: seq<Step>) {
    forall i | 0 <= i < |steps| :: Clean(p, After(p, steps[..i]).counters, steps[i])
  }

  function Clock(steps: seq<Step>): nat {
    if steps == [] then 0 else steps[|steps| - 1].Last()
  }

  /** The window ends at the start of period `next`, and the counter holds exactly the period
      before; nothing has been recorded for any later period. A window may begin after the current
      period, having been created at an irregular date, but then it is still empty. */
  ghost predicate Holds(p: Period, c: Counter, table: Table, user: string, clock: nat) {
    var next := PeriodOf(p, c.resetAt);
    && c.resetAt == PeriodStart(p, next)
    && 0 < next <= PeriodOf(p, clock) + 2
    && c.used == At(table, p, user, next - 1)
    && (forall k: nat | k >= next :: At(table, p, user, k) == 0)
    && (next == PeriodOf(p, clock) + 2 ==> c.used == 0 && At(table, p, user, next - 2) == 0)
  }

  ghost predicate Tracks(p: Period, run: Run, user: string, clock: nat) {
    if user in run.counters then Holds(p, run.counters[user], TableOf(run.adds), user, clock)
    else forall k: nat :: At(TableOf(run.adds), p, user, k) == 0
  }

  lemma {:induction false} CleanRunsTrack(p: Period, steps: seq<Step>, user: string)
    requires Possible(p, steps) && AllClean(p, steps)
    ensures Tracks(p, After(p, steps), user, Clock(steps))
  {
    if steps != [] {
      var n := |steps| - 1;
      forall i | 0 <= i < n ensures steps[..n][..i] == steps[..i] {}
      CleanRunsTrack(p, steps[..n], user);
      assert Clean(p, After(p, steps[..n]).counters, steps[n]);
      StepTracks(p, After(p, steps[..n]), steps[n], user, Clock(steps[..n]));
    }
  }

  /** A window set at `now` ends at the start of the next period, or of the one after it. */
  lemma NewWindow(p: Period, now: nat)
    ensures var at := NextReset(p, now);
            && at > now && at == PeriodStart(p, PeriodOf(p, at))
            && PeriodOf(p, at) == PeriodOf(p, now) + if Regular(p, now) then 1 else 2
  {
    hide PeriodOf, PeriodStart, NextReset, Regular;
    var q := PeriodOf(p, now);
    var next := if Regular(p, now) then q + 1 else q + 2;
    ResetIsNextPeriodIffRegular(p, now);
    PeriodContains(p, now);
    PeriodStartMonotone(p, q + 1, q + 2);
    PeriodStartMonotone(p, next, next + 1);
    PeriodOfUnique(p, NextReset(p, now), next);
  }

  /** `after` is `before` with `tokens` added to the user's counter of period `at`. */
  ghost predicate Grown(before: Table, after: Table, p: Period, user: string, tokens: int, at: nat) {
    forall k: nat :: At(after, p, user, k) == At(before, p, user, k) + if k == at then tokens else 0
  }

  lemma RowAfterAdd(adds: seq<Add>, a: Add, user: string)
    ensures Grown(TableOf(adds), TableOf(adds + [a]), a.p, user,
                  if a.user == user then a.tokens else 0, PeriodOf(a.p, a.at))
  {
    forall k: nat
      ensures At(TableOf(adds + [a]), a.p, user, k)
           == At(TableOf(adds), a.p, user, k)
              + if k == PeriodOf(a.p, a.at) then if a.user == user then a.tokens else 0 else 0
    {
      hide *;
      AtAppend(adds, a, a.p, user, k);
    }
  }

  lemma HoldsLater(p: Period, c: Counter, table: Table, user: string, clock: nat, later: nat)
    requires Holds(p, c, table, user, clock) && clock <= later
    ensures Holds(p, c, table, user, later)
  {
    PeriodOfMonotone(p, clock, later);
  }

  lemma StepTracks(p: Period, run: Run, s: Step, user: string, clock: nat)
    requires Tracks(p, run, user, clock) && clock <= s.First() <= s.Last()
    requires Clean(p, run.counters, s)
    ensures Tracks(p, Next(p, run, s), user, s.Last())
  {
    if s.LookedUp? {
      LookUpTracks(p, run, s, user, clock);
    } else if s.user == user && user in run.counters {
      UpdateTracks(p, run, s, clock);
    } else {
      OtherTracks(p, run, s, user, clock);
    }
  }

  lemma LookUpTracks(p: Period, run: Run, s: Step, user: string, clock: nat)
    requires Tracks(p, run, user, clock) && s.LookedUp? && clock <= s.created
    ensures Tracks(p, Next(p, run, s), user, s.created)
  {
    if user in run.counters {
      HoldsLater(p, run.counters[user], TableOf(run.adds), user, clock, s.created);
    } else if s.user == user {
      NewWindow(p, s.created);
    }
  }

  lemma OtherTracks(p: Period, run: Run, s: Step, user: string, clock: nat)
    requires Tracks(p, run, user, clock) && s.Updated? && clock <= s.reset
    requires s.user != user || user !in run.counters
    ensures Tracks(p, Next(p, run, s), user, s.reset)
  {
    if user in run.counters {
      HoldsLater(p, run.counters[user], TableOf(run.adds), user, clock, s.reset);
    }
    if s.user in run.counters {
      var t := if s.checked > run.counters[s.user].resetAt then s.reset else s.checked;
      RowAfterAdd(run.adds, Add(p, s.user, s.tokens, t), user);
      OtherAdd(p, run, Next(p, run, s), user, s.reset, PeriodOf(p, t));
    }
  }

  /** What an update leaves: the counter it changed, and the keyed table grown by its tokens. */
  lemma UpdateLeaves(p: Period, run: Run, s: Step)
    requires s.Updated? && s.user in run.counters
    ensures var c, after := run.counters[s.user], Next(p, run, s);
            var t := if s.checked > c.resetAt then s.reset else s.checked;
            && s.user in after.counters && after.counters[s.user] == Bump(p, c, s.tokens, s.checked, s.reset)
            && Grown(TableOf(run.adds), TableOf(after.adds), p, s.user, s.tokens, PeriodOf(p, t))
  {
    hide Grown, TableOf, PeriodOf, NextReset;
    var t := if s.checked > run.counters[s.user].resetAt then s.reset else s.checked;
    RowAfterAdd(run.adds, Add(p, s.user, s.tokens, t), s.user);
  }

  lemma UpdateTracks(p: Period, run: Run, s: Step, clock: nat)
    requires s.Updated? && s.user in run.counters && Tracks(p, run, s.user, clock) && Clean(p, run.counters, s)
    requires clock <= s.checked <= s.reset
    ensures Tracks(p, Next(p, run, s), s.user, s.reset)
  {
    hide Holds, Grown, Next, TableOf, PeriodOf, NextReset, Regular;
    var c := run.counters[s.user];
    var before, after := TableOf(run.adds), TableOf(Next(p, run, s).adds);
    UpdateLeaves(p, run, s);
    if s.checked > c.resetAt {
      LateAdd(p, c, before, after, s.user, s.tokens, clock, s.reset);
    } else {
      EarlyAdd(p, c, before, after, s.user, s.tokens, clock, s.checked, s.reset);
    }
  }

  lemma OtherAdd(p: Period, run: Run, after: Run, user: string, clock: nat, at: nat)
    requires user in run.counters ==>
               Tracks(p, run, user, clock) && user in after.counters && after.counters[user] == run.counters[user]
    requires user !in run.counters ==> Tracks(p, run, user, 0) && user !in after.counters
    requires Grown(TableOf(run.adds), TableOf(after.adds), p, user, 0, at)
    ensures Tracks(p, after, user, clock)
  {
  }

  lemma EarlyAdd(p: Period, c: Counter, before: Table, after: Table, user: string, tokens: int,
                 clock: nat, checked: nat, later: nat)
    requires Holds(p, c, before, user, clock) && clock <= checked <= later && checked <= c.resetAt
    requires Grown(before, after, p, user, tokens, PeriodOf(p, checked))
    requires tokens != 0 ==> checked != c.resetAt && PeriodOf(p, checked) + 1 == PeriodOf(p, c.resetAt)
    ensures Holds(p, c.(used := c.used + tokens), after, user, later)
  {
    PeriodOfMonotone(p, clock, checked);
    PeriodOfMonotone(p, checked, later);
  }

  lemma LateAdd(p: Period, c: Counter, before: Table, after: Table, user: string, tokens: int, clock: nat, reset: nat)
    requires Holds(p, c, before, user, clock) && clock <= reset && c.resetAt < reset
    requires Grown(before, after, p, user, tokens, PeriodOf(p, reset))
    requires tokens != 0 ==> Regular(p, reset)
    ensures Holds(p, Counter(tokens, NextReset(p, reset)), after, user, reset)
  {
    PeriodOfMonotone(p, c.resetAt, reset);
    NewWindow(p, reset);
  }

  // ---- Agreement with the keyed counter ---------------------------------------------

  /** Before the reset instant the clock is in the counter's own period, or in the one before it
      and nothing is recorded. */
  lemma InWindow(p: Period, resetAt: nat, clock: nat, t: nat)
    requires resetAt == PeriodStart(p, PeriodOf(p, resetAt)) && clock <= t < resetAt
    requires 0 < PeriodOf(p, resetAt) <= PeriodOf(p, clock) + 2
    ensures PeriodOf(p, clock) <= PeriodOf(p, t) < PeriodOf(p, resetAt)
  {
    PeriodOfMonotone(p, clock, t);
    PeriodOfMonotone(p, t, resetAt);
    PeriodContains(p, t);
  }

  /** Agreement: after any clean run, a read equals the keyed counter of the current period,
      except exactly at the reset instant of a counter that is not zero. */
  lemma MemoryAgreesWithKeyed(p: Period, steps: seq<Step>, user: string, now: nat)
    requires Possible(p, steps) && AllClean(p, steps) && Clock(steps) <= now
    ensures var run := After(p, steps);
            GetFrom(run.counters, user, now) == At(TableOf(run.adds), p, user, PeriodOf(p, now)) <==>
              (user in run.counters && now == run.counters[user].resetAt ==> run.counters[user].used == 0)
  {
    CleanRunsTrack(p, steps, user);
    TrackedReadAgrees(p, After(p, steps), user, Clock(steps), now);
  }

  lemma TrackedReadAgrees(p: Period, run: Run, user: string, clock: nat, now: nat)
    requires Tracks(p, run, user, clock) && clock <= now
    ensures GetFrom(run.counters, user, now) == At(TableOf(run.adds), p, user, PeriodOf(p, now)) <==>
              (user in run.counters && now == run.counters[user].resetAt ==> run.counters[user].used == 0)
  {
    hide PeriodOf, PeriodStart, TableOf;
    if user in run.counters {
      var resetAt := run.counters[user].resetAt;
      if now < resetAt {
        InWindow(p, resetAt, clock, now);
      } else {
        PeriodOfMonotone(p, resetAt, now);
      }
    }
  }

  /** Reads off the period boundaries, from the run's last clock reading on, agree. */
  ghost predicate Agrees(p: Period, run: Run, user: string, clock: nat) {
    forall now: nat | clock <= now && !OnBoundary(p, now) ::
      GetFrom(run.counters, user, now) == At(TableOf(run.adds), p, user, PeriodOf(p, now))
  }

  lemma TrackedRunAgrees(p: Period, run: Run, user: string, clock: nat)
    requires Tracks(p, run, user, clock)
    ensures Agrees(p, run, user, clock)
  {
    forall now: nat | clock <= now && !OnBoundary(p, now)
      ensures GetFrom(run.counters, user, now) == At(TableOf(run.adds), p, user, PeriodOf(p, now))
    {
      TrackedReadAgrees(p, run, user, clock, now);
    }
  }

  /** An instant just inside a period. */
  lemma JustInside(p: Period, k: nat)
    ensures PeriodOf(p, PeriodStart(p, k) + 1) == k && !OnBoundary(p, PeriodStart(p, k) + 1)
  {
    PeriodLength(p, k);
    PeriodOfUnique(p, PeriodStart(p, k) + 1, k);
  }

  lemma PeriodLength(p: Period, k: nat)
    ensures PeriodStart(p, k) + 1 < PeriodStart(p, k + 1)
  {
  }

  /** Any update with tokens that is not clean makes some later read off the boundaries differ. */
  lemma UncleanUpdateDisagrees(p: Period, run: Run, s: Step, clock: nat) returns (now: nat)
    requires s.Updated? && s.user in run.counters && !Clean(p, run.counters, s)
    requires Tracks(p, run, s.user, clock) && clock <= s.checked <= s.reset
    requires s.checked <= run.counters[s.user].resetAt ==> s.reset == s.checked
    ensures s.reset <= now && !OnBoundary(p, now)
    ensures var after := Next(p, run, s);
            GetFrom(after.counters, s.user, now) != At(TableOf(after.adds), p, s.user, PeriodOf(p, now))
  {
    hide PeriodOf, NextReset, Regular, OnBoundary, At, Holds, Grown, Next, TableOf;
    var c := run.counters[s.user];
    var before, after := TableOf(run.adds), TableOf(Next(p, run, s).adds);
    UpdateLeaves(p, run, s);
    if s.checked == c.resetAt {
      now := ResetInstantForgets(p, c, before, after, s.user, s.tokens, clock);
    } else if s.checked > c.resetAt {
      now := LateAddSpills(p, c, before, after, s.user, s.tokens, clock, s.reset);
    } else {
      now := EarlyAddSpills(p, c, before, after, s.user, s.tokens, clock, s.checked);
    }
  }

  /** An add at the reset instant: the tokens belong to the new period, and are gone in it. */
  lemma ResetInstantForgets(p: Period, c: Counter, before: Table, after: Table, user: string, tokens: int, clock: nat)
    returns (now: nat)
    requires Holds(p, c, before, user, clock) && tokens != 0
    requires Grown(before, after, p, user, tokens, PeriodOf(p, c.resetAt))
    ensures c.resetAt < now && !OnBoundary(p, now) && 0 != At(after, p, user, PeriodOf(p, now))
  {
    hide PeriodOf, PeriodStart, At, OnBoundary;
    JustInside(p, PeriodOf(p, c.resetAt));
    now := c.resetAt + 1;
  }

  /** A reset at an irregular date: the tokens are still there in the next period. */
  lemma LateAddSpills(p: Period, c: Counter, before: Table, after: Table, user: string, tokens: int,
                      clock: nat, reset: nat)
    returns (now: nat)
    requires Holds(p, c, before, user, clock) && clock <= reset && c.resetAt < reset
    requires !Regular(p, reset) && tokens != 0
    requires Grown(before, after, p, user, tokens, PeriodOf(p, reset))
    ensures reset <= now < NextReset(p, reset) && !OnBoundary(p, now) && tokens != At(after, p, user, PeriodOf(p, now))
  {
    hide PeriodOf, PeriodStart, NextReset, At, Regular, OnBoundary;
    var q := PeriodOf(p, reset);
    PeriodOfMonotone(p, c.resetAt, reset);
    NewWindow(p, reset);
    PeriodContains(p, reset);
    JustInside(p, q + 1);
    PeriodLength(p, q + 1);
    now := PeriodStart(p, q + 1) + 1;
  }

  /** An add to a window that has not begun is read back in it, on top of what belongs there. */
  lemma EarlyAddSpills(p: Period, c: Counter, before: Table, after: Table, user: string, tokens: int,
                       clock: nat, checked: nat)
    returns (now: nat)
    requires Holds(p, c, before, user, clock) && clock <= checked < c.resetAt && tokens != 0
    requires PeriodOf(p, checked) + 1 != PeriodOf(p, c.resetAt)
    requires Grown(before, after, p, user, tokens, PeriodOf(p, checked))
    ensures checked <= now < c.resetAt && !OnBoundary(p, now) && c.used + tokens != At(after, p, user, PeriodOf(p, now))
  {
    hide PeriodOf, PeriodStart, At, OnBoundary;
    var last := PeriodOf(p, c.resetAt) - 1;
    InWindow(p, c.resetAt, clock, checked);
    PeriodContains(p, checked);
    JustInside(p, last);
    PeriodLength(p, last);
    now := PeriodStart(p, last) + 1;
  }

  /** After any clean run, what one more step leaves agrees with the keyed counters if and only if
      the step is clean. */
  lemma StepAgreesIffClean(p: Period, steps: seq<Step>, s: Step)
    requires Possible(p, steps + [s]) && AllClean(p, steps)
    ensures (forall user :: Agrees(p, Next(p, After(p, steps), s), user, s.Last()))
       <==> Clean(p, After(p, steps).counters, s)
  {
    assert (steps + [s])[..|steps|] == steps;
    var run := After(p, steps);
    if Clean(p, run.counters, s) {
      forall user ensures Agrees(p, Next(p, run, s), user, s.Last()) {
        CleanRunsTrack(p, steps, user);
        StepTracks(p, run, s, user, Clock(steps));
        TrackedRunAgrees(p, Next(p, run, s), user, s.Last());
      }
    } else {
      CleanRunsTrack(p, steps, s.user);
      var now := UncleanUpdateDisagrees(p, run, s, Clock(steps));
      assert !Agrees(p, Next(p, run, s), s.user, s.Last());
    }
  }

  /** At every stage of the run every read off the boundaries agrees. */
  ghost predicate AgreesThroughout(p: Period, steps: seq<Step>) {
    forall n: nat, user: string | n <= |steps| :: Agrees(p, After(p, steps[..n]), user, Clock(steps[..n]))
  }

  lemma {:induction false} PossiblePrefix(p: Period, steps: seq<Step>, n: nat)
    requires Possible(p, steps) && n <= |steps|
    ensures Possible(p, steps[..n])
  {
    if n == |steps| {
      assert steps[..n] == steps;
    } else {
      PossiblePrefix(p, steps[..|steps| - 1], n);
      assert steps[..|steps| - 1][..n] == steps[..n];
    }
  }

  lemma CleanPrefix(p: Period, steps: seq<Step>, n: nat)
    requires AllClean(p, steps) && n <= |steps|
    ensures AllClean(p, steps[..n])
  {
    forall i | 0 <= i < n ensures steps[..n][..i] == steps[..i] {}
  }

  lemma {:induction false} FirstUnclean(p: Period, steps: seq<Step>) returns (n: nat)
    requires !AllClean(p, steps)
    ensures n < |steps| && AllClean(p, steps[..n]) && !Clean(p, After(p, steps[..n]).counters, steps[n])
  {
    hide Clean, After;
    var last := |steps| - 1;
    if AllClean(p, steps[..last]) {
      n := last;
      forall i | 0 <= i < last ensures steps[..last][..i] == steps[..i] {}
    } else {
      n := FirstUnclean(p, steps[..last]);
      assert steps[..last][..n] == steps[..n];
    }
  }

  /** The exact condition: over any run, at every stage and for every user, every read off the
      boundaries equals the keyed counter if and only if every update with tokens is clean. */
  lemma MemoryAgreesThroughoutIff(p: Period, steps: seq<Step>)
    requires Possible(p, steps)
    ensures AgreesThroughout(p, steps) <==> AllClean(p, steps)
  {
    if AllClean(p, steps) {
      forall n: nat, user: string | n <= |steps| ensures Agrees(p, After(p, steps[..n]), user, Clock(steps[..n])) {
        hide *;
        PossiblePrefix(p, steps, n);
        CleanPrefix(p, steps, n);
        CleanRunsTrack(p, steps[..n], user);
        TrackedRunAgrees(p, After(p, steps[..n]), user, Clock(steps[..n]));
      }
    } else {
      SomeReadDisagrees(p, steps);
    }
  }

  lemma SomeReadDisagrees(p: Period, steps: seq<Step>)
    requires Possible(p, steps) && !AllClean(p, steps)
    ensures !AgreesThroughout(p, steps)
  {
    hide *;
    var n := FirstUnclean(p, steps);
    PossiblePrefix(p, steps, n + 1);
    StageOf(p, steps, n);
    assert steps[..n + 1] == steps[..n] + [steps[n]];
    StepAgreesIffClean(p, steps[..n], steps[n]);
    var user :| !Agrees(p, After(p, steps[..n + 1]), user, Clock(steps[..n + 1]));
    StageDisagrees(p, steps, n + 1, user);
  }

  lemma StageOf(p: Period, steps: seq<Step>, n: nat)
    requires n < |steps|
    ensures After(p, steps[..n + 1]) == Next(p, After(p, steps[..n]), steps[n])
    ensures Clock(steps[..n + 1]) == steps[n].Last()
  {
    assert steps[..n + 1][..n] == steps[..n];
  }

  lemma StageDisagrees(p: Period, steps: seq<Step>, n: nat, user: string)
    requires n <= |steps| && !Agrees(p, After(p, steps[..n]), user, Clock(steps[..n]))
    ensures !AgreesThroughout(p, steps)
  {
    hide Agrees, After, Clock;
  }

  // ---- Daily counters ---------------------------------------------------------------

  /** A daily window always ends at the next midnight. */
  lemma DailyIsAlwaysRegular(now: nat)
    ensures Regular(Daily, now) && NextReset(Daily, now) == PeriodStart(Daily, PeriodOf(Daily, now) + 1)
  {
    ResetIsNextPeriodIffRegular(Daily, now);
  }

  /** Whatever the run, a daily counter's window ends at a midnight, at the latest at the first one
      after the clock. */
  lemma {:induction false} DailyWindowsEndAtMidnight(steps: seq<Step>, user: string)
    requires Possible(Daily, steps) && user in After(Daily, steps).counters
    ensures var resetAt := After(Daily, steps).counters[user].resetAt;
            && resetAt == PeriodStart(Daily, PeriodOf(Daily, resetAt))
            && PeriodOf(Daily, resetAt) <= PeriodOf(Daily, Clock(steps)) + 1
  {
    var n := |steps| - 1;
    var before, s := After(Daily, steps[..n]), steps[n];
    if user in before.counters {
      DailyWindowsEndAtMidnight(steps[..n], user);
      PeriodOfMonotone(Daily, Clock(steps[..n]), s.Last());
    }
    if s.user == user {
      DailyWindowSet(if s.LookedUp? then s.created else s.reset);
    }
    hide PeriodOf, PeriodStart, NextReset;
  }

  lemma DailyWindowSet(now: nat)
    ensures var resetAt := NextReset(Daily, now);
            && resetAt == PeriodStart(Daily, PeriodOf(Daily, resetAt))
            && PeriodOf(Daily, resetAt) == PeriodOf(Daily, now) + 1
  {
    hide PeriodOf, PeriodStart, NextReset;
    NewWindow(Daily, now);
  }

  /** An update with tokens checked exactly at its counter's reset instant. */
  predicate AtResetInstant(cs: Counters, s: Step) {
    s.Updated? && s.user in cs && s.tokens != 0 && s.checked == cs[s.user].resetAt
  }

  /** At any point of any run of daily counters, only such an update is unclean. */
  lemma DailyCleanIff(steps: seq<Step>, s: Step)
    requires Possible(Daily, steps + [s])
    ensures Clean(Daily, After(Daily, steps).counters, s) <==> !AtResetInstant(After(Daily, steps).counters, s)
  {
    assert (steps + [s])[..|steps|] == steps;
    var cs := After(Daily, steps).counters;
    if s.Updated? && s.checked < cs[s.user].resetAt {
      DailyWindowsEndAtMidnight(steps, s.user);
      DailyCheckInWindow(cs[s.user].resetAt, Clock(steps), s.checked);
    }
    hide After, PeriodOf, PeriodStart, NextReset;
  }

  lemma DailyCheckInWindow(resetAt: nat, clock: nat, checked: nat)
    requires resetAt == PeriodStart(Daily, PeriodOf(Daily, resetAt))
    requires PeriodOf(Daily, resetAt) <= PeriodOf(Daily, clock) + 1
    requires clock <= checked < resetAt
    ensures PeriodOf(Daily, checked) + 1 == PeriodOf(Daily, resetAt)
  {
    hide PeriodOf;
    PeriodOfMonotone(Daily, clock, checked);
    InWindow(Daily, resetAt, clock, checked);
  }

  /** The daily law: over any run, at every stage and for every user, every read off the midnights
      equals the day's counter if and only if no update with tokens is checked exactly at the reset
      instant of its counter. */
  lemma DailyAgreesThroughoutIff(steps: seq<Step>)
    requires Possible(Daily, steps)
    ensures AgreesThroughout(Daily, steps)
       <==> forall i | 0 <= i < |steps| :: !AtResetInstant(After(Daily, steps[..i]).counters, steps[i])
  {
    hide After, Clean, AtResetInstant, AgreesThroughout, Possible;
    MemoryAgreesThroughoutIff(Daily, steps);
    forall i | 0 <= i < |steps|
      ensures Clean(Daily, After(Daily, steps[..i]).counters, steps[i])
         <==> !AtResetInstant(After(Daily, steps[..i]).counters, steps[i])
    {
      PossiblePrefix(Daily, steps, i + 1);
      assert steps[..i + 1] == steps[..i] + [steps[i]];
      DailyCleanIff(steps[..i], steps[i]);
    }
  }

  // ---- What goes wrong otherwise ----------------------------------------------------

  /** An add checked exactly at the reset instant goes to the closing period and is forgotten:
      throughout the new period the backend reads 0 while the keyed counter holds the tokens. */
  lemma AddAtResetInstantIsForgotten(p: Period, steps: seq<Step>, s: Step, now: nat)
    requires Possible(p, steps) && AllClean(p, steps)
    requires s.Updated? && s.user in After(p, steps).counters && s.checked == After(p, steps).counters[s.user].resetAt
    requires Clock(steps) <= s.checked < now && PeriodOf(p, now) == PeriodOf(p, s.checked)
    ensures var run := Next(p, After(p, steps), s);
            && GetFrom(run.counters, s.user, now) == 0
            && At(TableOf(run.adds), p, s.user, PeriodOf(p, now)) == s.tokens
  {
    CleanRunsTrack(p, steps, s.user);
    RowAfterAdd(After(p, steps).adds, Add(p, s.user, s.tokens, s.checked), s.user);
  }

  /** The window that a first add finds, in terms of dates: created at one instant and checked at
      another, it is right if and only if the check falls in the period the window ends, strictly
      before its end, or, after it, on a date whose day number the next month has. */
  predicate FirstWindowFits(p: Period, created: nat, checked: nat, reset: nat) {
    var at := NextReset(p, created);
    checked != at && if checked > at then Regular(p, reset) else PeriodOf(p, checked) + 1 == PeriodOf(p, at)
  }

  /** A user's first add is read back as the keyed counter says at every later instant off a
      boundary if and only if its window fits. Looked up and checked at one instant, it does if
      and only if that date is regular: on January 31st the tokens spill over into February. A
      counter looked up on January 31st whose update comes in February is right. */
  lemma FirstAddAgreesIffRegular(p: Period, user: string, tokens: int, created: nat, checked: nat, reset: nat)
    requires tokens != 0 && created <= checked <= reset && (checked <= NextReset(p, created) ==> reset == checked)
    ensures Agrees(p, After(p, [LookedUp(user, created), Updated(user, tokens, checked, reset)]), user, reset)
       <==> FirstWindowFits(p, created, checked, reset)
    ensures created == checked ==> (FirstWindowFits(p, created, checked, reset) <==> Regular(p, created))
    ensures !Regular(p, created) && PeriodOf(p, checked) == PeriodOf(p, created) + 1
        ==> FirstWindowFits(p, created, checked, reset)
  {
    var run, s := Looked(p, user, created), Updated(user, tokens, checked, reset);
    FirstSteps(p, user, created, s);
    FirstWindowDates(p, created, checked, reset);
    NewWindow(p, created);
    assert run.counters[user].resetAt == NextReset(p, created);
    assert Clean(p, run.counters, s) <==> FirstWindowFits(p, created, checked, reset);
    hide *;
    if Clean(p, run.counters, s) {
      StepTracks(p, run, s, user, created);
      TrackedRunAgrees(p, Next(p, run, s), user, reset);
    } else {
      NotAgreeing(p, run, s, created);
    }
  }

  /** After a user's first look-up. */
  function Looked(p: Period, user: string, created: nat): (run: Run)
    ensures user in run.counters
  {
    Run(map[user := Counter(0, NextReset(p, created))], [])
  }

  lemma FirstSteps(p: Period, user: string, created: nat, s: Step)
    ensures Tracks(p, Looked(p, user, created), user, created)
    ensures After(p, [LookedUp(user, created), s]) == Next(p, Looked(p, user, created), s)
  {
    var first, steps := [LookedUp(user, created)], [LookedUp(user, created), s];
    assert first[..0] == [] && steps[..1] == first;
    assert After(p, []) == Run(map[], []);
    assert After(p, first) == Next(p, After(p, []), first[0]) == Looked(p, user, created);
    NewWindow(p, created);
    assert TableOf([]) == map[];
    hide PeriodOf, PeriodStart, NextReset, Next;
  }

  lemma NotAgreeing(p: Period, run: Run, s: Step, clock: nat)
    requires s.Updated? && s.user in run.counters && !Clean(p, run.counters, s)
    requires Tracks(p, run, s.user, clock) && clock <= s.checked <= s.reset
    requires s.checked <= run.counters[s.user].resetAt ==> s.reset == s.checked
    ensures !Agrees(p, Next(p, run, s), s.user, s.reset)
  {
    hide Clean, Tracks, Next, OnBoundary, GetFrom, At;
    var now := UncleanUpdateDisagrees(p, run, s, clock);
  }

  lemma FirstWindowDates(p: Period, created: nat, checked: nat, reset: nat)
    requires created <= checked
    ensures created == checked ==> (FirstWindowFits(p, created, checked, reset) <==> Regular(p, created))
    ensures !Regular(p, created) && PeriodOf(p, checked) == PeriodOf(p, created) + 1
        ==> FirstWindowFits(p, created, checked, reset)
  {
    hide PeriodOf, PeriodStart, NextReset, Regular;
    var at := NextReset(p, created);
    NewWindow(p, created);
    if checked >= at {
      PeriodOfMonotone(p, at, checked);
    }
  }
}
