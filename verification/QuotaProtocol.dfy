/** Token quotas as the gateway enforces them: checked before a request is forwarded, recorded
    after the response, over whichever backend was configured. */
module QuotaProtocol {
  import opened Wrappers
  import opened Calendar
  import opened QuotaPeriods
  import opened QuotaStores
  import K = KeyedQuota
  import M = MemoryQuota

  /** 0 means unlimited. */
  datatype Limits = Limits(maxTokensPerDay: int, maxTokensPerMonth: int)
  {
    function Of(p: Period): int { if p == Daily then maxTokensPerDay else maxTokensPerMonth }
  }

  datatype Refusal = UserNotFound | QuotaExceeded(p: Period, used: int, limit: int)

  /** Whether one limit refuses a counter reading. */
  predicate Exceeds(limits: Limits, p: Period, used: int) { 0 < limits.Of(p) <= used }

  /** What the check answers when the two counters read `daily` and `monthly`. */
  function Check(profiles: map<string, Limits>, user: string, daily: int, monthly: int): Option<Refusal> {
    if user == "" then None
    else if user !in profiles then Some(UserNotFound)
    else
      var limits := profiles[user];
      if Exceeds(limits, Daily, daily) then Some(QuotaExceeded(Daily, daily, limits.maxTokensPerDay))
      else if Exceeds(limits, Monthly, monthly) then Some(QuotaExceeded(Monthly, monthly, limits.maxTokensPerMonth))
      else None
  }

  /** A limit of 0 or less refuses nothing; any other refuses a counter that has reached it. */
  predicate Below(limit: int, used: int) { limit <= 0 || used < limit }

  /** Exactly when a check lets a user through, and when it refuses for which reason: the daily limit comes
      before the monthly one. */
  lemma CheckIff(profiles: map<string, Limits>, user: string, daily: int, monthly: int)
    ensures Check(profiles, user, daily, monthly) == None <==>
              user == "" || (user in profiles && Below(profiles[user].maxTokensPerDay, daily)
                             && Below(profiles[user].maxTokensPerMonth, monthly))
    ensures Check(profiles, user, daily, monthly) == Some(UserNotFound) <==> user != "" && user !in profiles
    ensures user != "" && user in profiles && !Below(profiles[user].maxTokensPerDay, daily) ==>
              Check(profiles, user, daily, monthly) == Some(QuotaExceeded(Daily, daily, profiles[user].maxTokensPerDay))
    ensures user != "" && user in profiles && Below(profiles[user].maxTokensPerDay, daily)
            && !Below(profiles[user].maxTokensPerMonth, monthly) ==>
              Check(profiles, user, daily, monthly) ==
              Some(QuotaExceeded(Monthly, monthly, profiles[user].maxTokensPerMonth))
  {
  }

  datatype QuotaBackend = InMemory(memory: M.MemoryQuotaBackend) | InSQLite(sqlite: K.SQLiteQuotaBackend)

  /** The clock readings of one add: at the look-up, at the check and, if the window is over, at the
      reset. SQLite reads the clock once, for its key, in place of the first. */
  datatype Readings = Readings(created: nat, checked: nat, reset: nat)

  /** One whole add, both halves in sequence. */
  function Added(s: Store, p: Period, user: string, tokens: int, at: Readings): Store {
    Update(Find(s, p, user, at.created), p, user, tokens, at.created, at.checked, at.reset)
  }

  class TokenQuotaManager {
    const profiles: map<string, Limits>
    const backend: QuotaBackend

    constructor (profiles: map<string, Limits>, backend: QuotaBackend)
      ensures this.profiles == profiles && this.backend == backend
    {
      this.profiles, this.backend := profiles, backend;
    }

    ghost function Tables(): set<object> {
      match backend
      case InMemory(m) => {m, m.daily, m.monthly}
      case InSQLite(s) => {s}
    }

    ghost function Objects(): set<object>
      reads Tables()
    {
      match backend
      case InMemory(m) => Tables() + m.daily.counters.Values + m.monthly.counters.Values
      case InSQLite(_) => Tables()
    }

    ghost predicate Valid()
      reads Tables()
    {
      match backend
      case InMemory(m) => m.Valid()
      case InSQLite(s) => s.Valid()
    }

    ghost function Contents(): Store
      reads Objects()
    {
      match backend
      case InMemory(m) => Memory(m.daily.Contents(), m.monthly.Contents())
      case InSQLite(s) => Keyed(s.adds)
    }

    method Get(p: Period, user: string, at: nat) returns (used: int)
      requires Valid()
      ensures used == Read(Contents(), p, user, at)
    {
      match backend
      case InMemory(m) =>
        if p == Daily {
          used := m.daily.Get(user, at);
        } else {
          used := m.monthly.Get(user, at);
        }
      case InSQLite(s) => used := s.Get(p, user, at);
    }

    /** The monthly counter is read only if the daily one is below its limit. */
    method CheckQuota(user: string, dailyAt: nat, monthlyAt: nat) returns (refusal: Option<Refusal>)
      requires Valid()
      ensures refusal ==
              Check(profiles, user, Read(Contents(), Daily, user, dailyAt), Read(Contents(), Monthly, user, monthlyAt))
    {
      if user == "" {
        return None;
      }
      if user !in profiles {
        return Some(UserNotFound);
      }
      var profile := profiles[user];
      if profile.maxTokensPerDay > 0 {
        var dailyUsed := Get(Daily, user, dailyAt);
        if dailyUsed >= profile.maxTokensPerDay {
          return Some(QuotaExceeded(Daily, dailyUsed, profile.maxTokensPerDay));
        }
      }
      if profile.maxTokensPerMonth > 0 {
        var monthlyUsed := Get(Monthly, user, monthlyAt);
        if monthlyUsed >= profile.maxTokensPerMonth {
          return Some(QuotaExceeded(Monthly, monthlyUsed, profile.maxTokensPerMonth));
        }
      }
      return None;
    }

    method AddTokens(p: Period, user: string, tokens: int, at: Readings)
      requires Valid()
      modifies Objects()
      ensures Valid() && forall o | o in Objects() :: o in old(Objects()) || fresh(o)
      ensures Contents() == Added(old(Contents()), p, user, tokens, at)
    {
      match backend
      case InMemory(m) =>
        if p == Daily {
          m.AddDaily(user, tokens, at.created, at.checked, at.reset);
        } else {
          m.AddMonthly(user, tokens, at.created, at.checked, at.reset);
        }
      case InSQLite(s) => s.AddTokens(p, user, tokens, at.created);
    }

    method AddBoth(user: string, tokens: int, daily: Readings, monthly: Readings)
      requires Valid()
      modifies Objects()
      ensures Valid() && forall o | o in Objects() :: o in old(Objects()) || fresh(o)
      ensures Contents() == Added(Added(old(Contents()), Daily, user, tokens, daily), Monthly, user, tokens, monthly)
    {
      hide *;
      AddTokens(Daily, user, tokens, daily);
      AddTokens(Monthly, user, tokens, monthly);
    }

    method Record(user: string, inputTokens: int, outputTokens: int, daily: Readings, monthly: Readings)
      requires Valid()
      modifies Objects()
      ensures Valid() && forall o | o in Objects() :: o in old(Objects()) || fresh(o)
      ensures Contents() == if user == "" then old(Contents())
                            else Added(Added(old(Contents()), Daily, user, inputTokens + outputTokens, daily),
                                       Monthly, user, inputTokens + outputTokens, monthly)
    {
      hide *;
      if user == "" {
        return;
      }
      AddBoth(user, inputTokens + outputTokens, daily, monthly);
    }
  }

  // ---- Conservation -----------------------------------------------------------------

  /** One recorded response: input plus output tokens, and the two clock readings. */
  datatype Record = Record(user: string, tokens: nat, dailyAt: nat, monthlyAt: nat)

  function Recorded(adds: seq<Add>, r: Record): seq<Add> {
    adds + [Add(Daily, r.user, r.tokens, r.dailyAt)] + [Add(Monthly, r.user, r.tokens, r.monthlyAt)]
  }

  lemma RecordedAt(adds: seq<Add>, r: Record, p: Period, user: string, k: nat)
    ensures At(TableOf(Recorded(adds, r)), p, user, k)
         == At(TableOf(adds), p, user, k)
            + if user == r.user && k == PeriodOf(p, if p == Daily then r.dailyAt else r.monthlyAt) then r.tokens else 0
  {
    var daily := Add(Daily, r.user, r.tokens, r.dailyAt);
    AtAppend(adds, daily, p, user, k);
    AtAppend(adds + [daily], Add(Monthly, r.user, r.tokens, r.monthlyAt), p, user, k);
  }

  function DayMonth(r: Record): nat { PeriodOf(Monthly, r.dailyAt) }

  function AddsOfRecords(rs: seq<Record>): seq<Add> {
    if rs == [] then []
    else
      Recorded(AddsOfRecords(rs[..|rs| - 1]), rs[|rs| - 1])
  }

  /** Sum of a user's daily counters over days from..to-1. */
  function SumOfDays(table: Table, user: string, from: nat, to: nat): int
    requires from <= to
  {
    if from == to then 0 else SumOfDays(table, user, from, to - 1) + At(table, Daily, user, to - 1)
  }

  function MonthTotal(rs: seq<Record>, user: string, m: nat): nat {
    if rs == [] then 0
    else
      var r := rs[|rs| - 1];
      MonthTotal(rs[..|rs| - 1], user, m)
      + if r.user == user && PeriodOf(Monthly, r.monthlyAt) == m then r.tokens else 0
  }

  function DayTotal(rs: seq<Record>, user: string, m: nat): nat {
    if rs == [] then 0
    else
      var r := rs[|rs| - 1];
      DayTotal(rs[..|rs| - 1], user, m) + if r.user == user && DayMonth(r) == m then r.tokens else 0
  }

  lemma {:induction false} MonthlyCounterIsMonthTotal(rs: seq<Record>, user: string, m: nat)
    ensures At(TableOf(AddsOfRecords(rs)), Monthly, user, m) == MonthTotal(rs, user, m)
  {
    if rs != [] {
      var before, r := rs[..|rs| - 1], rs[|rs| - 1];
      MonthlyCounterIsMonthTotal(before, user, m);
      RecordedAt(AddsOfRecords(before), r, Monthly, user, m);
    }
  }

  lemma {:induction false} SumGrows(adds: seq<Add>, r: Record, user: string, from: nat, to: nat)
    requires from <= to
    ensures SumOfDays(TableOf(Recorded(adds, r)), user, from, to)
         == SumOfDays(TableOf(adds), user, from, to)
            + if r.user == user && from <= PeriodOf(Daily, r.dailyAt) < to then r.tokens else 0
  {
    if from < to {
      SumGrows(adds, r, user, from, to - 1);
      RecordedAt(adds, r, Daily, user, to - 1);
    }
  }

  lemma {:induction false} DaysOfMonthAddUp(rs: seq<Record>, user: string, m: nat)
    ensures SumOfDays(TableOf(AddsOfRecords(rs)), user, MonthStart(m), MonthStart(m + 1)) == DayTotal(rs, user, m)
  {
    if rs == [] {
      NothingRecorded(user, MonthStart(m), MonthStart(m + 1));
    } else {
      var before, r := rs[..|rs| - 1], rs[|rs| - 1];
      DaysOfMonthAddUp(before, user, m);
      SumGrows(AddsOfRecords(before), r, user, MonthStart(m), MonthStart(m + 1));
      DayLiesInMonth(r.dailyAt / DAY, m);
    }
  }

  lemma DayLiesInMonth(day: nat, m: nat)
    ensures MonthStart(m) <= day < MonthStart(m + 1) <==> MonthOf(day) == m
  {
    if MonthStart(m) <= day < MonthStart(m + 1) {
      MonthOfUnique(day, m);
    }
  }

  lemma {:induction false} NothingRecorded(user: string, from: nat, to: nat)
    requires from <= to
    ensures SumOfDays(map[], user, from, to) == 0
  {
    if from < to {
      NothingRecorded(user, from, to - 1);
    }
  }

  /** The two readings of a record that carries tokens fall in different months. */
  predicate Straddles(r: Record, user: string) {
    r.user == user && r.tokens > 0 && DayMonth(r) != PeriodOf(Monthly, r.monthlyAt)
  }

  /** If no straddling record starts before month m, the month's counter is at most the sum of
      its days, and less exactly when one starts in m. */
  lemma {:induction false} StraddlersLeaveAGap(rs: seq<Record>, user: string, m: nat)
    requires forall r | r in rs :: r.dailyAt <= r.monthlyAt && (Straddles(r, user) ==> DayMonth(r) >= m)
    ensures MonthTotal(rs, user, m) <= DayTotal(rs, user, m)
    ensures MonthTotal(rs, user, m) == DayTotal(rs, user, m)
       <==> forall r | r in rs :: Straddles(r, user) ==> DayMonth(r) != m
  {
    if rs != [] {
      var before, last := rs[..|rs| - 1], rs[|rs| - 1];
      assert rs == before + [last];
      StraddlersLeaveAGap(before, user, m);
      PeriodOfMonotone(Monthly, last.dailyAt, last.monthlyAt);
    }
  }

  lemma {:induction false} FirstStraddler(rs: seq<Record>, user: string, bound: nat) returns (m: nat)
    requires exists r :: r in rs && Straddles(r, user) && DayMonth(r) < bound
    ensures exists r :: r in rs && Straddles(r, user) && DayMonth(r) == m
    ensures forall r | r in rs && Straddles(r, user) :: DayMonth(r) >= m
  {
    if exists r :: r in rs && Straddles(r, user) && DayMonth(r) < bound - 1 {
      m := FirstStraddler(rs, user, bound - 1);
    } else {
      m := bound - 1;
    }
  }

  /** Conservation: every monthly counter of a user is the sum of the daily counters of that
      month if and only if no record with tokens straddles a month boundary; and then both are
      the tokens recorded in that month. */
  lemma MonthsAreSumsOfDays(rs: seq<Record>, user: string)
    requires forall r | r in rs :: r.dailyAt <= r.monthlyAt
    ensures var table := TableOf(AddsOfRecords(rs));
            (forall m: nat :: At(table, Monthly, user, m) == SumOfDays(table, user, MonthStart(m), MonthStart(m + 1)))
            <==> (forall r | r in rs :: !Straddles(r, user))
  {
    var table := TableOf(AddsOfRecords(rs));
    forall m: nat
      ensures At(table, Monthly, user, m) == MonthTotal(rs, user, m)
      ensures SumOfDays(table, user, MonthStart(m), MonthStart(m + 1)) == DayTotal(rs, user, m)
    {
      MonthlyCounterIsMonthTotal(rs, user, m);
      DaysOfMonthAddUp(rs, user, m);
    }
    if r :| r in rs && Straddles(r, user) {
      var m := FirstStraddler(rs, user, DayMonth(r) + 1);
      StraddlersLeaveAGap(rs, user, m);
      assert At(table, Monthly, user, m) != SumOfDays(table, user, MonthStart(m), MonthStart(m + 1));
    } else {
      forall m: nat ensures At(table, Monthly, user, m) == SumOfDays(table, user, MonthStart(m), MonthStart(m + 1)) {
        StraddlersLeaveAGap(rs, user, m);
      }
    }
  }
}
