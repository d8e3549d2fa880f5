/** Daily and monthly windows, and the keyed counter table every quota backend stands for. */
module QuotaPeriods {
  import opened Calendar

  datatype Period = Daily | Monthly

  /** The number of the day or month an instant lies in. */
  function PeriodOf(p: Period, t: nat): nat {
    match p
    case Daily => t / DAY
    case Monthly => MonthOf(t / DAY)
  }

  function PeriodStart(p: Period, k: nat): nat {
    match p
    case Daily => k * DAY
    case Monthly => MonthStart(k) * DAY
  }

  function NextReset(p: Period, now: nat): nat {
    match p
    case Daily => NextDailyReset(now)
    case Monthly => NextMonthlyReset(now)
  }

  /** The text a keyed backend files the period under. */
  function KeyText(p: Period, k: nat): string {
    match p
    case Daily => DayText(k)
    case Monthly => MonthText(k)
  }

  lemma KeyTextIsInjective(p: Period, j: nat, k: nat)
    ensures KeyText(p, j) == KeyText(p, k) <==> j == k
    ensures ':' !in KeyText(p, j)
  {
    match p
    case Daily => DayTextIsInjective(j, k);
    case Monthly => MonthTextIsInjective(j, k);
  }

  /** The computed reset is the start of the next period: always for days, and for months
      exactly when the day of the month exists in the next month. */
  predicate Regular(p: Period, now: nat) {
    p == Monthly ==> DayExistsNextMonth(now)
  }

  lemma ResetIsNextPeriodIffRegular(p: Period, now: nat)
    ensures Regular(p, now) <==> NextReset(p, now) == PeriodStart(p, PeriodOf(p, now) + 1)
    ensures NextReset(p, now) >= PeriodStart(p, PeriodOf(p, now) + 1)
    ensures !Regular(p, now) ==> NextReset(p, now) == PeriodStart(p, PeriodOf(p, now) + 2)
  {
    DailyResetIsNextMidnight(now, 0);
    MonthlyResetSkipsAMonthOnOverflow(now);
    MonthStartMonotone(MonthOf(now / DAY) + 1, MonthOf(now / DAY) + 2);
  }

  lemma PeriodContains(p: Period, t: nat)
    ensures PeriodStart(p, PeriodOf(p, t)) <= t < PeriodStart(p, PeriodOf(p, t) + 1)
  {
    assert t / DAY * DAY <= t < (t / DAY + 1) * DAY;
    if p == Monthly {
      var m := MonthOf(t / DAY);
      assert MonthStart(m) <= t / DAY && t / DAY + 1 <= MonthStart(m + 1);
    }
  }

  lemma PeriodStartMonotone(p: Period, j: nat, k: nat)
    requires j < k
    ensures PeriodStart(p, j + 1) <= PeriodStart(p, k) && PeriodStart(p, j) < PeriodStart(p, k)
  {
    if p == Monthly {
      MonthStartMonotone(j, k);
    }
  }

  lemma PeriodOfUnique(p: Period, t: nat, k: nat)
    requires PeriodStart(p, k) <= t < PeriodStart(p, k + 1)
    ensures PeriodOf(p, t) == k
  {
    PeriodContains(p, t);
    var j := PeriodOf(p, t);
    if j < k {
      PeriodStartMonotone(p, j, k);
    } else if k < j {
      PeriodStartMonotone(p, k, j);
    }
  }

  lemma PeriodOfMonotone(p: Period, t: nat, u: nat)
    requires t <= u
    ensures PeriodOf(p, t) <= PeriodOf(p, u)
  {
    PeriodContains(p, t);
    PeriodContains(p, u);
    if PeriodOf(p, u) < PeriodOf(p, t) {
      PeriodStartMonotone(p, PeriodOf(p, u), PeriodOf(p, t));
    }
  }

  /** Exactly the first instant of a period. */
  predicate OnBoundary(p: Period, t: nat) { t == PeriodStart(p, PeriodOf(p, t)) }

  // ---- The ideal table: one counter per user and period -----------------------------

  type Table = map<(Period, string, nat), int>

  function At(table: Table, p: Period, user: string, k: nat): int {
    if (p, user, k) in table then table[(p, user, k)] else 0
  }

  function Plus(table: Table, p: Period, user: string, k: nat, tokens: int): Table {
    table[(p, user, k) := At(table, p, user, k) + tokens]
  }

  /** One completed add: `at` is the clock reading that chose its period. */
  datatype Add = Add(p: Period, user: string, tokens: int, at: nat)

  function TableOf(adds: seq<Add>): Table {
    if adds == [] then map[]
    else
      var a := adds[|adds| - 1];
      Plus(TableOf(adds[..|adds| - 1]), a.p, a.user, PeriodOf(a.p, a.at), a.tokens)
  }

  /** An add raises its own counter and no other. */
  lemma AtAppend(adds: seq<Add>, a: Add, p: Period, user: string, k: nat)
    ensures At(TableOf(adds + [a]), p, user, k)
         == At(TableOf(adds), p, user, k) + if (p, user, k) == (a.p, a.user, PeriodOf(a.p, a.at)) then a.tokens else 0
  {
    assert (adds + [a])[..|adds|] == adds;
  }
}
