/** The UTC calendar behind the quota windows. Instants are nanoseconds and days are counted
    from 0001-01-01T00:00Z; months are counted from January of year 1. */
module Calendar {
  import opened GoStrings

  const DAY: nat := 86_400_000_000_000

  predicate IsLeap(year: nat) { year % 4 == 0 && (year % 100 != 0 || year % 400 == 0) }

  function Year(month: nat): nat { month / 12 + 1 }

  /** 1 for January to 12 for December. */
  function MonthOfYear(month: nat): nat { month % 12 + 1 }

  function DaysIn(month: nat): (d: nat)
    ensures 28 <= d <= 31
  {
    match MonthOfYear(month)
    case 2 => if IsLeap(Year(month)) then 29 else 28
    case 4 => 30
    case 6 => 30
    case 9 => 30
    case 11 => 30
    case _ => 31
  }

  /** The number of the first day of a month. */
  function MonthStart(month: nat): nat {
    if month == 0 then 0 else MonthStart(month - 1) + DaysIn(month - 1)
  }

  function MonthFrom(month: nat, day: nat): (m: nat)
    requires MonthStart(month) <= day
    ensures MonthStart(m) <= day < MonthStart(m + 1)
    decreases day - MonthStart(month)
  {
    if day < MonthStart(month + 1) then month else MonthFrom(month + 1, day)
  }

  /** The month a day lies in. */
  function MonthOf(day: nat): (m: nat)
    ensures MonthStart(m) <= day < MonthStart(m + 1)
  {
    MonthFrom(0, day)
  }

  function DayOfMonth(day: nat): (d: nat)
    ensures 1 <= d <= DaysIn(MonthOf(day))
  {
    day - MonthStart(MonthOf(day)) + 1
  }

  lemma {:induction false} MonthStartMonotone(a: nat, b: nat)
    requires a < b
    ensures MonthStart(a + 1) <= MonthStart(b) && MonthStart(a) < MonthStart(b)
  {
    if a + 1 < b {
      MonthStartMonotone(a, b - 1);
    }
  }

  lemma MonthOfUnique(day: nat, m: nat)
    requires MonthStart(m) <= day < MonthStart(m + 1)
    ensures MonthOf(day) == m
  {
    if MonthOf(day) < m {
      MonthStartMonotone(MonthOf(day), m);
    } else if m < MonthOf(day) {
      MonthStartMonotone(m, MonthOf(day));
    }
  }

  // ---- The calendar in closed form --------------------------------------------------

  /** Days from January to the first of month `k`: 367/12 a month, less what February lacks. */
  function DaysBefore(k: nat, leap: bool): int {
    (367 * k - 362) / 12 - if k <= 2 then 0 else if leap then 1 else 2
  }

  lemma MonthLength(y: nat, k: nat)
    requires 1 <= k <= 12
    ensures DaysIn(12 * y + k - 1) ==
            if k == 12 then 31 else DaysBefore(k + 1, IsLeap(y + 1)) - DaysBefore(k, IsLeap(y + 1))
  {
    hide IsLeap;
    var m := 12 * y + k - 1;
    assert m / 12 == y && m % 12 == k - 1;
  }

  lemma {:induction false} MonthsOfYear(y: nat, k: nat)
    requires 1 <= k <= 12
    ensures MonthStart(12 * y + k - 1) == MonthStart(12 * y) + DaysBefore(k, IsLeap(y + 1))
  {
    hide IsLeap, DaysIn;
    if k > 1 {
      MonthsOfYear(y, k - 1);
      MonthLength(y, k - 1);
    }
  }

  lemma YearLength(y: nat)
    ensures MonthStart(12 * (y + 1)) == MonthStart(12 * y) + if IsLeap(y + 1) then 366 else 365
  {
    hide IsLeap, DaysIn;
    MonthsOfYear(y, 12);
    MonthLength(y, 12);
    assert 12 * (y + 1) == 12 * y + 12;
  }

  lemma NextQuotient(y: nat, d: nat)
    requires d > 0
    ensures (y + 1) / d == y / d + if (y + 1) % d == 0 then 1 else 0
  {
    var q, r := y / d, y % d;
    assert y + 1 == d * q + (r + 1);
    if r + 1 == d {
      QuotientIs(y + 1, d, q + 1, 0);
    } else {
      QuotientIs(y + 1, d, q, r + 1);
    }
  }

  lemma {:induction false} Multiples(d: nat, p: nat, q: nat)
    requires p < q
    ensures d * p + d <= d * q
  {
    if p + 1 < q {
      Multiples(d, p, q - 1);
    }
    assert d * q == d * (q - 1) + d;
  }

  lemma QuotientIs(x: nat, d: nat, q: nat, r: nat)
    requires r < d && x == d * q + r
    ensures x / d == q && x % d == r
  {
    if x / d < q {
      Multiples(d, x / d, q);
    } else if q < x / d {
      Multiples(d, q, x / d);
    }
  }

  lemma Centuries(y: nat)
    ensures y % 400 == 0 ==> y % 100 == 0
    ensures y % 100 == 0 ==> y % 4 == 0
  {
    if y % 400 == 0 {
      QuotientIs(y, 100, 4 * (y / 400), 0);
    }
    if y % 100 == 0 {
      QuotientIs(y, 4, 25 * (y / 100), 0);
    }
  }

  /** The leap years up to year `y`. */
  lemma LeapYears(y: nat)
    ensures (y + 1) / 4 - (y + 1) / 100 + (y + 1) / 400 ==
            y / 4 - y / 100 + y / 400 + if IsLeap(y + 1) then 1 else 0
  {
    NextQuotient(y, 4);
    NextQuotient(y, 100);
    NextQuotient(y, 400);
    Centuries(y + 1);
  }

  lemma {:induction false} YearStart(y: nat)
    ensures MonthStart(12 * y) == 365 * y + y / 4 - y / 100 + y / 400
  {
    hide MonthStart, IsLeap;
    if y == 0 {
      FirstMonth();
    } else {
      YearStart(y - 1);
      YearLength(y - 1);
      LeapYears(y - 1);
    }
  }

  lemma FirstMonth()
    ensures MonthStart(0) == 0
  {
  }

  /** The first day of month `k` of the year after `y` completed years, without a table of month
      lengths: 365 days a year, one more every fourth year but not every hundredth but every four
      hundredth; and the days of that year before the month. */
  lemma MonthStartClosedForm(y: nat, k: nat)
    requires 1 <= k <= 12
    ensures MonthStart(12 * y + k - 1) ==
            365 * y + y / 4 - y / 100 + y / 400 + (367 * k - 362) / 12
            - if k <= 2 then 0 else if (y + 1) % 4 == 0 && ((y + 1) % 100 != 0 || (y + 1) % 400 == 0) then 1 else 2
  {
    YearStart(y);
    MonthsOfYear(y, k);
  }

  lemma FourHundredYears(y: nat)
    ensures (y + 400) / 4 == y / 4 + 100 && (y + 400) / 100 == y / 100 + 4 && (y + 400) / 400 == y / 400 + 1
    ensures IsLeap(y + 400) == IsLeap(y)
  {
    QuotientIs(y + 400, 4, y / 4 + 100, y % 4);
    QuotientIs(y + 400, 100, y / 100 + 4, y % 100);
    QuotientIs(y + 400, 400, y / 400 + 1, y % 400);
  }

  /** The calendar repeats every 400 years of 146,097 days. */
  lemma CalendarRepeats(y: nat, k: nat)
    requires 1 <= k <= 12
    ensures MonthStart(12 * (y + 400) + k - 1) == MonthStart(12 * y + k - 1) + 146_097
  {
    hide MonthStart, IsLeap;
    YearStart(y);
    YearStart(y + 400);
    MonthsOfYear(y, k);
    MonthsOfYear(y + 400, k);
    FourHundredYears(y);
    FourHundredYears(y + 1);
  }

  /** 1970 begins on day 719,162. */
  lemma UnixEpoch()
    ensures MonthStart(12 * 1969) == 719_162
  {
    hide MonthStart;
    YearStart(1969);
  }

  /** The date of a day: a day is the `d`-th of month `k` of year `y` exactly if it is that many days
      after the month's first day, and before the next month. */
  lemma DateOfDay(day: nat, y: nat, k: nat)
    requires 1 <= k <= 12
    ensures MonthOf(day) == 12 * y + k - 1 <==> MonthStart(12 * y + k - 1) <= day < MonthStart(12 * y + k)
    ensures MonthOf(day) == 12 * y + k - 1 ==> DayOfMonth(day) == day - MonthStart(12 * y + k - 1) + 1
  {
    if MonthStart(12 * y + k - 1) <= day < MonthStart(12 * y + k) {
      MonthOfUnique(day, 12 * y + k - 1);
    }
  }

  // ---- Reset instants ---------------------------------------------------------------

  /** Adding one month keeps the day number and lets an overflow run into the month after. */
  function AddMonth(day: nat): nat {
    MonthStart(MonthOf(day) + 1) + DayOfMonth(day) - 1
  }

  function NextDailyReset(now: nat): nat {
    var tomorrow := now + DAY;
    tomorrow / DAY * DAY
  }

  function NextMonthlyReset(now: nat): nat {
    MonthStart(MonthOf(AddMonth(now / DAY))) * DAY
  }

  /** The daily reset is the least UTC midnight strictly after now. */
  lemma DailyResetIsNextMidnight(now: nat, midnight: nat)
    ensures NextDailyReset(now) % 86_400_000_000_000 == 0 && NextDailyReset(now) > now
    ensures midnight % 86_400_000_000_000 == 0 && midnight > now ==> NextDailyReset(now) <= midnight
    ensures NextDailyReset(now) == (now / DAY + 1) * DAY
  {
    assert (now + DAY) / DAY == now / DAY + 1;
    if midnight % DAY == 0 && midnight > now {
      assert midnight == midnight / DAY * DAY;
      assert midnight / DAY > now / DAY;
    }
  }

  /** The day of the month `now` falls on also exists in the next month. */
  predicate DayExistsNextMonth(now: nat) {
    DayOfMonth(now / DAY) <= DaysIn(MonthOf(now / DAY) + 1)
  }

  /** The monthly reset is a first-of-month midnight strictly after now: of the next month if and
      only if the day of the month exists there, and of the month after that otherwise. */
  lemma MonthlyResetSkipsAMonthOnOverflow(now: nat)
    ensures var next := MonthOf(now / DAY) + 1;
            && NextMonthlyReset(now) > now
            && NextMonthlyReset(now) == MonthStart(if DayExistsNextMonth(now) then next else next + 1) * DAY
            && (DayExistsNextMonth(now) <==> NextMonthlyReset(now) == MonthStart(next) * DAY)
  {
    var next := MonthOf(now / DAY) + 1;
    var landed := if DayExistsNextMonth(now) then next else next + 1;
    assert MonthStart(next + 1) == MonthStart(next) + DaysIn(next);
    assert MonthStart(next + 2) == MonthStart(next + 1) + DaysIn(next + 1);
    MonthOfUnique(AddMonth(now / DAY), landed);
    MonthStartMonotone(next - 1, next);
    MonthStartMonotone(next, next + 1);
    assert now < (now / DAY + 1) * DAY;
    assert now / DAY + 1 <= MonthStart(next);
  }

  /** The last of January of year 1: the reset computed is the first of March. */
  lemma JanuaryThirtyFirst()
    ensures DayOfMonth(30) == 31 && MonthOf(30) == 0
    ensures NextMonthlyReset(30 * DAY) == MonthStart(2) * DAY
  {
    assert MonthStart(1) == 31 && MonthStart(2) == 59 && MonthStart(3) == 90;
    MonthOfUnique(30, 0);
    MonthOfUnique(AddMonth(30), 2);
    assert 30 * DAY / DAY == 30;
  }

  // ---- Bucket keys ------------------------------------------------------------------

  /** Decimal with leading zeros up to `width`. */
  function Padded(n: nat, width: nat): string {
    var ds := Digits(n);
    if |ds| >= width then ds else seq(width - |ds|, _ => '0') + ds
  }

  lemma {:induction false} ZerosAddNothing(zeros: nat, s: string)
    ensures Value(seq(zeros, _ => '0') + s) == Value(s)
  {
    var padded := seq(zeros, _ => '0') + s;
    if s != "" {
      assert padded[..|padded| - 1] == seq(zeros, _ => '0') + s[..|s| - 1];
      ZerosAddNothing(zeros, s[..|s| - 1]);
    } else if zeros > 0 {
      assert padded[..|padded| - 1] == seq(zeros - 1, _ => '0') + s;
      ZerosAddNothing(zeros - 1, s);
    } else {
      assert padded == s;
    }
  }

  lemma PaddedReadsBack(n: nat, width: nat)
    ensures Value(Padded(n, width)) == n && AllDigits(Padded(n, width))
  {
    DigitsReadBack(n);
    if |Digits(n)| < width {
      ZerosAddNothing(width - |Digits(n)|, Digits(n));
    }
  }

  /** "YYYY-MM" */
  function MonthText(month: nat): string {
    Padded(Year(month), 4) + "-" + Padded(MonthOfYear(month), 2)
  }

  /** "YYYY-MM-DD" */
  function DayText(day: nat): string {
    MonthText(MonthOf(day)) + "-" + Padded(DayOfMonth(day), 2)
  }

  /** Keys are the dates as people write them: year, month and day of the month in decimal, the last
      two with two digits, and the year with four until year 10000. */
  lemma DayTextIsTheDate(day: nat) returns (yyyy: string, mm: string, dd: string)
    ensures DayText(day) == yyyy + "-" + mm + "-" + dd && MonthText(MonthOf(day)) == yyyy + "-" + mm
    ensures AllDigits(yyyy) && AllDigits(mm) && AllDigits(dd) && |mm| == 2 && |dd| == 2
    ensures var y, k := Value(yyyy) - 1, Value(mm);
            && y >= 0 && 1 <= k <= 12 && Value(dd) == day - MonthStart(12 * y + k - 1) + 1
            && MonthStart(12 * y + k - 1) <= day < MonthStart(12 * y + k)
            && (y < 9999 ==> |yyyy| == 4)
  {
    var m := MonthOf(day);
    yyyy, mm, dd := Padded(Year(m), 4), Padded(MonthOfYear(m), 2), Padded(DayOfMonth(day), 2);
    PaddedReadsBack(Year(m), 4);
    PaddedReadsBack(MonthOfYear(m), 2);
    PaddedReadsBack(DayOfMonth(day), 2);
    PaddedWidth(Year(m));
    PaddedWidth(MonthOfYear(m));
    PaddedWidth(DayOfMonth(day));
    assert m == 12 * (Year(m) - 1) + MonthOfYear(m) - 1;
  }

  lemma PaddedWidth(n: nat)
    ensures n < 100 ==> |Padded(n, 2)| == 2
    ensures n < 10_000 ==> |Padded(n, 4)| == 4
  {
    FewDigits(n);
  }

  lemma {:induction false} FewDigits(n: nat)
    ensures |Digits(n)| >= 1 && (n < 10 ==> |Digits(n)| == 1)
    ensures n < 100 ==> |Digits(n)| <= 2
    ensures n < 1_000 ==> |Digits(n)| <= 3
    ensures n < 10_000 ==> |Digits(n)| <= 4
  {
    if n >= 10 {
      FewDigits(n / 10);
    }
  }

  lemma MonthTextIsInjective(m: nat, n: nat)
    ensures MonthText(m) == MonthText(n) <==> m == n
    ensures ':' !in MonthText(m)
  {
    PaddedReadsBack(Year(m), 4);
    PaddedReadsBack(Year(n), 4);
    PaddedReadsBack(MonthOfYear(m), 2);
    PaddedReadsBack(MonthOfYear(n), 2);
    if MonthText(m) == MonthText(n) {
      SplitAtFirst(Padded(Year(m), 4), Padded(MonthOfYear(m), 2), Padded(Year(n), 4), Padded(MonthOfYear(n), 2), '-');
      assert m / 12 == n / 12 && m % 12 == n % 12;
    }
  }

  lemma DayTextIsInjective(a: nat, b: nat)
    ensures DayText(a) == DayText(b) <==> a == b
    ensures ':' !in DayText(a)
  {
    MonthTextIsInjective(MonthOf(a), MonthOf(b));
    PaddedReadsBack(DayOfMonth(a), 2);
    PaddedReadsBack(DayOfMonth(b), 2);
    if DayText(a) == DayText(b) {
      SplitAtLast(MonthText(MonthOf(a)), Padded(DayOfMonth(a), 2),
                  MonthText(MonthOf(b)), Padded(DayOfMonth(b), 2), '-');
    }
  }
}
