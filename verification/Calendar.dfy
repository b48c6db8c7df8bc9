/** Calendar months of UTC instants, counted from January 1970. */
module Calendar {
  const MICROSECONDS_PER_DAY := 86_400_000_000

  predicate LeapYear(year: nat) {
    (year % 4 == 0 && year % 100 != 0) || year % 400 == 0
  }

  function DaysInMonth(month: nat): nat
    ensures 28 <= DaysInMonth(month) <= 31
  {
    var m := month % 12;
    if m == 1 then (if LeapYear(1970 + month / 12) then 29 else 28)
    else if m == 3 || m == 5 || m == 8 || m == 10 then 30
    else 31
  }

  /** The day on which a month starts. */
  function MonthStart(month: nat): nat {
    if month == 0 then 0 else MonthStart(month - 1) + DaysInMonth(month - 1)
  }

  function MonthOnOrAfter(day: nat, month: nat): nat
    requires MonthStart(month) <= day
    decreases day - MonthStart(month)
  {
    if day < MonthStart(month + 1) then month else MonthOnOrAfter(day, month + 1)
  }

  /** The month an instant falls in: two instants share it exactly when they share year and month. */
  function MonthOf(instant: nat): nat {
    MonthOnOrAfter(instant / MICROSECONDS_PER_DAY, 0)
  }

  lemma {:induction false} MonthHoldsDay(day: nat, month: nat)
    requires MonthStart(month) <= day
    ensures var m := MonthOnOrAfter(day, month); MonthStart(m) <= day < MonthStart(m + 1)
    decreases day - MonthStart(month)
  {
    if day >= MonthStart(month + 1) {
      MonthHoldsDay(day, month + 1);
    }
  }

  lemma {:induction false} MonthStartGrows(a: nat, b: nat)
    requires a <= b
    ensures MonthStart(a) <= MonthStart(b)
  {
    if a < b {
      MonthStartGrows(a, b - 1);
    }
  }

  lemma MonthOfMonotone(x: nat, y: nat)
    requires x <= y
    ensures MonthOf(x) <= MonthOf(y)
  {
    MonthHoldsDay(x / MICROSECONDS_PER_DAY, 0);
    MonthHoldsDay(y / MICROSECONDS_PER_DAY, 0);
    if MonthOf(y) + 1 <= MonthOf(x) {
      MonthStartGrows(MonthOf(y) + 1, MonthOf(x));
    }
  }

  // ---- the Gregorian calendar in closed form ----

  /** Leap days from the start of 1970 to the start of a year. */
  function LeapDaysBefore(year: nat): int
    requires year >= 1970
  {
    (year - 1) / 4 - (year - 1) / 100 + (year - 1) / 400 - 477
  }

  /** The days of a common year before its k-th month, January being the first. */
  function DaysBefore(k: nat): nat
    requires 1 <= k <= 12
  {
    if k <= 2 then 31 * (k - 1) else (153 * (k - 3) + 2) / 5 + 59
  }

  /** Days from 1 January 1970 to the first of a month. */
  function FirstOf(year: nat, k: nat): int
    requires year >= 1970 && 1 <= k <= 12
  {
    365 * (year - 1970) + LeapDaysBefore(year) + DaysBefore(k)
      + if k > 2 then LeapDaysBefore(year + 1) - LeapDaysBefore(year) else 0
  }

  function FirstOfNext(year: nat, k: nat): int
    requires year >= 1970 && 1 <= k <= 12
  {
    if k == 12 then FirstOf(year + 1, 1) else FirstOf(year, k + 1)
  }

  function Index(year: nat, k: nat): nat
    requires year >= 1970 && 1 <= k <= 12
  {
    12 * (year - 1970) + k - 1
  }

  lemma LeapDayAdded(year: nat)
    requires year >= 1970
    ensures LeapDaysBefore(year + 1) == LeapDaysBefore(year) + if LeapYear(year) then 1 else 0
  {
    assert year / 4 == (year - 1) / 4 + if year % 4 == 0 then 1 else 0;
    assert year / 100 == (year - 1) / 100 + if year % 100 == 0 then 1 else 0;
    assert year / 400 == (year - 1) / 400 + if year % 400 == 0 then 1 else 0;
  }

  /** From the first of a month to the first of the next are the days of the month. */
  lemma MonthSpans(year: nat, k: nat)
    requires year >= 1970 && 1 <= k <= 12
    ensures FirstOfNext(year, k) == FirstOf(year, k) + DaysInMonth(Index(year, k))
  {
    LeapDayAdded(year);
    IndexSplits(year, k);
  }

  lemma IndexSplits(year: nat, k: nat)
    requires year >= 1970 && 1 <= k <= 12
    ensures Index(year, k) / 12 == year - 1970 && Index(year, k) % 12 == k - 1
  {
  }

  /** The months counted from January 1970 start where the Gregorian calendar has them start. */
  lemma {:induction false} MonthStartIsGregorian(year: nat, k: nat)
    requires year >= 1970 && 1 <= k <= 12
    ensures MonthStart(Index(year, k)) == FirstOf(year, k)
    decreases year, k
  {
    if k > 1 {
      MonthStartIsGregorian(year, k - 1);
      NextFollows(year, k - 1);
    } else if year > 1970 {
      MonthStartIsGregorian(year - 1, 12);
      NextFollows(year - 1, 12);
    }
  }

  lemma NextFollows(year: nat, k: nat)
    requires year >= 1970 && 1 <= k <= 12 && MonthStart(Index(year, k)) == FirstOf(year, k)
    ensures MonthStart(Index(year, k) + 1) == FirstOfNext(year, k)
  {
    MonthSpans(year, k);
  }

  lemma NextStartIsGregorian(year: nat, k: nat)
    requires year >= 1970 && 1 <= k <= 12
    ensures MonthStart(Index(year, k) + 1) == FirstOfNext(year, k)
  {
    if k == 12 {
      MonthStartIsGregorian(year + 1, 1);
    } else {
      MonthStartIsGregorian(year, k + 1);
    }
  }

  lemma StartsEnclose(day: nat, month: nat)
    ensures MonthOnOrAfter(day, 0) == month <==> MonthStart(month) <= day < MonthStart(month + 1)
  {
    var m := MonthOnOrAfter(day, 0);
    MonthHoldsDay(day, 0);
    if m < month {
      MonthStartGrows(m + 1, month);
    } else if month < m {
      MonthStartGrows(month + 1, m);
    }
  }

  /** An instant falls in a month exactly when its day lies from the first of that month to before the first of
      the next. */
  lemma MonthOfExactly(instant: nat, year: nat, k: nat)
    requires year >= 1970 && 1 <= k <= 12
    ensures MonthOf(instant) == 12 * (year - 1970) + k - 1
       <==> FirstOf(year, k) <= instant / 86_400_000_000 < FirstOfNext(year, k)
  {
    StartsEnclose(instant / MICROSECONDS_PER_DAY, Index(year, k));
    MonthStartIsGregorian(year, k);
    NextStartIsGregorian(year, k);
  }

  /** Four hundred years, from any month on, are 4800 months and 146097 days. */
  lemma FourCenturies(year: nat, k: nat)
    requires year >= 1970 && 1 <= k <= 12
    ensures MonthStart(Index(year, k) + 4800) == MonthStart(Index(year, k)) + 146097
  {
    MonthStartIsGregorian(year, k);
    MonthStartIsGregorian(year + 400, k);
    assert Index(year + 400, k) == Index(year, k) + 4800;
    LeapDaysRepeat(year);
    LeapDaysRepeat(year + 1);
  }

  lemma LeapDaysRepeat(year: nat)
    requires year >= 1970
    ensures LeapDaysBefore(year + 400) == LeapDaysBefore(year) + 97
  {
    assert (year + 399) / 4 == (year - 1) / 4 + 100;
    assert (year + 399) / 100 == (year - 1) / 100 + 4;
    assert (year + 399) / 400 == (year - 1) / 400 + 1;
  }

  /** Spot dates: leap days in 1972 and 2000, none in 2100. */
  lemma KnownDates()
    ensures FirstOf(1972, 3) == 790 && FirstOf(2000, 3) == 11_017 && FirstOf(2026, 2) == 20_485
    ensures FirstOfNext(2100, 2) == FirstOf(2100, 2) + 28
  {
  }
}
