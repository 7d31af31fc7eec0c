/**
 * The month calendar used to pick a due date: the displayed month, the grid of
 * leading blank cells followed by the days 1..n, month stepping, day selection,
 * and the "today" highlight.
 *
 * Months are numbered 0 (January) to 11 (December) and weekdays 0 (Sunday) to
 * 6 (Saturday), as the JavaScript `Date` accessors number them. Month lengths
 * follow the proleptic Gregorian calendar; the weekday of the first of a month is
 * computed from a count of days since 1 January of year 1, a Monday.
 */
module CalendarPicker {
  import opened Wrappers

  type Month = m: int | 0 <= m < 12

  datatype YearMonth = YearMonth(year: int, month: Month)

  /** A date as `new Date(year, month, day)` receives it. */
  datatype CalendarDate = CalendarDate(year: int, month: Month, day: int)

  predicate IsLeapYear(y: int) {
    y % 4 == 0 && (y % 100 != 0 || y % 400 == 0)
  }

  /** `getDaysInMonth`: the day before the first of the next month. */
  function DaysInMonth(y: int, m: Month): (n: int)
    ensures 28 <= n <= 31
    ensures n == 29 <==> m == 1 && IsLeapYear(y)
    ensures n == 28 <==> m == 1 && !IsLeapYear(y)
  {
    if m == 1 then (if IsLeapYear(y) then 29 else 28)
    else if m == 3 || m == 5 || m == 8 || m == 10 then 30
    else 31
  }

  /** A real date of the proleptic Gregorian calendar. */
  predicate IsValidDate(d: CalendarDate) {
    1 <= d.day <= DaysInMonth(d.year, d.month)
  }

  /** Days from 1 January of year 1 to 1 January of year `y` (negative before year 1). */
  function DaysBeforeYear(y: int): int {
    var n := y - 1;
    365 * n + n / 4 - n / 100 + n / 400
  }

  /** Days from 1 January to the first of month `m` of year `y`, from the
      cumulative month table. */
  function DaysBeforeMonth(y: int, m: Month): (n: int)
    ensures 0 <= n <= 335
  {
    [0, 31, 59, 90, 120, 151, 181, 212, 243, 273, 304, 334][m]
      + (if m >= 2 && IsLeapYear(y) then 1 else 0)
  }

  /** `getFirstDayOfMonth`: the weekday (0 = Sunday) of the first of the month. */
  function FirstDayOfMonth(y: int, m: Month): (w: int)
    ensures 0 <= w < 7
  {
    (DaysBeforeYear(y) + DaysBeforeMonth(y, m) + 1) % 7
  }

  /** `currentDate.getMonth() - 1` as the `Date` constructor resolves it: January
      steps back to December of the year before. */
  function PrevMonth(ym: YearMonth): (r: YearMonth)
    ensures ym.month == 0 ==> r == YearMonth(ym.year - 1, 11)
    ensures ym.month > 0 ==> r == YearMonth(ym.year, ym.month - 1)
  {
    if ym.month == 0 then YearMonth(ym.year - 1, 11) else YearMonth(ym.year, ym.month - 1)
  }

  /** `currentDate.getMonth() + 1` as the `Date` constructor resolves it: December
      steps on to January of the year after. */
  function NextMonth(ym: YearMonth): (r: YearMonth)
    ensures ym.month == 11 ==> r == YearMonth(ym.year + 1, 0)
    ensures ym.month < 11 ==> r == YearMonth(ym.year, ym.month + 1)
  {
    if ym.month == 11 then YearMonth(ym.year + 1, 0) else YearMonth(ym.year, ym.month + 1)
  }

  /** `isToday(day)`: the day and the displayed month and year all match today's. */
  predicate IsToday(shown: YearMonth, day: int, today: CalendarDate): (b: bool)
    ensures b ==> shown == YearMonth(today.year, today.month) && day == today.day
  {
    day == today.day && shown.month == today.month && shown.year == today.year
  }

  class Calendar {
    var year: int
    var month: Month
    var day: int

    /** Starts on today's date, as `new Date()` does. */
    constructor (today: CalendarDate)
      ensures year == today.year && month == today.month && day == today.day
    {
      year, month, day := today.year, today.month, today.day;
    }

    function Shown(): YearMonth
      reads this
    {
      YearMonth(year, month)
    }

    /** `generateCalendarDays`: `firstDay` blank cells, then the days 1 to the
        length of the month, each in its own cell in increasing order. */
    method GenerateCalendarDays() returns (days: seq<Option<int>>)
      ensures |days| == FirstDayOfMonth(year, month) + DaysInMonth(year, month)
      ensures forall i :: 0 <= i < FirstDayOfMonth(year, month) ==> days[i] == None
      ensures forall d :: 1 <= d <= DaysInMonth(year, month) ==>
        days[FirstDayOfMonth(year, month) + d - 1] == Some(d)
    {
      var daysInMonth := DaysInMonth(year, month);
      var firstDay := FirstDayOfMonth(year, month);
      days := [];
      var i := 0;
      while i < firstDay
        invariant 0 <= i <= firstDay && |days| == i
        invariant forall k :: 0 <= k < i ==> days[k] == None
      {
        days := days + [None];
        i := i + 1;
      }
      i := 1;
      while i <= daysInMonth
        invariant 1 <= i <= daysInMonth + 1 && |days| == firstDay + i - 1
        invariant forall k :: 0 <= k < firstDay ==> days[k] == None
        invariant forall d :: 1 <= d < i ==> days[firstDay + d - 1] == Some(d)
      {
        days := days + [Some(i)];
        i := i + 1;
      }
    }

    /** `handlePreviousMonth`: shows the month before, on its first day. */
    method HandlePreviousMonth()
      modifies this
      ensures Shown() == PrevMonth(old(Shown())) && day == 1
    {
      var ym := PrevMonth(Shown());
      year, month, day := ym.year, ym.month, 1;
    }

    /** `handleNextMonth`: shows the month after, on its first day. */
    method HandleNextMonth()
      modifies this
      ensures Shown() == NextMonth(old(Shown())) && day == 1
    {
      var ym := NextMonth(Shown());
      year, month, day := ym.year, ym.month, 1;
    }

    /** A press on a grid cell: a blank cell (null, and 0, which JavaScript also
        treats as false) is disabled and selects nothing; a day selects that day
        of the displayed month and year. */
    method PressCell(cell: Option<int>) returns (selected: Option<CalendarDate>)
      ensures cell.None? || cell.value == 0 ==> selected == None
      ensures cell.Some? && cell.value != 0 ==>
        selected.Some? && selected.value.year == year && selected.value.month == month
        && selected.value.day == cell.value
      ensures cell.Some? && 1 <= cell.value <= DaysInMonth(year, month) ==>
        selected.Some? && IsValidDate(selected.value)
    {
      if cell.None? || cell.value == 0 {
        return None;
      }
      selected := Some(CalendarDate(year, month, cell.value));
    }
  }

  // ---------------------------------------------------------------------------
  // Properties of the calendar

  /** Stepping back and then forward (or forward and then back) shows the month
      one started from. */
  lemma MonthStepsAreInverse(ym: YearMonth)
    ensures NextMonth(PrevMonth(ym)) == ym
    ensures PrevMonth(NextMonth(ym)) == ym
  {
  }

  /** `k` presses of the next-month button. */
  function StepForward(ym: YearMonth, k: nat): YearMonth {
    if k == 0 then ym else NextMonth(StepForward(ym, k - 1))
  }

  /** `k` presses of the next-month button, as one month offset: the month index
      advances by `k` modulo 12 and the year by the carry. */
  lemma {:induction false} StepForwardIsOffset(ym: YearMonth, k: nat)
    ensures StepForward(ym, k) == YearMonth(ym.year + (ym.month + k) / 12, (ym.month + k) % 12)
  {
    if k > 0 {
      StepForwardIsOffset(ym, k - 1);
      var n := ym.month + k - 1;
      DivModStep(n, 12);
    }
  }

  /** Twelve presses of the next-month button show the same month a year later. */
  lemma TwelveStepsIsOneYear(ym: YearMonth)
    ensures StepForward(ym, 12) == YearMonth(ym.year + 1, ym.month)
  {
    StepForwardIsOffset(ym, 12);
  }

  /** Division by `d` (one of the divisors the calendar uses) steps by one exactly
      when `n + 1` is a multiple of `d`. */
  lemma DivModStep(n: int, d: int)
    requires d == 4 || d == 12 || d == 100 || d == 400
    ensures (n + 1) % d == 0 ==> (n + 1) / d == n / d + 1 && n % d == d - 1
    ensures (n + 1) % d != 0 ==> (n + 1) / d == n / d && (n + 1) % d == n % d + 1
  {
  }

  /** A year has 366 days when it is a leap year and 365 otherwise. */
  lemma YearLength(y: int)
    ensures DaysBeforeYear(y + 1) - DaysBeforeYear(y) == if IsLeapYear(y) then 366 else 365
  {
    var n := y - 1;
    DivModStep(n, 4);
    DivModStep(n, 100);
    DivModStep(n, 400);
    assert (n + 1) % 100 == 0 ==> (n + 1) % 4 == 0;
    assert (n + 1) % 400 == 0 ==> (n + 1) % 100 == 0;
  }

  /** The month table and the month lengths agree: each month starts where the
      month before it ends, and December ends where the year does. */
  lemma MonthStartsAfterPrevious(y: int, m: Month)
    ensures m < 11 ==> DaysBeforeMonth(y, m + 1) == DaysBeforeMonth(y, m) + DaysInMonth(y, m)
    ensures m == 11 ==> DaysBeforeMonth(y, m) + DaysInMonth(y, m) == if IsLeapYear(y) then 366 else 365
  {
  }

  /** Adding `b` days moves a weekday by `b` modulo 7. */
  lemma WeekdayShift(a: int, b: int)
    ensures (a + b) % 7 == (a % 7 + b) % 7
  {
  }

  /** The grid of the next month starts on the weekday after the last day of this
      month's grid. */
  lemma NextGridContinuesWeek(ym: YearMonth)
    ensures var nx := NextMonth(ym);
      FirstDayOfMonth(nx.year, nx.month)
        == (FirstDayOfMonth(ym.year, ym.month) + DaysInMonth(ym.year, ym.month)) % 7
  {
    var y, m := ym.year, ym.month;
    var nx := NextMonth(ym);
    var start := DaysBeforeYear(y) + DaysBeforeMonth(y, m) + 1;
    var len := DaysInMonth(y, m);
    MonthStartsAfterPrevious(y, m);
    if m == 11 {
      YearLength(y);
    }
    assert DaysBeforeYear(nx.year) + DaysBeforeMonth(nx.year, nx.month) + 1 == start + len;
    WeekdayShift(start, len);
  }

  /** The day count puts known dates on the right weekday: 1 January 2000 was a
      Saturday and 1 November 2025 a Saturday. */
  lemma KnownFirstDays()
    ensures FirstDayOfMonth(2000, 0) == 6
    ensures FirstDayOfMonth(2025, 10) == 6
  {
  }

  /** Today is highlighted in the grid of exactly one month, its own, and there in
      exactly one cell. */
  lemma {:induction false} TodayHighlightedOnce(shown: YearMonth, today: CalendarDate)
    requires IsValidDate(today)
    ensures (exists d :: 1 <= d <= DaysInMonth(shown.year, shown.month) && IsToday(shown, d, today))
            <==> shown == YearMonth(today.year, today.month)
    ensures forall d1, d2 :: IsToday(shown, d1, today) && IsToday(shown, d2, today) ==> d1 == d2
  {
    if shown == YearMonth(today.year, today.month) {
      assert IsToday(shown, today.day, today);
    }
  }
}
