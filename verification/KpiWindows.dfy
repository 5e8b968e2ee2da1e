/**
 UTC calendar windows (section 21.4.1 of ECMA-262), from 1970 on.

 The source floors an instant by taking its calendar fields apart and putting
 some of them together again. Here every interval also has a numbered sequence
 of window starts, and the two agree.
 */
module KpiWindows {
  datatype Interval = Hour | Day | Week | Month

  const HOUR_MS: int := 3_600_000
  const DAY_MS: int := 86_400_000
  const WEEK_MS: int := 604_800_000

  // ---------------------------------------------------------------------------
  // The calendar
  // ---------------------------------------------------------------------------

  predicate Leap(y: int) {
    y % 4 == 0 && (y % 100 != 0 || y % 400 == 0)
  }

  function YearLength(y: int): int {
    if Leap(y) then 366 else 365
  }

  /** The day number of January 1st, counted year by year from 1970. */
  function DayFromYear(y: int): int
    decreases if y < 1970 then 1970 - y else y - 1970
  {
    if y == 1970 then 0
    else if y > 1970 then DayFromYear(y - 1) + YearLength(y - 1)
    else DayFromYear(y + 1) - YearLength(y)
  }

  lemma YearStep(y: int)
    ensures DayFromYear(y + 1) == DayFromYear(y) + YearLength(y)
  {
  }

  /** The closed form that ECMA-262 gives for the same day number. */
  function EcmaDayFromYear(y: int): int {
    365 * (y - 1970) + (y - 1969) / 4 - (y - 1901) / 100 + (y - 1601) / 400
  }

  lemma FourthYear(y: int)
    ensures (y - 1968) / 4 - (y - 1969) / 4 == if y % 4 == 0 then 1 else 0
  {
  }

  lemma CenturyYear(y: int)
    ensures (y - 1900) / 100 - (y - 1901) / 100 == if y % 100 == 0 then 1 else 0
  {
  }

  lemma FourthCentury(y: int)
    ensures (y - 1600) / 400 - (y - 1601) / 400 == if y % 400 == 0 then 1 else 0
  {
  }

  lemma CenturiesNest(y: int)
    ensures y % 400 == 0 ==> y % 100 == 0
    ensures y % 100 == 0 ==> y % 4 == 0
  {
  }

  lemma EcmaYearStep(y: int)
    ensures EcmaDayFromYear(y + 1) == EcmaDayFromYear(y) + YearLength(y)
  {
    FourthYear(y);
    CenturyYear(y);
    FourthCentury(y);
    CenturiesNest(y);
  }

  lemma {:induction false} CalendarIsEcma(y: int)
    ensures DayFromYear(y) == EcmaDayFromYear(y)
    decreases if y < 1970 then 1970 - y else y - 1970
  {
    if y > 1970 {
      CalendarIsEcma(y - 1);
      EcmaYearStep(y - 1);
    } else if y < 1970 {
      CalendarIsEcma(y + 1);
      EcmaYearStep(y);
    }
  }

  /** The largest year, from `y` up, that has started by `day`. */
  function YearFrom(day: int, y: int): (r: int)
    requires DayFromYear(y) <= day
    ensures y <= r && DayFromYear(r) <= day < DayFromYear(r + 1)
    decreases day - DayFromYear(y)
  {
    YearStep(y);
    if day < DayFromYear(y + 1) then y else YearFrom(day, y + 1)
  }

  function YearOf(day: nat): int {
    YearFrom(day, 1970)
  }

  /** Days of the year before the given month (January is 0). */
  function DaysBefore(month: int, leap: bool): int
    requires 0 <= month <= 12
  {
    var common :=
      match month
      case 0 => 0
      case 1 => 31
      case 2 => 59
      case 3 => 90
      case 4 => 120
      case 5 => 151
      case 6 => 181
      case 7 => 212
      case 8 => 243
      case 9 => 273
      case 10 => 304
      case 11 => 334
      case _ => 365;
    if leap && month >= 2 then common + 1 else common
  }

  /** Thirty days have the months 3, 5, 8 and 10, month 1 has 28 or 29, and the rest 31, counted from 0. */
  lemma MonthLengths(m: int, leap: bool)
    requires 0 <= m < 12
    ensures DaysBefore(m + 1, leap) - DaysBefore(m, leap) ==
      if m == 1 then (if leap then 29 else 28) else if m in {3, 5, 8, 10} then 30 else 31
    ensures DaysBefore(0, leap) == 0
  {
  }

  lemma {:induction false} MonthsIncrease(m: int, n: int, leap: bool)
    requires 0 <= m < n <= 12
    ensures DaysBefore(m, leap) < DaysBefore(n, leap)
    decreases n - m
  {
    if m + 1 < n { MonthsIncrease(m + 1, n, leap); }
  }

  function MonthFrom(dayInYear: int, leap: bool, m: int): (r: int)
    requires 0 <= m < 12 && DaysBefore(m, leap) <= dayInYear < DaysBefore(12, leap)
    ensures m <= r < 12 && DaysBefore(r, leap) <= dayInYear < DaysBefore(r + 1, leap)
    decreases 12 - m
  {
    if dayInYear < DaysBefore(m + 1, leap) then m else MonthFrom(dayInYear, leap, m + 1)
  }

  function DayInYear(day: nat): (d: int)
    ensures 0 <= d < YearLength(YearOf(day))
  {
    YearStep(YearOf(day));
    day - DayFromYear(YearOf(day))
  }

  function MonthOf(day: nat): int {
    MonthFrom(DayInYear(day), Leap(YearOf(day)), 0)
  }

  /** The day of the month, from 1. */
  function DateOf(day: nat): int {
    DayInYear(day) - DaysBefore(MonthOf(day), Leap(YearOf(day))) + 1
  }

  /** MakeDay: months outside the year carry into it. */
  function MakeDay(year: int, month: int, date: int): int {
    var y, m := year + month / 12, month % 12;
    DayFromYear(y) + DaysBefore(m, Leap(y)) + date - 1
  }

  /** Date.UTC, with its reading of the years 0 to 99 as 1900 to 1999. */
  function Utc(year: int, month: int, date: int, hour: int): int {
    MakeDay(if 0 <= year <= 99 then 1900 + year else year, month, date) * DAY_MS + hour * HOUR_MS
  }

  function DayOf(ts: int): int {
    ts / DAY_MS
  }

  function HourOf(ts: int): int {
    (ts % DAY_MS) / HOUR_MS
  }

  /** 0 is Sunday; January 1st, 1970 was a Thursday. */
  function WeekDay(day: int): int {
    (day + 4) % 7
  }

  function FloorToWindow(ts: nat, interval: Interval): int {
    var day := DayOf(ts);
    match interval
    case Hour => Utc(YearOf(day), MonthOf(day), DateOf(day), HourOf(ts))
    case Day => Utc(YearOf(day), MonthOf(day), DateOf(day), 0)
    case Week =>
      var dayStart := Utc(YearOf(day), MonthOf(day), DateOf(day), 0);
      dayStart - (WeekDay(DayOf(dayStart)) + 6) % 7 * DAY_MS
    case Month => Utc(YearOf(day), MonthOf(day), 1, 0)
  }

  /** The month case reads the calendar, so it is stated for starts from 1970 on. */
  function NextWindow(start: int, interval: Interval): int
    requires interval.Month? ==> 0 <= start
  {
    match interval
    case Hour => start + HOUR_MS
    case Day => start + DAY_MS
    case Week => start + WEEK_MS
    case Month => Utc(YearOf(DayOf(start)), MonthOf(DayOf(start)) + 1, 1, 0)
  }

  // ---------------------------------------------------------------------------
  // Numbered windows
  // ---------------------------------------------------------------------------

  /** The start of window number `i`: hours and days from 1970, weeks from Monday, months from year 0. */
  function Start(interval: Interval, i: int): int {
    match interval
    case Hour => i * HOUR_MS
    case Day => i * DAY_MS
    case Week => (7 * i - 3) * DAY_MS
    case Month => MakeDay(i / 12, i % 12, 1) * DAY_MS
  }

  /** The number of the window an instant falls in. */
  function Index(interval: Interval, ts: nat): int {
    match interval
    case Hour => ts / HOUR_MS
    case Day => DayOf(ts)
    case Week => (DayOf(ts) + 3) / 7
    case Month => 12 * YearOf(DayOf(ts)) + MonthOf(DayOf(ts))
  }

  lemma MakeDayInYear(y: int, m: int, date: int)
    requires 0 <= m < 12
    ensures MakeDay(y, m, date) == DayFromYear(y) + DaysBefore(m, Leap(y)) + date - 1
  {
    assert m / 12 == 0 && m % 12 == m;
  }

  /** A day's fields name that day. */
  lemma FieldsName(day: nat)
    ensures MakeDay(YearOf(day), MonthOf(day), DateOf(day)) == day && YearOf(day) >= 1970
  {
    MakeDayInYear(YearOf(day), MonthOf(day), DateOf(day));
  }

  lemma {:induction false} YearsIncrease(y: int, z: int)
    requires y <= z
    ensures DayFromYear(y) <= DayFromYear(z)
    decreases z - y
  {
    if y < z {
      YearStep(y);
      YearsIncrease(y + 1, z);
    }
  }

  /** A year is determined by the days between its first and the next year's. */
  lemma YearUnique(day: nat, y: int)
    requires 1970 <= y && DayFromYear(y) <= day < DayFromYear(y + 1)
    ensures YearOf(day) == y
  {
    var z := YearOf(day);
    if z < y { YearsIncrease(z + 1, y); }
    if y < z { YearsIncrease(y + 1, z); }
  }

  lemma {:induction false} MonthUnique(d: int, leap: bool, k: int, m: int)
    requires 0 <= k <= m < 12 && DaysBefore(m, leap) <= d < DaysBefore(m + 1, leap)
    requires DaysBefore(k, leap) <= d < DaysBefore(12, leap)
    ensures MonthFrom(d, leap, k) == m
    decreases m - k
  {
    if k < m {
      assert DaysBefore(k + 1, leap) <= d by { if k + 1 < m { MonthsIncrease(k + 1, m, leap); } }
      MonthUnique(d, leap, k + 1, m);
    }
  }

  /** The first day of a month belongs to that year and month. */
  lemma FirstOfMonth(y: int, m: int)
    requires 1970 <= y && 0 <= m < 12
    ensures var day := MakeDay(y, m, 1); day >= 0 && YearOf(day) == y && MonthOf(day) == m
  {
    var day, before := MakeDay(y, m, 1), DaysBefore(m, Leap(y));
    MakeDayInYear(y, m, 1);
    YearsIncrease(1970, y);
    YearStep(y);
    MonthsIncrease(m, 12, Leap(y));
    YearUnique(day, y);
    MonthsIncrease(m, m + 1, Leap(y));
    MonthUnique(before, Leap(y), 0, m);
  }

  lemma MonthStep(i: int)
    ensures MakeDay((i + 1) / 12, (i + 1) % 12, 1) > MakeDay(i / 12, i % 12, 1)
  {
    var y, m := i / 12, i % 12;
    MakeDayInYear(y, m, 1);
    if m < 11 {
      assert (i + 1) / 12 == y && (i + 1) % 12 == m + 1;
      MakeDayInYear(y, m + 1, 1);
      MonthsIncrease(m, m + 1, Leap(y));
    } else {
      assert (i + 1) / 12 == y + 1 && (i + 1) % 12 == 0;
      MakeDayInYear(y + 1, 0, 1);
      YearStep(y);
    }
  }

  /** Windows follow one another without gap or overlap: each starts where the one before ends. */
  lemma StartsIncrease(interval: Interval, i: int)
    ensures Start(interval, i) < Start(interval, i + 1)
  {
    if interval.Month? { MonthStep(i); }
  }

  lemma {:induction false} StartsOrdered(interval: Interval, i: int, j: int)
    requires i < j
    ensures Start(interval, i) < Start(interval, j)
    decreases j - i
  {
    StartsIncrease(interval, i);
    if i + 1 < j { StartsOrdered(interval, i + 1, j); }
  }

  lemma DayArithmetic(ts: nat)
    ensures DayOf(ts) >= 0 && DayOf(ts) * DAY_MS <= ts < DayOf(ts) * DAY_MS + DAY_MS
  {
  }

  lemma HourQuotient(ts: nat, q: nat)
    requires q * HOUR_MS <= ts < q * HOUR_MS + HOUR_MS
    ensures ts / HOUR_MS == q
  {
  }

  lemma HourArithmetic(ts: nat)
    ensures ts / HOUR_MS == 24 * DayOf(ts) + HourOf(ts)
    ensures ts / HOUR_MS * HOUR_MS <= ts < ts / HOUR_MS * HOUR_MS + HOUR_MS
  {
    var rest := ts % DAY_MS;
    assert ts == DayOf(ts) * DAY_MS + rest;
    assert HourOf(ts) * HOUR_MS <= rest < HourOf(ts) * HOUR_MS + HOUR_MS;
    HourQuotient(ts, 24 * DayOf(ts) + HourOf(ts));
  }

  /** Putting a day's own fields together gives its midnight. */
  lemma UtcOfDay(day: nat, hour: int)
    ensures Utc(YearOf(day), MonthOf(day), DateOf(day), hour) == day * DAY_MS + hour * HOUR_MS
  {
    FieldsName(day);
  }

  lemma MidnightDay(day: int)
    ensures DayOf(day * DAY_MS) == day
  {
  }

  lemma WeekArithmetic(day: nat)
    ensures DayOf(day * DAY_MS) == day
    ensures day - (WeekDay(day) + 6) % 7 == 7 * ((day + 3) / 7) - 3
  {
  }

  lemma FloorHour(ts: nat)
    ensures FloorToWindow(ts, Hour) == Start(Hour, Index(Hour, ts))
    ensures Start(Hour, Index(Hour, ts)) <= ts < Start(Hour, Index(Hour, ts) + 1)
  {
    DayArithmetic(ts);
    HourArithmetic(ts);
    UtcOfDay(DayOf(ts), HourOf(ts));
  }

  lemma FloorDay(ts: nat)
    ensures FloorToWindow(ts, Day) == Start(Day, Index(Day, ts))
    ensures Start(Day, Index(Day, ts)) <= ts < Start(Day, Index(Day, ts) + 1)
  {
    DayArithmetic(ts);
    UtcOfDay(DayOf(ts), 0);
  }

  lemma FloorWeek(ts: nat)
    ensures FloorToWindow(ts, Week) == Start(Week, Index(Week, ts))
    ensures Start(Week, Index(Week, ts)) <= ts < Start(Week, Index(Week, ts) + 1)
  {
    hide Utc, YearOf, MonthOf, DateOf, DayOf, WeekDay;
    DayArithmetic(ts);
    var day := DayOf(ts);
    UtcOfDay(day, 0);
    WeekArithmetic(day);
    var first := day - (WeekDay(day) + 6) % 7;
    BetweenDays(first, day, first + 7, ts);
  }

  /** An instant of a day lies between the starts of days around it. */
  lemma BetweenDays(first: int, day: int, next: int, ts: int)
    requires first <= day < next && day * DAY_MS <= ts < day * DAY_MS + DAY_MS
    ensures first * DAY_MS <= ts < next * DAY_MS
  {
  }

  lemma MonthIndex(y: int, m: int)
    requires 0 <= m < 12
    ensures (12 * y + m) / 12 == y && (12 * y + m) % 12 == m
  {
  }

  /** A day lies from the first of its month up to the first of the next. */
  lemma DayInMonth(day: nat)
    ensures var y, m := YearOf(day), MonthOf(day); MakeDay(y, m, 1) <= day < MakeDay(y, m + 1, 1)
  {
    var y, m := YearOf(day), MonthOf(day);
    MakeDayInYear(y, m, 1);
    if m < 11 { MakeDayInYear(y, m + 1, 1); } else { MakeDayInYear(y + 1, 0, 1); }
  }

  lemma MonthStart(y: int, m: int)
    requires 0 <= m < 12
    ensures Start(Month, 12 * y + m) == MakeDay(y, m, 1) * DAY_MS
    ensures Start(Month, 12 * y + m + 1) == MakeDay(y, m + 1, 1) * DAY_MS
  {
    hide MakeDay;
    MonthIndex(y, m);
    MonthCarries(12 * y + m);
  }

  lemma FloorOfMonth(ts: nat)
    ensures DayOf(ts) >= 0
    ensures
      var y, m := YearOf(DayOf(ts)), MonthOf(DayOf(ts));
      0 <= m < 12 && FloorToWindow(ts, Month) == MakeDay(y, m, 1) * DAY_MS
  {
    hide MakeDay, YearOf, DateOf;
    FieldsName(DayOf(ts));
  }

  lemma FloorMonth(ts: nat)
    ensures FloorToWindow(ts, Month) == Start(Month, Index(Month, ts))
    ensures Start(Month, Index(Month, ts)) <= ts < Start(Month, Index(Month, ts) + 1)
  {
    hide MakeDay, Start, YearOf, MonthOf, DateOf, DayOf, FloorToWindow;
    DayArithmetic(ts);
    var day := DayOf(ts);
    FloorOfMonth(ts);
    var y, m := YearOf(day), MonthOf(day);
    MonthStart(y, m);
    DayInMonth(day);
    BetweenDays(MakeDay(y, m, 1), day, MakeDay(y, m + 1, 1), ts);
  }

  /** Flooring by calendar fields gives the start of the numbered window around the instant. */
  lemma FloorIsStart(ts: nat, interval: Interval)
    ensures FloorToWindow(ts, interval) == Start(interval, Index(interval, ts))
    ensures Start(interval, Index(interval, ts)) <= ts < Start(interval, Index(interval, ts) + 1)
  {
    hide Start, Index, FloorToWindow;
    match interval {
      case Hour => FloorHour(ts);
      case Day => FloorDay(ts);
      case Week => FloorWeek(ts);
      case Month => FloorMonth(ts);
    }
  }

  /** Months carry into the year the same way whether or not they are written in range. */
  lemma MonthCarries(i: int)
    ensures MakeDay(i / 12, i % 12 + 1, 1) == MakeDay((i + 1) / 12, (i + 1) % 12, 1)
  {
    var y, m := i / 12, i % 12;
    if m < 11 {
      assert (i + 1) / 12 == y && (i + 1) % 12 == m + 1;
    } else {
      assert (i + 1) / 12 == y + 1 && (i + 1) % 12 == 0;
    }
  }

  /** The window after window i is window i + 1. */
  lemma NextIsStart(i: int, interval: Interval)
    requires interval.Month? ==> 12 * 1970 <= i
    ensures interval.Month? ==> 0 <= Start(interval, i)
    ensures NextWindow(Start(interval, i), interval) == Start(interval, i + 1)
  {
    if interval.Month? {
      var y, m := i / 12, i % 12;
      FirstOfMonth(y, m);
      MidnightDay(MakeDay(y, m, 1));
      MonthCarries(i);
    }
  }

  lemma StartsOrderedWeakly(interval: Interval, i: int, j: int)
    requires i <= j
    ensures Start(interval, i) <= Start(interval, j)
  {
    if i < j { StartsOrdered(interval, i, j); }
  }

  lemma StartIsInjective(interval: Interval, i: int, j: int)
    requires Start(interval, i) == Start(interval, j)
    ensures i == j
  {
    if i < j { StartsOrdered(interval, i, j); }
    if j < i { StartsOrdered(interval, j, i); }
  }

  /** Two instants share a window exactly when their window numbers agree. */
  lemma SameWindow(ts: nat, u: nat, interval: Interval)
    ensures FloorToWindow(u, interval) == FloorToWindow(ts, interval) <==> Index(interval, u) == Index(interval, ts)
  {
    FloorIsStart(ts, interval);
    FloorIsStart(u, interval);
    if FloorToWindow(u, interval) == FloorToWindow(ts, interval) {
      StartIsInjective(interval, Index(interval, u), Index(interval, ts));
    }
  }

  /** The window after an instant's own starts at the next numbered start. */
  lemma NextOfFloor(ts: nat, interval: Interval)
    ensures interval.Month? ==> 0 <= FloorToWindow(ts, interval)
    ensures NextWindow(FloorToWindow(ts, interval), interval) == Start(interval, Index(interval, ts) + 1)
  {
    FromYear1970(ts, interval);
    FloorIsStart(ts, interval);
    NextIsStart(Index(interval, ts), interval);
  }

  lemma EarlierWindow(i: int, u: nat, interval: Interval)
    requires i < Index(interval, u)
    ensures Start(interval, i + 1) <= u
  {
    FloorIsStart(u, interval);
    StartsOrderedWeakly(interval, i + 1, Index(interval, u));
  }

  lemma LaterWindow(i: int, u: nat, interval: Interval)
    requires Index(interval, u) < i
    ensures u < Start(interval, i)
  {
    FloorIsStart(u, interval);
    StartsOrderedWeakly(interval, Index(interval, u) + 1, i);
  }

  lemma InWindowIff(i: int, u: nat, interval: Interval)
    ensures Start(interval, i) <= u < Start(interval, i + 1) <==> Index(interval, u) == i
  {
    hide *;
    if i < Index(interval, u) {
      EarlierWindow(i, u, interval);
    } else if Index(interval, u) < i {
      LaterWindow(i, u, interval);
    } else {
      FloorIsStart(u, interval);
    }
  }

  /**
   The windows tile time: two instants share a window exactly when the second
   lies between the start of the first one's window and the start of the next.
   */
  lemma WindowsTile(ts: nat, u: nat, interval: Interval)
    ensures
      var start := FloorToWindow(ts, interval);
      && (interval.Month? ==> 0 <= start)
      && (FloorToWindow(u, interval) == start <==> start <= u < NextWindow(start, interval))
  {
    NextOfFloor(ts, interval);
    FloorIsStart(ts, interval);
    InWindowIff(Index(interval, ts), u, interval);
    SameWindow(ts, u, interval);
  }

  lemma FromYear1970(ts: nat, interval: Interval)
    ensures interval.Month? ==> 12 * 1970 <= Index(interval, ts)
  {
    if interval.Month? {
      DayArithmetic(ts);
      FieldsName(DayOf(ts));
    }
  }
}
