/**
 Billing periods (packages/commerce/src/model.ts:117-121) over the Gregorian
 arithmetic of section 21.4.1 of ECMA-262.  A time value is a count of
 milliseconds since the start of 1970, UTC; months run from 0 to 11.
 */
module Calendar {
  import opened Common

  datatype Interval = Month | Year

  datatype Civil = Civil(year: int, month: int, date: int)

  const MS_PER_DAY := 86400000

  function DayOf(time: int): int {
    time / MS_PER_DAY
  }

  function TimeInDay(time: int): (t: int)
    ensures 0 <= t < MS_PER_DAY
  {
    time % MS_PER_DAY
  }

  function DayFromYear(y: int): int {
    365 * (y - 1970) + (y - 1969) / 4 - (y - 1901) / 100 + (y - 1601) / 400
  }

  predicate IsLeap(y: int) {
    y % 4 == 0 && (y % 100 != 0 || y % 400 == 0)
  }

  function DaysIn(y: int, month: int): int {
    if month == 1 then (if IsLeap(y) then 29 else 28)
    else if month == 3 || month == 5 || month == 8 || month == 10 then 30 else 31
  }

  // Days of year y before the month begins, from the table in section 21.4.1.
  function DaysBefore(y: int, month: nat): int
    requires month <= 12
  {
    [0, 31, 59, 90, 120, 151, 181, 212, 243, 273, 304, 334, 365][month] + (if month >= 2 && IsLeap(y) then 1 else 0)
  }

  /** The table is the running sum of the months' lengths. */
  lemma DaysBeforeNext(y: int, month: nat)
    requires month < 12
    ensures DaysBefore(y, month + 1) == DaysBefore(y, month) + DaysIn(y, month)
  {
  }

  ghost predicate ValidDate(c: Civil) {
    0 <= c.month < 12 && 1 <= c.date <= DaysIn(c.year, c.month)
  }

  function DayNumber(y: int, month: int, date: int): int
    requires 0 <= month < 12
  {
    DayFromYear(y) + DaysBefore(y, month) + date - 1
  }

  function YearAtOrAfter(day: int, y: int): (r: int)
    requires DayFromYear(y) <= day
    ensures DayFromYear(r) <= day < DayFromYear(r + 1)
    decreases day - DayFromYear(y)
  {
    if day < DayFromYear(y + 1) then y else YearAtOrAfter(day, y + 1)
  }

  function YearOf(day: int): (y: int)
    ensures DayFromYear(y) <= day < DayFromYear(y + 1)
  {
    YearAtOrAfter(day, 1970 + day * 400 / 146097 - 2)
  }

  // The month of year y that holds the day with this many days before it.
  function MonthAtOrAfter(y: int, days: int, month: nat): (r: nat)
    requires month < 12 && DaysBefore(y, month) <= days < DaysBefore(y, 12)
    ensures r < 12 && DaysBefore(y, r) <= days < DaysBefore(y, r + 1)
    decreases 12 - month
  {
    if days < DaysBefore(y, month + 1) then month else MonthAtOrAfter(y, days, month + 1)
  }

  lemma YearLength(y: int)
    ensures DaysBefore(y, 12) == DayFromYear(y + 1) - DayFromYear(y)
  {
    FourthYears(y);
    HundredthYears(y);
    FourHundredthYears(y);
    MultiplesNest(y);
  }

  lemma FourthYears(y: int)
    ensures (y - 1968) / 4 - (y - 1969) / 4 == if y % 4 == 0 then 1 else 0
  {
  }

  lemma HundredthYears(y: int)
    ensures (y - 1900) / 100 - (y - 1901) / 100 == if y % 100 == 0 then 1 else 0
  {
  }

  lemma FourHundredthYears(y: int)
    ensures (y - 1600) / 400 - (y - 1601) / 400 == if y % 400 == 0 then 1 else 0
  {
  }

  lemma MultiplesNest(y: int)
    ensures y % 400 == 0 ==> y % 100 == 0
    ensures y % 100 == 0 ==> y % 4 == 0
  {
  }

  function CivilOf(day: int): (c: Civil)
    ensures ValidDate(c) && DayNumber(c.year, c.month, c.date) == day
  {
    var y := YearOf(day);
    YearLength(y);
    var month := MonthAtOrAfter(y, day - DayFromYear(y), 0);
    Civil(y, month, day - DayFromYear(y) - DaysBefore(y, month) + 1)
  }

  /** MakeDay: months out of range carry into the year, dates into the month. */
  function MakeDay(y: int, month: int, date: int): int {
    DayNumber(y + month / 12, month % 12, 1) + date - 1
  }

  // --------------------------------------------------------------- order of dates

  lemma YearsRise(y: int, z: int)
    requires y < z
    ensures DayFromYear(y + 1) <= DayFromYear(z)
  {
  }

  lemma {:induction false} MonthsRise(y: int, m: nat, n: nat)
    requires m < n <= 12
    ensures DaysBefore(y, m + 1) <= DaysBefore(y, n)
  {
  }

  ghost predicate Before(a: Civil, b: Civil) {
    a.year < b.year || (a.year == b.year && (a.month < b.month || (a.month == b.month && a.date < b.date)))
  }

  /** Day numbers follow the calendar. */
  lemma DatesRise(a: Civil, b: Civil)
    requires ValidDate(a) && ValidDate(b) && Before(a, b)
    ensures DayNumber(a.year, a.month, a.date) < DayNumber(b.year, b.month, b.date)
  {
    YearLength(a.year);
    if a.month < 11 {
      MonthsRise(a.year, a.month, 12);
    }
    if a.year < b.year {
      YearsRise(a.year, b.year);
      assert 0 <= DaysBefore(b.year, b.month) by {
        if b.month > 0 {
          MonthsRise(b.year, 0, b.month);
        }
      }
    } else if a.month < b.month {
      MonthsRise(a.year, a.month, b.month);
    }
  }

  /** A day number has one date: reading it back gives the date it was made from. */
  lemma CivilOfDayNumber(c: Civil)
    requires ValidDate(c)
    ensures CivilOf(DayNumber(c.year, c.month, c.date)) == c
  {
    var d := CivilOf(DayNumber(c.year, c.month, c.date));
    if Before(c, d) {
      DatesRise(c, d);
    } else if Before(d, c) {
      DatesRise(d, c);
    }
  }

  lemma DayOfParts(day: int, time: int)
    requires 0 <= time < MS_PER_DAY
    ensures DayOf(day * MS_PER_DAY + time) == day && TimeInDay(day * MS_PER_DAY + time) == time
  {
  }

  /** The Gregorian calendar: day 0 is the first of 1970, months have their lengths, and each date is a day after the last. */
  lemma DaysFollowTheCalendar(c: Civil)
    requires ValidDate(c)
    ensures DayNumber(1970, 0, 1) == 0
    ensures DaysIn(c.year, c.month) ==
              if c.month == 1 then (if c.year % 400 == 0 || (c.year % 4 == 0 && c.year % 100 != 0) then 29 else 28)
              else if c.month in {3, 5, 8, 10} then 30 else 31
    ensures DayNumber(c.year, c.month, c.date) + 1 ==
              if c.date < DaysIn(c.year, c.month) then DayNumber(c.year, c.month, c.date + 1)
              else if c.month < 11 then DayNumber(c.year, c.month + 1, 1) else DayNumber(c.year + 1, 0, 1)
  {
    MultiplesNest(c.year);
    if c.month < 11 {
      DaysBeforeNext(c.year, c.month);
    } else {
      YearLength(c.year);
      DaysBeforeNext(c.year, 11);
    }
  }

  // --------------------------------------------------------------- billing periods

  function MonthsPer(interval: Interval): int {
    if interval == Month then 1 else 12
  }

  function TargetYear(c: Civil, interval: Interval, count: int): int {
    if interval == Month then c.year + (c.month + count) / 12 else c.year + count
  }

  function TargetMonth(c: Civil, interval: Interval, count: int): int {
    if interval == Month then (c.month + count) % 12 else c.month
  }

  /** The same day of the month count months or years on, or the last day of a shorter month. */
  function Target(c: Civil, interval: Interval, count: int): Civil {
    var y, month := TargetYear(c, interval, count), TargetMonth(c, interval, count);
    Civil(y, month, Min(c.date, DaysIn(y, month)))
  }

  function Instant(c: Civil, time: int): int
    requires 0 <= c.month < 12
  {
    DayNumber(c.year, c.month, c.date) * MS_PER_DAY + time
  }

  function PeriodEnd(start: int, interval: Interval, count: int): int {
    var c := CivilOf(DayOf(start));
    Instant(Target(c, interval, count), TimeInDay(start))
  }

  lemma DaysInRange(y: int, month: int)
    ensures 28 <= DaysIn(y, month) <= 31
  {
  }

  lemma InstantParts(c: Civil, time: int)
    requires ValidDate(c) && 0 <= time < MS_PER_DAY
    ensures CivilOf(DayOf(Instant(c, time))) == c && TimeInDay(Instant(c, time)) == time
  {
    var day := DayNumber(c.year, c.month, c.date);
    CivilOfDayNumber(c);
    DayOfParts(day, time);
    assert DayOf(Instant(c, time)) == day;
  }

  lemma TargetIsValid(c: Civil, interval: Interval, count: int)
    requires ValidDate(c)
    ensures ValidDate(Target(c, interval, count))
  {
  }

  lemma PeriodEndParts(start: int, interval: Interval, count: int)
    ensures CivilOf(DayOf(PeriodEnd(start, interval, count))) == Target(CivilOf(DayOf(start)), interval, count)
    ensures TimeInDay(PeriodEnd(start, interval, count)) == TimeInDay(start)
  {
    var c := CivilOf(DayOf(start));
    TargetIsValid(c, interval, count);
    InstantParts(Target(c, interval, count), TimeInDay(start));
  }

  /** Months from year 0 to the month of a date. */
  function MonthsTo(c: Civil): int {
    12 * c.year + c.month
  }

  lemma TargetMonths(c: Civil, interval: Interval, count: int)
    ensures MonthsTo(Target(c, interval, count)) == MonthsTo(c) + count * MonthsPer(interval)
  {
  }

  /** A period ends in the month exactly count on, on the start's day clamped, at the start's time of day. */
  lemma PeriodEndsInItsMonth(start: int, interval: Interval, count: int)
    ensures var c := CivilOf(DayOf(start));
            var e := CivilOf(DayOf(PeriodEnd(start, interval, count)));
            && 12 * e.year + e.month == 12 * c.year + c.month + (if interval == Month then count else 12 * count)
            && e.date == Min(c.date, DaysIn(e.year, e.month))
            && PeriodEnd(start, interval, count) % 86400000 == start % 86400000
  {
    PeriodEndParts(start, interval, count);
    TargetMonths(CivilOf(DayOf(start)), interval, count);
  }

  lemma SameDayOrLater(a: int, b: int)
    ensures a <= b <==> CivilOf(a) == CivilOf(b) || Before(CivilOf(a), CivilOf(b))
  {
    if Before(CivilOf(a), CivilOf(b)) {
      DatesRise(CivilOf(a), CivilOf(b));
    } else if Before(CivilOf(b), CivilOf(a)) {
      DatesRise(CivilOf(b), CivilOf(a));
    }
  }

  lemma MonthsThenDates(a: Civil, b: Civil)
    requires ValidDate(a) && ValidDate(b)
    ensures Before(a, b) <==> MonthsTo(a) < MonthsTo(b) || (MonthsTo(a) == MonthsTo(b) && a.date < b.date)
    ensures MonthsTo(a) == MonthsTo(b) <==> a.year == b.year && a.month == b.month
  {
  }

  lemma TargetsKeepOrder(a: Civil, b: Civil, interval: Interval, count: int)
    requires ValidDate(a) && ValidDate(b) && Before(a, b)
    ensures var s, t := Target(a, interval, count), Target(b, interval, count);
            s == t || Before(s, t)
  {
  }

  /** A later calendar date never gives a period that ends on an earlier one. */
  lemma PeriodsKeepDateOrder(start: int, later: int, interval: Interval, count: int)
    requires DayOf(start) <= DayOf(later)
    ensures DayOf(PeriodEnd(start, interval, count)) <= DayOf(PeriodEnd(later, interval, count))
  {
    PeriodEndParts(start, interval, count);
    PeriodEndParts(later, interval, count);
    SameDayOrLater(DayOf(start), DayOf(later));
    SameDayOrLater(DayOf(PeriodEnd(start, interval, count)), DayOf(PeriodEnd(later, interval, count)));
    if Before(CivilOf(DayOf(start)), CivilOf(DayOf(later))) {
      TargetsKeepOrder(CivilOf(DayOf(start)), CivilOf(DayOf(later)), interval, count);
    }
  }

  lemma LaterDayIsLater(s: int, t: int)
    requires DayOf(s) < DayOf(t)
    ensures s < t
  {
  }

  /** Each further month or year ends strictly later. */
  lemma PeriodsGrowWithCount(start: int, interval: Interval, count: int, more: int)
    requires count < more
    ensures PeriodEnd(start, interval, count) < PeriodEnd(start, interval, more)
  {
    var c := CivilOf(DayOf(start));
    var e, f := PeriodEnd(start, interval, count), PeriodEnd(start, interval, more);
    PeriodEndParts(start, interval, count);
    PeriodEndParts(start, interval, more);
    TargetMonths(c, interval, count);
    TargetMonths(c, interval, more);
    MonthsThenDates(Target(c, interval, count), Target(c, interval, more));
    SameDayOrLater(DayOf(f), DayOf(e));
    LaterDayIsLater(e, f);
  }

  lemma InstantOrder(s: int, t: int)
    ensures s <= t <==> DayOf(s) < DayOf(t) || (DayOf(s) == DayOf(t) && TimeInDay(s) <= TimeInDay(t))
  {
  }

  /** Two dates of one month, the same or both past the last day of the month the period ends in. */
  predicate EndTogether(a: Civil, b: Civil, interval: Interval, count: int) {
    && a.year == b.year && a.month == b.month
    && var last := DaysIn(TargetYear(a, interval, count), TargetMonth(a, interval, count));
       a.date == b.date || (last <= a.date && last <= b.date)
  }

  lemma TargetsMeet(a: Civil, b: Civil, interval: Interval, count: int)
    requires ValidDate(a) && ValidDate(b)
    ensures Target(a, interval, count) == Target(b, interval, count) <==> EndTogether(a, b, interval, count)
  {
    TargetMonths(a, interval, count);
    TargetMonths(b, interval, count);
    MonthsThenDates(a, b);
  }

  /**
   Instants change places if and only if the starts are dates of one month, the
   same or both at or past the last day of the month the period ends in, and the
   later start has the earlier time of day.
   */
  lemma PeriodsKeepInstantsExactly(start: int, later: int, interval: Interval, count: int)
    requires start <= later
    ensures PeriodEnd(later, interval, count) < PeriodEnd(start, interval, count)
       <==> EndTogether(CivilOf(DayOf(start)), CivilOf(DayOf(later)), interval, count) && TimeInDay(later) < TimeInDay(start)
  {
    TargetsMeet(CivilOf(DayOf(start)), CivilOf(DayOf(later)), interval, count);
    PeriodEndParts(start, interval, count);
    PeriodEndParts(later, interval, count);
    InstantOrder(start, later);
    InstantOrder(PeriodEnd(start, interval, count), PeriodEnd(later, interval, count));
    PeriodsKeepDateOrder(start, later, interval, count);
    SameDayOrLater(DayOf(PeriodEnd(start, interval, count)), DayOf(PeriodEnd(later, interval, count)));
    SameDayOrLater(DayOf(PeriodEnd(later, interval, count)), DayOf(PeriodEnd(start, interval, count)));
  }

  lemma PeriodEndOfInstant(c: Civil, time: int, interval: Interval, count: int)
    requires ValidDate(c) && 0 <= time < MS_PER_DAY
    ensures PeriodEnd(Instant(c, time), interval, count) == Instant(Target(c, interval, count), time)
  {
    InstantParts(c, time);
  }

  const HOUR := 3600000

  /** In every year, 30 January at 23:00 and 31 January at 01:00 change places a month on. */
  lemma PeriodsMayReorderInstants(year: int)
    ensures Instant(Civil(year, 0, 30), 23 * HOUR) < Instant(Civil(year, 0, 31), HOUR)
    ensures PeriodEnd(Instant(Civil(year, 0, 31), HOUR), Month, 1) < PeriodEnd(Instant(Civil(year, 0, 30), 23 * HOUR), Month, 1)
  {
    hide CivilOf, DayOf, TimeInDay, PeriodEnd;
    PeriodEndOfInstant(Civil(year, 0, 30), 23 * HOUR, Month, 1);
    PeriodEndOfInstant(Civil(year, 0, 31), HOUR, Month, 1);
    DaysInRange(year, 1);
    assert Target(Civil(year, 0, 30), Month, 1) == Civil(year, 1, DaysIn(year, 1)) == Target(Civil(year, 0, 31), Month, 1);
  }

  // --------------------------------------------------------------- the Date object

  function WithDate(t: int, date: int): int {
    var c := CivilOf(DayOf(t));
    MakeDay(c.year, c.month, date) * MS_PER_DAY + TimeInDay(t)
  }

  function WithMonth(t: int, month: int): int {
    var c := CivilOf(DayOf(t));
    MakeDay(c.year, month, c.date) * MS_PER_DAY + TimeInDay(t)
  }

  function WithYear(t: int, year: int): int {
    var c := CivilOf(DayOf(t));
    MakeDay(year, c.month, c.date) * MS_PER_DAY + TimeInDay(t)
  }

  class UtcDate {
    var time: int

    constructor (time: int)
      ensures this.time == time
    {
      this.time := time;
    }

    method SetUTCDate(date: int)
      modifies this
      ensures time == WithDate(old(time), date)
    {
      var c := CivilOf(DayOf(time));
      time := MakeDay(c.year, c.month, date) * MS_PER_DAY + TimeInDay(time);
    }

    method SetUTCMonth(month: int)
      modifies this
      ensures time == WithMonth(old(time), month)
    {
      var c := CivilOf(DayOf(time));
      time := MakeDay(c.year, month, c.date) * MS_PER_DAY + TimeInDay(time);
    }

    method SetUTCFullYear(year: int)
      modifies this
      ensures time == WithYear(old(time), year)
    {
      var c := CivilOf(DayOf(time));
      time := MakeDay(year, c.month, c.date) * MS_PER_DAY + TimeInDay(time);
    }
  }

  lemma MakeDayInMonth(y: int, month: int, date: int)
    requires 0 <= month < 12
    ensures MakeDay(y, month, date) == DayNumber(y, month, date)
  {
  }

  // Setting the day of the month, for a day the month has.
  lemma WithDateIs(c: Civil, time: int, date: int)
    requires ValidDate(c) && 0 <= time < MS_PER_DAY && 1 <= date <= DaysIn(c.year, c.month)
    ensures WithDate(Instant(c, time), date) == Instant(Civil(c.year, c.month, date), time)
  {
    InstantParts(c, time);
    MakeDayInMonth(c.year, c.month, date);
    assert WithDate(Instant(c, time), date) == MakeDay(c.year, c.month, date) * MS_PER_DAY + time;
  }

  // From the first of a month the month and the year can be set without overflow.
  lemma WithMonthIs(c: Civil, time: int, month: int)
    requires ValidDate(c) && 0 <= time < MS_PER_DAY && c.date == 1
    ensures WithMonth(Instant(c, time), month) == Instant(Civil(c.year + month / 12, month % 12, 1), time)
  {
    InstantParts(c, time);
  }

  lemma WithYearIs(c: Civil, time: int, year: int)
    requires ValidDate(c) && 0 <= time < MS_PER_DAY && c.date == 1
    ensures WithYear(Instant(c, time), year) == Instant(Civil(year, c.month, 1), time)
  {
    InstantParts(c, time);
    MakeDayInMonth(year, c.month, 1);
    assert WithYear(Instant(c, time), year) == MakeDay(year, c.month, 1) * MS_PER_DAY + time;
  }

  lemma DayBeforeNextMonth(y: int, month: int)
    requires 0 <= month < 12
    ensures MakeDay(y + (month + 1) / 12, (month + 1) % 12, 0) == DayNumber(y, month, DaysIn(y, month))
  {
    DaysBeforeNext(y, month);
    if month == 11 {
      YearLength(y);
    }
  }

  // Day 0 of the next month is the last day of this one.
  lemma LastDayIs(y: int, month: int, time: int)
    requires 0 <= month < 12 && 0 <= time < MS_PER_DAY
    ensures var next := Civil(y + (month + 1) / 12, (month + 1) % 12, 1);
            WithDate(Instant(next, time), 0) == Instant(Civil(y, month, DaysIn(y, month)), time)
  {
    var next := Civil(y + (month + 1) / 12, (month + 1) % 12, 1);
    DaysInRange(next.year, next.month);
    InstantParts(next, time);
    DayBeforeNextMonth(y, month);
  }

  lemma InstantOfParts(t: int)
    ensures Instant(CivilOf(DayOf(t)), TimeInDay(t)) == t
  {
  }

  // The date object at the first of the target month, and the last day of that month.
  method OnToMonth(date: UtcDate, c: Civil, interval: Interval, count: int)
    requires ValidDate(c) && c.date == 1 && date.time == Instant(c, TimeInDay(date.time))
    modifies date
    ensures date.time == Instant(Civil(TargetYear(c, interval, count), TargetMonth(c, interval, count), 1), TimeInDay(old(date.time)))
  {
    hide CivilOf, DayNumber, DayOf, TimeInDay, Instant, WithDate, WithMonth, WithYear, DaysIn;
    ghost var time := TimeInDay(date.time);
    InstantParts(c, time);
    if interval == Month {
      WithMonthIs(c, time, c.month + count);
      date.SetUTCMonth(CivilOf(DayOf(date.time)).month + count);
    } else {
      WithYearIs(c, time, c.year + count);
      date.SetUTCFullYear(CivilOf(DayOf(date.time)).year + count);
    }
  }

  method LastDay(time: int, ghost y: int, ghost month: int) returns (last: int)
    requires 0 <= month < 12 && time == Instant(Civil(y, month, 1), TimeInDay(time))
    ensures last == DaysIn(y, month)
  {
    hide CivilOf, DayNumber, DayOf, TimeInDay, Instant, WithDate, WithMonth, WithYear, DaysIn;
    ghost var first, rest := Civil(y, month, 1), TimeInDay(time);
    DaysInRange(y, month);
    InstantParts(first, rest);
    var end := new UtcDate(time);
    WithMonthIs(first, rest, month + 1);
    end.SetUTCMonth(CivilOf(DayOf(end.time)).month + 1);
    LastDayIs(y, month, rest);
    end.SetUTCDate(0);
    InstantParts(Civil(y, month, DaysIn(y, month)), rest);
    last := CivilOf(DayOf(end.time)).date;
  }

  /** The setters, one after another: first of the month, on by count, then the clamped day. */
  method SubscriptionPeriodEnd(start: int, interval: Interval, count: int) returns (result: int)
    ensures result == PeriodEnd(start, interval, count)
  {
    hide CivilOf, DayNumber, DayOf, TimeInDay, Instant, WithDate, WithMonth, WithYear, DaysIn;
    var date := new UtcDate(start);
    var day := CivilOf(DayOf(start)).date;
    ghost var c, rest := CivilOf(DayOf(start)), TimeInDay(start);
    ghost var y, month := TargetYear(c, interval, count), TargetMonth(c, interval, count);
    ghost var first, target := Civil(c.year, c.month, 1), Civil(y, month, 1);
    InstantOfParts(start);
    DaysInRange(c.year, c.month);
    WithDateIs(c, rest, 1);
    date.SetUTCDate(1);
    InstantParts(first, rest);
    var c1 := CivilOf(DayOf(date.time));
    OnToMonth(date, c1, interval, count);
    DaysInRange(y, month);
    InstantParts(target, rest);
    var last := LastDay(date.time, y, month);
    WithDateIs(target, rest, Min(day, last));
    date.SetUTCDate(Min(day, last));
    result := date.time;
  }
}
