/**
 Calendar arithmetic of `time.AddDate` in UTC. A `Day` is given by year, month and the seconds since the start of that
 month; like AddDate, adding months keeps those seconds and lets them run over the month's end. Everything else needs
 only how far AddDate goes.
 */
module Calendar {

  const DAY := 86400

  /** What the code reads off its clock: the time, and what AddDate makes of it with six months and with one year. */
  datatype Date = Date(seconds: int, inSixMonths: int, inOneYear: int)

  /** The instants are as far apart as on a calendar. */
  predicate IsDate(d: Date)
  {
    && d.seconds + 181 * DAY <= d.inSixMonths <= d.seconds + 184 * DAY
    && d.seconds + 365 * DAY <= d.inOneYear <= d.seconds + 366 * DAY
  }

  function Seconds(d: Date): int
  {
    d.seconds
  }

  /** t.AddDate(0, 6, 0) */
  function SixMonthsAfter(d: Date): int
  {
    d.inSixMonths
  }

  /** t.AddDate(1, 0, 0) */
  function OneYearAfter(d: Date): int
  {
    d.inOneYear
  }

  // ----- The calendar -----

  datatype Day = Day(year: nat, month: nat, rest: int)

  predicate IsLeap(y: nat) { y % 4 == 0 && (y % 100 != 0 || y % 400 == 0) }

  function YearLength(y: nat): nat { if IsLeap(y) then 366 else 365 }

  function DaysBeforeYear(y: nat): nat
  {
    if y == 0 then 0 else DaysBeforeYear(y - 1) + YearLength(y - 1)
  }

  function DaysBeforeMonth(y: nat, m: nat): nat
    requires 1 <= m <= 12
  {
    [0, 31, 59, 90, 120, 151, 181, 212, 243, 273, 304, 334][m - 1] + if IsLeap(y) && m > 2 then 1 else 0
  }

  function DaysIn(y: nat, m: nat): nat
    requires 1 <= m <= 12
  {
    (if m == 12 then YearLength(y) else DaysBeforeMonth(y, m + 1)) - DaysBeforeMonth(y, m)
  }

  predicate IsDay(d: Day)
  {
    1 <= d.month <= 12 && 0 <= d.rest < DaysIn(d.year, d.month) * DAY
  }

  function MonthStart(y: nat, m: nat): nat
    requires 1 <= m <= 12
  {
    (DaysBeforeYear(y) + DaysBeforeMonth(y, m)) * DAY
  }

  function DaySeconds(d: Day): int
    requires IsDay(d)
  {
    MonthStart(d.year, d.month) + d.rest
  }

  /** t.AddDate(0, 6, 0) */
  function DayPlusSixMonths(d: Day): int
    requires IsDay(d)
  {
    (if d.month <= 6 then MonthStart(d.year, d.month + 6) else MonthStart(d.year + 1, d.month - 6)) + d.rest
  }

  /** t.AddDate(1, 0, 0) */
  function DayPlusOneYear(d: Day): int
    requires IsDay(d)
  {
    MonthStart(d.year + 1, d.month) + d.rest
  }

  /** Six calendar months are 181 to 184 days, leap years included. */
  lemma SixMonthsBounds(d: Day)
    requires IsDay(d)
    ensures DaySeconds(d) + 181 * DAY <= DayPlusSixMonths(d) <= DaySeconds(d) + 184 * DAY
  {
    assert DaysBeforeYear(d.year + 1) == DaysBeforeYear(d.year) + YearLength(d.year);
  }

  lemma OneYearBounds(d: Day)
    requires IsDay(d)
    ensures DaySeconds(d) + 365 * DAY <= DayPlusOneYear(d) <= DaySeconds(d) + 366 * DAY
  {
    assert DaysBeforeYear(d.year + 1) == DaysBeforeYear(d.year) + YearLength(d.year);
  }

  function DateOf(d: Day): Date
    requires IsDay(d)
  {
    Date(DaySeconds(d), DayPlusSixMonths(d), DayPlusOneYear(d))
  }

  /** So what holds of every `Date` holds of every moment of the calendar. */
  lemma EveryDayIsADate(d: Day)
    requires IsDay(d)
    ensures IsDate(DateOf(d))
  {
    SixMonthsBounds(d);
    OneYearBounds(d);
  }
}
