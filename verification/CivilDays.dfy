/** Days from civil: the day number of a proleptic Gregorian date, counted from 1970-01-01. */
module CivilDays {

  datatype Date = Date(year: int, month: int, day: int)

  // ------------------------------------------------- the calendar

  predicate IsLeap(year: int) {
    year % 4 == 0 && (year % 100 != 0 || year % 400 == 0)
  }

  function DaysInMonth(year: int, month: int): int {
    if month == 2 then (if IsLeap(year) then 29 else 28)
    else if month == 4 || month == 6 || month == 9 || month == 11 then 30
    else 31
  }

  predicate IsDate(d: Date) {
    1 <= d.month <= 12 && 1 <= d.day <= DaysInMonth(d.year, d.month)
  }

  function NextDay(d: Date): Date {
    if d.day < DaysInMonth(d.year, d.month) then Date(d.year, d.month, d.day + 1)
    else if d.month < 12 then Date(d.year, d.month + 1, 1)
    else Date(d.year + 1, 1, 1)
  }

  predicate Before(a: Date, b: Date) {
    a.year < b.year || (a.year == b.year && (a.month < b.month || (a.month == b.month && a.day < b.day)))
  }

  // ------------------------------------------------- the arithmetic

  /** The years counted from March, in eras of 400. */
  function YearStart(year: int): int {
    var era := year / 400;
    var yoe := year - era * 400;
    era * 146_097 + yoe * 365 + yoe / 4 - yoe / 100
  }

  /** The first day of a month, counted from 1 March. */
  function MonthStart(month: int): int {
    (153 * ((month + 9) % 12) + 2) / 5
  }

  function DaysFromCivil(d: Date): int {
    var year := if d.month <= 2 then d.year - 1 else d.year;
    YearStart(year) + MonthStart(d.month) + d.day - 1 - 719_468
  }

  /** Every month but February is as long as the calendar says. */
  lemma MonthLength(month: int)
    requires 1 <= month <= 12 && month != 2
    ensures MonthStart(month % 12 + 1) - MonthStart(month) == DaysInMonth(0, month)
    ensures MonthStart(1) == 306 && MonthStart(2) == 337 && MonthStart(3) == 0
  {
  }

  /** Within an era, 97 of 400 years are leap years. */
  lemma YearOfEraLength(yoe: int)
    requires 0 < yoe < 400
    ensures yoe / 4 - (yoe - 1) / 4 == if yoe % 4 == 0 then 1 else 0
    ensures yoe / 100 - (yoe - 1) / 100 == if yoe % 100 == 0 then 1 else 0
  {
  }

  lemma LeapInEra(era: int, yoe: int)
    requires 0 <= yoe < 400
    ensures (era * 400 + yoe) / 400 == era && IsLeap(era * 400 + yoe) == IsLeap(yoe)
  {
    var year := era * 400 + yoe;
    var centuries, quads := 4 * era, 100 * era;
    assert year == quads * 4 + yoe && year == centuries * 100 + yoe;
    assert year % 4 == yoe % 4;
    assert year % 100 == yoe % 100;
    assert year % 400 == yoe;
  }

  lemma YearLength(year: int)
    ensures YearStart(year) - YearStart(year - 1) == if IsLeap(year) then 366 else 365
  {
    var era := year / 400;
    var yoe := year - era * 400;
    LeapInEra(era, yoe);
    if yoe == 0 {
      LeapInEra(era - 1, 399);
    } else {
      LeapInEra(era, yoe - 1);
      YearOfEraLength(yoe);
    }
  }

  /** One month is followed by the next, and December by January. */
  lemma MonthFollows(year: int, month: int)
    requires 1 <= month <= 12
    ensures var next := if month < 12 then Date(year, month + 1, 1) else Date(year + 1, 1, 1);
            DaysFromCivil(next) == DaysFromCivil(Date(year, month, 1)) + DaysInMonth(year, month)
  {
    if month == 2 {
      FebruaryEnds(year);
    } else if 3 <= month <= 11 {
      LaterMonthEnds(year, month);
    } else {
      WinterMonthsEnd(year);
    }
  }

  lemma WinterMonthsEnd(year: int)
    ensures DaysFromCivil(Date(year, 2, 1)) == DaysFromCivil(Date(year, 1, 1)) + 31
    ensures DaysFromCivil(Date(year + 1, 1, 1)) == DaysFromCivil(Date(year, 12, 1)) + 31
  {
  }

  lemma LaterMonthEnds(year: int, month: int)
    requires 3 <= month <= 11
    ensures DaysFromCivil(Date(year, month + 1, 1)) == DaysFromCivil(Date(year, month, 1)) + DaysInMonth(year, month)
  {
    MonthLength(month);
  }

  lemma FebruaryEnds(year: int)
    ensures DaysFromCivil(Date(year, 3, 1)) == DaysFromCivil(Date(year, 2, 1)) + DaysInMonth(year, 2)
  {
    YearLength(year);
    MonthLength(1);
  }

  /** The next calendar day has the next number, in every year, leap or not, negative or not. */
  lemma NextDayIsOneMore(d: Date)
    requires IsDate(d)
    ensures IsDate(NextDay(d)) && DaysFromCivil(NextDay(d)) == DaysFromCivil(d) + 1
  {
    MonthFollows(d.year, d.month);
    assert DaysFromCivil(d) == DaysFromCivil(Date(d.year, d.month, 1)) + d.day - 1;
  }

  lemma EpochIsZero()
    ensures DaysFromCivil(Date(1970, 1, 1)) == 0
  {
  }

  ghost function Ordinal(d: Date): int {
    (d.year * 12 + d.month) * 31 + d.day
  }

  lemma OrdinalGrows(a: Date, b: Date)
    requires IsDate(a) && IsDate(b) && Before(a, b)
    ensures Ordinal(a) < Ordinal(b)
  {
  }

  /** The number of days between two dates counts the calendar steps, so the map is strictly
      increasing. */
  lemma {:induction false} DaysIncrease(a: Date, b: Date)
    requires IsDate(a) && IsDate(b) && Before(a, b)
    ensures DaysFromCivil(a) < DaysFromCivil(b)
    decreases Ordinal(b) - Ordinal(a)
  {
    NextDayIsOneMore(a);
    OrdinalGrows(a, b);
    if NextDay(a) != b {
      assert Before(NextDay(a), b);
      OrdinalGrows(a, NextDay(a));
      OrdinalGrows(NextDay(a), b);
      DaysIncrease(NextDay(a), b);
    }
  }

  lemma DaysAreInjective(a: Date, b: Date)
    requires IsDate(a) && IsDate(b) && DaysFromCivil(a) == DaysFromCivil(b)
    ensures a == b
  {
    if Before(a, b) { DaysIncrease(a, b); }
    if Before(b, a) { DaysIncrease(b, a); }
  }

  // ------------------------------------------------- and back

  function PreviousDay(d: Date): Date {
    if d.day > 1 then Date(d.year, d.month, d.day - 1)
    else if d.month > 1 then Date(d.year, d.month - 1, DaysInMonth(d.year, d.month - 1))
    else Date(d.year - 1, 12, 31)
  }

  /** The date of a day number, found by walking the calendar from the epoch. */
  function CivilFromDays(n: int): (d: Date)
    decreases if n < 0 then -n else n
  {
    if n == 0 then Date(1970, 1, 1)
    else if n > 0 then NextDay(CivilFromDays(n - 1))
    else PreviousDay(CivilFromDays(n + 1))
  }

  lemma NextUndoesPrevious(d: Date)
    requires IsDate(d)
    ensures IsDate(PreviousDay(d)) && NextDay(PreviousDay(d)) == d
  {
  }

  lemma PreviousDayIsBefore(d: Date)
    requires IsDate(d)
    ensures IsDate(PreviousDay(d)) && DaysFromCivil(PreviousDay(d)) == DaysFromCivil(d) - 1
  {
    NextUndoesPrevious(d);
    NextDayIsOneMore(PreviousDay(d));
  }

  lemma {:induction false} CivilFromDaysInverts(n: int)
    ensures IsDate(CivilFromDays(n)) && DaysFromCivil(CivilFromDays(n)) == n
    decreases if n < 0 then -n else n
  {
    if n == 0 {
      EpochIsZero();
    } else if n > 0 {
      CivilFromDaysInverts(n - 1);
      NextDayIsOneMore(CivilFromDays(n - 1));
    } else {
      CivilFromDaysInverts(n + 1);
      PreviousDayIsBefore(CivilFromDays(n + 1));
    }
  }

  lemma CivilRoundTrip(d: Date)
    requires IsDate(d)
    ensures CivilFromDays(DaysFromCivil(d)) == d
  {
    CivilFromDaysInverts(DaysFromCivil(d));
    DaysAreInjective(CivilFromDays(DaysFromCivil(d)), d);
  }
}
