/** The `date=YYYY-MM-DD` partition key and the check of a batch against it. */
module DatePartition {
  import opened Wrappers
  import opened CivilDays

  const SECONDS_PER_DAY: int := 86_400
  /** The calendar range of a checked timestamp: years -9999 to 9999. */
  const MIN_TIMESTAMP: int := -377_705_116_800
  const MAX_TIMESTAMP: int := 253_402_300_799

  // ------------------------------------------------- the key

  ghost predicate HasKey(d: Date) {
    IsDate(d) && 0 <= d.year <= 9999
  }

  function Digit(n: int): char
    requires 0 <= n <= 9
  {
    n as char + '0'
  }

  predicate IsDigit(c: char) {
    '0' <= c <= '9'
  }

  function Value(c: char): int
    requires IsDigit(c)
  {
    c as int - '0' as int
  }

  function Two(n: int): string
    requires 0 <= n <= 99
  {
    [Digit(n / 10), Digit(n % 10)]
  }

  /** The directory name of a day. */
  function Path(d: Date): string
    requires HasKey(d)
  {
    "date=" + Two(d.year / 100) + Two(d.year % 100) + "-" + Two(d.month) + "-" + Two(d.day)
  }

  predicate Shaped(v: string) {
    && |v| == 10
    && forall i :: 0 <= i < 10 ==> if i == 4 || i == 7 then v[i] == '-' else IsDigit(v[i])
  }

  function Number(a: char, b: char): int
    requires IsDigit(a) && IsDigit(b)
  {
    10 * Value(a) + Value(b)
  }

  function ParseDateValue(v: string): Option<Date> {
    if !Shaped(v) then None
    else
      var d := Date(100 * Number(v[0], v[1]) + Number(v[2], v[3]), Number(v[5], v[6]), Number(v[8], v[9]));
      if IsDate(d) then Some(d) else None
  }

  function Parse(directory: string): Option<Date> {
    if "date=" <= directory then ParseDateValue(directory[5..]) else None
  }

  lemma NumberTwo(n: int, a: char, b: char)
    ensures 0 <= n <= 99 ==> TwoDigits(Two(n)) && Number(Two(n)[0], Two(n)[1]) == n
    ensures IsDigit(a) && IsDigit(b) ==> 0 <= Number(a, b) <= 99 && Two(Number(a, b)) == [a, b]
  {
  }

  /** Every directory name that `Path` writes parses back to its day. */
  lemma ParsePath(d: Date)
    requires HasKey(d)
    ensures Parse(Path(d)) == Some(d)
  {
    var v := Two(d.year / 100) + Two(d.year % 100) + "-" + Two(d.month) + "-" + Two(d.day);
    assert Path(d) == "date=" + v && Path(d)[5..] == v;
    ParseWritten(d.year / 100, d.year % 100, d.month, d.day);
  }

  lemma ParseWritten(a: int, b: int, m: int, t: int)
    requires 0 <= a <= 99 && 0 <= b <= 99 && 0 <= m <= 99 && 0 <= t <= 99
    ensures var v := Two(a) + Two(b) + "-" + Two(m) + "-" + Two(t);
            var d := Date(100 * a + b, m, t);
            ParseDateValue(v) == if IsDate(d) then Some(d) else None
  {
    NumberTwo(a, '0', '0');
    NumberTwo(b, '0', '0');
    NumberTwo(m, '0', '0');
    NumberTwo(t, '0', '0');
    Assembled(Two(a), Two(b), Two(m), Two(t));
  }

  predicate TwoDigits(x: string) {
    |x| == 2 && IsDigit(x[0]) && IsDigit(x[1])
  }

  lemma Assembled(a: string, b: string, m: string, t: string)
    requires TwoDigits(a) && TwoDigits(b) && TwoDigits(m) && TwoDigits(t)
    ensures var v := a + b + "-" + m + "-" + t;
            && Shaped(v) && v[0] == a[0] && v[1] == a[1] && v[2] == b[0] && v[3] == b[1]
            && v[5] == m[0] && v[6] == m[1] && v[8] == t[0] && v[9] == t[1]
  {
  }

  /** Writing the numbers of a shaped value gives its characters back. */
  lemma DigitsBack(v: string)
    requires Shaped(v)
    ensures Two(Number(v[0], v[1])) + Two(Number(v[2], v[3])) + "-" + Two(Number(v[5], v[6])) + "-" + Two(Number(v[8], v[9])) == v
  {
    NumberTwo(0, v[0], v[1]);
    NumberTwo(0, v[2], v[3]);
    NumberTwo(0, v[5], v[6]);
    NumberTwo(0, v[8], v[9]);
  }

  /** Nothing else parses: an accepted name is exactly what `Path` writes for its day. */
  lemma PathParse(directory: string)
    requires Parse(directory).Some?
    ensures HasKey(Parse(directory).value) && Path(Parse(directory).value) == directory
  {
    var v := directory[5..];
    var d := Parse(directory).value;
    NumberTwo(0, v[0], v[1]);
    NumberTwo(0, v[2], v[3]);
    assert d.year / 100 == Number(v[0], v[1]) && d.year % 100 == Number(v[2], v[3]);
    DigitsBack(v);
    assert directory == "date=" + v;
  }

  lemma PathIsInjective(a: Date, b: Date)
    requires HasKey(a) && HasKey(b) && Path(a) == Path(b)
    ensures a == b
  {
    ParsePath(a);
    ParsePath(b);
  }

  // ------------------------------------------------- the day of a timestamp

  function DayOf(seconds: int): int {
    seconds / SECONDS_PER_DAY
  }

  /** The partition of a whole-second time, or None outside the calendar range or before year 0. */
  function FromTimestamp(seconds: int): Option<Date> {
    if MIN_TIMESTAMP <= seconds <= MAX_TIMESTAMP && CivilFromDays(DayOf(seconds)).year >= 0
    then Some(CivilFromDays(DayOf(seconds))) else None
  }

  /** A UTC day from year 0 to year 9999. */
  ghost predicate ValidDay(day: int) {
    DaysFromCivil(Date(0, 1, 1)) <= day <= DaysFromCivil(Date(9999, 12, 31))
  }

  lemma YearBounds(d: Date)
    requires IsDate(d)
    ensures d.year < 0 <==> DaysFromCivil(d) < DaysFromCivil(Date(0, 1, 1))
    ensures d.year > 9999 <==> DaysFromCivil(d) > DaysFromCivil(Date(9999, 12, 31))
  {
    var low, high := Date(0, 1, 1), Date(9999, 12, 31);
    if Before(d, low) { DaysIncrease(d, low); }
    if Before(low, d) { DaysIncrease(low, d); }
    if Before(d, high) { DaysIncrease(d, high); }
    if Before(high, d) { DaysIncrease(high, d); }
  }

  lemma FirstAndLastDay()
    ensures DaysFromCivil(Date(0, 1, 1)) == -719_528 && DaysFromCivil(Date(9999, 12, 31)) == 2_932_896
  {
    assert YearStart(-1) == -366 && MonthStart(1) == 306;
    assert YearStart(9999) == 3_652_059 && MonthStart(12) == 275;
  }

  lemma RangeInDays(seconds: int)
    ensures seconds <= MAX_TIMESTAMP <==> DayOf(seconds) <= 2_932_896
    ensures -719_528 <= DayOf(seconds) ==> MIN_TIMESTAMP <= seconds
  {
  }

  /** A time has a partition exactly when it falls on a valid day, and then it is that day's. */
  lemma FromTimestampIsTheDay(seconds: int)
    ensures FromTimestamp(seconds).Some? <==> ValidDay(DayOf(seconds))
    ensures FromTimestamp(seconds).Some? ==> HasKey(FromTimestamp(seconds).value)
                                             && DaysFromCivil(FromTimestamp(seconds).value) == DayOf(seconds)
  {
    FirstAndLastDay();
    RangeInDays(seconds);
    CivilFromDaysInverts(DayOf(seconds));
    YearBounds(CivilFromDays(DayOf(seconds)));
  }

  // ------------------------------------------------- checking a batch

  datatype Metadata = Metadata(min: Option<int>, max: Option<int>)
  /** A timestamp column in one of the two accepted units, or none. */
  datatype TimeColumn = NoColumn | OtherType | Millis(rows: seq<Option<int>>) | Micros(rows: seq<Option<int>>)
  datatype DateColumn = NoDates | OtherDates | Dates(days: seq<Option<int>>)

  function PartitionSuffix(table: string, m: Metadata): (suffix: Option<string>) {
    if m.max.Some? && !(MIN_TIMESTAMP <= m.max.value <= MAX_TIMESTAMP) then None
    else if m.min.None? then None
    else
      FromTimestampIsTheDay(m.min.value);
      match FromTimestamp(m.min.value)
      case None => None
      case Some(d) => Some(table + "/" + Path(d))
  }

  predicate WellTyped(c: TimeColumn) {
    c.Millis? || c.Micros?
  }

  function Seconds(c: TimeColumn, value: int): int {
    if c.Millis? then value / 1_000 else value / 1_000_000
  }

  /** A time in units of 1/`unit` second that falls on the UTC day with this number. */
  ghost predicate OnDay(value: int, unit: int, day: int) {
    day * 86_400 * unit <= value < (day + 1) * 86_400 * unit
  }

  /** What a row of the column counts: milliseconds or microseconds. */
  ghost function Unit(c: TimeColumn): int {
    if c.Millis? then 1_000 else 1_000_000
  }

  ghost predicate AllOnDay(c: TimeColumn, day: int, n: nat)
    requires WellTyped(c)
  {
    forall i :: 0 <= i < n <= |c.rows| && c.rows[i].Some? ==> OnDay(c.rows[i].value, Unit(c), day)
  }

  ghost predicate AllDates(c: DateColumn, day: int)
    requires c.Dates?
  {
    forall i :: 0 <= i < |c.days| && c.days[i].Some? ==> c.days[i].value == day
  }

  /** Both routing times, every non-null row time and every non-null date fall on this day. */
  ghost predicate AllAgree(times: TimeColumn, dates: DateColumn, m: Metadata, day: int)
    requires WellTyped(times)
  {
    && m.min.Some? && m.max.Some? && OnDay(m.min.value, 1, day) && OnDay(m.max.value, 1, day)
    && AllOnDay(times, day, |times.rows|)
    && (dates.Dates? ==> AllDates(dates, day))
  }

  ghost predicate OneDay(times: TimeColumn, dates: DateColumn, m: Metadata)
    requires WellTyped(times)
  {
    exists day :: ValidDay(day) && AllAgree(times, dates, m, day)
  }

  /** Flooring to seconds and then to days finds the day. */
  lemma DayOfRow(c: TimeColumn, value: int, day: int)
    requires WellTyped(c)
    ensures DayOf(Seconds(c, value)) == day <==> OnDay(value, Unit(c), day)
  {
  }

  lemma DayOfSecond(seconds: int, day: int)
    ensures DayOf(seconds) == day <==> OnDay(seconds, 1, day)
  {
  }

  /** Equal directories mean equal days. */
  lemma SameSuffixSameDay(table: string, a: Metadata, b: Metadata)
    requires PartitionSuffix(table, a).Some? && b.min.Some? && b.max == a.max
    ensures PartitionSuffix(table, b) == PartitionSuffix(table, a) <==> DayOf(b.min.value) == DayOf(a.min.value)
  {
    FromTimestampIsTheDay(a.min.value);
    FromTimestampIsTheDay(b.min.value);
    if PartitionSuffix(table, b) == PartitionSuffix(table, a) {
      var s := PartitionSuffix(table, a).value;
      var x, y := FromTimestamp(a.min.value).value, FromTimestamp(b.min.value).value;
      assert Path(x) == s[|table| + 1..] == Path(y);
      PathIsInjective(x, y);
    }
  }

  /** The suffix is the table and the directory of the UTC day of the lower routing time. */
  lemma SuffixNamesTheDay(table: string, m: Metadata)
    requires PartitionSuffix(table, m).Some?
    ensures var s := PartitionSuffix(table, m).value;
            && table + "/" <= s && m.min.Some?
            && var d := Parse(s[|table| + 1..]);
               d.Some? && OnDay(m.min.value, 1, DaysFromCivil(d.value))
  {
    var d := FromTimestamp(m.min.value).value;
    FromTimestampIsTheDay(m.min.value);
    ParsePath(d);
    DayOfSecond(m.min.value, DaysFromCivil(d));
    assert (table + "/" + Path(d))[|table| + 1..] == Path(d);
  }

  lemma EarliestDay()
    ensures DaysFromCivil(Date(-9999, 1, 1)) == -4_371_587
  {
    assert YearStart(-10000) == -3_652_425 && MonthStart(1) == 306;
  }

  lemma CalendarRange(seconds: int)
    ensures MIN_TIMESTAMP <= seconds <= MAX_TIMESTAMP <==>
              DaysFromCivil(Date(-9999, 1, 1)) <= DayOf(seconds) <= DaysFromCivil(Date(9999, 12, 31))
  {
    EarliestDay();
    FirstAndLastDay();
    RangeInDays(seconds);
  }

  /** There is a suffix exactly when the lower routing time falls on a day of years 0 to 9999 and the upper
      one, if any, in years -9999 to 9999. */
  lemma SuffixIff(table: string, m: Metadata)
    ensures PartitionSuffix(table, m).Some? <==>
              && m.min.Some? && ValidDay(DayOf(m.min.value))
              && (m.max.Some? ==> DaysFromCivil(Date(-9999, 1, 1)) <= DayOf(m.max.value) <= DaysFromCivil(Date(9999, 12, 31)))
  {
    if m.min.Some? { FromTimestampIsTheDay(m.min.value); }
    if m.max.Some? { CalendarRange(m.max.value); }
  }

  lemma SuffixNeedsValidDay(table: string, m: Metadata)
    ensures PartitionSuffix(table, m).Some? ==> m.min.Some? && ValidDay(DayOf(m.min.value))
    ensures m.min.Some? && ValidDay(DayOf(m.min.value)) && (m.max.Some? ==> DayOf(m.max.value) == DayOf(m.min.value))
            ==> PartitionSuffix(table, m).Some?
  {
    if m.min.Some? { FromTimestampIsTheDay(m.min.value); }
    if m.max.Some? { FromTimestampIsTheDay(m.max.value); }
  }

  method ValidateDateColumn(dates: DateColumn, m: Metadata) returns (ok: bool)
    requires m.min.Some?
    ensures ok <==> dates.NoDates? || (dates.Dates? && ValidDay(DayOf(m.min.value)) && AllDates(dates, DayOf(m.min.value)))
  {
    if dates.NoDates? { return true; }
    if dates.OtherDates? { return false; }
    FromTimestampIsTheDay(m.min.value);
    var partition := FromTimestamp(m.min.value);
    if partition.None? { return false; }
    var expected := DaysFromCivil(partition.value);
    for i := 0 to |dates.days|
      invariant forall j :: 0 <= j < i && dates.days[j].Some? ==> dates.days[j].value == DayOf(m.min.value)
    {
      if dates.days[i].Some? && dates.days[i].value != expected { return false; }
    }
    ok := true;
  }

  /** There is one candidate: the day of the lower routing time. */
  lemma OnlyDay(times: TimeColumn, dates: DateColumn, m: Metadata)
    requires m.min.Some?
    ensures WellTyped(times) ==> (OneDay(times, dates, m) <==> ValidDay(DayOf(m.min.value)) && AllAgree(times, dates, m, DayOf(m.min.value)))
    ensures m.max.Some? ==> (OnDay(m.max.value, 1, DayOf(m.min.value)) <==> DayOf(m.max.value) == DayOf(m.min.value))
    ensures OnDay(m.min.value, 1, DayOf(m.min.value))
  {
    DayOfSecond(m.min.value, DayOf(m.min.value));
    if m.max.Some? { DayOfSecond(m.max.value, DayOf(m.min.value)); }
    if WellTyped(times) && OneDay(times, dates, m) {
      var day :| ValidDay(day) && AllAgree(times, dates, m, day);
      DayOfSecond(m.min.value, day);
    }
  }

  /** Check every row against the declared destination, comparing directory names and skipping a
      row whose second repeats the previous one. */
  method ValidatePartition(table: string, times: TimeColumn, dates: DateColumn, m: Metadata) returns (ok: bool)
    ensures ok <==> WellTyped(times) && !dates.OtherDates? && OneDay(times, dates, m)
  {
    SuffixNeedsValidDay(table, m);
    if m.min.Some? { OnlyDay(times, dates, m); }
    var expected := PartitionSuffix(table, m);
    if expected.None? || !WellTyped(times) || m.max.None? { return false; }
    SameSuffixSameDay(table, m, m.(min := m.max));
    if PartitionSuffix(table, m.(min := m.max)) != expected { return false; }
    var previous: Option<int> := None;
    for i := 0 to |times.rows|
      invariant AllOnDay(times, DayOf(m.min.value), i)
      invariant previous.Some? ==> DayOf(previous.value) == DayOf(m.min.value)
    {
      if times.rows[i].Some? {
        var seconds := Seconds(times, times.rows[i].value);
        DayOfRow(times, times.rows[i].value, DayOf(m.min.value));
        if previous != Some(seconds) {
          SameSuffixSameDay(table, m, m.(min := Some(seconds)));
          if PartitionSuffix(table, m.(min := Some(seconds))) != expected { return false; }
          previous := Some(seconds);
        }
      }
    }
    ok := ValidateDateColumn(dates, m);
  }
}
