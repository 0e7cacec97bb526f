/**
 The proleptic Gregorian calendar as the repository computes it in three places: the planner's
 `days_from_civil` / `civil_from_days`, the decoder's `timestamp_from_components`, and the sink's
 `unix_instant_value`. All three are related to one reference: counting days one at a time under the
 leap rule of the `date` check.

 Every division below has a non-negative dividend or is a `div_euclid` in the source, so Dafny's
 Euclidean operators are the source's operators.
 */
module Calendar {
  import opened Outcomes

  datatype Date = Date(year: int, month: int, day: int)

  datatype DateTime = DateTime(date: Date, hour: nat, minute: nat, second: nat, microsecond: nat)

  datatype Instant = Instant(unixSeconds: int, nanoseconds: nat)

  datatype TemporalError = InvalidTimestamp | InvalidPrecision | OutOfRange

  // ---------------------------------------------------------------- the reference calendar

  predicate Leap(year: int) {
    year % 4 == 0 && (year % 100 != 0 || year % 400 == 0)
  }

  function DaysInMonth(year: int, month: int): nat {
    if month in {1, 3, 5, 7, 8, 10, 12} then 31
    else if month in {4, 6, 9, 11} then 30
    else if month == 2 then if Leap(year) then 29 else 28
    else 0
  }

  /** The `date` check of the validator. */
  predicate ValidDate(d: Date) {
    0 < d.day <= DaysInMonth(d.year, d.month)
  }

  /** The following calendar day. */
  function NextDay(d: Date): Date {
    if d.day < DaysInMonth(d.year, d.month) then d.(day := d.day + 1)
    else if d.month < 12 then Date(d.year, d.month + 1, 1)
    else Date(d.year + 1, 1, 1)
  }

  const EPOCH := Date(1970, 1, 1)

  /** The time-of-day check of the validator; 24:00:00 passes it. */
  predicate ValidTime(t: DateTime) {
    && (t.hour < 24 || (t.hour == 24 && t.minute == 0 && t.second == 0 && t.microsecond == 0))
    && t.minute < 60 && t.second < 60 && t.microsecond < 1_000_000
  }

  // ---------------------------------------------------------------- the planner's conversion

  function DaysFromCivil(d: Date): int {
    var year := d.year - (if d.month <= 2 then 1 else 0);
    var era := year / 400;
    var yearOfEra := year - era * 400;
    var dayOfYear := (153 * (d.month + (if d.month > 2 then -3 else 9)) + 2) / 5 + d.day - 1;
    var dayOfEra := yearOfEra * 365 + yearOfEra / 4 - yearOfEra / 100 + dayOfYear;
    era * 146_097 + dayOfEra - 719_468
  }

  function CivilFromDays(days: int): Date {
    var z := days + 719_468;
    var era := z / 146_097;
    var dayOfEra := z - era * 146_097;
    var yearOfEra := (dayOfEra - dayOfEra / 1_460 + dayOfEra / 36_524 - dayOfEra / 146_096) / 365;
    var year := yearOfEra + era * 400;
    var dayOfYear := dayOfEra - (365 * yearOfEra + yearOfEra / 4 - yearOfEra / 100);
    var monthPart := (5 * dayOfYear + 2) / 153;
    var day := dayOfYear - (153 * monthPart + 2) / 5 + 1;
    var month := monthPart + (if monthPart < 10 then 3 else -9);
    Date(year + (if month <= 2 then 1 else 0), month, day)
  }

  // ---------------------------------------------------------------- March-based years

  /** The year counted from 1 March, as both directions of the conversion count it. */
  function MarchYear(d: Date): int {
    d.year - (if d.month <= 2 then 1 else 0)
  }

  /** Months counted from March: March is 0, February is 11. */
  function MarchMonth(month: int): int {
    month + (if month > 2 then -3 else 9)
  }

  /** Days from 1 March of year 0 to 1 March of `year`. */
  function YearStart(year: int): int {
    365 * year + year / 4 - year / 100 + year / 400
  }

  /** Days from 1 March to the first day of the month. */
  function MonthStart(marchMonth: int): int {
    (153 * marchMonth + 2) / 5
  }

  lemma {:induction false} DaysFromMarch(d: Date)
    ensures DaysFromCivil(d) == YearStart(MarchYear(d)) + MonthStart(MarchMonth(d.month)) + d.day - 1 - 719_468
  {
    var y := MarchYear(d);
    var era := y / 400;
    var yoe := y - era * 400;
    assert y == era * 400 + yoe;
    assert y / 4 == era * 100 + yoe / 4;
    assert y / 100 == era * 4 + yoe / 100;
  }

  lemma {:induction false} YearLength(year: int)
    ensures YearStart(year + 1) - YearStart(year) == 337 + DaysInMonth(year + 1, 2)
  {
    assert (year + 1) / 4 - year / 4 == if (year + 1) % 4 == 0 then 1 else 0;
    assert (year + 1) / 100 - year / 100 == if (year + 1) % 100 == 0 then 1 else 0;
    assert (year + 1) / 400 - year / 400 == if (year + 1) % 400 == 0 then 1 else 0;
    assert (year + 1) % 400 == 0 ==> (year + 1) % 100 == 0;
    assert (year + 1) % 100 == 0 ==> (year + 1) % 4 == 0;
  }

  /** `days_from_civil` is the day-by-day count: the epoch is day 0 ... */
  lemma {:induction false} EpochIsDayZero()
    ensures ValidDate(EPOCH) && DaysFromCivil(EPOCH) == 0
  {
  }

  /** Where the next day falls, given where the two March-based years start. */
  lemma {:induction false} NextDayWithin(d: Date, start: int, nextStart: int)
    requires ValidDate(d)
    requires nextStart - start == 337 + DaysInMonth(MarchYear(d) + 1, 2)
    ensures ValidDate(NextDay(d))
    ensures
      var n := NextDay(d);
      && (MarchYear(n) == MarchYear(d) || MarchYear(n) == MarchYear(d) + 1)
      && (if MarchYear(n) == MarchYear(d) then start else nextStart) + MonthStart(MarchMonth(n.month)) + n.day
         == start + MonthStart(MarchMonth(d.month)) + d.day + 1
  {
    assert d.month in {1, 2, 3, 4, 5, 6, 7, 8, 9, 10, 11, 12};
  }

  /** ... and each next valid date is exactly one day later. */
  lemma {:induction false} NextDayIsOneLater(d: Date)
    requires ValidDate(d)
    ensures ValidDate(NextDay(d)) && DaysFromCivil(NextDay(d)) == DaysFromCivil(d) + 1
  {
    var y := MarchYear(d);
    YearLength(y);
    NextDayWithin(d, YearStart(y), YearStart(y + 1));
    assert DaysFromCivil(NextDay(d)) == DaysFromCivil(d) + 1 by {
      DaysFromMarch(d);
      DaysFromMarch(NextDay(d));
    }
  }

  // ---------------------------------------------------------------- the inverse

  /** The two rarer corrections of the year formula leave the number of full centuries. */
  lemma {:induction false} CenturyOfEra(b: int, s: int, dayOfYear: int)
    requires 0 <= b < 4 && 0 <= s < 100 && 0 <= dayOfYear <= 365
    requires dayOfYear == 365 && s == 99 ==> b == 3
    ensures
      var doe := 36_524 * b + 365 * s + s / 4 + dayOfYear;
      0 <= doe < 146_097 && doe / 36_524 - doe / 146_096 == b
  {
    var e := 365 * s + s / 4 + dayOfYear;
    assert 0 <= e <= 36_524 && (e == 36_524 ==> s == 99 && dayOfYear == 365);
    assert b in {0, 1, 2, 3};
  }

  /** The four-year correction counts the full four-year cycles, and one more at the end of a cycle. */
  lemma {:induction false} CycleOfEra(a: int, b: int, r: int, dayOfYear: int)
    requires 0 <= a < 100 && 0 <= b < 4 && b <= a && 0 <= r < 4 && 0 <= dayOfYear <= 365
    requires dayOfYear == 365 ==> r == 3
    ensures
      var cycles := (1460 * a + 365 * r + a - b + dayOfYear) / 1_460;
      0 <= a + dayOfYear - cycles <= 364
  {
    var rest := 365 * r + a - b + dayOfYear;
    assert 0 <= rest < 2_920;
    assert (1460 * a + rest) / 1_460 == if rest < 1_460 then a else a + 1;
  }

  /** The year within a 400-year era, from the day within that era. */
  lemma {:induction false} YearOfEra(y: int, dayOfYear: int)
    requires 0 <= y < 400 && 0 <= dayOfYear <= 365
    requires dayOfYear == 365 ==> Leap(y + 1)
    ensures
      var doe := 365 * y + y / 4 - y / 100 + dayOfYear;
      0 <= doe < 146_097 && (doe - doe / 1_460 + doe / 36_524 - doe / 146_096) / 365 == y
  {
    var a, b, s := y / 4, y / 100, y % 100;
    assert y == 4 * a + y % 4 && y == 100 * b + s && a == 25 * b + s / 4;
    CenturyOfEra(b, s, dayOfYear);
    CycleOfEra(a, b, y % 4, dayOfYear);
  }

  /** The month and the day of the month, from the day within the March-based year. */
  lemma {:induction false} MonthOfYear(d: Date)
    requires ValidDate(d)
    ensures
      var dayOfYear := MonthStart(MarchMonth(d.month)) + d.day - 1;
      && 0 <= dayOfYear <= 365
      && (dayOfYear == 365 ==> Leap(MarchYear(d) + 1))
      && (5 * dayOfYear + 2) / 153 == MarchMonth(d.month)
  {
    assert d.month in {1, 2, 3, 4, 5, 6, 7, 8, 9, 10, 11, 12};
  }

  /** The inverse reads a day through its era, the year of the era and the March-based month. */
  lemma {:induction false} CivilParts(days: int, era: int, yoe: int, doy: int, month: int)
    requires
      var doe := 365 * yoe + yoe / 4 - yoe / 100 + doy;
      && 0 <= doe < 146_097 && days + 719_468 == era * 146_097 + doe
      && (doe - doe / 1_460 + doe / 36_524 - doe / 146_096) / 365 == yoe
    requires 1 <= month <= 12 && (5 * doy + 2) / 153 == MarchMonth(month)
    ensures
      CivilFromDays(days)
      == Date(yoe + era * 400 + (if month <= 2 then 1 else 0), month, doy - MonthStart(MarchMonth(month)) + 1)
  {
    assert (days + 719_468) / 146_097 == era;
  }

  lemma {:induction false} DaysFromEra(d: Date, doe: int)
    requires
      var yoe := MarchYear(d) % 400;
      doe == 365 * yoe + yoe / 4 - yoe / 100 + MonthStart(MarchMonth(d.month)) + d.day - 1
    ensures DaysFromCivil(d) + 719_468 == MarchYear(d) / 400 * 146_097 + doe
  {
  }

  /** Every valid date of any signed year maps back to itself. */
  lemma {:induction false} DateRoundTrip(d: Date)
    requires ValidDate(d)
    ensures CivilFromDays(DaysFromCivil(d)) == d
  {
    var era, yoe := MarchYear(d) / 400, MarchYear(d) % 400;
    var doy := MonthStart(MarchMonth(d.month)) + d.day - 1;
    MonthOfYear(d);
    YearOfEra(yoe, doy) by { assert Leap(MarchYear(d) + 1) ==> Leap(yoe + 1); }
    DaysFromEra(d, 365 * yoe + yoe / 4 - yoe / 100 + doy);
    CivilParts(DaysFromCivil(d), era, yoe, doy, d.month);
  }

  /** The preceding calendar day. */
  function PreviousDay(d: Date): Date {
    if d.day > 1 then d.(day := d.day - 1)
    else if d.month > 1 then Date(d.year, d.month - 1, DaysInMonth(d.year, d.month - 1))
    else Date(d.year - 1, 12, 31)
  }

  lemma {:induction false} PreviousThenNext(d: Date)
    requires ValidDate(d)
    ensures ValidDate(PreviousDay(d)) && NextDay(PreviousDay(d)) == d
  {
  }

  /** The reference: the date reached from the epoch one day at a time. */
  function DateAt(days: int): (d: Date)
    ensures ValidDate(d)
    decreases if days < 0 then -days else days
  {
    if days == 0 then EPOCH
    else if days > 0 then var d := DateAt(days - 1); NextDayIsOneLater(d); NextDay(d)
    else var d := DateAt(days + 1); PreviousThenNext(d); PreviousDay(d)
  }

  lemma {:induction false} DateAtDays(days: int)
    ensures DaysFromCivil(DateAt(days)) == days
    decreases if days < 0 then -days else days
  {
    if days == 0 {
      EpochIsDayZero();
    } else if days > 0 {
      DateAtDays(days - 1);
      NextDayIsOneLater(DateAt(days - 1));
    } else {
      DateAtDays(days + 1);
      PreviousThenNext(DateAt(days + 1));
      NextDayIsOneLater(DateAt(days));
    }
  }

  /** The closed formula is the day-by-day calendar, for every integer day; so its result is valid and maps back. */
  lemma {:induction false} CivilIsDayByDay(days: int)
    ensures CivilFromDays(days) == DateAt(days)
    ensures ValidDate(CivilFromDays(days)) && DaysFromCivil(CivilFromDays(days)) == days
  {
    DateAtDays(days);
    DateRoundTrip(DateAt(days));
  }

  // ---------------------------------------------------------------- decoder, planner and sink

  /** The decoder's TIMESTAMP: its own date check, then its own copy of the day formula. */
  function TimestampFromComponents(t: DateTime): Result<Instant, TemporalError> {
    var leap := t.date.year % 4 == 0 && (t.date.year % 100 != 0 || t.date.year % 400 == 0);
    var daysInMonth :=
      match t.date.month
      case 1 | 3 | 5 | 7 | 8 | 10 | 12 => 31
      case 4 | 6 | 9 | 11 => 30
      case 2 => if leap then 29 else 28
      case _ => 0;
    if t.date.year == 0 || t.date.day == 0 || t.date.day > daysInMonth
       || t.hour >= 24 || t.minute >= 60 || t.second >= 60 || t.microsecond >= 1_000_000
    then Err(InvalidTimestamp)
    else
      var y := t.date.year - (if t.date.month <= 2 then 1 else 0);
      var era := (if y >= 0 then y else y - 399) / 400;
      var yoe := y - era * 400;
      var monthPrime := t.date.month + (if t.date.month > 2 then -3 else 9);
      var dayOfYear := (153 * monthPrime + 2) / 5 + t.date.day - 1;
      var dayOfEra := yoe * 365 + yoe / 4 - yoe / 100 + dayOfYear;
      var days := era * 146_097 + dayOfEra - 719_468;
      Ok(Instant(days * 86_400 + t.hour * 3_600 + t.minute * 60 + t.second, t.microsecond * 1_000))
  }

  /** The sink's `Value::Date` for an instant; the source year is 16 bits wide. */
  function UnixInstantValue(i: Instant): Result<DateTime, TemporalError> {
    if i.nanoseconds > 999_999_999 || i.nanoseconds % 1_000 != 0 then Err(InvalidPrecision)
    else
      var days := i.unixSeconds / 86_400;
      var daySeconds := i.unixSeconds % 86_400;
      var z := days + 719_468;
      var era := z / 146_097;
      var doe := z - era * 146_097;
      var yoe := (doe - doe / 1_460 + doe / 36_524 - doe / 146_096) / 365;
      var doy := doe - (365 * yoe + yoe / 4 - yoe / 100);
      var monthPart := (5 * doy + 2) / 153;
      var day := doy - (153 * monthPart + 2) / 5 + 1;
      var month := monthPart + (if monthPart < 10 then 3 else -9);
      var year := yoe + era * 400 + (if month <= 2 then 1 else 0);
      if !(1 <= year <= 65_535) then Err(OutOfRange)
      else Ok(DateTime(Date(year, month, day),
                       daySeconds / 3_600, (daySeconds % 3_600) / 60, daySeconds % 60,
                       i.nanoseconds / 1_000))
  }

  /** The planner's local date-time to instant, with a fixed offset in seconds. */
  function LocalToInstant(t: DateTime, offset: int): Instant {
    Instant(DaysFromCivil(t.date) * 86_400 + t.hour * 3_600 + t.minute * 60 + t.second - offset, t.microsecond * 1_000)
  }

  predicate FitsI32(n: int) {
    -0x8000_0000 <= n < 0x8000_0000
  }

  /** The planner's instant to local date-time; the year must fit the event's 32-bit year. */
  function InstantToLocal(i: Instant, offset: int): Result<DateTime, TemporalError> {
    var seconds := i.unixSeconds + offset;
    var date := CivilFromDays(seconds / 86_400);
    var daySeconds := seconds % 86_400;
    if !FitsI32(date.year) then Err(OutOfRange)
    else Ok(DateTime(date, daySeconds / 3_600, (daySeconds % 3_600) / 60, daySeconds % 60, i.nanoseconds / 1_000))
  }

  /** A date-time the decoder takes: valid date, hours below 24, year in 1..65535. */
  predicate Decodable(t: DateTime) {
    ValidDate(t.date) && 1 <= t.date.year <= 65_535 && ValidTime(t) && t.hour < 24
  }

  /** The time of day is recovered from the second of the day. */
  lemma {:induction false} TimeOfDay(days: int, t: DateTime)
    requires t.hour < 24 && t.minute < 60 && t.second < 60
    ensures
      var seconds := days * 86_400 + t.hour * 3_600 + t.minute * 60 + t.second;
      && seconds / 86_400 == days
      && (seconds % 86_400) / 3_600 == t.hour
      && (seconds % 86_400 % 3_600) / 60 == t.minute
      && seconds % 86_400 % 60 == t.second
  {
    var rest := t.hour * 3_600 + t.minute * 60 + t.second;
    var seconds := days * 86_400 + rest;
    assert 0 <= rest < 86_400;
    assert seconds / 86_400 == days && seconds % 86_400 == rest;
    assert rest / 3_600 == t.hour && rest % 3_600 == t.minute * 60 + t.second;
    assert rest % 60 == t.second;
  }

  /** The decoder accepts a year of 0..65535 exactly when it is decodable, and agrees with the planner's calendar. */
  lemma {:induction false} DecoderAgreesWithPlanner(t: DateTime)
    requires 0 <= t.date.year <= 65_535 && 0 <= t.date.month && 0 <= t.date.day
    ensures TimestampFromComponents(t) == if Decodable(t) then Ok(LocalToInstant(t, 0)) else Err(InvalidTimestamp)
  {
  }

  /**
   The sink computes the planner's date, for every instant of whole microseconds, and refuses only what its
   16-bit year cannot hold; a fraction it cannot keep is refused, never rounded.
   */
  lemma {:induction false} SinkAgreesWithPlanner(i: Instant)
    ensures
      var local := InstantToLocal(i, 0);
      UnixInstantValue(i) ==
      if i.nanoseconds >= 1_000_000_000 || i.nanoseconds % 1_000 != 0 then Err(InvalidPrecision)
      else if local.Ok? && 1 <= local.value.date.year <= 65_535 then local else Err(OutOfRange)
  {
  }

  /**
   Local to instant and back, with one fixed offset, is the identity exactly on the valid local times
   that do not spell midnight as hour 24.
   */
  lemma {:induction false} LocalRoundTrip(t: DateTime, offset: int)
    requires ValidDate(t.date) && FitsI32(t.date.year) && ValidTime(t)
    ensures InstantToLocal(LocalToInstant(t, offset), offset) == Ok(t) <==> t.hour < 24
  {
    var i := LocalToInstant(t, offset);
    if t.hour < 24 {
      TimeOfDay(DaysFromCivil(t.date), t);
      DateRoundTrip(t.date);
    }
  }

  /** Sink after decoder is the identity on every date-time the decoder takes. */
  lemma {:induction false} TimestampSurvivesPipeline(t: DateTime)
    requires Decodable(t)
    ensures TimestampFromComponents(t).Ok?
    ensures UnixInstantValue(TimestampFromComponents(t).value) == Ok(t)
  {
    var i := LocalToInstant(t, 0);
    LocalRoundTrip(t, 0);
    assert TimestampFromComponents(t) == Ok(i) by { DecoderAgreesWithPlanner(t); }
    assert UnixInstantValue(i) == InstantToLocal(i, 0) by { SinkAgreesWithPlanner(i); }
  }

  /** What becomes of hour 24: it comes back as the first second of the next day. */
  lemma {:induction false} MidnightMovesToNextDay(t: DateTime, offset: int)
    requires ValidDate(t.date) && ValidTime(t) && t.hour == 24 && FitsI32(t.date.year + 1)
    requires FitsI32(t.date.year)
    ensures InstantToLocal(LocalToInstant(t, offset), offset) == Ok(DateTime(NextDay(t.date), 0, 0, 0, 0))
  {
    var next := DateTime(NextDay(t.date), 0, 0, 0, 0);
    NextDayIsOneLater(t.date);
    assert LocalToInstant(t, offset) == LocalToInstant(next, offset);
    LocalRoundTrip(next, offset);
  }
}
