/** Civil dates for the benchmark runner's result directories: the day-count conversion of
    `src/bin/benchmark_runner.rs`, and the proleptic Gregorian calendar it has to agree with. */
module Calendar {
  import opened Common

  datatype Date = Date(year: int, month: int, day: int)

  // ---------------------------------------------------------------------------------------------
  // The calendar itself (section 3.2.1 of ISO 8601:2004), stated without any day arithmetic.
  // ---------------------------------------------------------------------------------------------

  predicate IsLeap(y: int) {
    y % 4 == 0 && (y % 100 != 0 || y % 400 == 0)
  }

  function DaysInMonth(y: int, m: int): int {
    if m == 2 then (if IsLeap(y) then 29 else 28)
    else if m == 4 || m == 6 || m == 9 || m == 11 then 30
    else 31
  }

  predicate Valid(d: Date) {
    1 <= d.month <= 12 && 1 <= d.day <= DaysInMonth(d.year, d.month)
  }

  /** The day after `d`. */
  function Successor(d: Date): Date {
    if d.day < DaysInMonth(d.year, d.month) then Date(d.year, d.month, d.day + 1)
    else if d.month < 12 then Date(d.year, d.month + 1, 1)
    else Date(d.year + 1, 1, 1)
  }

  predicate Before(a: Date, b: Date) {
    || a.year < b.year
    || (a.year == b.year && a.month < b.month)
    || (a.year == b.year && a.month == b.month && a.day < b.day)
  }

  // ---------------------------------------------------------------------------------------------
  // Counting days: the independent inverse.
  // ---------------------------------------------------------------------------------------------

  function LeapsBefore(y: int): int {
    (y - 1) / 4 - (y - 1) / 100 + (y - 1) / 400
  }

  /** Days from 1970-01-01 to the first day of year `y`. */
  function YearStart(y: int): int {
    365 * (y - 1970) + LeapsBefore(y) - LeapsBefore(1970)
  }

  /** Days of year `y` before its month `m`. */
  function MonthStart(y: int, m: int): int
    requires 1 <= m <= 12
    decreases m
  {
    if m == 1 then 0 else MonthStart(y, m - 1) + DaysInMonth(y, m - 1)
  }

  function DaysFromCivil(d: Date): int
    requires Valid(d)
  {
    YearStart(d.year) + MonthStart(d.year, d.month) + d.day - 1
  }

  // ---------------------------------------------------------------------------------------------
  // The conversion under study.
  // ---------------------------------------------------------------------------------------------

  /** Rust's integer division, which truncates toward zero. */
  function TruncDiv(a: int, b: int): int
    requires b > 0
  {
    if a >= 0 then a / b else -((-a) / b)
  }

  function Era(z: int): int {
    TruncDiv(if z >= 0 then z else z - 146_096, 146_097)
  }

  function YearOfEra(doe: int): int {
    TruncDiv(doe - TruncDiv(doe, 1_460) + TruncDiv(doe, 36_524) - TruncDiv(doe, 146_096), 365)
  }

  /** The date of day `doy` in the year that starts in March of year `y`. */
  function DateOfMarchYear(y: int, doy: int): Date {
    var mp := TruncDiv(5 * doy + 2, 153);
    var d := doy - TruncDiv(153 * mp + 2, 5) + 1;
    var m := mp + if mp < 10 then 3 else -9;
    var year := y + if m <= 2 then 1 else 0;
    Date(year, m, d)
  }

  function CivilFromDays(daysSinceEpoch: int): Date {
    var z := daysSinceEpoch + 719_468;
    var era := Era(z);
    var doe := z - era * 146_097;
    var yoe := YearOfEra(doe);
    var y := yoe + era * 400;
    var doy := doe - (365 * yoe + TruncDiv(yoe, 4) - TruncDiv(yoe, 100));
    DateOfMarchYear(y, doy)
  }

  // ---------------------------------------------------------------------------------------------
  // Years that start in March
  // ---------------------------------------------------------------------------------------------

  /** Days of an era before its March-based year `yoe`. */
  function EraYearStart(yoe: int): int {
    365 * yoe + yoe / 4 - yoe / 100
  }

  /** The formula for the year of the era finds the year whose days contain `doe`: here with the
      year split into centuries `c`, four-year groups `q` and a rest `k`. */
  lemma YearOfEraSplit(c: int, q: int, k: int, doy: int)
    requires 0 <= c < 4 && 0 <= q < 25 && 0 <= k < 4
    requires 0 <= doy <= 365
    requires doy == 365 ==> k == 3 && (q < 24 || c == 3)
    ensures var doe := 36_524 * c + 1_461 * q + 365 * k + doy;
            0 <= doe < 146_097 && YearOfEra(doe) == 100 * c + 4 * q + k
  {
    var doe := 36_524 * c + 1_461 * q + 365 * k + doy;
    var r := 24 * c + q + 365 * k + doy;
    var extra := if r >= 1_460 then 1 else 0;
    assert doe / 1_460 == 25 * c + q + extra by {
      assert doe == 1_460 * (25 * c + q) + r;
    }
    var last := if doe == 146_096 then 1 else 0;
    assert doe / 36_524 == c + last && doe / 146_096 == last;
    assert doe - doe / 1_460 + doe / 36_524 - doe / 146_096 == 365 * (100 * c + 4 * q + k) + doy - extra;
    assert 0 <= doy - extra < 365;
  }

  lemma YearOfEraFound(yoe: int, doy: int)
    requires 0 <= yoe < 400
    requires 0 <= doy < if IsLeap(yoe + 1) then 366 else 365
    ensures 0 <= EraYearStart(yoe) + doy < 146_097
    ensures YearOfEra(EraYearStart(yoe) + doy) == yoe
  {
    var c, q, k := yoe / 100, yoe % 100 / 4, yoe % 4;
    assert yoe == 100 * c + 4 * q + k;
    YearOfEraSplit(c, q, k, doy);
  }

  /** The month formula inverts the month starts of a March-based year. */
  lemma MonthOfYearFound(y: int, mp: int, d: int)
    requires 0 <= mp < 12
    requires 1 <= d <= DaysInMonth(if mp < 10 then y else y + 1, if mp < 10 then mp + 3 else mp - 9)
    ensures var doy := (153 * mp + 2) / 5 + d - 1;
            && 0 <= doy < (if IsLeap(y + 1) then 366 else 365)
            && DateOfMarchYear(y, doy)
            == Date(if mp < 10 then y else y + 1, if mp < 10 then mp + 3 else mp - 9, d)
  {
    assert (5 * ((153 * mp + 2) / 5 + d - 1) + 2) / 153 == mp;
  }

  /** Month starts, counted from March of the same or of the previous year. */
  lemma MonthStarts(y: int, m: int)
    requires 1 <= m <= 12
    ensures m <= 2 ==> MonthStart(y, m) == (153 * (m + 9) + 2) / 5 - 306
    ensures m > 2 ==> MonthStart(y, m) == (153 * (m - 3) + 2) / 5 + if IsLeap(y) then 60 else 59
  {
    if m > 1 {
      MonthStarts(y, m - 1);
    }
  }

  lemma EraSplit(e: int, r: int)
    requires 0 <= r < 400
    ensures var y := 400 * e + r;
            && y / 4 == 100 * e + r / 4 && y / 100 == 4 * e + r / 100 && y / 400 == e
            && y % 4 == r % 4 && y % 100 == r % 100 && y % 400 == r
  {
    var y := 400 * e + r;
    assert y == 4 * (100 * e + r / 4) + r % 4;
    assert y == 100 * (4 * e + r / 100) + r % 100;
  }

  lemma EraOf(y: int)
    ensures LeapsBefore(y + 1) == 97 * (y / 400) + y % 400 / 4 - y % 400 / 100
    ensures IsLeap(y) == IsLeap(y % 400)
    ensures IsLeap(y + 1) == IsLeap(y % 400 + 1)
  {
    var e, r := y / 400, y % 400;
    EraSplit(e, r);
    if r < 399 {
      EraSplit(e, r + 1);
    } else {
      EraSplit(e + 1, 0);
    }
  }

  lemma EraFound(e: int, doe: int)
    requires 0 <= doe < 146_097
    ensures Era(e * 146_097 + doe) == e
  {
  }

  /** A year is as long as its leap status says. */
  lemma YearLength(y: int)
    ensures YearStart(y + 1) == YearStart(y) + if IsLeap(y) then 366 else 365
  {
    assert y / 4 - (y - 1) / 4 == if y % 4 == 0 then 1 else 0;
    assert y / 100 - (y - 1) / 100 == if y % 100 == 0 then 1 else 0;
    assert y / 400 - (y - 1) / 400 == if y % 400 == 0 then 1 else 0;
    assert y % 100 == 0 ==> y % 4 == 0;
  }

  /** The day count of a date, rebuilt from its era, March-based year and month. */
  lemma MarchCount(d: Date, y: int, mp: int)
    requires Valid(d)
    requires y == if d.month <= 2 then d.year - 1 else d.year
    requires mp == if d.month <= 2 then d.month + 9 else d.month - 3
    ensures DaysFromCivil(d) + 719_468
         == (y / 400) * 146_097 + EraYearStart(y % 400) + (153 * mp + 2) / 5 + d.day - 1
  {
    MonthStarts(d.year, d.month);
    EraOf(y);
    if d.month > 2 {
      YearLength(y);
    }
    assert y == 400 * (y / 400) + y % 400;
  }

  lemma CivilAssembles(n: int, era: int, yoe: int, doy: int)
    requires n + 719_468 == era * 146_097 + EraYearStart(yoe) + doy
    requires 0 <= yoe && Era(n + 719_468) == era && YearOfEra(EraYearStart(yoe) + doy) == yoe
    ensures CivilFromDays(n) == DateOfMarchYear(yoe + era * 400, doy)
  {
    hide Era, YearOfEra, DateOfMarchYear;
    var doe := EraYearStart(yoe) + doy;
    assert n + 719_468 - era * 146_097 == doe;
  }

  /** Converting a date's day count gives the date back. */
  lemma CivilOfDays(d: Date)
    requires Valid(d)
    ensures CivilFromDays(DaysFromCivil(d)) == d
  {
    hide DateOfMarchYear, CivilFromDays, DaysFromCivil, EraYearStart, IsLeap, DaysInMonth;
    var y := if d.month <= 2 then d.year - 1 else d.year;
    var mp := if d.month <= 2 then d.month + 9 else d.month - 3;
    var doy := (153 * mp + 2) / 5 + d.day - 1;
    MarchCount(d, y, mp);
    MonthOfYearFound(y, mp, d.day);
    CivilOfCount(DaysFromCivil(d), y, doy);
  }

  lemma CivilOfCount(n: int, y: int, doy: int)
    requires 0 <= doy < if IsLeap(y + 1) then 366 else 365
    requires n + 719_468 == (y / 400) * 146_097 + EraYearStart(y % 400) + doy
    ensures CivilFromDays(n) == DateOfMarchYear(y, doy)
  {
    hide Era, YearOfEra, DateOfMarchYear, CivilFromDays, EraYearStart;
    EraOf(y);
    YearOfEraFound(y % 400, doy);
    EraFound(y / 400, EraYearStart(y % 400) + doy);
    CivilAssembles(n, y / 400, y % 400, doy);
    assert y % 400 + (y / 400) * 400 == y;
  }

  // ---------------------------------------------------------------------------------------------
  // Every day has a date
  // ---------------------------------------------------------------------------------------------

  /** The day count grows by one from a date to the next. */
  lemma SuccessorCounts(d: Date)
    requires Valid(d)
    ensures Valid(Successor(d)) && DaysFromCivil(Successor(d)) == DaysFromCivil(d) + 1
  {
    if d.month == 12 && d.day == 31 {
      YearLength(d.year);
      MonthStarts(d.year, 12);
    }
  }

  lemma PredecessorExists(d: Date) returns (p: Date)
    requires Valid(d)
    ensures Valid(p) && Successor(p) == d
  {
    if d.day > 1 {
      p := Date(d.year, d.month, d.day - 1);
    } else if d.month > 1 {
      p := Date(d.year, d.month - 1, DaysInMonth(d.year, d.month - 1));
    } else {
      p := Date(d.year - 1, 12, 31);
    }
  }

  lemma DateOfDay(n: int) returns (d: Date)
    ensures Valid(d) && DaysFromCivil(d) == n
    decreases if n < 0 then -n else n
  {
    if n == 0 {
      d := Date(1970, 1, 1);
    } else if n > 0 {
      var p := DateOfDay(n - 1);
      SuccessorCounts(p);
      d := Successor(p);
    } else {
      var s := DateOfDay(n + 1);
      d := PredecessorExists(s);
      SuccessorCounts(d);
    }
  }

  /** Counting the days of a converted date gives the day number back, and the date is a date. */
  lemma DaysOfCivil(n: int)
    ensures Valid(CivilFromDays(n)) && DaysFromCivil(CivilFromDays(n)) == n
  {
    var d := DateOfDay(n);
    CivilOfDays(d);
  }

  /** The conversion is the proleptic Gregorian calendar: it starts at the Unix epoch and takes
      every day, on either side of it, to the calendar's next date. */
  lemma CivilIsGregorian(n: int)
    ensures CivilFromDays(0) == Date(1970, 1, 1)
    ensures Valid(CivilFromDays(n))
    ensures CivilFromDays(n + 1) == Successor(CivilFromDays(n))
  {
    hide CivilFromDays;
    CivilOfDays(Date(1970, 1, 1));
    DaysOfCivil(n);
    SuccessorCounts(CivilFromDays(n));
    CivilOfDays(Successor(CivilFromDays(n)));
  }

  // ---------------------------------------------------------------------------------------------
  // Order
  // ---------------------------------------------------------------------------------------------

  lemma YearStartsOrdered(a: int, b: int)
    requires a < b
    ensures YearStart(a + 1) <= YearStart(b)
    decreases b - a
  {
    if a + 1 < b {
      YearLength(b - 1);
      YearStartsOrdered(a, b - 1);
    }
  }

  lemma WithinYear(d: Date)
    requires Valid(d)
    ensures YearStart(d.year) <= DaysFromCivil(d) < YearStart(d.year + 1)
  {
    MonthStarts(d.year, d.month);
    YearLength(d.year);
  }

  /** Dates are ordered as their day counts are. */
  lemma CountKeepsOrder(a: Date, b: Date)
    requires Valid(a) && Valid(b) && Before(a, b)
    ensures DaysFromCivil(a) < DaysFromCivil(b)
  {
    if a.year < b.year {
      WithinYear(a);
      WithinYear(b);
      YearStartsOrdered(a.year, b.year);
    } else if a.month < b.month {
      MonthStarts(a.year, a.month);
      MonthStarts(b.year, b.month);
    }
  }

  lemma BeforeIsTotal(a: Date, b: Date)
    ensures a == b || Before(a, b) || Before(b, a)
  {
  }

  lemma CivilKeepsOrder(m: int, n: int)
    requires m < n
    ensures Before(CivilFromDays(m), CivilFromDays(n))
  {
    DaysOfCivil(m);
    DaysOfCivil(n);
    var a, b := CivilFromDays(m), CivilFromDays(n);
    if Before(b, a) {
      CountKeepsOrder(b, a);
    }
  }

  // ---------------------------------------------------------------------------------------------
  // Timestamps, with the fixed-width casts
  // ---------------------------------------------------------------------------------------------

  const TWO_31 := 0x8000_0000
  const TWO_32 := 0x1_0000_0000
  const TWO_63 := 0x8000_0000_0000_0000

  /** `x as i64` of an unsigned 64-bit value. */
  function AsI64(x: int): int
    requires 0 <= x < TWO_64
  {
    if x < TWO_63 then x else x - TWO_64
  }

  /** `x as i32` of a 64-bit value. */
  function AsI32(x: int): int {
    (x + TWO_31) % TWO_32 - TWO_31
  }

  datatype DateParts = DateParts(date: Date, hour: int, minute: int, second: int)

  function ChronoLikeUtc(timestamp: int): DateParts
    requires 0 <= timestamp < TWO_64
  {
    var secs := AsI64(timestamp);
    var days := secs / 86_400;
    var secondsOfDay := secs % 86_400;
    var civil := CivilFromDays(days);
    DateParts(civil.(year := AsI32(civil.year)),
              secondsOfDay / 3_600, secondsOfDay % 3_600 / 60, secondsOfDay % 60)
  }

  predicate ValidParts(p: DateParts) {
    Valid(p.date) && 0 <= p.hour < 24 && 0 <= p.minute < 60 && 0 <= p.second < 60
  }

  predicate PartsBefore(a: DateParts, b: DateParts) {
    || Before(a.date, b.date)
    || (a.date == b.date && a.hour < b.hour)
    || (a.date == b.date && a.hour == b.hour && a.minute < b.minute)
    || (a.date == b.date && a.hour == b.hour && a.minute == b.minute && a.second < b.second)
  }

  function SecondsFromParts(p: DateParts): int
    requires ValidParts(p)
  {
    86_400 * DaysFromCivil(p.date) + 3_600 * p.hour + 60 * p.minute + p.second
  }

  /** The days on which the years 2^31 and -2^31 start. */
  const FIRST_DAY_TOO_LATE := 784_351_576_777
  const FIRST_DAY_IN_RANGE := -784_353_015_833

  /** The first second of the year 2^31, which no longer fits the signed 32-bit year. */
  const YEAR_OVERFLOW := 86_400 * FIRST_DAY_TOO_LATE

  lemma YearBracket(d: Date, y: int)
    requires Valid(d)
    ensures DaysFromCivil(d) < YearStart(y) <==> d.year < y
  {
    WithinYear(d);
    if d.year < y {
      YearStartsOrdered(d.year, y);
    } else if y < d.year {
      YearStartsOrdered(y, d.year);
      YearLength(y);
    }
  }

  lemma YearBounds()
    ensures YearStart(TWO_31) == FIRST_DAY_TOO_LATE && YearStart(-TWO_31) == FIRST_DAY_IN_RANGE
  {
  }

  lemma CastKeeps(x: int)
    ensures AsI32(x) == x <==> -TWO_31 <= x < TWO_31
  {
  }

  /** The 32-bit year is the calendar's year exactly from the first day of the year -2^31 to the
      last day before the year 2^31. */
  lemma YearFits(n: int)
    ensures AsI32(CivilFromDays(n).year) == CivilFromDays(n).year
       <==> FIRST_DAY_IN_RANGE <= n < FIRST_DAY_TOO_LATE
  {
    hide CivilFromDays, DaysFromCivil, YearStart, AsI32, Valid;
    DaysOfCivil(n);
    YearBounds();
    CastKeeps(CivilFromDays(n).year);
    YearBracket(CivilFromDays(n), TWO_31);
    YearBracket(CivilFromDays(n), -TWO_31);
  }

  lemma TimeOfDay(s: int)
    requires 0 <= s < 86_400
    ensures 0 <= s / 3_600 < 24 && 0 <= s % 3_600 / 60 < 60
    ensures 3_600 * (s / 3_600) + 60 * (s % 3_600 / 60) + s % 60 == s
  {
    assert s == 3_600 * (s / 3_600) + s % 3_600;
    assert (s % 3_600) % 60 == s % 60;
  }

  /** The parts of a timestamp denote that timestamp exactly until the year overflows, and never
      after: in particular not in the upper half, where the timestamp itself turns negative. */
  lemma PartsAreExact(timestamp: int)
    requires 0 <= timestamp < TWO_64
    ensures ValidParts(ChronoLikeUtc(timestamp)) && SecondsFromParts(ChronoLikeUtc(timestamp)) == timestamp
       <==> timestamp < YEAR_OVERFLOW
  {
    hide CivilFromDays, DaysFromCivil;
    var secs := AsI64(timestamp);
    var p := ChronoLikeUtc(timestamp);
    TimeOfDay(secs % 86_400);
    DaysOfCivil(secs / 86_400);
    YearFits(secs / 86_400);
    if timestamp >= YEAR_OVERFLOW && ValidParts(p) {
      YearBracket(p.date, TWO_31);
    }
  }

  lemma PartsOrder(a: DateParts, b: DateParts)
    requires ValidParts(a) && ValidParts(b)
    ensures PartsBefore(a, b) <==> SecondsFromParts(a) < SecondsFromParts(b)
  {
    BeforeIsTotal(a.date, b.date);
    if Before(a.date, b.date) {
      CountKeepsOrder(a.date, b.date);
    } else if Before(b.date, a.date) {
      CountKeepsOrder(b.date, a.date);
    }
  }

  lemma PartsIncrease(earlier: int, later: int)
    requires 0 <= earlier < later < YEAR_OVERFLOW
    ensures PartsBefore(ChronoLikeUtc(earlier), ChronoLikeUtc(later))
  {
    PartsAreExact(earlier);
    PartsAreExact(later);
    PartsOrder(ChronoLikeUtc(earlier), ChronoLikeUtc(later));
  }

  lemma MoreYearBounds()
    ensures YearStart(0) <= 0 && YearStart(TWO_31 + 1) > FIRST_DAY_TOO_LATE
  {
  }

  lemma LastYear()
    ensures ChronoLikeUtc(YEAR_OVERFLOW - 1).date.year >= 0
  {
    MoreYearBounds();
    hide CivilFromDays, DaysFromCivil, YearStart, Valid, AsI32;
    var n := FIRST_DAY_TOO_LATE - 1;
    YearFits(n);
    DaysOfCivil(n);
    YearBracket(CivilFromDays(n), 0);
  }

  lemma FirstYearTooLate()
    ensures CivilFromDays(FIRST_DAY_TOO_LATE).year == TWO_31
  {
    YearBounds();
    MoreYearBounds();
    hide CivilFromDays, DaysFromCivil, YearStart, Valid, AsI32;
    var d := CivilFromDays(FIRST_DAY_TOO_LATE);
    DaysOfCivil(FIRST_DAY_TOO_LATE);
    YearBracket(d, TWO_31);
    YearBracket(d, TWO_31 + 1);
  }

  /** The year drops from 2^31 - 1 to -2^31 at the overflow. */
  lemma YearDrops()
    ensures ChronoLikeUtc(YEAR_OVERFLOW - 1).date.year >= 0 > ChronoLikeUtc(YEAR_OVERFLOW).date.year
  {
    hide CivilFromDays;
    LastYear();
    FirstYearTooLate();
  }

  ghost predicate PartsIncreaseBelow(limit: int)
    requires limit <= TWO_64
  {
    forall earlier, later :: 0 <= earlier < later < limit ==> PartsBefore(ChronoLikeUtc(earlier), ChronoLikeUtc(later))
  }

  /** Later timestamps have lexicographically later parts exactly up to the year overflow. */
  lemma PartsIncreaseIff(limit: int)
    requires limit <= TWO_64
    ensures PartsIncreaseBelow(limit) <==> limit <= YEAR_OVERFLOW
  {
    hide ChronoLikeUtc;
    if limit <= YEAR_OVERFLOW {
      forall earlier, later | 0 <= earlier < later < limit
        ensures PartsBefore(ChronoLikeUtc(earlier), ChronoLikeUtc(later))
      {
        PartsIncrease(earlier, later);
      }
    } else {
      YearDrops();
      assert !PartsBefore(ChronoLikeUtc(YEAR_OVERFLOW - 1), ChronoLikeUtc(YEAR_OVERFLOW));
    }
  }
}
