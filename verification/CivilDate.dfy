/**
 The build timestamp of the command line program: civil date and time of day
 from a signed count of Unix seconds, in the proleptic Gregorian calendar.
 */
module CivilDate {

  datatype Date = Date(year: int, month: int, day: int)

  datatype Timestamp = Timestamp(date: Date, hour: int, minute: int, second: int)

  // ---------------------------------------------------------------------------
  // The calendar itself, written without any of the constants of the algorithm.

  predicate IsLeap(y: int) {
    y % 4 == 0 && (y % 100 != 0 || y % 400 == 0)
  }

  function YearLength(y: int): int {
    if IsLeap(y) then 366 else 365
  }

  function MonthLength(y: int, m: int): int {
    if m == 2 then (if IsLeap(y) then 29 else 28)
    else if m == 4 || m == 6 || m == 9 || m == 11 then 30
    else 31
  }

  predicate ValidDate(c: Date) {
    1 <= c.month <= 12 && 1 <= c.day <= MonthLength(c.year, c.month)
  }

  function NextDate(c: Date): Date {
    if c.day < MonthLength(c.year, c.month) then c.(day := c.day + 1)
    else if c.month < 12 then Date(c.year, c.month + 1, 1)
    else Date(c.year + 1, 1, 1)
  }

  /** Days from 1970-01-01 to 1 January of `y`, year by year. */
  function DaysBeforeYear(y: int): int
    decreases if y < 1970 then 1970 - y else y - 1970
  {
    if y == 1970 then 0
    else if y > 1970 then DaysBeforeYear(y - 1) + YearLength(y - 1)
    else DaysBeforeYear(y + 1) - YearLength(y)
  }

  /** Days from 1 January to the first of month `m` of year `y`, month by month. */
  function DaysBeforeMonth(y: int, m: int): int
    decreases m
  {
    if m <= 1 then 0 else DaysBeforeMonth(y, m - 1) + MonthLength(y, m - 1)
  }

  /** The number of days from 1970-01-01 to `c`. */
  function DayNumber(c: Date): int {
    DaysBeforeYear(c.year) + DaysBeforeMonth(c.year, c.month) + c.day - 1
  }

  // ---------------------------------------------------------------------------
  // The algorithm.

  function YearOfEra(doe: int): int {
    (doe - doe / 1460 + doe / 36524 - doe / 146096) / 365
  }

  /** The date of a day, counted from zero, of the year that begins in March of `y`. */
  function MarchDate(y: int, doy: int): Date {
    var mp := (5 * doy + 2) / 153;
    var d := doy - (153 * mp + 2) / 5 + 1;
    var m := if mp < 10 then mp + 3 else mp - 9;
    Date(if m <= 2 then y + 1 else y, m, d)
  }

  function CivilFromDays(days: int): Date {
    var z := days + 719468;
    var era := z / 146097;
    var doe := z % 146097;
    var yoe := YearOfEra(doe);
    MarchDate(yoe + era * 400, doe - (365 * yoe + yoe / 4 - yoe / 100))
  }

  function BuildTime(secs: int): Timestamp {
    var days := secs / 86400;
    var rem := secs % 86400;
    Timestamp(CivilFromDays(days), rem / 3600, rem % 3600 / 60, rem % 60)
  }

  // ---------------------------------------------------------------------------
  // Closed forms.

  /** Years that start in March: days before 1 March of year `y`, counted from 0000-03-01. */
  function MarchDays(y: int): int {
    365 * y + y / 4 - y / 100 + y / 400
  }

  lemma {:induction false} YearsClosed(y: int)
    ensures DaysBeforeYear(y) == MarchDays(y - 1) + 306 - 719468
    decreases if y < 1970 then 1970 - y else y - 1970
  {
    if y > 1970 {
      YearsClosed(y - 1);
      LeapStep(y - 1);
    } else if y < 1970 {
      YearsClosed(y + 1);
      LeapStep(y);
    }
  }

  lemma LeapStep(y: int)
    ensures MarchDays(y) == MarchDays(y - 1) + YearLength(y)
  {
    DivStep(y, 4);
    DivStep(y, 100);
    DivStep(y, 400);
  }

  lemma DivStep(y: int, k: int)
    requires k == 4 || k == 100 || k == 400
    ensures y / k == (y - 1) / k + (if y % k == 0 then 1 else 0)
  {
  }

  lemma MarchDaysEra(yoe: int, era: int)
    requires 0 <= yoe < 400
    ensures MarchDays(yoe + 400 * era) == 146097 * era + 365 * yoe + yoe / 4 - yoe / 100
  {
    assert (yoe + 400 * era) / 4 == yoe / 4 + 100 * era;
    assert (yoe + 400 * era) / 100 == yoe / 100 + 4 * era;
    assert (yoe + 400 * era) / 400 == era;
  }

  /** Splits a day of the era into century, four-year block, year and day of year. */
  lemma YearOfEraSplit(doe: int, c: int, q: int, n: int, doy: int)
    requires 0 <= c <= 3 && 0 <= q <= 24 && 0 <= n <= 3
    requires 0 <= doy <= (if n == 3 && (q < 24 || c == 3) then 365 else 364)
    requires doe == 36524 * c + 1461 * q + 365 * n + doy
    ensures YearOfEra(doe) == 100 * c + 4 * q + n
  {
    var y := 100 * c + 4 * q + n;
    var x := doe - doe / 1460 + doe / 36524 - doe / 146096;
    assert doe / 146096 == (if doe == 146096 then 1 else 0);
    assert c <= doe / 36524 <= (if doe == 146096 then c + 1 else c);
    assert doe / 36524 - doe / 146096 == c;
    assert 365 * y <= x < 365 * (y + 1) by {
      assert doe / 1460 == 25 * c + q + (24 * c + q + 365 * n + doy) / 1460;
      var k := (24 * c + q + 365 * n + doy) / 1460;
      assert 0 <= k <= 1;
      assert k == 1 <==> 24 * c + q + 365 * n + doy >= 1460;
    }
  }

  /** The year of the era is the March-based year that holds the day. */
  lemma YearOfEraBrackets(doe: int)
    requires 0 <= doe < 146097
    ensures var y := YearOfEra(doe);
            var doy := doe - (365 * y + y / 4 - y / 100);
            && 0 <= y < 400 && 0 <= doy <= 365
            && (doy == 365 ==> IsLeap(y + 1))
  {
    var c := if doe == 146096 then 3 else doe / 36524;
    var inCentury := doe - 36524 * c;
    var q := inCentury / 1461;
    var inBlock := inCentury - 1461 * q;
    var n := if inBlock == 1460 then 3 else inBlock / 365;
    var doy := inBlock - 365 * n;
    YearOfEraSplit(doe, c, q, n, doy);
    var y := 100 * c + 4 * q + n;
    assert y / 4 == 25 * c + q && y / 100 == c;
    if doy == 365 {
      assert n == 3 && (y + 1) % 4 == 0;
      assert (y + 1) % 100 == 0 <==> q == 24;
    }
  }

  lemma LeapIsPeriodic(y: int, era: int)
    ensures IsLeap(y + 400 * era) == IsLeap(y)
  {
    QuotientAndRest(y + 400 * era, 4, y / 4 + 100 * era, y % 4);
    QuotientAndRest(y + 400 * era, 100, y / 100 + 4 * era, y % 100);
    QuotientAndRest(y + 400 * era, 400, y / 400 + era, y % 400);
  }

  lemma QuotientAndRest(a: int, k: int, q: int, r: int)
    requires k in {4, 100, 400, 60, 3600, 86400}
    requires a == k * q + r && 0 <= r < k
    ensures a / k == q && a % k == r
  {
  }

  /** Month lengths add up to the shifted-month formula of the algorithm. */
  lemma MonthsClosed(y: int, m: int)
    requires 1 <= m <= 12
    ensures DaysBeforeMonth(y, m) ==
            if m <= 2 then (153 * (m + 9) + 2) / 5 - 306
            else (153 * (m - 3) + 2) / 5 + 59 + (if IsLeap(y) then 1 else 0)
  {
    var l := if IsLeap(y) then 1 else 0;
    assert DaysBeforeMonth(y, 1) == 0;
    assert DaysBeforeMonth(y, 2) == 31;
    assert DaysBeforeMonth(y, 3) == 59 + l;
    assert DaysBeforeMonth(y, 4) == 90 + l;
    assert DaysBeforeMonth(y, 5) == 120 + l;
    assert DaysBeforeMonth(y, 6) == 151 + l;
    assert DaysBeforeMonth(y, 7) == 181 + l;
    assert DaysBeforeMonth(y, 8) == 212 + l;
    assert DaysBeforeMonth(y, 9) == 243 + l;
    assert DaysBeforeMonth(y, 10) == 273 + l;
    assert DaysBeforeMonth(y, 11) == 304 + l;
    assert DaysBeforeMonth(y, 12) == 334 + l;
  }

  /** Days before shifted month `mp`, where March is month zero. */
  function MonthStart(mp: int): int {
    (153 * mp + 2) / 5
  }

  lemma MonthBrackets(doy: int)
    requires 0 <= doy <= 365
    ensures var mp := (5 * doy + 2) / 153; 0 <= mp <= 11 && MonthStart(mp) <= doy && (mp < 11 ==> doy < MonthStart(mp + 1))
  {
  }

  lemma ShiftedMonthLength(y: int, mp: int)
    requires 0 <= mp < 11
    ensures MonthStart(mp + 1) - MonthStart(mp) == MonthLength(y, if mp < 10 then mp + 3 else mp - 9)
  {
  }

  lemma MarchDateIsValid(y: int, doy: int)
    requires 0 <= doy <= 365 && (doy == 365 ==> IsLeap(y + 1))
    ensures ValidDate(MarchDate(y, doy))
  {
    var mp := (5 * doy + 2) / 153;
    MonthBrackets(doy);
    if mp < 11 {
      ShiftedMonthLength(if mp < 10 then y else y + 1, mp);
    } else {
      assert MonthStart(11) == 337;
    }
    hide IsLeap;
  }

  /** A day of a March-based year splits into a valid month and day of month. */
  lemma MonthOfDay(y: int, doy: int)
    requires 0 <= doy <= 365 && (doy == 365 ==> IsLeap(y + 1))
    ensures var c := MarchDate(y, doy); ValidDate(c) && DayNumber(c) == MarchDays(y) - 719468 + doy
  {
    MarchDateIsValid(y, doy);
    MonthBrackets(doy);
    var c := MarchDate(y, doy);
    assert 1 <= c.month <= 12 && (c.month <= 2 <==> c.year == y + 1);
    MonthsClosed(c.year, c.month);
    YearsClosed(c.year);
    LeapStep(y);
    hide IsLeap, ValidDate, MarchDays, DaysBeforeYear, DaysBeforeMonth;
  }

  // ---------------------------------------------------------------------------
  // Main results.

  /** A day of an era of 400 years becomes the valid date it numbers. */
  lemma DateInEra(era: int, doe: int)
    requires 0 <= doe < 146097
    ensures var yoe := YearOfEra(doe);
            var c := MarchDate(yoe + era * 400, doe - (365 * yoe + yoe / 4 - yoe / 100));
            ValidDate(c) && DayNumber(c) == 146097 * era + doe - 719468
  {
    hide YearOfEra, ValidDate, DayNumber, MarchDays, MarchDate;
    YearOfEraBrackets(doe);
    var yoe := YearOfEra(doe);
    var doy := doe - (365 * yoe + yoe / 4 - yoe / 100);
    MarchDaysEra(yoe, era);
    if doy == 365 {
      LeapIsPeriodic(yoe + 1, era);
      assert IsLeap(yoe + 400 * era + 1);
    }
    MonthOfDay(yoe + era * 400, doy);
  }

  /** Every day number, before the epoch or after it, becomes the valid date it numbers. */
  lemma CivilDateIsCorrect(days: int)
    ensures ValidDate(CivilFromDays(days))
    ensures DayNumber(CivilFromDays(days)) == days
  {
    hide YearOfEra, ValidDate, DayNumber, MarchDate;
    var z := days + 719468;
    DateInEra(z / 146097, z % 146097);
  }

  /** Going one day on in the calendar raises the day number by one. */
  lemma NextDateIsNextNumber(c: Date)
    requires ValidDate(c)
    ensures ValidDate(NextDate(c)) && DayNumber(NextDate(c)) == DayNumber(c) + 1
  {
    if c.day < MonthLength(c.year, c.month) {
    } else if c.month < 12 {
      assert DaysBeforeMonth(c.year, c.month + 1)
          == DaysBeforeMonth(c.year, c.month) + MonthLength(c.year, c.month);
    } else {
      MonthsClosed(c.year, 12);
      YearsClosed(c.year);
      YearsClosed(c.year + 1);
      LeapStep(c.year);
    }
  }

  ghost predicate Earlier(a: Date, b: Date) {
    || a.year < b.year
    || (a.year == b.year && a.month < b.month)
    || (a.year == b.year && a.month == b.month && a.day < b.day)
  }

  lemma {:induction false} YearStartsGrow(a: int, b: int)
    requires a < b
    ensures DaysBeforeYear(a) + YearLength(a) <= DaysBeforeYear(b)
    decreases b - a
  {
    YearsClosed(b - 1);
    YearsClosed(b);
    LeapStep(b - 1);
    if a < b - 1 {
      YearStartsGrow(a, b - 1);
    }
  }

  lemma {:induction false} MonthStartsGrow(y: int, a: int, b: int)
    requires 1 <= a < b
    ensures DaysBeforeMonth(y, a) + MonthLength(y, a) <= DaysBeforeMonth(y, b)
    decreases b
  {
    if a < b - 1 {
      MonthStartsGrow(y, a, b - 1);
    }
  }

  lemma DayOfYearFits(c: Date)
    requires ValidDate(c)
    ensures DaysBeforeYear(c.year) <= DayNumber(c) < DaysBeforeYear(c.year) + YearLength(c.year)
  {
    MonthsClosed(c.year, 12);
    if c.month > 1 { MonthStartsGrow(c.year, 1, c.month); }
    if c.month < 12 { MonthStartsGrow(c.year, c.month, 12); }
  }

  /** Day numbers order dates as the calendar does. */
  lemma DayNumberIsMonotone(a: Date, b: Date)
    requires ValidDate(a) && ValidDate(b) && Earlier(a, b)
    ensures DayNumber(a) < DayNumber(b)
  {
    DayOfYearFits(a);
    DayOfYearFits(b);
    if a.year < b.year {
      YearStartsGrow(a.year, b.year);
    } else if a.month < b.month {
      MonthStartsGrow(a.year, a.month, b.month);
    }
  }

  /** The inverse direction, which makes the computed date the only right one. */
  lemma CivilDateIsUnique(c: Date)
    requires ValidDate(c)
    ensures CivilFromDays(DayNumber(c)) == c
  {
    var b := CivilFromDays(DayNumber(c));
    CivilDateIsCorrect(DayNumber(c));
    if Earlier(c, b) {
      DayNumberIsMonotone(c, b);
    } else if Earlier(b, c) {
      DayNumberIsMonotone(b, c);
    }
  }

  lemma ConsecutiveDays(days: int)
    ensures CivilFromDays(days + 1) == NextDate(CivilFromDays(days))
  {
    hide CivilFromDays, NextDate, DayNumber, ValidDate;
    CivilDateIsCorrect(days);
    NextDateIsNextNumber(CivilFromDays(days));
    CivilDateIsUnique(NextDate(CivilFromDays(days)));
  }

  ghost predicate ValidTime(t: Timestamp) {
    0 <= t.hour < 24 && 0 <= t.minute < 60 && 0 <= t.second < 60
  }

  ghost function SecondsSinceEpoch(t: Timestamp): int {
    86400 * DayNumber(t.date) + 3600 * t.hour + 60 * t.minute + t.second
  }

  /** A timestamp is the build time of `secs` exactly when it is valid and `secs` seconds from the epoch. */
  lemma BuildTimeIsCorrect(secs: int, t: Timestamp)
    ensures t == BuildTime(secs) <==>
            ValidDate(t.date) && ValidTime(t) && SecondsSinceEpoch(t) == secs
  {
    var days, rem := secs / 86400, secs % 86400;
    CivilDateIsCorrect(days);
    TimeOfDay(rem);
    if ValidDate(t.date) && ValidTime(t) && SecondsSinceEpoch(t) == secs {
      var inHour := 60 * t.minute + t.second;
      QuotientAndRest(secs, 86400, DayNumber(t.date), 3600 * t.hour + inHour);
      QuotientAndRest(rem, 3600, t.hour, inHour);
      QuotientAndRest(inHour, 60, t.minute, t.second);
      QuotientAndRest(rem, 60, 60 * t.hour + t.minute, t.second);
      CivilDateIsUnique(t.date);
    }
  }

  lemma TimeOfDay(rem: int)
    requires 0 <= rem < 86400
    ensures 0 <= rem / 3600 < 24 && 0 <= rem % 3600 / 60 < 60
    ensures 3600 * (rem / 3600) + 60 * (rem % 3600 / 60) + rem % 60 == rem
  {
    var h, inHour := rem / 3600, rem % 3600;
    QuotientAndRest(rem, 60, 60 * h + inHour / 60, inHour % 60);
  }
}
