/** Day counts to calendar dates, as written twice in the repository: for the benchmark
    report and for signing requests. Years are counted as in section 5.7 of RFC 3339,
    extended to all integers. */
module Calendar {

  datatype Date = Date(year: int, month: int, day: int)

  datatype Moment = Moment(date: Date, hour: int, minute: int, second: int)

  // ---- The calendar's own rules ----

  predicate Leap(year: int) {
    year % 4 == 0 && (year % 100 != 0 || year % 400 == 0)
  }

  function MonthLength(year: int, month: int): int {
    if month == 2 then (if Leap(year) then 29 else 28)
    else if month == 4 || month == 6 || month == 9 || month == 11 then 30
    else 31
  }

  function YearLength(year: int): int {
    if Leap(year) then 366 else 365
  }

  predicate Valid(d: Date) {
    1 <= d.month <= 12 && 1 <= d.day <= MonthLength(d.year, d.month)
  }

  function NextDate(d: Date): Date {
    if d.day < MonthLength(d.year, d.month) then d.(day := d.day + 1)
    else if d.month < 12 then Date(d.year, d.month + 1, 1)
    else Date(d.year + 1, 1, 1)
  }

  /** Days from 1970-01-01 to the first day of `year`, year by year. */
  function DaysTo(year: int): int
    decreases if year >= 1970 then year - 1970 else 1970 - year
  {
    if year == 1970 then 0
    else if year > 1970 then DaysTo(year - 1) + YearLength(year - 1)
    else DaysTo(year + 1) - YearLength(year)
  }

  /** Days of the year before `month`. */
  function DaysBefore(year: int, month: int): int
    requires 1 <= month <= 13
    decreases month
  {
    if month == 1 then 0 else DaysBefore(year, month - 1) + MonthLength(year, month - 1)
  }

  /** Days from 1970-01-01 to a date, by counting. */
  function DayCount(d: Date): int
    requires Valid(d)
  {
    DaysTo(d.year) + DaysBefore(d.year, d.month) + d.day - 1
  }

  // ---- The two implementations ----

  /** The form used to sign requests. */
  function CivilFromDays(days: int): Date {
    var z := days + 719468;
    var era := z / 146097;
    var dayOfEra := z % 146097;
    var yearOfEra := (dayOfEra - dayOfEra / 1460 + dayOfEra / 36524 - dayOfEra / 146096) / 365;
    var year := yearOfEra + era * 400;
    var dayOfYear := dayOfEra - (365 * yearOfEra + yearOfEra / 4 - yearOfEra / 100);
    var mp := (5 * dayOfYear + 2) / 153;
    var day := dayOfYear - (153 * mp + 2) / 5 + 1;
    var month := if mp < 10 then mp + 3 else mp - 9;
    Date(if month <= 2 then year + 1 else year, month, day)
  }

  function Timestamp(seconds: nat): Moment {
    var timeOfDay := seconds % 86400;
    Moment(CivilFromDays(seconds / 86400), timeOfDay / 3600, (timeOfDay % 3600) / 60, timeOfDay % 60)
  }

  /** The form used in the benchmark report. */
  function Utc(seconds: nat): Moment {
    var days, rest := seconds / 86400, seconds % 86400;
    var hour, minute, second := rest / 3600, (rest % 3600) / 60, rest % 60;
    var shifted := days + 719468;
    var era := shifted / 146097;
    var dayOfEra := shifted % 146097;
    var yearOfEra := (dayOfEra - dayOfEra / 1460 + dayOfEra / 36524 - dayOfEra / 146096) / 365;
    var dayOfYear := dayOfEra - (365 * yearOfEra + yearOfEra / 4 - yearOfEra / 100);
    var shiftedMonth := (5 * dayOfYear + 2) / 153;
    var day := dayOfYear - (153 * shiftedMonth + 2) / 5 + 1;
    var month := if shiftedMonth < 10 then shiftedMonth + 3 else shiftedMonth - 9;
    var year := yearOfEra + era * 400 + if month <= 2 then 1 else 0;
    Moment(Date(year, month, day), hour, minute, second)
  }

  // ---- Eras, years from March, and days in them ----

  /** Days of an era before its year `y`. Years here begin in March. */
  function Before(y: int): int {
    365 * y + y / 4 - y / 100
  }

  /** Such a year holds the February of the calendar year that follows. */
  function Length(y: int): int {
    if Leap(y + 1) then 366 else 365
  }

  function YearOfEra(dayOfEra: int): int {
    (dayOfEra - dayOfEra / 1460 + dayOfEra / 36524 - dayOfEra / 146096) / 365
  }

  /** `days` is day `dayOfYear` of year `y` of `era`. */
  predicate Splits(days: int, era: int, y: int, dayOfYear: int) {
    && 0 <= y < 400 && 0 <= dayOfYear < Length(y)
    && days + 719468 == era * 146097 + Before(y) + dayOfYear
  }

  function Compose(era: int, y: int, dayOfYear: int): Date {
    var mp := (5 * dayOfYear + 2) / 153;
    var month := if mp < 10 then mp + 3 else mp - 9;
    Date(y + era * 400 + (if month <= 2 then 1 else 0), month, dayOfYear - (153 * mp + 2) / 5 + 1)
  }

  /** Year `y` is year `r` of four, of the four-year group `q`, of century `c` of its era. */
  lemma {:induction false} Centuries(c: int, q: int, r: int)
    requires 0 <= c < 4 && 0 <= q < 25 && 0 <= r < 4
    ensures var y := 100 * c + 4 * q + r;
            && 0 <= y < 400
            && Before(y) == 36524 * c + 1461 * q + 365 * r
            && (Leap(y + 1) <==> r == 3 && (q < 24 || c == 3))
  {
    var y := 100 * c + 4 * q + r;
    assert y / 4 == 25 * c + q && y / 100 == c;
    assert (y + 1) % 4 == 0 <==> r == 3;
    assert (y + 1) % 100 == 0 <==> q == 24 && r == 3;
  }

  lemma {:induction false} FindsYear(c: int, q: int, r: int, dayOfYear: int)
    requires 0 <= c < 4 && 0 <= q < 25 && 0 <= r < 4
    requires 0 <= dayOfYear < Length(100 * c + 4 * q + r)
    ensures YearOfEra(Before(100 * c + 4 * q + r) + dayOfYear) == 100 * c + 4 * q + r
  {
    Centuries(c, q, r);
    var y := 100 * c + 4 * q + r;
    var n := 36524 * c + 1461 * q + 365 * r + dayOfYear;
    var extra := 24 * c + q + 365 * r + dayOfYear;
    assert n == 1460 * (25 * c + q) + extra;
    assert n / 1460 == 25 * c + q + if extra >= 1460 then 1 else 0;
    assert n / 36524 - n / 146096 == c by { ShortCenturies(c, 1461 * q + 365 * r + dayOfYear); }
    assert n - n / 1460 + c == 365 * y + dayOfYear - if extra >= 1460 then 1 else 0;
  }

  lemma {:induction false} ShortCenturies(c: int, rest: int)
    requires 0 <= c < 4 && 0 <= rest <= 36524 && (rest == 36524 ==> c == 3)
    ensures (36524 * c + rest) / 36524 - (36524 * c + rest) / 146096 == c
  {}

  /** The year the formula finds is the one the day falls in. */
  lemma {:induction false} YearOfEraRight(dayOfEra: int)
    requires 0 <= dayOfEra < 146097
    ensures 0 <= YearOfEra(dayOfEra) < 400
    ensures 0 <= dayOfEra - Before(YearOfEra(dayOfEra)) < Length(YearOfEra(dayOfEra))
  {
    var c := if dayOfEra / 36524 < 4 then dayOfEra / 36524 else 3;
    var inCentury := dayOfEra - 36524 * c;
    var q := inCentury / 1461;
    var inFour := inCentury - 1461 * q;
    var r := if inFour / 365 < 4 then inFour / 365 else 3;
    Centuries(c, q, r);
    FindsYear(c, q, r, inFour - 365 * r);
  }

  lemma {:induction false} CivilComposes(days: int)
    ensures var z := days + 719468;
            var y := YearOfEra(z % 146097);
            CivilFromDays(days) == Compose(z / 146097, y, z % 146097 - Before(y))
  {}

  lemma {:induction false} CivilSplits(days: int)
    ensures var z := days + 719468;
            var y := YearOfEra(z % 146097);
            && Splits(days, z / 146097, y, z % 146097 - Before(y))
            && CivilFromDays(days) == Compose(z / 146097, y, z % 146097 - Before(y))
  {
    hide CivilFromDays, Compose, YearOfEra, Before, Length;
    CivilComposes(days);
    YearOfEraRight((days + 719468) % 146097);
  }

  lemma {:induction false} InCentury(y: int) returns (c: int, q: int, r: int)
    requires 0 <= y < 400
    ensures 0 <= c < 4 && 0 <= q < 25 && 0 <= r < 4 && y == 100 * c + 4 * q + r
  {
    c := y / 100;
    q := (y - 100 * c) / 4;
    r := y - 100 * c - 4 * q;
  }

  lemma {:induction false} BeforeNext(y: int)
    requires 0 <= y < 400
    ensures Before(y) + Length(y) == if y == 399 then 146097 else Before(y + 1)
    ensures 0 <= Before(y) && Before(y) + Length(y) <= 146097
  {
    hide Before, Leap;
    var c, q, r := InCentury(y);
    Centuries(c, q, r);
    if r < 3 {
      Centuries(c, q, r + 1);
    } else if q < 24 {
      Centuries(c, q + 1, 0);
    } else if c < 3 {
      Centuries(c + 1, 0, 0);
    }
  }

  lemma {:induction false} BeforeGrows(x: int, y: int)
    requires 0 <= x < y < 400
    ensures Before(x) + Length(x) <= Before(y)
    decreases y - x
  {
    BeforeNext(x);
    if x + 1 < y { BeforeGrows(x + 1, y); }
  }

  /** There is only one way to split a day count. */
  lemma {:induction false} SplitsOnce(days: int, e: int, y: int, d: int, f: int, z: int, g: int)
    requires Splits(days, e, y, d) && Splits(days, f, z, g)
    ensures e == f && y == z && d == g
  {
    BeforeNext(y);
    BeforeNext(z);
    if y < z { BeforeGrows(y, z); }
    if z < y { BeforeGrows(z, y); }
  }

  lemma {:induction false} CivilIs(days: int, era: int, y: int, dayOfYear: int)
    requires Splits(days, era, y, dayOfYear)
    ensures CivilFromDays(days) == Compose(era, y, dayOfYear)
  {
    CivilSplits(days);
    var z := days + 719468;
    var found := YearOfEra(z % 146097);
    SplitsOnce(days, era, y, dayOfYear, z / 146097, found, z % 146097 - Before(found));
  }

  // ---- Months ----

  lemma {:induction false} Mod4(y: int, t: int)
    ensures (y + 4 * t) % 4 == y % 4
  {}

  lemma {:induction false} Mod100(y: int, t: int)
    ensures (y + 100 * t) % 100 == y % 100
  {}

  lemma {:induction false} Mod400(y: int, t: int)
    ensures (y + 400 * t) % 400 == y % 400
  {}

  lemma {:induction false} LeapRepeats(y: int, era: int)
    ensures Leap(y + era * 400) == Leap(y)
  {
    Mod4(y, 100 * era);
    Mod100(y, 4 * era);
    Mod400(y, era);
  }

  /** Within a year from March, the date is valid and the next day is the next date. */
  lemma {:induction false} MonthsRight(era: int, y: int, dayOfYear: int)
    requires 0 <= dayOfYear < Length(y)
    ensures Valid(Compose(era, y, dayOfYear))
    ensures dayOfYear + 1 < Length(y) ==> Compose(era, y, dayOfYear + 1) == NextDate(Compose(era, y, dayOfYear))
    ensures dayOfYear + 1 == Length(y) ==> NextDate(Compose(era, y, dayOfYear)) == Date(y + era * 400 + 1, 3, 1)
  {
    LeapRepeats(y + 1, era);
    assert y + era * 400 + 1 == y + 1 + era * 400;
    var leap := Leap(y + 1);
    assert Leap(y + era * 400 + 1) == leap;
    hide Leap;
  }

  // ---- What the conversion promises ----

  lemma {:induction false} FirstOfMarch(era: int, y: int)
    ensures Compose(era, y, 0) == Date(y + era * 400, 3, 1)
  {}

  lemma {:induction false} YearsBegin(y: int)
    ensures Length(y) > 0 && Before(0) == 0
  {}

  lemma {:induction false} NextSplit(days: int, era: int, y: int, d: int)
    requires Splits(days, era, y, d)
    ensures Valid(Compose(era, y, d)) && CivilFromDays(days + 1) == NextDate(Compose(era, y, d))
  {
    hide CivilFromDays, Compose, Before, NextDate, Valid, Length;
    MonthsRight(era, y, d);
    BeforeNext(y);
    YearsBegin(y + 1);
    YearsBegin(0);
    if d + 1 < Length(y) {
      CivilIs(days + 1, era, y, d + 1);
    } else if y < 399 {
      CivilIs(days + 1, era, y + 1, 0);
      FirstOfMarch(era, y + 1);
    } else {
      CivilIs(days + 1, era + 1, 0, 0);
      FirstOfMarch(era + 1, 0);
    }
  }

  /** The day after is the next date of the calendar, for every day count. */
  lemma {:induction false} NextDay(days: int)
    ensures Valid(CivilFromDays(days)) && CivilFromDays(days + 1) == NextDate(CivilFromDays(days))
  {
    CivilSplits(days);
    hide CivilFromDays, YearOfEra, Splits, Compose, Before, NextDate, Valid;
    var z := days + 719468;
    var y := YearOfEra(z % 146097);
    NextSplit(days, z / 146097, y, z % 146097 - Before(y));
  }

  lemma {:induction false} Epoch()
    ensures CivilFromDays(0) == Date(1970, 1, 1) && DayCount(Date(1970, 1, 1)) == 0
  {
    hide CivilFromDays, DayCount, Splits, Compose;
    EpochSplits();
    CivilIs(0, 4, 369, 306);
    EpochCounts();
  }

  /** 1970-01-01 is day 306 of year 369 of the fifth era. */
  lemma {:induction false} EpochSplits()
    ensures Splits(0, 4, 369, 306) && Compose(4, 369, 306) == Date(1970, 1, 1)
  {}

  lemma {:induction false} EpochCounts()
    ensures DayCount(Date(1970, 1, 1)) == 0
  {}

  lemma {:induction false} MonthsFill(year: int, month: int)
    requires 1 <= month <= 13
    ensures month == 13 ==> DaysBefore(year, month) == YearLength(year)
    ensures 0 <= DaysBefore(year, month) <= YearLength(year)
    ensures month <= 12 ==> DaysBefore(year, month) + MonthLength(year, month) <= YearLength(year)
  {
    assert DaysBefore(year, 2) == 31;
    assert DaysBefore(year, 3) == 31 + MonthLength(year, 2);
    assert DaysBefore(year, 4) == DaysBefore(year, 3) + 31;
    assert DaysBefore(year, 5) == DaysBefore(year, 4) + 30;
    assert DaysBefore(year, 6) == DaysBefore(year, 5) + 31;
    assert DaysBefore(year, 7) == DaysBefore(year, 6) + 30;
    assert DaysBefore(year, 8) == DaysBefore(year, 7) + 31;
    assert DaysBefore(year, 9) == DaysBefore(year, 8) + 31;
    assert DaysBefore(year, 10) == DaysBefore(year, 9) + 30;
    assert DaysBefore(year, 11) == DaysBefore(year, 10) + 31;
    assert DaysBefore(year, 12) == DaysBefore(year, 11) + 30;
    assert DaysBefore(year, 13) == DaysBefore(year, 12) + 31;
  }

  /** The next date is one day further on. */
  lemma {:induction false} NextCount(d: Date)
    requires Valid(d)
    ensures Valid(NextDate(d)) && DayCount(NextDate(d)) == DayCount(d) + 1
  {
    MonthsFill(d.year, 13);
    assert DaysTo(d.year + 1) == DaysTo(d.year) + YearLength(d.year);
    assert DaysBefore(d.year, d.month + 1) == DaysBefore(d.year, d.month) + MonthLength(d.year, d.month);
    assert DaysBefore(d.year + 1, 1) == 0;
  }

  lemma {:induction false} CountsBack(days: int)
    ensures Valid(CivilFromDays(days)) && DayCount(CivilFromDays(days)) == days
    decreases if days >= 0 then days else -days
  {
    NextDay(days);
    hide CivilFromDays, NextDate, DayCount, Valid;
    if days == 0 {
      Epoch();
    } else if days > 0 {
      CountsBack(days - 1);
      NextDay(days - 1);
      NextCount(CivilFromDays(days - 1));
    } else {
      CountsBack(days + 1);
      NextCount(CivilFromDays(days));
    }
  }

  lemma {:induction false} YearsGrow(x: int, y: int)
    requires x < y
    ensures DaysTo(x) + YearLength(x) <= DaysTo(y)
    decreases y - x
  {
    assert DaysTo(x + 1) == DaysTo(x) + YearLength(x);
    if x + 1 < y { YearsGrow(x + 1, y); }
  }

  lemma {:induction false} MonthsGrow(year: int, m: int, n: int)
    requires 1 <= m < n <= 12
    ensures DaysBefore(year, m) + MonthLength(year, m) <= DaysBefore(year, n)
    decreases n
  {
    if m + 1 < n { MonthsGrow(year, m, n - 1); }
  }

  predicate Earlier(a: Date, b: Date) {
    a.year < b.year || (a.year == b.year && (a.month < b.month || (a.month == b.month && a.day < b.day)))
  }

  /** Counting days respects the order of dates. */
  lemma {:induction false} CountGrows(a: Date, b: Date)
    requires Valid(a) && Valid(b) && Earlier(a, b)
    ensures DayCount(a) < DayCount(b)
  {
    MonthsFill(a.year, a.month);
    MonthsFill(b.year, b.month);
    if a.year < b.year {
      YearsGrow(a.year, b.year);
    } else if a.month < b.month {
      MonthsGrow(a.year, a.month, b.month);
    }
  }

  /** The conversion and counting are inverse to each other: every day count gives a valid
      date that counts back to it, and every valid date is given by its own count. */
  lemma {:induction false} RoundTrip(days: int, date: Date)
    ensures Valid(CivilFromDays(days)) && DayCount(CivilFromDays(days)) == days
    ensures Valid(date) ==> CivilFromDays(DayCount(date)) == date
  {
    CountsBack(days);
    if Valid(date) {
      var n := DayCount(date);
      CountsBack(n);
      var found := CivilFromDays(n);
      if Earlier(found, date) { CountGrows(found, date); }
      if Earlier(date, found) { CountGrows(date, found); }
    }
  }

  /** Later days have later dates. */
  lemma {:induction false} DatesGrow(a: int, b: int)
    requires a < b
    ensures Earlier(CivilFromDays(a), CivilFromDays(b))
  {
    CountsBack(a);
    CountsBack(b);
    if Earlier(CivilFromDays(b), CivilFromDays(a)) { CountGrows(CivilFromDays(b), CivilFromDays(a)); }
  }

  lemma {:induction false} UtcComposes(seconds: nat)
    ensures var z := seconds / 86400 + 719468;
            var y := YearOfEra(z % 146097);
            Utc(seconds).date == Compose(z / 146097, y, z % 146097 - Before(y))
  {}

  lemma {:induction false} SameDate(seconds: nat)
    ensures Utc(seconds).date == CivilFromDays(seconds / 86400)
  {
    hide Utc, CivilFromDays, Compose, YearOfEra, Before;
    UtcComposes(seconds);
    CivilComposes(seconds / 86400);
  }

  lemma {:induction false} TimeOfDay(rest: int)
    requires 0 <= rest < 86400
    ensures 0 <= rest / 3600 < 24 && 0 <= rest % 3600 / 60 < 60 && 0 <= rest % 60 < 60
    ensures rest / 3600 * 3600 + rest % 3600 / 60 * 60 + rest % 60 == rest
  {
    assert rest == rest / 3600 * 3600 + rest % 3600;
    assert rest % 3600 % 60 == rest % 60;
  }

  /** Both implementations give the same moment, which is a time of day on a valid date
      and holds exactly the seconds it was made from. */
  lemma {:induction false} UtcRight(seconds: nat)
    ensures Utc(seconds) == Timestamp(seconds)
    ensures var m := Utc(seconds); Valid(m.date) && 0 <= m.hour < 24 && 0 <= m.minute < 60 && 0 <= m.second < 60
    ensures var m := Utc(seconds);
            Valid(m.date) && DayCount(m.date) * 86400 + m.hour * 3600 + m.minute * 60 + m.second == seconds
  {
    hide CivilFromDays, DayCount;
    CountsBack(seconds / 86400);
    SameDate(seconds);
    TimeOfDay(seconds % 86400);
    var m := Utc(seconds);
    assert m == Moment(m.date, seconds % 86400 / 3600, seconds % 86400 % 3600 / 60, seconds % 86400 % 60);
    hide Utc;
  }
}
