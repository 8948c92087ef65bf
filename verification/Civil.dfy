/** Calendar arithmetic of the ISO 8601 parser (src/data/wienerlinien_parse.cpp)
    against a day-by-day count of the Gregorian calendar. */
module Civil {
  import opened CInts

  const SECONDS_PER_DAY: int := 86400
  const SECONDS_PER_HOUR: int := 3600
  const SECONDS_PER_MINUTE: int := 60
  const DAYS_PER_ERA: int := 146097
  const DAYS_TO_EPOCH: int := 719468

  // ---------------------------------------------------------------- the calendar

  predicate Leap(y: int) {
    y % 4 == 0 && (y % 100 != 0 || y % 400 == 0)
  }

  function MonthLength(y: int, m: nat): nat
    requires 1 <= m <= 12
  {
    if m == 2 then (if Leap(y) then 29 else 28)
    else if m == 4 || m == 6 || m == 9 || m == 11 then 30
    else 31
  }

  function YearLength(y: int): nat {
    if Leap(y) then 366 else 365
  }

  datatype Date = Date(y: int, m: nat, d: nat)

  predicate ValidDate(t: Date) {
    1 <= t.m <= 12 && 1 <= t.d <= MonthLength(t.y, t.m)
  }

  // The next day of the calendar.
  function Tomorrow(t: Date): (u: Date)
    requires ValidDate(t)
    ensures ValidDate(u)
  {
    if t.d < MonthLength(t.y, t.m) then Date(t.y, t.m, t.d + 1)
    else if t.m < 12 then Date(t.y, t.m + 1, 1)
    else Date(t.y + 1, 1, 1)
  }

  predicate Before(a: Date, b: Date) {
    a.y < b.y || (a.y == b.y && (a.m < b.m || (a.m == b.m && a.d < b.d)))
  }

  // Days from 1970-01-01 to the first of January of y, counting whole years.
  function YearStart(y: int): int
    decreases if y >= 1970 then y - 1970 else 1970 - y
  {
    if y == 1970 then 0
    else if y > 1970 then YearStart(y - 1) + YearLength(y - 1)
    else YearStart(y + 1) - YearLength(y)
  }

  // Days of the year before month m.
  function MonthStart(y: int, m: nat): nat
    requires 1 <= m <= 12
  {
    if m == 1 then 0 else MonthStart(y, m - 1) + MonthLength(y, m - 1)
  }

  function CountDays(t: Date): int
    requires ValidDate(t)
  {
    YearStart(t.y) + MonthStart(t.y, t.m) + t.d - 1
  }

  // ---------------------------------------------------------------- the formula

  function DaysBeforeMonth(m: nat): nat {
    U32(153 * U32(m + (if m > 2 then -3 else 9)) + 2) / 5
  }

  function DayOfYear(m: nat, d: nat): nat {
    U32(DaysBeforeMonth(m) + d - 1)
  }

  // `y` counts from March, so that the leap day comes last.
  function CivilToDays(year: int, m: nat, d: nat): int {
    var y := if m <= 2 then year - 1 else year;
    var era := CDiv(if y >= 0 then y else y - 399, 400);
    var yoe := U32(y - era * 400);
    var doe := U32(yoe * 365 + yoe / 4 - yoe / 100 + DayOfYear(m, d));
    era * DAYS_PER_ERA + doe - DAYS_TO_EPOCH
  }

  // What parseIso8601 returns for the six numbers and the zone it read.
  datatype Zone = Utc | Offset(plus: bool, hours: nat, minutes: nat)

  function OffsetSeconds(z: Zone): int {
    match z
    case Utc => 0
    case Offset(plus, h, m) => (if plus then 1 else -1) * (h * SECONDS_PER_HOUR + m * SECONDS_PER_MINUTE)
  }

  function Iso8601Seconds(year: int, mon: nat, day: nat, hour: int, min: int, sec: int, z: Zone): int {
    var days := CivilToDays(year, mon, day);
    var t := days * SECONDS_PER_DAY + hour * SECONDS_PER_HOUR + min * SECONDS_PER_MINUTE + sec;
    match z
    case Utc => t
    case Offset(plus, oh, om) =>
      var sign := if plus then -1 else 1;
      t + sign * (oh * SECONDS_PER_HOUR + om * SECONDS_PER_MINUTE)
  }

  // ---------------------------------------------------------------- proofs

  // Days before 1 March of year y, minus a constant: leap days by inclusion-exclusion.
  function MarchDays(y: int): int {
    365 * y + y / 4 - y / 100 + y / 400
  }

  // Day of the March-based year on which month m starts.
  function MarchOffset(m: nat): nat
    requires 1 <= m <= 12
  {
    [306, 337, 0, 31, 61, 92, 122, 153, 184, 214, 245, 275][m - 1]
  }

  lemma EraIsFloor(y: int)
    ensures CDiv(if y >= 0 then y else y - 399, 400) == y / 400
  {
  }

  lemma MarchDaysByEra(y: int)
    ensures var era, yoe := y / 400, y % 400;
      MarchDays(y) == era * DAYS_PER_ERA + yoe * 365 + yoe / 4 - yoe / 100
  {
    var era, yoe := y / 400, y % 400;
    assert y == 400 * era + yoe;
    assert y / 4 == 100 * era + yoe / 4;
    assert y / 100 == 4 * era + yoe / 100;
  }

  // On a real date the unsigned arithmetic never wraps.
  lemma DaysBeforeMonthIs(m: nat)
    requires 1 <= m <= 12
    ensures DaysBeforeMonth(m) == MarchOffset(m)
  {
    if m == 1 {} else if m == 2 {} else if m == 3 {} else if m == 4 {} else if m == 5 {} else if m == 6 {}
    else if m == 7 {} else if m == 8 {} else if m == 9 {} else if m == 10 {} else if m == 11 {} else {}
  }

  lemma DayOfYearIs(m: nat, d: nat)
    requires 1 <= m <= 12 && 1 <= d <= 31
    ensures DayOfYear(m, d) == MarchOffset(m) + d - 1 < 1000
  {
    DaysBeforeMonthIs(m);
  }

  lemma DayOfEraIs(yoe: nat, doy: nat)
    requires yoe < 400 && doy < 1000
    ensures U32(yoe * 365 + yoe / 4 - yoe / 100 + doy) == yoe * 365 + yoe / 4 - yoe / 100 + doy
  {
  }

  lemma CivilClosedForm(t: Date)
    requires ValidDate(t)
    ensures CivilToDays(t.y, t.m, t.d)
         == MarchDays(if t.m <= 2 then t.y - 1 else t.y) + MarchOffset(t.m) + t.d - 1 - DAYS_TO_EPOCH
  {
    hide MarchDays, MarchOffset, DayOfYear;
    var y := if t.m <= 2 then t.y - 1 else t.y;
    EraIsFloor(y);
    MarchDaysByEra(y);
    DayOfYearIs(t.m, t.d);
    DayOfEraIs(y % 400, DayOfYear(t.m, t.d));
    assert y - y / 400 * 400 == y % 400 == U32(y % 400);
  }

  lemma MarchDaysStep(y: int)
    ensures MarchDays(y) == MarchDays(y - 1) + YearLength(y)
  {
    assert y / 4 - (y - 1) / 4 == if y % 4 == 0 then 1 else 0;
    assert y / 100 - (y - 1) / 100 == if y % 100 == 0 then 1 else 0;
    assert y / 400 - (y - 1) / 400 == if y % 400 == 0 then 1 else 0;
  }

  lemma {:induction false} YearStartIs(y: int)
    ensures YearStart(y) == MarchDays(y - 1) + 306 - DAYS_TO_EPOCH
    decreases if y >= 1970 then y - 1970 else 1970 - y
  {
    if y > 1970 {
      YearStartIs(y - 1);
      MarchDaysStep(y - 1);
    } else if y < 1970 {
      YearStartIs(y + 1);
      MarchDaysStep(y);
    }
  }

  lemma {:induction false} MonthStartIs(y: int, m: nat)
    requires 1 <= m <= 12
    ensures MonthStart(y, m) == if m <= 2 then MarchOffset(m) - 306 else MarchOffset(m) + YearLength(y) - 306
  {
    if m > 1 {
      MonthStartIs(y, m - 1);
    }
  }

  // ---------------------------------------------------------------- theorems

  // The formula is the day count.
  lemma CivilCountsDays(t: Date)
    requires ValidDate(t)
    ensures CivilToDays(t.y, t.m, t.d) == CountDays(t)
  {
    CivilClosedForm(t);
    YearStartIs(t.y);
    MonthStartIs(t.y, t.m);
    MarchDaysStep(t.y);
  }

  // 1970-01-01 is day 0 and every step of the calendar, over month ends, leap days
  // and centuries, is one day.
  lemma OneDayAtATime(t: Date)
    requires ValidDate(t)
    ensures CivilToDays(1970, 1, 1) == 0
    ensures var u := Tomorrow(t); CivilToDays(u.y, u.m, u.d) == CivilToDays(t.y, t.m, t.d) + 1
  {
    CivilCountsDays(Date(1970, 1, 1));
    CivilCountsDays(t);
    CivilCountsDays(Tomorrow(t));
    if t.m == 12 {
      YearStartIs(t.y);
      YearStartIs(t.y + 1);
      MarchDaysStep(t.y);
      MonthStartIs(t.y, 12);
    }
  }

  lemma {:induction false} YearsApart(y: int, z: int)
    requires y < z
    ensures YearStart(y) + YearLength(y) <= YearStart(z)
    decreases z - y
  {
    YearStartIs(y);
    YearStartIs(z);
    MarchDaysStep(z - 1);
    if y < z - 1 {
      YearsApart(y, z - 1);
      YearStartIs(z - 1);
    }
  }

  // A date is inside its year, and later months start later.
  lemma {:induction false} MonthsApart(y: int, m: nat, n: nat)
    requires 1 <= m < n <= 12
    ensures MonthStart(y, m) + MonthLength(y, m) <= MonthStart(y, n)
  {
    if m < n - 1 {
      MonthsApart(y, m, n - 1);
    }
  }

  lemma InsideYear(t: Date)
    requires ValidDate(t)
    ensures YearStart(t.y) <= CountDays(t) < YearStart(t.y) + YearLength(t.y)
  {
    MonthStartIs(t.y, t.m);
  }

  // Dates and day numbers are in the same order: in particular no two dates share one.
  lemma SameOrder(a: Date, b: Date)
    requires ValidDate(a) && ValidDate(b)
    ensures Before(a, b) <==> CivilToDays(a.y, a.m, a.d) < CivilToDays(b.y, b.m, b.d)
    ensures a == b <==> CivilToDays(a.y, a.m, a.d) == CivilToDays(b.y, b.m, b.d)
  {
    CivilCountsDays(a);
    CivilCountsDays(b);
    if Before(a, b) {
      EarlierIsLess(a, b);
    } else if Before(b, a) {
      EarlierIsLess(b, a);
    }
  }

  lemma EarlierIsLess(a: Date, b: Date)
    requires ValidDate(a) && ValidDate(b) && Before(a, b)
    ensures CountDays(a) < CountDays(b)
  {
    if a.y < b.y {
      InsideYear(a);
      InsideYear(b);
      YearsApart(a.y, b.y);
    } else if a.m < b.m {
      MonthsApart(a.y, a.m, b.m);
    }
  }

  // Every day number is the number of some date.
  lemma {:induction false} EveryDayHasADate(n: int) returns (t: Date)
    ensures ValidDate(t) && CivilToDays(t.y, t.m, t.d) == n
    decreases if n >= 0 then n else -n
  {
    if n == 0 {
      t := Date(1970, 1, 1);
      OneDayAtATime(t);
    } else if n > 0 {
      var s := EveryDayHasADate(n - 1);
      OneDayAtATime(s);
      t := Tomorrow(s);
    } else {
      var s := EveryDayHasADate(n + 1);
      t := Yesterday(s);
      OneDayAtATime(t);
    }
  }

  function Yesterday(t: Date): (u: Date)
    requires ValidDate(t)
    ensures ValidDate(u) && Tomorrow(u) == t
  {
    if t.d > 1 then Date(t.y, t.m, t.d - 1)
    else if t.m > 1 then Date(t.y, t.m - 1, MonthLength(t.y, t.m - 1))
    else Date(t.y - 1, 12, 31)
  }

  // Section 4.16 (Seconds Since the Epoch) of IEEE Std 1003.1-2017, with tm_yday the
  // day of the year and y = tm_year + 1900.
  function PosixSeconds(y: int, yday: int, hour: int, min: int, sec: int): int {
    var tm_year := y - 1900;
    sec + min * 60 + hour * 3600 + yday * 86400
    + (tm_year - 70) * 31536000 + ((tm_year - 69) / 4) * 86400
    - ((tm_year - 1) / 100) * 86400 + ((tm_year + 299) / 400) * 86400
  }

  function YearDay(t: Date): int
    requires ValidDate(t)
  {
    MonthStart(t.y, t.m) + t.d - 1
  }

  // The parser's sum is the standard's, moved by the zone offset.
  lemma Iso8601IsPosix(t: Date, hour: int, min: int, sec: int, z: Zone)
    requires ValidDate(t)
    ensures Iso8601Seconds(t.y, t.m, t.d, hour, min, sec, z)
         == PosixSeconds(t.y, YearDay(t), hour, min, sec) - OffsetSeconds(z)
  {
    CivilCountsDays(t);
    YearStartIs(t.y);
    PosixLeapDays(t.y);
  }

  lemma PosixLeapDays(y: int)
    ensures MarchDays(y - 1) + 306 - DAYS_TO_EPOCH
         == 365 * (y - 1970) + (y - 1969) / 4 - (y - 1901) / 100 + (y - 1601) / 400
  {
    assert (y - 1969) / 4 == (y - 1) / 4 - 492;
    assert (y - 1901) / 100 == (y - 1) / 100 - 19;
    assert (y - 1601) / 400 == (y - 1) / 400 - 4;
  }
}
