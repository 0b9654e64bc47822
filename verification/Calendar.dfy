/**
 Dates as ECMA-262 section 21.4.1 defines them: a time value counts milliseconds from the start of 1970,
 and year, month and day are those of the proleptic Gregorian calendar.
 */
module Calendar {
  import opened Prelude

  type Time = int    // milliseconds

  const DAY_MS := 86_400_000

  function Day(t: Time): int { t / DAY_MS }    // Dafny's division is the floor here

  function Weekday(t: Time): (w: nat)
    ensures w < 7
  {
    (Day(t) + 4) % 7
  }

  predicate Leap(y: int) { y % 4 == 0 && (y % 100 != 0 || y % 400 == 0) }

  function YearLength(leap: bool): int { if leap then 366 else 365 }

  function DaysInYear(y: int): int { YearLength(Leap(y)) }

  /** The first day of a year, counted year by year from 1970. */
  function DayFromYear(y: int): int
    decreases if y >= 1970 then y - 1970 else 1970 - y
  {
    if y == 1970 then 0
    else if y > 1970 then DayFromYear(y - 1) + DaysInYear(y - 1)
    else DayFromYear(y + 1) - DaysInYear(y)
  }

  lemma NextYear(y: int)
    ensures DayFromYear(y + 1) == DayFromYear(y) + DaysInYear(y)
  {
  }

  function StandardDayFromYear(y: int): int {
    365 * (y - 1970) + (y - 1969) / 4 - (y - 1901) / 100 + (y - 1601) / 400
  }

  lemma FourthYears(y: int)
    ensures (y - 1968) / 4 == (y - 1969) / 4 + if y % 4 == 0 then 1 else 0
  {
  }

  lemma HundredthYears(y: int)
    ensures (y - 1900) / 100 == (y - 1901) / 100 + if y % 100 == 0 then 1 else 0
  {
  }

  lemma FourHundredthYears(y: int)
    ensures (y - 1600) / 400 == (y - 1601) / 400 + if y % 400 == 0 then 1 else 0
  {
  }

  lemma StandardNextYear(y: int)
    ensures StandardDayFromYear(y + 1) == StandardDayFromYear(y) + DaysInYear(y)
  {
    FourthYears(y);
    HundredthYears(y);
    FourHundredthYears(y);
    assert y + 1 - 1969 == y - 1968 && y + 1 - 1901 == y - 1900 && y + 1 - 1601 == y - 1600;
    assert y % 400 == 0 ==> y % 100 == 0;
    assert y % 100 == 0 ==> y % 4 == 0;
  }

  /** Counting year by year is the formula of the standard. */
  lemma {:induction false} DayFromYearIsStandard(y: int)
    ensures DayFromYear(y) == StandardDayFromYear(y)
    decreases if y >= 1970 then y - 1970 else 1970 - y
  {
    if y > 1970 {
      DayFromYearIsStandard(y - 1);
      StandardNextYear(y - 1);
    } else if y < 1970 {
      DayFromYearIsStandard(y + 1);
      StandardNextYear(y);
    }
  }

  lemma {:induction false} YearsAscend(y: int, z: int)
    requires y <= z
    ensures DayFromYear(y) + 365 * (z - y) <= DayFromYear(z)
    decreases z - y
  {
    if y < z {
      YearsAscend(y, z - 1);
      NextYear(z - 1);
    }
  }

  /** The year a day falls in. */
  function YearOf(day: int): (y: int)
    ensures DayFromYear(y) <= day < DayFromYear(y + 1)
  {
    assert DayFromYear(1970) == 0;
    if day >= 0 then YearUp(day, 1970) else YearDown(day, 1969)
  }

  function YearUp(day: int, y: int): (r: int)
    requires DayFromYear(y) <= day
    ensures DayFromYear(r) <= day < DayFromYear(r + 1)
    decreases day - DayFromYear(y)
  {
    NextYear(y);
    if day < DayFromYear(y + 1) then y else YearUp(day, y + 1)
  }

  function YearDown(day: int, y: int): (r: int)
    requires day < DayFromYear(y + 1)
    ensures DayFromYear(r) <= day < DayFromYear(r + 1)
    decreases DayFromYear(y + 1) - day
  {
    NextYear(y);
    if DayFromYear(y) <= day then y else YearDown(day, y - 1)
  }

  lemma YearIsUnique(day: int, y: int)
    requires DayFromYear(y) <= day < DayFromYear(y + 1)
    ensures YearOf(day) == y
  {
    var z := YearOf(day);
    if z < y { YearsAscend(z + 1, y); }
    if y < z { YearsAscend(y + 1, z); }
  }

  // ---- Months ---------------------------------------------------------------------------------------

  const MONTH_LENGTHS: seq<int> := [31, 28, 31, 30, 31, 30, 31, 31, 30, 31, 30, 31]

  const MONTH_STARTS: seq<int> := [0, 31, 59, 90, 120, 151, 181, 212, 243, 273, 304, 334, 365]

  function DaysInMonth(leap: bool, m: int): int
    requires 0 <= m < 12
  {
    MONTH_LENGTHS[m] + if leap && m == 1 then 1 else 0
  }

  /** The days of a year before month `m`. */
  function DaysBefore(leap: bool, m: int): int
    requires 0 <= m <= 12
  {
    MONTH_STARTS[m] + if leap && m >= 2 then 1 else 0
  }

  /** The table is the running sum of the month lengths. */
  lemma MonthsAdd(leap: bool, m: int)
    requires 0 <= m < 12
    ensures DaysBefore(leap, m + 1) == DaysBefore(leap, m) + DaysInMonth(leap, m)
    ensures DaysInMonth(leap, m) >= 28
    ensures DaysBefore(leap, 0) == 0 && DaysBefore(leap, 12) == YearLength(leap)
  {
    assert m in {0, 1, 2, 3, 4, 5, 6, 7, 8, 9, 10, 11};
  }

  /** The month of the `d`-th day of a year. */
  function MonthIn(leap: bool, d: int): (m: int)
    requires 0 <= d < YearLength(leap)
    ensures 0 <= m < 12 && DaysBefore(leap, m) <= d < DaysBefore(leap, m + 1)
  {
    MonthsAdd(leap, 0);
    MonthFrom(leap, d, 0)
  }

  function MonthFrom(leap: bool, d: int, m: int): (r: int)
    requires 0 <= m < 12 && DaysBefore(leap, m) <= d < YearLength(leap)
    ensures 0 <= r < 12 && DaysBefore(leap, r) <= d < DaysBefore(leap, r + 1)
    decreases 12 - m
  {
    MonthsAdd(leap, m);
    if d < DaysBefore(leap, m + 1) then m else MonthFrom(leap, d, m + 1)
  }

  lemma {:induction false} MonthsClimb(leap: bool, m: int, n: int)
    requires 0 <= m <= n <= 12
    ensures 0 <= DaysBefore(leap, m) <= DaysBefore(leap, n) <= YearLength(leap)
    decreases n - m
  {
    MonthsAdd(leap, 0);
    if m < n {
      MonthsClimb(leap, m, n - 1);
      MonthsAdd(leap, n - 1);
    } else if 0 < m {
      MonthsAdd(leap, m - 1);
    }
  }

  lemma MonthIsUnique(leap: bool, d: int, m: int)
    requires 0 <= m < 12 && DaysBefore(leap, m) <= d < DaysBefore(leap, m + 1)
    ensures 0 <= d < YearLength(leap) && MonthIn(leap, d) == m
  {
    MonthsClimb(leap, 0, m);
    MonthsClimb(leap, m + 1, 12);
    var n := MonthIn(leap, d);
    if n < m { MonthsClimb(leap, n + 1, m); }
    if m < n { MonthsClimb(leap, m + 1, n); }
  }

  /** Thirty days have April, June, September and November; February has 28, or 29 in a leap year. */
  lemma MonthLengthsAre(leap: bool, m: int)
    requires 0 <= m < 12
    ensures DaysInMonth(leap, m) ==
      if m in {3, 5, 8, 10} then 30 else if m != 1 then 31 else if leap then 29 else 28
  {
    assert m in {0, 1, 2, 3, 4, 5, 6, 7, 8, 9, 10, 11};
  }

  // ---- Civil dates ------------------------------------------------------------------------------------

  /** A year, a month from 0 to 11 and a day of the month from 1. */
  datatype Civil = Civil(year: int, month: int, date: int)

  predicate Real(c: Civil) {
    0 <= c.month < 12 && 1 <= c.date <= DaysInMonth(Leap(c.year), c.month)
  }

  /** The date of the `d`-th day of year `y`. */
  function CivilIn(y: int, leap: bool, d: int): (c: Civil)
    requires 0 <= d < YearLength(leap)
    ensures c.year == y && 0 <= c.month < 12 && 1 <= c.date <= DaysInMonth(leap, c.month)
    ensures DaysBefore(leap, c.month) + c.date - 1 == d
  {
    var m := MonthIn(leap, d);
    MonthsAdd(leap, m);
    Civil(y, m, d - DaysBefore(leap, m) + 1)
  }

  function CivilOf(day: int): (c: Civil)
    ensures Real(c) && c.year == YearOf(day)
  {
    var y := YearOf(day);
    NextYear(y);
    CivilIn(y, Leap(y), day - DayFromYear(y))
  }

  /** The day of a year, a month that may run over into later years, and a day of the month. */
  function MakeDay(year: int, month: int, date: int): int {
    var y, m := year + month / 12, month % 12;
    DayFromYear(y) + DaysBefore(Leap(y), m) + date - 1
  }

  /** The day before which `m` months of year `y` lie. */
  function FirstDay(y: int, m: int): int
    requires 0 <= m <= 12
  {
    DayFromYear(y) + DaysBefore(Leap(y), m)
  }

  lemma MakeWithin(y: int, m: int, date: int)
    requires 0 <= m <= 12
    ensures MakeDay(y, m, date) == FirstDay(y, m) + date - 1
  {
    if m == 12 {
      assert 12 / 12 == 1 && 12 % 12 == 0;
      NextYear(y);
    } else {
      assert m / 12 == 0 && m % 12 == m;
    }
  }

  lemma ReadLies(day: int)
    ensures var c := CivilOf(day);
      FirstDay(c.year, c.month) + c.date - 1 == day && day < FirstDay(c.year, c.month + 1)
  {
    var c := CivilOf(day);
    var leap, d := Leap(c.year), day - DayFromYear(c.year);
    assert c == CivilIn(c.year, leap, d);
    assert DaysBefore(leap, c.month) + c.date - 1 == d && c.date <= DaysInMonth(leap, c.month);
    MonthsAdd(leap, c.month);
  }

  /** Reading a day and making it again is the identity. */
  lemma MakeAfterRead(day: int)
    ensures var c := CivilOf(day); MakeDay(c.year, c.month, c.date) == day
  {
    ReadLies(day);
    var c := CivilOf(day);
    MakeWithin(c.year, c.month, c.date);
  }

  /** The date is settled by where the day lies between two firsts of the month. */
  lemma CivilIs(day: int, y: int, m: int)
    requires 0 <= m < 12
    requires FirstDay(y, m) <= day < FirstDay(y, m + 1)
    ensures CivilOf(day) == Civil(y, m, day - FirstDay(y, m) + 1)
  {
    var d := day - DayFromYear(y);
    MonthIsUnique(Leap(y), d, m);
    NextYear(y);
    YearIsUnique(day, y);
    ReadLies(day);
    MonthIsUnique(Leap(y), d, CivilOf(day).month);
  }

  /** Days count from the first of January 1970. */
  lemma EpochIs()
    ensures CivilOf(0) == Civil(1970, 0, 1)
  {
    assert DayFromYear(1970) == 0 && DaysBefore(Leap(1970), 0) == 0 && DaysBefore(Leap(1970), 1) == 31;
    CivilIs(0, 1970, 0);
  }

  /** Making a day and reading it gives the date back if and only if the date is real. */
  lemma ReadAfterMakeIff(c: Civil)
    requires 0 <= c.month < 12
    ensures CivilOf(MakeDay(c.year, c.month, c.date)) == c <==> Real(c)
  {
    MakeWithin(c.year, c.month, c.date);
    if Real(c) {
      MonthsAdd(Leap(c.year), c.month);
      CivilIs(MakeDay(c.year, c.month, c.date), c.year, c.month);
    }
  }

  /** `Date.UTC`: a year from 0 to 99 means one of the twentieth century. */
  function FullYear(y: int): int { if 0 <= y <= 99 then 1900 + y else y }

  function DateUtc(y: int, m: int, d: int): Time { MakeDay(FullYear(y), m, d) * DAY_MS }

  /** A month, as the days from its first to the first of the next. */
  lemma MonthSpan(y: int, m: int, day: int)
    requires 0 <= m < 12
    ensures MakeDay(y, m, 1) <= day < MakeDay(y, m + 1, 1) <==>
      CivilOf(day).year == y && CivilOf(day).month == m
  {
    MakeWithin(y, m, 1);
    MakeWithin(y, m + 1, 1);
    if FirstDay(y, m) <= day < FirstDay(y, m + 1) {
      CivilIs(day, y, m);
    } else {
      ReadLies(day);
    }
  }
}
