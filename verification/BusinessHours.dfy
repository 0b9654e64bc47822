/**
 The working-time clock: the milliseconds between two instants that fall on an Indian Monday to Friday
 that is not a holiday.
 */
module BusinessHours {
  import opened Prelude
  import opened Calendar
  import opened IstDate

  function IstWeekday(t: Time): nat { Weekday(t + IST_OFFSET) }

  predicate IsBusinessDay(dayStart: Time, holidays: set<string>) {
    !(IstWeekday(dayStart) in {0, 6}) && IstDateKey(dayStart) !in holidays
  }

  /** The clock runs during the millisecond `t`: its Indian day is a working day. */
  predicate Running(t: Time, holidays: set<string>) {
    1 <= (IstDay(t) + 4) % 7 <= 5 && IstDateKey(t) !in holidays
  }

  /** The clock stands still on Saturdays and Sundays - day 0, the first of January 1970, is a Thursday - and on
      holidays, for the whole Indian day. */
  lemma RunningIs(t: Time, holidays: set<string>)
    ensures Running(t, holidays) <==>
      (t + 19_800_000) / 86_400_000 % 7 !in {2, 3} && IstDateKey(t) !in holidays
  {
    FromThursday(IstDay(t));
  }

  lemma FromThursday(day: int)
    ensures 1 <= (day + 4) % 7 <= 5 <==> day % 7 !in {2, 3}
  {
  }

  /** How many milliseconds of [start, end) the clock runs. */
  function RunningMs(start: Time, end: Time, holidays: set<string>): (n: nat)
    decreases end - start
  {
    if end <= start then 0
    else RunningMs(start, end - 1, holidays) + if Running(end - 1, holidays) then 1 else 0
  }

  /** The clock runs all day or not at all: the start of the day tells. */
  lemma DayTells(t: Time, holidays: set<string>)
    ensures Running(t, holidays) <==> IsBusinessDay(IstStartOfDay(t), holidays)
  {
    var start := IstStartOfDay(t);
    assert IstDay(start) == IstDay(t);
    DateKeyIsTheDay(t, start);
  }

  lemma {:induction false} StretchRuns(start: Time, end: Time, holidays: set<string>, on: bool)
    requires start <= end
    requires forall t | start <= t < end :: Running(t, holidays) == on
    ensures RunningMs(start, end, holidays) == if on then end - start else 0
    decreases end - start
  {
    if start < end { StretchRuns(start, end - 1, holidays, on); }
  }

  lemma SameDay(t: Time, u: Time)
    requires IstStartOfDay(t) <= u < IstStartOfDay(t) + DAY_MS
    ensures IstDay(u) == IstDay(t)
  {
    DayBound(IstDay(t), u + IST_OFFSET);
    DayBound(IstDay(t) + 1, u + IST_OFFSET);
  }

  lemma WithinADay(start: Time, end: Time, holidays: set<string>)
    requires start <= end <= IstStartOfDay(start) + DAY_MS
    ensures RunningMs(start, end, holidays) ==
      if IsBusinessDay(IstStartOfDay(start), holidays) then end - start else 0
  {
    DayTells(start, holidays);
    forall t | start <= t < end ensures Running(t, holidays) == Running(start, holidays) {
      SameDay(start, t);
      DateKeyIsTheDay(start, t);
    }
    StretchRuns(start, end, holidays, Running(start, holidays));
  }

  /** Splitting the interval anywhere splits the count. */
  lemma {:induction false} CountIsAdditive(a: Time, b: Time, c: Time, holidays: set<string>)
    requires a <= b <= c
    ensures RunningMs(a, c, holidays) == RunningMs(a, b, holidays) + RunningMs(b, c, holidays)
    decreases c - b
  {
    if b < c { CountIsAdditive(a, b, c - 1, holidays); }
  }

  /** Walks the interval one Indian day at a time. */
  method BusinessMsBetween(start: Time, end: Time, holidays: set<string>) returns (total: int)
    ensures total == RunningMs(start, end, holidays)
  {
    total := 0;
    if end <= start { return; }
    var cursor := start;
    while cursor < end
      invariant start <= cursor <= end
      invariant total == RunningMs(start, cursor, holidays)
      decreases end - cursor
    {
      var dayStart := IstStartOfDay(cursor);
      DayBound(IstDay(cursor) + 1, cursor + IST_OFFSET);
      var nextDay := dayStart + DAY_MS;
      var segEnd := if end < nextDay then end else nextDay;
      WithinADay(cursor, segEnd, holidays);
      CountIsAdditive(start, cursor, segEnd, holidays);
      if IsBusinessDay(dayStart, holidays) { total := total + (segEnd - cursor); }
      cursor := segEnd;
    }
  }

  // ---- What the count promises ----------------------------------------------------------------------

  /** A later end never counts less, and the count never exceeds the time that passed. */
  lemma CountIsMonotone(start: Time, end: Time, later: Time, holidays: set<string>)
    requires start <= end <= later
    ensures RunningMs(start, end, holidays) <= RunningMs(start, later, holidays) <=
      RunningMs(start, end, holidays) + (later - end)
  {
    CountIsAdditive(start, end, later, holidays);
    CountIsAtMostTheTime(end, later, holidays);
  }

  lemma {:induction false} CountIsAtMostTheTime(start: Time, end: Time, holidays: set<string>)
    requires start <= end
    ensures RunningMs(start, end, holidays) <= end - start
    decreases end - start
  {
    if start < end { CountIsAtMostTheTime(start, end - 1, holidays); }
  }

  const WEEK_MS := 7 * DAY_MS
  const HOUR_MS := 3_600_000

  /** Without holidays the clock repeats every week. */
  lemma {:induction false} CountRepeats(start: Time, end: Time)
    requires start <= end
    ensures RunningMs(start + WEEK_MS, end + WEEK_MS, {}) == RunningMs(start, end, {})
    decreases end - start
  {
    if start < end {
      CountRepeats(start, end - 1);
      NextWeekday(end - 1);
      assert end + WEEK_MS - 1 == end - 1 + WEEK_MS;
    }
  }

  lemma WeekLater(t: Time)
    ensures IstDay(t + WEEK_MS) == IstDay(t) + 7
  {
    DayBound(IstDay(t) + 7, t + WEEK_MS + IST_OFFSET);
    DayBound(IstDay(t) + 8, t + WEEK_MS + IST_OFFSET);
    DayBound(IstDay(t), t + IST_OFFSET);
    DayBound(IstDay(t) + 1, t + IST_OFFSET);
  }

  lemma SevenOn(d: int)
    ensures (d + 7 + 4) % 7 == (d + 4) % 7
  {
  }

  lemma NextWeekday(t: Time)
    ensures Running(t + WEEK_MS, {}) <==> Running(t, {})
  {
    WeekLater(t);
    SevenOn(IstDay(t));
  }

  /** Holidays outside the interval do not matter. */
  lemma {:induction false} OnlyHolidaysInside(start: Time, end: Time, holidays: set<string>)
    requires start <= end && forall t | start <= t < end :: IstDateKey(t) !in holidays
    ensures RunningMs(start, end, holidays) == RunningMs(start, end, {})
    decreases end - start
  {
    if start < end { OnlyHolidaysInside(start, end - 1, holidays); }
  }

  /** The instant an Indian day begins. */
  function Midnight(day: int): Time { day * DAY_MS - IST_OFFSET }

  lemma MidnightStarts(day: int)
    ensures IstDay(Midnight(day)) == day && IstStartOfDay(Midnight(day)) == Midnight(day)
  {
  }

  lemma WholeDay(day: int)
    ensures RunningMs(Midnight(day), Midnight(day + 1), {}) == if 1 <= (day + 4) % 7 <= 5 then DAY_MS else 0
  {
    MidnightStarts(day);
    DayTells(Midnight(day), {});
    WithinADay(Midnight(day), Midnight(day + 1), {});
  }

  lemma DaysAfterMonday(monday: int, n: nat)
    requires (monday + 4) % 7 == 1 && n < 7
    ensures (monday + n + 4) % 7 == if n == 6 then 0 else n + 1
  {
  }

  /** The clock runs on the first five days from a Monday. */
  lemma DayFromMonday(monday: int, n: nat)
    requires (monday + 4) % 7 == 1 && n < 7
    ensures RunningMs(Midnight(monday + n), Midnight(monday + n + 1), {}) == if n < 5 then DAY_MS else 0
  {
    DaysAfterMonday(monday, n);
    WholeDay(monday + n);
  }

  lemma {:induction false} DaysFromMonday(monday: int, n: nat)
    requires (monday + 4) % 7 == 1 && n <= 7
    ensures RunningMs(Midnight(monday), Midnight(monday + n), {}) == if n <= 5 then n * DAY_MS else 5 * DAY_MS
  {
    if n > 0 {
      DaysFromMonday(monday, n - 1);
      DayFromMonday(monday, n - 1);
      assert Midnight(monday) <= Midnight(monday + (n - 1)) <= Midnight(monday + n);
      CountIsAdditive(Midnight(monday), Midnight(monday + (n - 1)), Midnight(monday + n), {});
      assert n <= 5 ==> (n - 1) * DAY_MS + DAY_MS == n * DAY_MS;
    }
  }

  /** The last Monday on or before a day. */
  function MondayBefore(day: int): int { day - (day + 3) % 7 }

  lemma MondayIsMonday(day: int)
    ensures (MondayBefore(day) + 4) % 7 == 1 && MondayBefore(day) <= day
  {
  }

  /** From any starting instant, a week without holidays counts exactly 120 hours. */
  lemma WeekIs120Hours(start: Time, holidays: set<string>)
    requires forall t | start <= t < start + 604_800_000 :: IstDateKey(t) !in holidays
    ensures RunningMs(start, start + 604_800_000, holidays) == 432_000_000
  {
    var day := MondayBefore(IstDay(start));
    var monday := Midnight(day);
    MondayIsMonday(IstDay(start));
    DayBound(IstDay(start), start + IST_OFFSET);
    assert monday <= start && Midnight(day + 7) == monday + WEEK_MS;
    DaysFromMonday(day, 7);
    OnlyHolidaysInside(start, start + WEEK_MS, holidays);
    CountIsAdditive(monday, start, start + WEEK_MS, {});
    CountIsAdditive(monday, monday + WEEK_MS, start + WEEK_MS, {});
    CountRepeats(monday, start);
  }
}
