/**
 Indian calendar days and months: an instant is shifted by five and a half hours and then read as UTC.
 Month keys, month bounds, day starts and ends, date keys, and the check of a written date.
 */
module IstDate {
  import opened Prelude
  import opened Calendar

  const IST_OFFSET := 19_800_000

  function IstDay(t: Time): int { Day(t + IST_OFFSET) }

  function IstCivil(t: Time): Civil { CivilOf(IstDay(t)) }

  /** An Indian day begins at half past six in the evening, UTC, of the day before. */
  lemma IndianDayBegins(day: int, t: Time)
    ensures IstDay(t) == day <==> (day - 1) * 86_400_000 + 66_600_000 <= t < day * 86_400_000 + 66_600_000
  {
    DayBound(day, t + IST_OFFSET);
    DayBound(day + 1, t + IST_OFFSET);
  }

  lemma DayBound(day: int, t: Time)
    ensures day * DAY_MS <= t <==> day <= Day(t)
  {
  }

  // ---- Numbers as text ------------------------------------------------------------------------------

  predicate IsDigit(c: char) { '0' <= c <= '9' }

  function Digit(n: nat): (c: char)
    requires n < 10
    ensures IsDigit(c) && DigitValue(c) == n
  {
    '0' + n as char
  }

  function DigitValue(c: char): nat
    requires IsDigit(c)
  {
    (c - '0') as nat
  }

  predicate AllDigits(s: string) { forall i | 0 <= i < |s| :: IsDigit(s[i]) }

  /** The number a string of digits writes. */
  function Value(s: string): nat
    requires AllDigits(s)
  {
    if s == "" then 0 else 10 * Value(s[..|s| - 1]) + DigitValue(s[|s| - 1])
  }

  /** A number in decimal, without leading zeros. */
  function Decimal(n: nat): (s: string)
    ensures AllDigits(s) && s != ""
  {
    if n < 10 then [Digit(n)] else Decimal(n / 10) + [Digit(n % 10)]
  }

  lemma {:induction false} ValueOfDecimal(n: nat)
    ensures Value(Decimal(n)) == n
  {
    if n >= 10 { ValueOfDecimal(n / 10); }
  }

  lemma OneDigit(s: string)
    requires AllDigits(s) && |s| == 1
    ensures Value(s) == DigitValue(s[0])
  {
    assert Value(s[..0]) == 0;
  }

  /** Writing what was read gives the digits back if and only if they have no leading zero. */
  lemma {:induction false} DecimalOfValueIff(s: string)
    requires AllDigits(s) && s != ""
    ensures Decimal(Value(s)) == s <==> |s| == 1 || s[0] != '0'
  {
    var rest, last := s[..|s| - 1], s[|s| - 1];
    assert s == rest + [last];
    assert Digit(DigitValue(last)) == last;
    if rest != "" {
      DecimalOfValueIff(rest);
      if Value(s) >= 10 {
        assert Value(s) / 10 == Value(rest) && Value(s) % 10 == DigitValue(last);
        if |rest| == 1 { OneDigit(rest); }
      } else {
        assert Value(rest) == 0;
        ZeroIsZeros(rest);
      }
    } else {
      assert Value(rest) == 0;
    }
  }

  lemma {:induction false} ZeroIsZeros(s: string)
    requires AllDigits(s) && s != "" && Value(s) == 0
    ensures s[0] == '0'
  {
    if |s| > 1 { ZeroIsZeros(s[..|s| - 1]); } else { OneDigit(s); }
  }

  /** Four digits write a number below ten thousand, below one thousand just when the first is zero. */
  lemma FourDigits(s: string)
    requires |s| == 4 && AllDigits(s)
    ensures Value(s) < 10_000 && (s[0] == '0' <==> Value(s) < 1000)
  {
    assert s[..3][..2] == s[..2] && s[..2][..1] == s[..1] && s[..1][..0] == "";
    assert Value(s[..1]) == DigitValue(s[0]);
    assert Value(s[..2]) == 10 * Value(s[..1]) + DigitValue(s[1]);
    assert Value(s[..3]) == 10 * Value(s[..2]) + DigitValue(s[2]);
    assert Value(s) == 10 * Value(s[..3]) + DigitValue(s[3]);
  }

  function Text(n: int): string { if n >= 0 then Decimal(n) else "-" + Decimal(-n) }

  lemma TextShowsSign(n: int)
    ensures Text(n) != "" && (Text(n)[0] == '-' <==> n < 0)
  {
    if n >= 0 { assert IsDigit(Decimal(n)[0]); }
  }

  lemma TextIsOneToOne(a: int, b: int)
    requires Text(a) == Text(b)
    ensures a == b
  {
    TextShowsSign(a);
    TextShowsSign(b);
    if a >= 0 {
      ValueOfDecimal(a);
      ValueOfDecimal(b);
    } else {
      ValueOfDecimal(-a);
      ValueOfDecimal(-b);
      assert Text(a)[1..] == Decimal(-a) && Text(b)[1..] == Decimal(-b);
    }
  }

  /** Two digits. */
  function Pad2(n: nat): (s: string)
    requires n < 100
    ensures |s| == 2 && AllDigits(s)
  {
    [Digit(n / 10), Digit(n % 10)]
  }

  lemma ValueOfPad2(n: nat)
    requires n < 100
    ensures Value(Pad2(n)) == n
  {
    assert Pad2(n)[..1] == [Digit(n / 10)] && Pad2(n)[..1][..0] == "";
    assert Value("") == 0;
    assert Value(Pad2(n)[..1]) == n / 10;
  }

  lemma Pad2OfValue(s: string)
    requires |s| == 2 && AllDigits(s)
    ensures Value(s) < 100 && Pad2(Value(s)) == s
  {
    assert s[..1][..0] == "" && Value("") == 0;
    assert Value(s[..1]) == DigitValue(s[0]);
    assert Value(s) == 10 * DigitValue(s[0]) + DigitValue(s[1]);
    assert Digit(DigitValue(s[0])) == s[0] && Digit(DigitValue(s[1])) == s[1];
  }

  // ---- Month keys -----------------------------------------------------------------------------------

  /** The year is not padded. */
  function IstMonthKey(t: Time): string {
    var c := IstCivil(t);
    Text(c.year) + "-" + Pad2(c.month + 1)
  }

  /** Four digits, a dash, two digits. */
  predicate MonthForm(k: string) {
    |k| == 7 && AllDigits(k[..4]) && k[4] == '-' && AllDigits(k[5..])
  }

  datatype Bounds = Bounds(start: Time, end: Time)

  /** The instants of a month, end excluded; none for a malformed key. */
  function IstMonthBounds(k: string): Option<Bounds> {
    if !MonthForm(k) then None
    else
      var y, m := Value(k[..4]), Value(k[5..]) - 1;
      if !(0 <= m <= 11) then None
      else Some(Bounds(DateUtc(y, m, 1) - IST_OFFSET, DateUtc(y, m + 1, 1) - IST_OFFSET))
  }

  /** Between the bounds of month `m` of year `y`: exactly the instants of that Indian month. */
  lemma BoundsAreTheMonth(y: int, m: int, t: Time)
    requires 0 <= m < 12 && FullYear(y) == y
    ensures DateUtc(y, m, 1) - IST_OFFSET <= t < DateUtc(y, m + 1, 1) - IST_OFFSET <==>
      IstCivil(t).year == y && IstCivil(t).month == m
  {
    DayBound(MakeDay(y, m, 1), t + IST_OFFSET);
    DayBound(MakeDay(y, m + 1, 1), t + IST_OFFSET);
    MonthSpan(y, m, IstDay(t));
  }

  /** A key written for an instant, read as year and month. */
  lemma KeyReads(t: Time, k: string)
    requires MonthForm(k)
    ensures IstMonthKey(t) == k <==>
      && IstCivil(t).year == Value(k[..4]) && IstCivil(t).month + 1 == Value(k[5..])
      && k[0] != '0'
  {
    var c := IstCivil(t);
    var year, month := k[..4], k[5..];
    assert k == year + "-" + month;
    DecimalOfValueIff(year);
    Pad2OfValue(month);
    ValueOfPad2(c.month + 1);
    if IstMonthKey(t) == k {
      assert |Text(c.year)| == 4 && Text(c.year) == k[..4] && Pad2(c.month + 1) == k[5..];
      assert IsDigit(k[..4][0]);
      ValueOfDecimal(c.year);
    }
  }

  lemma KeyOfLateYear(k: string, t: Time)
    requires IstMonthBounds(k).Some? && Value(k[..4]) >= 1000
    ensures var b := IstMonthBounds(k).value; IstMonthKey(t) == k <==> b.start <= t < b.end
  {
    FourDigits(k[..4]);
    KeyReads(t, k);
    BoundsAreTheMonth(Value(k[..4]), Value(k[5..]) - 1, t);
  }

  lemma BoundsAreApart(k: string)
    requires IstMonthBounds(k).Some?
    ensures IstMonthBounds(k).value.start < IstMonthBounds(k).value.end
  {
    var y, m := FullYear(Value(k[..4])), Value(k[5..]) - 1;
    MakeWithin(y, m, 1);
    MakeWithin(y, m + 1, 1);
    MonthsAdd(Leap(y), m);
  }

  /** The key of an instant is `k` exactly between the bounds of `k`, for every instant, if and only if
      the year of `k` has no leading zero: a shorter year is not padded when a key is written, and one
      below 100 means the twentieth century when it is read. */
  lemma KeyIffBetweenBounds(k: string)
    requires IstMonthBounds(k).Some?
    ensures var b := IstMonthBounds(k).value;
      (forall t :: IstMonthKey(t) == k <==> b.start <= t < b.end) <==> Value(k[..4]) >= 1000
  {
    var b := IstMonthBounds(k).value;
    if Value(k[..4]) >= 1000 {
      forall t ensures IstMonthKey(t) == k <==> b.start <= t < b.end { KeyOfLateYear(k, t); }
    } else {
      FourDigits(k[..4]);
      KeyReads(b.start, k);
      BoundsAreApart(k);
    }
  }

  // ---- Day starts and ends ----------------------------------------------------------------------------

  /** Rebuilt from the date that is read. */
  function StartOfIstDay(t: Time): Time {
    var c := IstCivil(t);
    DateUtc(c.year, c.month, c.date) - IST_OFFSET
  }

  function EndOfIstDay(t: Time): Time {
    var c := IstCivil(t);
    DateUtc(c.year, c.month, c.date) + DAY_MS - 1 - IST_OFFSET
  }

  /** The same start, by rounding down. */
  function IstStartOfDay(t: Time): Time { IstDay(t) * DAY_MS - IST_OFFSET }

  /** The two ways to find the start of a day agree if and only if its year is not one of 0 to 99. */
  lemma StartsAgreeIff(t: Time)
    ensures StartOfIstDay(t) == IstStartOfDay(t) <==> !(0 <= IstCivil(t).year <= 99)
  {
    var c := IstCivil(t);
    MakeAfterRead(IstDay(t));
    if 0 <= c.year <= 99 {
      MakeWithin(c.year, c.month, c.date);
      MakeWithin(1900 + c.year, c.month, c.date);
      YearsAscend(c.year, 1900 + c.year);
      MonthsClimb(Leap(c.year), c.month, 12);
      MonthsClimb(Leap(1900 + c.year), 0, c.month);
    }
  }

  /** Outside those years the days tile time: an instant lies between its day's start and end, any
      instant between them has the same day, and the next day starts where the end leaves off. */
  lemma DaysTileTime(t: Time, u: Time)
    requires !(0 <= IstCivil(t).year <= 99) && !(0 <= IstCivil(u).year <= 99)
    ensures StartOfIstDay(t) <= t <= EndOfIstDay(t)
    ensures StartOfIstDay(t) <= u <= EndOfIstDay(t) <==> IstDay(u) == IstDay(t)
    ensures u == EndOfIstDay(t) + 1 ==> StartOfIstDay(u) == u
  {
    StartsAgreeIff(t);
    StartsAgreeIff(u);
    assert EndOfIstDay(t) == IstStartOfDay(t) + DAY_MS - 1;
    DayBound(IstDay(t), u + IST_OFFSET);
    DayBound(IstDay(t) + 1, u + IST_OFFSET);
  }

  // ---- Written dates ----------------------------------------------------------------------------------

  function IstDateKey(t: Time): string {
    var c := IstCivil(t);
    Text(c.year) + "-" + Pad2(c.month + 1) + "-" + Pad2(c.date)
  }

  lemma JoinIsOneToOne(y: string, m: string, d: string, y': string, m': string, d': string)
    requires |m| == 2 && |d| == 2 && |m'| == 2 && |d'| == 2
    requires y + "-" + m + "-" + d == y' + "-" + m' + "-" + d'
    ensures y == y' && m == m' && d == d'
  {
    var k := y + "-" + m + "-" + d;
    assert |y| == |k| - 6 && |y'| == |k| - 6;
    assert k[..|k| - 6] == y && k[|k| - 5..|k| - 3] == m && k[|k| - 2..] == d;
    assert k[..|k| - 6] == y' && k[|k| - 5..|k| - 3] == m' && k[|k| - 2..] == d';
  }

  /** Two instants have the same date key exactly when they fall on the same Indian day. */
  lemma DateKeyIsTheDay(t: Time, u: Time)
    ensures IstDateKey(t) == IstDateKey(u) <==> IstDay(t) == IstDay(u)
  {
    if IstDateKey(t) == IstDateKey(u) {
      var c, d := IstCivil(t), IstCivil(u);
      JoinIsOneToOne(Text(c.year), Pad2(c.month + 1), Pad2(c.date),
                     Text(d.year), Pad2(d.month + 1), Pad2(d.date));
      TextIsOneToOne(c.year, d.year);
      ValueOfPad2(c.month + 1);
      ValueOfPad2(d.month + 1);
      ValueOfPad2(c.date);
      ValueOfPad2(d.date);
      MakeAfterRead(IstDay(t));
      MakeAfterRead(IstDay(u));
    }
  }

  predicate DateForm(s: string) {
    |s| == 10 && AllDigits(s[..4]) && s[4] == '-' && AllDigits(s[5..7]) && s[7] == '-' && AllDigits(s[8..])
  }

  /** Accepts what survives the round trip through a date. */
  predicate IsValidIsoDate(s: string) {
    DateForm(s) &&
    var y, m, d := Value(s[..4]), Value(s[5..7]), Value(s[8..]);
    1 <= m <= 12 && 1 <= d <= 31 &&
    CivilOf(Day(DateUtc(y, m - 1, d))) == Civil(y, m - 1, d)
  }

  /** The round trip accepts exactly the real dates from the year 100 on. */
  lemma RoundTripIff(y: int, m: int, d: int)
    requires y >= 0 && 0 <= m < 12 && d >= 1
    ensures CivilOf(Day(DateUtc(y, m, d))) == Civil(y, m, d) <==> y >= 100 && Real(Civil(y, m, d))
  {
    assert Day(DateUtc(y, m, d)) == MakeDay(FullYear(y), m, d);
    if y >= 100 { ReadAfterMakeIff(Civil(y, m, d)); } else { CenturyDiffers(y, m, d); }
  }

  /** A written date is accepted if and only if it is a real date of the Gregorian calendar from the year
      100 on. */
  lemma ValidIsoDateIff(s: string)
    requires DateForm(s)
    ensures var y, m, d := Value(s[..4]), Value(s[5..7]), Value(s[8..]);
      IsValidIsoDate(s) <==> y >= 100 && Real(Civil(y, m - 1, d))
  {
    var y, m, d := Value(s[..4]), Value(s[5..7]), Value(s[8..]);
    if 1 <= m <= 12 {
      MonthLengths(Leap(y), m - 1);
      if d >= 1 { RoundTripIff(y, m - 1, d); }
    }
  }

  predicate Numeral(c: char) { 48 <= c as int <= 57 }

  /** Digits and dashes where they belong. */
  predicate Shape(s: string, length: nat, dashes: set<nat>) {
    |s| == length && forall i | 0 <= i < length :: if i in dashes then s[i] == '-' else Numeral(s[i])
  }

  lemma DigitsOf(s: string, from: nat, to: nat)
    requires from <= to <= |s|
    ensures AllDigits(s[from..to]) <==> forall i | from <= i < to :: Numeral(s[i])
  {
    if AllDigits(s[from..to]) {
      forall i | from <= i < to ensures Numeral(s[i]) { assert s[from..to][i - from] == s[i]; }
    }
  }

  lemma ShapeIsForm(s: string)
    ensures Shape(s, 10, {4, 7}) <==> DateForm(s)
  {
    if |s| == 10 {
      DigitsOf(s, 0, 4);
      DigitsOf(s, 5, 7);
      DigitsOf(s, 8, 10);
      assert s[..4] == s[0..4] && s[8..] == s[8..10];
    }
  }

  /** A key has bounds if and only if it is four digits, a dash and the number of a month. */
  lemma MonthsHaveBounds(k: string)
    ensures IstMonthBounds(k).Some? <==>
      Shape(k, 7, {4}) && !(k[5] == '0' && k[6] == '0') && (k[5] == '0' || (k[5] == '1' && k[6] in {'0', '1', '2'}))
  {
    if |k| == 7 {
      DigitsOf(k, 0, 4);
      DigitsOf(k, 5, 7);
      assert k[..4] == k[0..4] && k[5..] == k[5..7];
      if AllDigits(k[5..]) {
        Pad2OfValue(k[5..]);
        assert k[5..][0] == k[5] && k[5..][1] == k[6];
      }
    }
  }

  /** Any text of another shape is refused. */
  lemma OnlyDatesAreValid(s: string)
    requires IsValidIsoDate(s)
    ensures Shape(s, 10, {4, 7})
  {
    ShapeIsForm(s);
  }

  lemma MonthLengths(leap: bool, m: int)
    requires 0 <= m < 12
    ensures 28 <= DaysInMonth(leap, m) <= 31
  {
    assert m in {0, 1, 2, 3, 4, 5, 6, 7, 8, 9, 10, 11};
  }

  lemma CenturyDiffers(y: int, m: int, d: int)
    requires 0 <= y < 100 && 0 <= m < 12 && d >= 1
    ensures CivilOf(MakeDay(1900 + y, m, d)).year != y
  {
    var day := MakeDay(1900 + y, m, d);
    MakeWithin(1900 + y, m, d);
    MonthsClimb(Leap(1900 + y), 0, m);
    YearsAscend(y + 1, 1900 + y);
  }

  /** The valid dates among the items of a stored list; an item without a date text is None. */
  method ParseHolidayDates(raw: seq<Option<string>>) returns (dates: set<string>)
    ensures forall s :: s in dates <==> Some(s) in raw && IsValidIsoDate(s)
  {
    dates := {};
    for i := 0 to |raw|
      invariant forall s :: s in dates <==> Some(s) in raw[..i] && IsValidIsoDate(s)
    {
      if raw[i].Some? && raw[i].value != "" && IsValidIsoDate(raw[i].value) {
        dates := dates + {raw[i].value};
      }
    }
    assert raw[..|raw|] == raw;
  }
}
