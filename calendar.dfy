/** Calendar dates as Python's `datetime` handles them for the scraper: parsing with
    `strptime(s, "%Y-%m-%d")`, printing with `strftime("%Y-%m-%d")`, `weekday()`, adding
    one day, and comparing. Dates are ISO 8601 calendar dates in extended format
    (section 5.2.1.1 of ISO 8601:2004) on the proleptic Gregorian calendar, years 1 to 9999. */
module Calendar {
  import opened Wrappers
  import opened Text

  datatype Date = Date(year: int, month: int, day: int)

  /** The last date `datetime` can hold; adding a day to it raises OverflowError. */
  const MaxDate := Date(9999, 12, 31)

  predicate IsLeap(y: int) {
    y % 4 == 0 && (y % 100 != 0 || y % 400 == 0)
  }

  function DaysInMonth(y: int, m: int): int
    requires 1 <= m <= 12
  {
    if m == 2 then (if IsLeap(y) then 29 else 28)
    else if m == 4 || m == 6 || m == 9 || m == 11 then 30
    else 31
  }

  function DaysInYear(y: int): int {
    if IsLeap(y) then 366 else 365
  }

  predicate ValidDate(d: Date) {
    1 <= d.year <= 9999 && 1 <= d.month <= 12 && 1 <= d.day <= DaysInMonth(d.year, d.month)
  }

  // ---------------------------------------------------------------------------
  // Day count

  /** Days before 1 January of year `y`, counting from 1 January of year 1. */
  function DaysBeforeYear(y: int): int
    requires y >= 1
  {
    var p := y - 1;
    p * 365 + p / 4 - p / 100 + p / 400
  }

  /** Days in year `y` before the first of month `m`. */
  function DaysBeforeMonth(y: int, m: int): int
    requires 1 <= m <= 12
  {
    var table := [0, 31, 59, 90, 120, 151, 181, 212, 243, 273, 304, 334];
    table[m - 1] + (if m > 2 && IsLeap(y) then 1 else 0)
  }

  /** `date.toordinal()`: 1 January of year 1 is day 1. */
  function Ordinal(d: Date): int
    requires ValidDate(d)
  {
    DaysBeforeYear(d.year) + DaysBeforeMonth(d.year, d.month) + d.day
  }

  /** The closed form for the days before a year steps by the length of that year. */
  lemma {:induction false} DaysBeforeYearStep(y: int)
    requires y >= 1
    ensures DaysBeforeYear(y + 1) == DaysBeforeYear(y) + DaysInYear(y)
  {
    QuotientStep4(y);
    QuotientStep100(y);
    QuotientStep400(y);
    Divides400(y);
    Divides100(y);
  }

  lemma {:induction false} Divides400(y: int)
    ensures y % 400 == 0 ==> y % 100 == 0
  {
    if y % 400 == 0 { assert y == 100 * (4 * (y / 400)); }
  }

  lemma {:induction false} Divides100(y: int)
    ensures y % 100 == 0 ==> y % 4 == 0
  {
    if y % 100 == 0 { assert y == 4 * (25 * (y / 100)); }
  }

  /** Counting multiples of 4, 100 and 400 up to `y`: one more than up to `y - 1` exactly
      when the number divides `y`. */
  lemma {:induction false} QuotientStep4(y: int)
    ensures y / 4 - (y - 1) / 4 == (if y % 4 == 0 then 1 else 0)
  {
    var q, r := (y - 1) / 4, (y - 1) % 4;
    if r == 3 { assert y == 4 * (q + 1); } else { assert y == 4 * q + (r + 1); }
  }

  lemma {:induction false} QuotientStep100(y: int)
    ensures y / 100 - (y - 1) / 100 == (if y % 100 == 0 then 1 else 0)
  {
    var q, r := (y - 1) / 100, (y - 1) % 100;
    if r == 99 { assert y == 100 * (q + 1); } else { assert y == 100 * q + (r + 1); }
  }

  lemma {:induction false} QuotientStep400(y: int)
    ensures y / 400 - (y - 1) / 400 == (if y % 400 == 0 then 1 else 0)
  {
    var q, r := (y - 1) / 400, (y - 1) % 400;
    if r == 399 { assert y == 400 * (q + 1); } else { assert y == 400 * q + (r + 1); }
  }

  /** A whole year fits before the next year starts, and every later one. */
  lemma {:induction false} DaysBeforeYearGrows(a: int, b: int)
    requires 1 <= a < b
    ensures DaysBeforeYear(a) + DaysInYear(a) <= DaysBeforeYear(b)
    decreases b - a
  {
    DaysBeforeYearStep(a);
    if a + 1 < b {
      DaysBeforeYearGrows(a + 1, b);
    }
  }

  lemma {:induction false} MonthFits(y: int, m: int)
    requires 1 <= m <= 12
    ensures DaysBeforeMonth(y, m) + DaysInMonth(y, m) <= DaysInYear(y)
    ensures forall n :: m < n <= 12 ==> DaysBeforeMonth(y, m) + DaysInMonth(y, m) <= DaysBeforeMonth(y, n)
  {
  }

  /** Dates compare field by field, as `datetime` objects do. */
  predicate Before(a: Date, b: Date) {
    a.year < b.year || (a.year == b.year && (a.month < b.month || (a.month == b.month && a.day < b.day)))
  }

  /** Comparing dates field by field agrees with comparing their day counts. */
  lemma {:induction false} OrdinalIncreasing(a: Date, b: Date)
    requires ValidDate(a) && ValidDate(b) && Before(a, b)
    ensures Ordinal(a) < Ordinal(b)
  {
    MonthFits(a.year, a.month);
    if a.year < b.year {
      DaysBeforeYearGrows(a.year, b.year);
    }
  }

  /** Distinct valid dates have distinct day counts, in the same order. */
  lemma {:induction false} OrdinalOrder(a: Date, b: Date)
    requires ValidDate(a) && ValidDate(b)
    ensures !Before(b, a) <==> Ordinal(a) <= Ordinal(b)
    ensures a == b <==> Ordinal(a) == Ordinal(b)
  {
    if Before(a, b) { OrdinalIncreasing(a, b); }
    if Before(b, a) { OrdinalIncreasing(b, a); }
  }

  /** `date + timedelta(days=1)`; `None` past 31 December 9999, where it raises OverflowError. */
  function NextDay(d: Date): (r: Option<Date>)
    requires ValidDate(d)
    ensures r.Some? ==> ValidDate(r.value) && Ordinal(r.value) == Ordinal(d) + 1
    ensures r.None? <==> d == MaxDate
  {
    if d.day < DaysInMonth(d.year, d.month) then
      Some(Date(d.year, d.month, d.day + 1))
    else if d.month < 12 then
      Some(Date(d.year, d.month + 1, 1))
    else if d.year < 9999 then
      DaysBeforeYearStep(d.year);
      Some(Date(d.year + 1, 1, 1))
    else
      None
  }

  // ---------------------------------------------------------------------------
  // Weekdays

  /** `date.weekday()`: Monday is 0 and Sunday is 6. */
  function WeekdayIndex(d: Date): (w: nat)
    requires ValidDate(d)
    ensures w < 7
  {
    (Ordinal(d) + 6) % 7
  }

  /** The labels `_get_weekday_chinese` returns, indexed by `weekday()`; despite the
      method's name they are English day names. */
  const WeekdayNames: seq<string> :=
    ["Monday", "Tuesday", "Wednesday", "Thursday", "Friday", "Saturday", "Sunday"]

  /** The proleptic Gregorian calendar starts on a Monday. */
  lemma FirstDayIsMonday()
    ensures ValidDate(Date(1, 1, 1))
    ensures WeekdayIndex(Date(1, 1, 1)) == 0
  {
  }

  /** The day after a date falls on the next weekday, Sunday wrapping round to Monday. */
  lemma {:induction false} NextDayNextWeekday(d: Date)
    requires ValidDate(d) && d != MaxDate
    ensures WeekdayIndex(NextDay(d).value) == (WeekdayIndex(d) + 1) % 7
  {
    assert Ordinal(NextDay(d).value) == Ordinal(d) + 1;
    WeekStep(Ordinal(d) + 6);
  }

  lemma {:induction false} WeekStep(x: int)
    ensures (x + 1) % 7 == (x % 7 + 1) % 7
  {
    var q, r := x / 7, x % 7;
    assert x == 7 * q + r;
    if r == 6 {
      assert x + 1 == 7 * (q + 1);
    } else {
      assert x + 1 == 7 * q + (r + 1);
    }
  }

  // ---------------------------------------------------------------------------
  // strptime and strftime with "%Y-%m-%d"

  /** The first alternative of `1[0-2]|0[1-9]|[1-9]` that the following `-` lets match, as
      the month number and the text after the dash. */
  function MonthField(t: string): (r: Option<(int, string)>)
    ensures r.Some? ==> 1 <= r.value.0 <= 12 && |r.value.1| < |t|
  {
    if |t| >= 3 && t[0] == '1' && '0' <= t[1] <= '2' && t[2] == '-' then
      Some((10 + DigitValue(t[1]), t[3..]))
    else if |t| >= 3 && t[0] == '0' && '1' <= t[1] <= '9' && t[2] == '-' then
      Some((DigitValue(t[1]), t[3..]))
    else if |t| >= 2 && '1' <= t[0] <= '9' && t[1] == '-' then
      Some((DigitValue(t[0]), t[2..]))
    else None
  }

  /** The first alternative of `3[01]|[12]\d|0[1-9]|[1-9]| [1-9]` that matches at the start
      of `t`, as the day number and the length it consumed. */
  function DayAlternative(t: string): (r: Option<(int, nat)>)
    ensures r.Some? ==> 1 <= r.value.0 <= 31 && 1 <= r.value.1 <= 2
  {
    if |t| >= 2 && t[0] == '3' && '0' <= t[1] <= '1' then Some((30 + DigitValue(t[1]), 2))
    else if |t| >= 2 && '1' <= t[0] <= '2' && IsDigit(t[1]) then Some((10 * DigitValue(t[0]) + DigitValue(t[1]), 2))
    else if |t| >= 2 && t[0] == '0' && '1' <= t[1] <= '9' then Some((DigitValue(t[1]), 2))
    else if |t| >= 1 && '1' <= t[0] <= '9' then Some((DigitValue(t[0]), 1))
    else if |t| >= 2 && t[0] == ' ' && '1' <= t[1] <= '9' then Some((DigitValue(t[1]), 2))
    else None
  }

  /** `datetime.strptime(s, "%Y-%m-%d")`: the pattern `(\d\d\d\d)-(month)-(day)` must match
      at the start of `s` and consume all of it ("unconverted data remains" otherwise), and the
      fields must name a real date (year 0 and 30 February raise). `None` is the ValueError. */
  function ParseDate(s: string): (r: Option<Date>)
    ensures r.Some? ==> ValidDate(r.value)
  {
    if |s| < 5 || !AllDigits(s[..4]) || s[4] != '-' then None
    else
      var year := DigitsValue(s[..4]);
      DigitsValueBound(s[..4]);
      match MonthField(s[5..])
      case None => None
      case Some((month, rest)) =>
        match DayAlternative(rest)
        case None => None
        case Some((day, used)) =>
          if used == |rest| && 1 <= year && day <= DaysInMonth(year, month)
          then Some(Date(year, month, day))
          else None
  }

  /** `n` in `width` decimal digits with leading zeros. */
  function Digits(n: nat, width: nat): (r: string)
    ensures |r| == width && AllDigits(r)
  {
    if width == 0 then [] else Digits(n / 10, width - 1) + [DigitChar(n % 10)]
  }

  /** `strftime("%Y-%m-%d")`, with the year written in four digits. */
  function FormatDate(d: Date): string
    requires ValidDate(d)
  {
    Digits(d.year, 4) + "-" + Digits(d.month, 2) + "-" + Digits(d.day, 2)
  }

  function Pow10(k: nat): (r: nat)
    ensures r >= 1
  {
    if k == 0 then 1 else 10 * Pow10(k - 1)
  }

  /** Reading the digits back gives the number, when it fits the width. */
  lemma {:induction false} DigitsValueOf(n: nat, width: nat)
    requires n < Pow10(width)
    ensures DigitsValue(Digits(n, width)) == n
  {
    if width > 0 {
      assert n / 10 < Pow10(width - 1);
      DigitsValueOf(n / 10, width - 1);
      var p := Digits(n / 10, width - 1);
      assert (p + [DigitChar(n % 10)])[..|p|] == p;
    }
  }

  /** A string of `k` digits has a value below 10^k. */
  lemma {:induction false} DigitsValueBound(s: string)
    requires AllDigits(s)
    ensures DigitsValue(s) < Pow10(|s|)
  {
    if s != [] {
      DigitsValueBound(s[..|s| - 1]);
    }
  }

  lemma {:induction false} TwoDigits(n: nat)
    requires n < 100
    ensures Digits(n, 2) == [DigitChar(n / 10), DigitChar(n % 10)]
  {
    assert n / 10 < 10 && n / 10 / 10 == 0 && n / 10 % 10 == n / 10;
    assert Digits(n / 10, 1) == [] + [DigitChar(n / 10)];
  }

  /** The value of a four-digit year field, digit by digit. */
  lemma {:induction false} FourDigits(s: string)
    requires |s| == 4 && AllDigits(s)
    ensures DigitsValue(s) == 1000 * DigitValue(s[0]) + 100 * DigitValue(s[1]) + 10 * DigitValue(s[2]) + DigitValue(s[3])
  {
    var a, b, c := s[..1], s[..2], s[..3];
    assert a[..0] == [] && b[..1] == a && c[..2] == b && s[..3] == c;
    assert DigitsValue(a) == DigitValue(s[0]);
    assert DigitsValue(b) == 10 * DigitValue(s[0]) + DigitValue(s[1]);
    assert DigitsValue(c) == 10 * DigitsValue(b) + DigitValue(s[2]);
  }

  /** Parsing what `strftime` printed gives the date back. */
  lemma {:induction false} ParseFormatted(d: Date)
    requires ValidDate(d)
    ensures ParseDate(FormatDate(d)) == Some(d)
  {
    var s := FormatDate(d);
    var y, m, dd := Digits(d.year, 4), Digits(d.month, 2), Digits(d.day, 2);
    DigitsValueOf(d.year, 4);
    TwoDigits(d.month);
    TwoDigits(d.day);
    assert s[..4] == y;
    assert s[5..] == m + "-" + dd;
    assert MonthField(s[5..]) == Some((d.month, dd));
    assert DayAlternative(dd) == Some((d.day, 2));
  }

  /** `_get_weekday_chinese(s)`: the day name of the date `s` names; `None` when `strptime`
      raises. */
  function WeekdayLabel(s: string): (r: Option<string>)
    ensures r.Some? <==> ParseDate(s).Some?
    ensures r.Some? ==> r.value == WeekdayNames[WeekdayIndex(ParseDate(s).value)]
  {
    match ParseDate(s)
    case None => None
    case Some(d) => Some(WeekdayNames[WeekdayIndex(d)])
  }

  /** Stepping a date by one day steps its label one place round the week. */
  lemma {:induction false} LabelAdvances(d: Date)
    requires ValidDate(d) && d != MaxDate
    ensures var i := WeekdayIndex(d);
            WeekdayLabel(FormatDate(d)) == Some(WeekdayNames[i])
            && WeekdayLabel(FormatDate(NextDay(d).value)) == Some(WeekdayNames[(i + 1) % 7])
  {
    ParseFormatted(d);
    ParseFormatted(NextDay(d).value);
    NextDayNextWeekday(d);
  }

  /** The default start date of the command line falls on a Friday. */
  lemma DefaultStartIsFriday()
    ensures WeekdayLabel("2025-12-05") == Some("Friday")
  {
    var s := "2025-12-05";
    assert s[..4] == "2025" && s[5..] == "12-05";
    FourDigits("2025");
    assert ParseDate(s) == Some(Date(2025, 12, 5));
    assert Ordinal(Date(2025, 12, 5)) == 739590;
  }

  /** `strptime` accepts a month without its leading zero, and 29 February of a leap year. */
  lemma LeapDayWithoutZero()
    ensures WeekdayLabel("2024-2-29") == Some("Thursday")
  {
    var s := "2024-2-29";
    assert s[..4] == "2024" && s[5..] == "2-29";
    FourDigits("2024");
    assert ParseDate(s) == Some(Date(2024, 2, 29));
    assert Ordinal(Date(2024, 2, 29)) == 738945;
  }

  /** 29 February of a common year, month 13 and trailing text are all rejected. */
  lemma RejectedDates()
    ensures WeekdayLabel("2023-02-29") == None
    ensures WeekdayLabel("2025-13-01") == None
    ensures WeekdayLabel("2025-12-5x") == None
  {
    var a, b, c := "2023-02-29", "2025-13-01", "2025-12-5x";
    assert a[..4] == "2023" && a[5..] == "02-29";
    FourDigits("2023");
    assert MonthField("02-29") == Some((2, "29"));
    assert b[5..] == "13-01";
    assert MonthField("13-01") == None;
    assert c[5..] == "12-5x";
    assert MonthField("12-5x") == Some((12, "5x"));
    assert DayAlternative("5x") == Some((5, 1));
  }
}
