/** Calendar dates as Python's `datetime` keeps them: the proleptic Gregorian
    calendar, years 1 to 9999. Adding one day past 9999-12-31 is an error
    (Python raises `OverflowError`). */
module Dates {
  import opened Prelude

  datatype Date = Date(year: int, month: int, day: int)

  const MinYear := 1
  const MaxYear := 9999

  /** The last date Python can represent; there is no day after it. */
  const LastDate := Date(MaxYear, 12, 31)

  predicate IsLeapYear(y: int)
  {
    y % 4 == 0 && (y % 100 != 0 || y % 400 == 0)
  }

  function DaysInMonth(y: int, m: int): int
    requires 1 <= m <= 12
  {
    if m == 2 then (if IsLeapYear(y) then 29 else 28)
    else if m == 4 || m == 6 || m == 9 || m == 11 then 30
    else 31
  }

  predicate Valid(d: Date)
  {
    && MinYear <= d.year <= MaxYear
    && 1 <= d.month <= 12
    && 1 <= d.day <= DaysInMonth(d.year, d.month)
  }

  /** `a <= b` as Python compares two dates: year, then month, then day. */
  predicate Le(a: Date, b: Date)
  {
    || a.year < b.year
    || (a.year == b.year && (a.month < b.month || (a.month == b.month && a.day <= b.day)))
  }

  /** Days in the years before `y` (Python's `_days_before_year`). */
  function DaysBeforeYear(y: int): int
    requires y >= 1
  {
    var p := y - 1;
    365 * p + p / 4 - p / 100 + p / 400
  }

  /** Days in the months of year `y` before month `m` (Python's `_days_before_month`). */
  function DaysBeforeMonth(y: int, m: int): int
    requires 1 <= m <= 12
  {
    var common := [0, 31, 59, 90, 120, 151, 181, 212, 243, 273, 304, 334][m - 1];
    common + (if m > 2 && IsLeapYear(y) then 1 else 0)
  }

  /** The day number of `d`, 0001-01-01 being day 1 (Python's `date.toordinal`). */
  function Ordinal(d: Date): int
    requires Valid(d)
  {
    DaysBeforeYear(d.year) + DaysBeforeMonth(d.year, d.month) + d.day
  }

  /** The day after `d`, as `d + timedelta(days=1)`; `None` where Python overflows. */
  function NextDay(d: Date): (r: Option<Date>)
    requires Valid(d)
    ensures r.None? <==> d == LastDate
    ensures r.Some? ==> Valid(r.value) && Ordinal(r.value) == Ordinal(d) + 1
  {
    if d.day < DaysInMonth(d.year, d.month) then Some(Date(d.year, d.month, d.day + 1))
    else if d.month < 12 then Some(Date(d.year, d.month + 1, 1))
    else if d.year < MaxYear then (YearLength(d.year); Some(Date(d.year + 1, 1, 1)))
    else None
  }

  lemma YearLength(y: int)
    requires y >= 1
    ensures DaysBeforeYear(y + 1) == DaysBeforeYear(y) + (if IsLeapYear(y) then 366 else 365)
  {
    QuotientStep(y, 4);
    QuotientStep(y, 100);
    QuotientStep(y, 400);
    DivisorChain(y);
  }

  /** Every multiple of 400 is a multiple of 100, and every multiple of 100 one of 4. */
  lemma DivisorChain(y: int)
    ensures y % 400 == 0 ==> y % 100 == 0
    ensures y % 100 == 0 ==> y % 4 == 0
  {
    if y % 400 == 0 {
      MultipleOf(y, 400, 100);
    }
    if y % 100 == 0 {
      MultipleOf(y, 100, 4);
    }
  }

  /** A multiple of `big` is a multiple of any `small` dividing it. */
  lemma MultipleOf(y: int, big: int, small: int)
    requires (big == 400 && small == 100) || (big == 100 && small == 4)
    requires y % big == 0
    ensures y % small == 0
  {
    var q := y / big;
    var k := q * (big / small);
    assert y == small * k;
  }

  /** Moving from `y - 1` to `y` adds one to the quotient by `k` exactly when `k` divides `y`. */
  lemma QuotientStep(y: int, k: int)
    requires y >= 1 && k in {4, 100, 400}
    ensures y / k == (y - 1) / k + (if y % k == 0 then 1 else 0)
  {
    var q := (y - 1) / k;
    var r := (y - 1) % k;
    assert y == q * k + (r + 1);
    if r + 1 == k {
      assert y == (q + 1) * k;
    }
  }

  lemma {:induction false} DaysBeforeYearMonotone(y1: int, y2: int)
    requires 1 <= y1 <= y2
    ensures DaysBeforeYear(y1) + (y2 - y1) * 365 <= DaysBeforeYear(y2)
    decreases y2 - y1
  {
    if y1 < y2 {
      var next := y1 + 1;
      YearLength(y1);
      DaysBeforeYearMonotone(next, y2);
    }
  }

  /** A date's day number lies inside its own year. */
  lemma OrdinalWithinYear(d: Date)
    requires Valid(d)
    ensures DaysBeforeYear(d.year) < Ordinal(d) <= DaysBeforeYear(d.year + 1)
  {
    YearLength(d.year);
  }

  /** Comparing dates is comparing their day numbers. */
  lemma OrdinalOrder(a: Date, b: Date)
    requires Valid(a) && Valid(b)
    ensures Le(a, b) <==> Ordinal(a) <= Ordinal(b)
  {
    OrdinalWithinYear(a);
    OrdinalWithinYear(b);
    if a.year < b.year {
      DaysBeforeYearMonotone(a.year + 1, b.year);
    } else if b.year < a.year {
      DaysBeforeYearMonotone(b.year + 1, a.year);
    }
  }

  /** Distinct dates have distinct day numbers. */
  lemma OrdinalInjective(a: Date, b: Date)
    requires Valid(a) && Valid(b)
    requires Ordinal(a) == Ordinal(b)
    ensures a == b
  {
    OrdinalOrder(a, b);
    OrdinalOrder(b, a);
  }

  /** The calendar days from `start` to `end` inclusive, one step of `NextDay`
      apart; empty when `start` is after `end`. */
  function DayRange(start: Date, end: Date): (r: seq<Date>)
    requires Valid(start) && Valid(end)
    ensures forall i :: 0 <= i < |r| ==> Valid(r[i])
    decreases Ordinal(end) - Ordinal(start)
  {
    if Ordinal(end) < Ordinal(start) then []
    else if Ordinal(end) == Ordinal(start) then [start]
    else
      var next := NextDay(start);
      if next.None? then [start]
      else [start] + DayRange(next.value, end)
  }

  /** The range holds one valid day per day number from `start`'s to `end`'s,
      ascending. */
  lemma {:induction false} DayRangeSpec(start: Date, end: Date)
    requires Valid(start) && Valid(end)
    ensures var r := DayRange(start, end);
      && |r| == (if Ordinal(start) <= Ordinal(end) then Ordinal(end) - Ordinal(start) + 1 else 0)
      && forall i :: 0 <= i < |r| ==> Valid(r[i]) && Ordinal(r[i]) == Ordinal(start) + i
    decreases Ordinal(end) - Ordinal(start)
  {
    if Ordinal(end) > Ordinal(start) {
      var next := NextDay(start);
      if start == LastDate {
        OrdinalOrder(end, LastDate);
      }
      DayRangeSpec(next.value, end);
    }
  }

  /** A valid date is in the range exactly when it lies between the bounds, and it
      is there once. */
  lemma DayRangeMembers(start: Date, end: Date, d: Date)
    requires Valid(start) && Valid(end) && Valid(d)
    ensures d in DayRange(start, end) <==> Le(start, d) && Le(d, end)
    ensures Le(start, d) && Le(d, end) ==>
      var i := Ordinal(d) - Ordinal(start);
      0 <= i < |DayRange(start, end)| && DayRange(start, end)[i] == d
  {
    var r := DayRange(start, end);
    DayRangeSpec(start, end);
    OrdinalOrder(start, d);
    OrdinalOrder(d, end);
    if Le(start, d) && Le(d, end) {
      var i := Ordinal(d) - Ordinal(start);
      OrdinalInjective(r[i], d);
    }
  }

  /** The range starts at `start` when it is not empty, and it is empty exactly
      when `start` is after `end`. */
  lemma DayRangeFirst(start: Date, end: Date)
    requires Valid(start) && Valid(end)
    ensures Le(start, end) <==> 0 < |DayRange(start, end)|
    ensures Le(start, end) ==> DayRange(start, end)[0] == start
  {
    DayRangeSpec(start, end);
    OrdinalOrder(start, end);
    if Le(start, end) {
      OrdinalInjective(start, DayRange(start, end)[0]);
    }
  }

  /** Each day of the range is followed by its next day, up to `end`; the day
      after the last lies after `end`, or does not exist. */
  lemma DayRangeNext(start: Date, end: Date, k: nat)
    requires Valid(start) && Valid(end)
    requires k < |DayRange(start, end)|
    ensures var days := DayRange(start, end);
      var next := NextDay(days[k]);
      && (next.None? ==> k + 1 == |days|)
      && (next.Some? ==> (Le(next.value, end) <==> k + 1 < |days|))
      && (next.Some? && k + 1 < |days| ==> next.value == days[k + 1])
  {
    var days := DayRange(start, end);
    DayRangeSpec(start, end);
    var next := NextDay(days[k]);
    if next.None? {
      OrdinalOrder(end, days[k]);
    } else {
      OrdinalOrder(next.value, end);
      if k + 1 < |days| {
        OrdinalInjective(next.value, days[k + 1]);
      }
    }
  }

  /** The range is strictly ascending, so no day is visited twice. */
  lemma DayRangeAscending(start: Date, end: Date, i: int, j: int)
    requires Valid(start) && Valid(end)
    requires 0 <= i < j < |DayRange(start, end)|
    ensures Le(DayRange(start, end)[i], DayRange(start, end)[j])
    ensures DayRange(start, end)[i] != DayRange(start, end)[j]
  {
    var r := DayRange(start, end);
    DayRangeSpec(start, end);
    OrdinalOrder(r[i], r[j]);
  }

  /** `strftime('%Y-%m-%d')`: four-digit year, two-digit month and day, zero-padded. */
  function IsoFormat(d: Date): (s: string)
    requires Valid(d)
    ensures |s| == 10 && s[4] == '-' && s[7] == '-'
  {
    [Digit(d.year / 1000), Digit(d.year / 100 % 10), Digit(d.year / 10 % 10), Digit(d.year % 10),
     '-', Digit(d.month / 10), Digit(d.month % 10),
     '-', Digit(d.day / 10), Digit(d.day % 10)]
  }

  /** The text of the first configured day. */
  lemma IsoExample()
    ensures IsoFormat(Date(2021, 10, 1)) == "2021-10-01"
  {
    assert Valid(Date(2021, 10, 1));
    assert Digit(2) == '2' && Digit(0) == '0' && Digit(1) == '1';
  }

  /** Reads a `YYYY-MM-DD` string back, digit by digit. */
  function IsoDecode(s: string): Date
    requires |s| == 10
  {
    Date(DigitValue(s[0]) * 1000 + DigitValue(s[1]) * 100 + DigitValue(s[2]) * 10 + DigitValue(s[3]),
         DigitValue(s[5]) * 10 + DigitValue(s[6]),
         DigitValue(s[8]) * 10 + DigitValue(s[9]))
  }

  /** The formatted date names its date: decoding it gives the date back. */
  lemma IsoRoundTrip(d: Date)
    requires Valid(d)
    ensures IsoDecode(IsoFormat(d)) == d
  {
    DecimalDigits(d.year);
  }

  lemma DecimalDigits(n: int)
    requires 0 <= n <= 9999
    ensures n / 1000 * 1000 + n / 100 % 10 * 100 + n / 10 % 10 * 10 + n % 10 == n
  {
    var a := n / 10;
    var b := a / 10;
    assert n == a * 10 + n % 10;
    assert a == b * 10 + a % 10;
    assert b == b / 10 * 10 + b % 10;
    assert b / 10 == n / 1000 && b == n / 100;
  }

  /** Distinct dates are formatted differently. */
  lemma IsoInjective(a: Date, b: Date)
    requires Valid(a) && Valid(b)
    requires IsoFormat(a) == IsoFormat(b)
    ensures a == b
  {
    IsoRoundTrip(a);
    IsoRoundTrip(b);
  }
}
