/**
 * Calendar dates as Python's `datetime.date` treats them: a year from 1 to 9999,
 * a month and a day valid in the Gregorian calendar. `Ordinal` is `date.toordinal()`
 * (1 January of year 1 is day 1), so `date + timedelta(days=k)` is the date whose
 * ordinal is `k` more and `(a - b).days` is the difference of ordinals.
 * `IsoFormat` is `str(date)`, the `YYYY-MM-DD` form.
 */
module Dates {
  import opened Wrappers
  import opened Text

  datatype YearMonthDay = YearMonthDay(year: int, month: int, day: int)

  predicate IsLeap(y: int) {
    y % 4 == 0 && (y % 100 != 0 || y % 400 == 0)
  }

  function DaysInMonth(y: int, m: int): (n: int)
    requires 1 <= m <= 12
    ensures 28 <= n <= 31
  {
    if m == 2 then (if IsLeap(y) then 29 else 28)
    else if m == 4 || m == 6 || m == 9 || m == 11 then 30
    else 31
  }

  predicate IsCalendarDate(d: YearMonthDay) {
    1 <= d.year <= 9999 && 1 <= d.month <= 12 && 1 <= d.day <= DaysInMonth(d.year, d.month)
  }

  /** The values a `date` can hold (MINYEAR = 1, MAXYEAR = 9999). */
  type Date = d: YearMonthDay | IsCalendarDate(d) witness YearMonthDay(1, 1, 1)

  function DaysBeforeYear(y: int): int {
    var p := y - 1;
    p * 365 + p / 4 - p / 100 + p / 400
  }

  function DaysBeforeMonth(y: int, m: int): int
    requires 1 <= m <= 12
  {
    [0, 31, 59, 90, 120, 151, 181, 212, 243, 273, 304, 334][m - 1]
      + (if m > 2 && IsLeap(y) then 1 else 0)
  }

  /** `date.toordinal()`. */
  function Ordinal(d: Date): int {
    DaysBeforeYear(d.year) + DaysBeforeMonth(d.year, d.month) + d.day
  }

  /** Calendar order: the order of the tuples (year, month, day), which `date.__lt__` compares. */
  predicate Before(a: Date, b: Date) {
    a.year < b.year
    || (a.year == b.year && a.month < b.month)
    || (a.year == b.year && a.month == b.month && a.day < b.day)
  }

  lemma MonthsBefore(y: int, m1: int, m2: int)
    requires 1 <= m1 < m2 <= 12
    ensures DaysBeforeMonth(y, m1) + DaysInMonth(y, m1) <= DaysBeforeMonth(y, m2)
  {
  }

  /** Counting multiples of 4, 100 and 400 up to `y` rather than `y - 1` adds one exactly when `y` is such a multiple. */
  lemma MultipleStep4(y: int)
    ensures y / 4 - (y - 1) / 4 == if y % 4 == 0 then 1 else 0
  {
  }

  lemma MultipleStep100(y: int)
    ensures y / 100 - (y - 1) / 100 == if y % 100 == 0 then 1 else 0
  {
  }

  lemma MultipleStep400(y: int)
    ensures y / 400 - (y - 1) / 400 == if y % 400 == 0 then 1 else 0
  {
  }

  /** A year has 365 days, 366 when it is a leap year. */
  lemma YearLength(y: int)
    requires y >= 1
    ensures DaysBeforeYear(y + 1) == DaysBeforeYear(y) + DaysBeforeMonth(y, 12) + DaysInMonth(y, 12)
  {
    MultipleStep4(y);
    MultipleStep100(y);
    MultipleStep400(y);
    var four := if y % 4 == 0 then 1 else 0;
    var hundred := if y % 100 == 0 then 1 else 0;
    var fourHundred := if y % 400 == 0 then 1 else 0;
    assert DaysBeforeYear(y + 1) == DaysBeforeYear(y) + 365 + four - hundred + fourHundred;
    LeapByMultiples(y);
    assert DaysBeforeMonth(y, 12) + DaysInMonth(y, 12) == 365 + four - hundred + fourHundred;
  }

  /** The leap-year rule as a count: a multiple of 400 is one of 100, which is one of 4. */
  lemma LeapByMultiples(y: int)
    ensures (if IsLeap(y) then 1 else 0)
      == (if y % 4 == 0 then 1 else 0) - (if y % 100 == 0 then 1 else 0) + (if y % 400 == 0 then 1 else 0)
  {
    if y % 400 == 0 {
      MultipleOf400(y / 400);
      MultipleOf100(y / 100);
    } else if y % 100 == 0 {
      MultipleOf100(y / 100);
    }
  }

  lemma MultipleOf400(m: int)
    ensures (400 * m) % 100 == 0
  {
  }

  lemma MultipleOf100(m: int)
    ensures (100 * m) % 4 == 0
  {
  }

  lemma {:induction false} YearsBefore(y1: int, y2: int)
    requires 1 <= y1 < y2
    ensures DaysBeforeYear(y1) + DaysBeforeMonth(y1, 12) + DaysInMonth(y1, 12) <= DaysBeforeYear(y2)
    decreases y2 - y1
  {
    YearLength(y1);
    if y1 + 1 < y2 {
      YearsBefore(y1 + 1, y2);
      YearLength(y1 + 1);
    }
  }

  lemma EarlierDate(a: Date, b: Date)
    requires Before(a, b)
    ensures Ordinal(a) < Ordinal(b)
  {
    if a.year < b.year {
      if a.month < 12 {
        MonthsBefore(a.year, a.month, 12);
      }
      YearsBefore(a.year, b.year);
    } else if a.month < b.month {
      MonthsBefore(a.year, a.month, b.month);
    }
  }

  /**
   * Ordinals order dates exactly as the calendar does, so comparing ordinals is
   * comparing dates, and two dates with the same ordinal are the same date.
   */
  lemma OrdinalOrder(a: Date, b: Date)
    ensures Before(a, b) <==> Ordinal(a) < Ordinal(b)
    ensures a == b <==> Ordinal(a) == Ordinal(b)
  {
    if Before(a, b) {
      EarlierDate(a, b);
    } else if Before(b, a) {
      EarlierDate(b, a);
    } else {
      assert a == b;
    }
  }

  /** `OrdinalOrder` against a fixed date `b`, for every other date at once. */
  lemma OrdinalOrderAll(b: Date)
    ensures forall a: Date ::
      && (Before(a, b) <==> Ordinal(a) < Ordinal(b))
      && (Before(b, a) <==> Ordinal(b) < Ordinal(a))
      && (a == b <==> Ordinal(a) == Ordinal(b))
  {
    forall a: Date
      ensures Before(a, b) <==> Ordinal(a) < Ordinal(b)
      ensures Before(b, a) <==> Ordinal(b) < Ordinal(a)
      ensures a == b <==> Ordinal(a) == Ordinal(b)
    {
      OrdinalOrder(a, b);
      OrdinalOrder(b, a);
    }
  }

  /** `str(d)`: `%04d-%02d-%02d`. */
  function IsoFormat(d: Date): string {
    PadDigits(d.year, 4) + "-" + PadDigits(d.month, 2) + "-" + PadDigits(d.day, 2)
  }

  /** `date.fromisoformat` on the `YYYY-MM-DD` form: `None` for anything else or for an impossible date. */
  function ParseIso(s: string): (r: Option<Date>)
    ensures r.Some? ==> |s| == 10 && s[4] == '-' && s[7] == '-'
  {
    if |s| == 10 && s[4] == '-' && s[7] == '-'
      && AllDigits(s[..4]) && AllDigits(s[5..7]) && AllDigits(s[8..])
    then
      var ymd := YearMonthDay(ValueOf(s[..4]), ValueOf(s[5..7]), ValueOf(s[8..]));
      if IsCalendarDate(ymd) then Some(ymd) else None
    else
      None
  }

  /** Every date prints as ten characters that parse back to the same date. */
  lemma IsoRoundTrip(d: Date)
    ensures |IsoFormat(d)| == 10
    ensures ParseIso(IsoFormat(d)) == Some(d)
  {
    var y, m, dd := PadDigits(d.year, 4), PadDigits(d.month, 2), PadDigits(d.day, 2);
    PadDigitsLength(d.year, 4);
    PadDigitsLength(d.month, 2);
    PadDigitsLength(d.day, 2);
    PadDigitsRoundTrip(d.year, 4);
    PadDigitsRoundTrip(d.month, 2);
    PadDigitsRoundTrip(d.day, 2);
    var s := IsoFormat(d);
    assert s == y + "-" + m + "-" + dd;
    assert s[..4] == y && s[5..7] == m && s[8..] == dd;
  }
}
