/**
  Proleptic Gregorian calendar arithmetic standing in for the `Date` methods
  the weekly chart uses (`getDay`, `getDate`, `setDate`, `getFullYear`,
  `getMonth`), and the `YYYY-MM-DD` strings (the full-date production of
  section 5.6 of RFC 3339) that the core writes and compares.

  Days are counted from 0000-01-01, a Saturday.
*/
module Calendar {
  import opened Options
  import opened Text

  datatype Date = Date(year: nat, month: nat, day: nat)

  predicate IsLeap(y: nat) {
    y % 4 == 0 && (y % 100 != 0 || y % 400 == 0)
  }

  function DaysInMonth(y: nat, m: nat): nat
    requires 1 <= m <= 12
  {
    if m == 2 then (if IsLeap(y) then 29 else 28)
    else if m == 4 || m == 6 || m == 9 || m == 11 then 30
    else 31
  }

  predicate Valid(d: Date) {
    1 <= d.month <= 12 && 1 <= d.day <= DaysInMonth(d.year, d.month)
  }

  /** Days of year `y` before the first of month `m`; month 13 stands for the whole year. */
  function DaysBeforeMonth(y: nat, m: nat): nat
    requires 1 <= m <= 13
  {
    [0, 31, 59, 90, 120, 151, 181, 212, 243, 273, 304, 334, 365][m - 1]
    + (if IsLeap(y) && m > 2 then 1 else 0)
  }

  /** Days before 0000-01-01 of year `y`: 365 per year plus one per leap year before `y`. */
  function DaysBeforeYear(y: nat): nat {
    365 * y + (y + 3) / 4 - (y + 99) / 100 + (y + 399) / 400
  }

  /** Days since 0000-01-01 (the epoch-independent stand-in for `getTime()`). */
  function DayNumber(d: Date): nat
    requires Valid(d)
  {
    DaysBeforeYear(d.year) + DaysBeforeMonth(d.year, d.month) + d.day - 1
  }

  /** `getDay()`: 0 for Sunday through 6 for Saturday. */
  function Weekday(d: Date): (w: nat)
    requires Valid(d)
    ensures w < 7
  {
    (DayNumber(d) + 6) % 7
  }

  lemma MonthStep(y: nat, m: nat)
    requires 1 <= m <= 12
    ensures DaysBeforeMonth(y, m + 1) == DaysBeforeMonth(y, m) + DaysInMonth(y, m)
  {
  }

  lemma Div4(y: nat) ensures (y + 4) / 4 == (y + 3) / 4 + (if y % 4 == 0 then 1 else 0) {}
  lemma Div100(y: nat) ensures (y + 100) / 100 == (y + 99) / 100 + (if y % 100 == 0 then 1 else 0) {}
  lemma Div400(y: nat) ensures (y + 400) / 400 == (y + 399) / 400 + (if y % 400 == 0 then 1 else 0) {}

  lemma Multiples(y: nat)
    ensures y % 400 == 0 ==> y % 100 == 0
    ensures y % 100 == 0 ==> y % 4 == 0
  {
    if y % 400 == 0 {
      var k := y / 400;
      assert y == 100 * (4 * k);
    }
    if y % 100 == 0 {
      var k := y / 100;
      assert y == 4 * (25 * k);
    }
  }

  /** A year has 366 days when it is a leap year and 365 otherwise. */
  lemma YearStep(y: nat)
    ensures DaysBeforeYear(y + 1) == DaysBeforeYear(y) + DaysBeforeMonth(y, 13)
    ensures DaysBeforeMonth(y, 13) == if IsLeap(y) then 366 else 365
  {
    Div4(y);
    Div100(y);
    Div400(y);
    Multiples(y);
  }

  lemma {:induction false} YearsIncrease(a: nat, b: nat)
    requires a < b
    ensures DaysBeforeYear(a + 1) <= DaysBeforeYear(b)
    decreases b - a
  {
    YearStep(a);
    if a + 1 < b {
      YearsIncrease(a + 1, b);
      YearStep(a + 1);
    }
  }

  lemma {:induction false} MonthsIncrease(y: nat, a: nat, b: nat)
    requires 1 <= a < b <= 13
    ensures DaysBeforeMonth(y, a) + DaysInMonth(y, a) <= DaysBeforeMonth(y, b)
  {
    MonthStep(y, a);
  }

  /** A valid date's number lies inside its year and inside its month. */
  lemma DayNumberRange(d: Date)
    requires Valid(d)
    ensures DaysBeforeYear(d.year) <= DayNumber(d) < DaysBeforeYear(d.year + 1)
    ensures DaysBeforeMonth(d.year, d.month) <= DayNumber(d) - DaysBeforeYear(d.year)
    ensures DayNumber(d) - DaysBeforeYear(d.year) < DaysBeforeMonth(d.year, d.month) + DaysInMonth(d.year, d.month)
  {
    YearStep(d.year);
    MonthStep(d.year, d.month);
    if d.month < 12 {
      MonthsIncrease(d.year, d.month + 1, 13);
      MonthStep(d.year, d.month + 1);
    }
  }

  /** Different valid dates have different day numbers. */
  lemma DayNumberInjective(a: Date, b: Date)
    requires Valid(a) && Valid(b)
    requires DayNumber(a) == DayNumber(b)
    ensures a == b
  {
    DayNumberRange(a);
    DayNumberRange(b);
    var n := DayNumber(a);
    OneYear(n, a.year, b.year);
    OneMonth(n - DaysBeforeYear(a.year), a.year, a.month, b.month);
  }

  /** A day number lies in one year only. */
  lemma OneYear(n: nat, ya: nat, yb: nat)
    requires DaysBeforeYear(ya) <= n < DaysBeforeYear(ya + 1)
    requires DaysBeforeYear(yb) <= n < DaysBeforeYear(yb + 1)
    ensures ya == yb
  {
    if ya < yb {
      YearsIncrease(ya, yb);
    } else if yb < ya {
      YearsIncrease(yb, ya);
    }
  }

  /** A day of the year lies in one month only. */
  lemma OneMonth(k: int, y: nat, ma: nat, mb: nat)
    requires 1 <= ma <= 12 && 1 <= mb <= 12
    requires DaysBeforeMonth(y, ma) <= k < DaysBeforeMonth(y, ma) + DaysInMonth(y, ma)
    requires DaysBeforeMonth(y, mb) <= k < DaysBeforeMonth(y, mb) + DaysInMonth(y, mb)
    ensures ma == mb
  {
    if ma < mb {
      MonthsIncrease(y, ma, mb);
    } else if mb < ma {
      MonthsIncrease(y, mb, ma);
    }
  }

  /** The following day. */
  function NextDay(d: Date): (r: Date)
    requires Valid(d)
    ensures Valid(r) && DayNumber(r) == DayNumber(d) + 1
  {
    if d.day < DaysInMonth(d.year, d.month) then Date(d.year, d.month, d.day + 1)
    else if d.month < 12 then
      MonthStep(d.year, d.month);
      Date(d.year, d.month + 1, 1)
    else
      YearStep(d.year);
      Date(d.year + 1, 1, 1)
  }

  /** The preceding day; 0000-01-01 has none. */
  function PrevDay(d: Date): (r: Date)
    requires Valid(d) && DayNumber(d) > 0
    ensures Valid(r) && DayNumber(r) + 1 == DayNumber(d)
  {
    if d.day > 1 then Date(d.year, d.month, d.day - 1)
    else if d.month > 1 then
      MonthStep(d.year, d.month - 1);
      Date(d.year, d.month - 1, DaysInMonth(d.year, d.month - 1))
    else
      YearStep(d.year - 1);
      Date(d.year - 1, 12, 31)
  }

  /** The date `k` days away from `d` (back when `k` is negative). */
  function Shift(d: Date, k: int): (r: Date)
    requires Valid(d) && DayNumber(d) + k >= 0
    ensures Valid(r) && DayNumber(r) == DayNumber(d) + k
    decreases if k < 0 then -k else k
  {
    if k == 0 then d
    else if k > 0 then Shift(NextDay(d), k - 1)
    else Shift(PrevDay(d), k + 1)
  }

  /**
    `d.setDate(n)`: day `n` of `d`'s month, where days past the end of the
    month run on into the next months and days below 1 run back into the
    previous ones.
  */
  function SetDate(d: Date, n: int): (r: Date)
    requires Valid(d) && DayNumber(d) - d.day + n >= 0
    ensures Valid(r) && DayNumber(r) == DayNumber(d) - d.day + n
  {
    Shift(Date(d.year, d.month, 1), n - 1)
  }

  /** `startOfWeek`: `today.setDate(today.getDate() - today.getDay())`, the Sunday on or before `today`. */
  function WeekStart(today: Date): (r: Date)
    requires Valid(today) && today.year >= 1
    ensures Valid(r) && DayNumber(r) + Weekday(today) == DayNumber(today)
  {
    DayNumberRange(today);
    SetDate(today, today.day - Weekday(today))
  }

  /**
    The week shown by the weekly chart: `setDate(startOfWeek.getDate() + i)`
    on a copy of `startOfWeek`, for `i` in 0..6.
  */
  function WeekDates(today: Date): (w: seq<Date>)
    requires Valid(today) && today.year >= 1
    ensures |w| == 7
    ensures forall i :: 0 <= i < 7 ==> Valid(w[i]) && DayNumber(w[i]) == DayNumber(WeekStart(today)) + i
  {
    var start := WeekStart(today);
    seq(7, i requires 0 <= i < 7 => DayOfWeek(start, i))
  }

  /** Entry `i` of the week: a copy of `start` with `setDate(start.getDate() + i)`. */
  function DayOfWeek(start: Date, i: nat): (r: Date)
    requires Valid(start)
    ensures Valid(r) && DayNumber(r) == DayNumber(start) + i
  {
    SetDate(start, start.day + i)
  }

  lemma WeekdayStep(x: nat, i: nat)
    requires i < 7
    ensures (x - (x + 6) % 7 + i + 6) % 7 == i
  {
    var q := (x + 6) / 7;
    assert x + 6 == 7 * q + (x + 6) % 7;
    assert x - (x + 6) % 7 + i + 6 == 7 * q + i;
  }

  /**
    The week is seven consecutive valid dates, the first a Sunday and each
    one's weekday its position, and `today` is the entry at the position of
    its own weekday.
  */
  lemma WeekShape(today: Date)
    requires Valid(today) && today.year >= 1
    ensures forall i :: 0 <= i < 7 ==> Weekday(WeekDates(today)[i]) == i
    ensures WeekDates(today)[Weekday(today)] == today
  {
    var w := WeekDates(today);
    forall i | 0 <= i < 7
      ensures Weekday(w[i]) == i
    {
      WeekEntryWeekday(today, w, i);
    }
    DayNumberInjective(w[Weekday(today)], today);
  }

  lemma WeekEntryWeekday(today: Date, w: seq<Date>, i: nat)
    requires Valid(today) && today.year >= 1 && i < 7 && w == WeekDates(today)
    ensures Weekday(w[i]) == i
  {
    var n, m := DayNumber(today), DayNumber(w[i]);
    var wd := Weekday(today);
    assert wd == (n + 6) % 7;
    assert m == n - wd + i;
    WeekdayStep(n, i);
    assert Weekday(w[i]) == (m + 6) % 7;
  }

  /** The week's dates are pairwise different. */
  lemma WeekDistinct(today: Date)
    requires Valid(today) && today.year >= 1
    ensures forall i, j :: 0 <= i < j < 7 ==> WeekDates(today)[i] != WeekDates(today)[j]
  {
  }

  /** `${year}-${month}-${day}` with month and day padded to two digits. */
  function FormatIso(d: Date): string {
    NatToString(d.year) + "-" + Pad2(d.month) + "-" + Pad2(d.day)
  }

  /** A string of the form DDDD-DD-DD. */
  predicate IsoShaped(s: string) {
    |s| == 10 && s[4] == '-' && s[7] == '-'
    && AllDigits(s[..4]) && AllDigits(s[5..7]) && AllDigits(s[8..])
  }

  /** Reads a `YYYY-MM-DD` string; anything else, or a day that does not exist, gives `None`. */
  function ParseIso(s: string): (r: Option<Date>)
    ensures r.Some? ==> IsoShaped(s) && Valid(r.value) && r.value.year <= 9999
  {
    if IsoShaped(s) then
      var d := Date(DigitsValue(s[..4]), DigitsValue(s[5..7]), DigitsValue(s[8..]));
      assert DigitsValue(s[..4]) <= 9999 by {
        DigitsValueBound(s[..4]);
      }
      if Valid(d) then Some(d) else None
    else None
  }

  lemma SplitAt<T>(a1: seq<T>, a2: seq<T>, b1: seq<T>, b2: seq<T>)
    requires a1 + a2 == b1 + b2 && |a2| == |b2|
    ensures a1 == b1 && a2 == b2
  {
    assert a1 == (a1 + a2)[..|a1|];
    assert b1 == (b1 + b2)[..|b1|];
  }

  /** Different valid dates format to different strings. */
  lemma FormatIsoInjective(a: Date, b: Date)
    requires Valid(a) && Valid(b)
    requires FormatIso(a) == FormatIso(b)
    ensures a == b
  {
    Pad2Value(a.month);
    Pad2Value(b.month);
    Pad2Value(a.day);
    Pad2Value(b.day);
    SplitAt(NatToString(a.year) + "-" + Pad2(a.month) + "-", Pad2(a.day),
            NatToString(b.year) + "-" + Pad2(b.month) + "-", Pad2(b.day));
    SplitAt(NatToString(a.year) + "-" + Pad2(a.month), "-", NatToString(b.year) + "-" + Pad2(b.month), "-");
    SplitAt(NatToString(a.year) + "-", Pad2(a.month), NatToString(b.year) + "-", Pad2(b.month));
    SplitAt(NatToString(a.year), "-", NatToString(b.year), "-");
    NatToStringInjective(a.year, b.year);
    Pad2Injective(a.month, b.month);
    Pad2Injective(a.day, b.day);
  }

  /** A four-digit-year date survives formatting and reading back. */
  lemma ParseFormatIso(d: Date)
    requires Valid(d) && 1000 <= d.year <= 9999
    ensures IsoShaped(FormatIso(d))
    ensures ParseIso(FormatIso(d)) == Some(d)
  {
    var s := FormatIso(d);
    NatToStringFour(d.year);
    NatToStringValue(d.year);
    Pad2Value(d.month);
    Pad2Value(d.day);
    assert s[..4] == NatToString(d.year);
    assert s[5..7] == Pad2(d.month);
    assert s[8..] == Pad2(d.day);
  }

  /** The short English weekday names, `toLocaleDateString('en-US', { weekday: 'short' })`. */
  const WeekdayNames: seq<string> := ["Sun", "Mon", "Tue", "Wed", "Thu", "Fri", "Sat"]

  function WeekdayName(d: Date): (r: string)
    requires Valid(d)
    ensures r in WeekdayNames
  {
    WeekdayNames[Weekday(d)]
  }
}
