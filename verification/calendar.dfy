/** Proleptic Gregorian dates over the range Python's `datetime` supports
    (years 1 through 9999), with the day arithmetic that `timedelta`
    performs. Adding days past either end of the range is an overflow,
    modelled as `None`. */
module Calendar {
  import opened Options

  const MinYear := 1
  const MaxYear := 9999

  datatype Date = Date(year: int, month: int, day: int)

  /** A point in time, as `datetime` holds it: a date and the microseconds
      elapsed since its midnight. */
  datatype Timestamp = Timestamp(date: Date, micros: int)

  predicate IsLeapYear(y: int) {
    y % 4 == 0 && (y % 100 != 0 || y % 400 == 0)
  }

  function DaysInMonth(y: int, m: int): int {
    if m == 2 then (if IsLeapYear(y) then 29 else 28)
    else if m == 4 || m == 6 || m == 9 || m == 11 then 30
    else 31
  }

  function DaysInYear(y: int): int {
    if IsLeapYear(y) then 366 else 365
  }

  predicate Valid(d: Date) {
    && MinYear <= d.year <= MaxYear
    && 1 <= d.month <= 12
    && 1 <= d.day <= DaysInMonth(d.year, d.month)
  }

  predicate ValidTimestamp(t: Timestamp) {
    Valid(t.date) && 0 <= t.micros < 86_400_000_000
  }

  const FirstDate := Date(MinYear, 1, 1)
  const LastDate := Date(MaxYear, 12, 31)

  /** The day after `d`, or `None` past the last representable date. */
  function NextDay(d: Date): Option<Date> {
    if d.day < DaysInMonth(d.year, d.month) then Some(Date(d.year, d.month, d.day + 1))
    else if d.month < 12 then Some(Date(d.year, d.month + 1, 1))
    else if d.year < MaxYear then Some(Date(d.year + 1, 1, 1))
    else None
  }

  /** The day before `d`, or `None` before the first representable date. */
  function PrevDay(d: Date): Option<Date> {
    if d.day > 1 then Some(Date(d.year, d.month, d.day - 1))
    else if d.month > 1 then Some(Date(d.year, d.month - 1, DaysInMonth(d.year, d.month - 1)))
    else if d.year > MinYear then Some(Date(d.year - 1, 12, 31))
    else None
  }

  /** `d + timedelta(days=n)`: one day at a time, forwards or backwards. */
  function AddDays(d: Date, n: int): Option<Date>
    decreases if n < 0 then -n else n
  {
    if n == 0 then Some(d)
    else if n > 0 then
      match NextDay(d)
      case None => None
      case Some(e) => AddDays(e, n - 1)
    else
      match PrevDay(d)
      case None => None
      case Some(e) => AddDays(e, n + 1)
  }

  /* ---------------- Day numbers ---------------- */

  function DaysBeforeYear(y: int): int {
    var p := y - 1;
    365 * p + p / 4 - p / 100 + p / 400
  }

  function DaysBeforeMonth(y: int, m: int): int {
    var common :=
      if m <= 1 then 0 else if m == 2 then 31 else if m == 3 then 59
      else if m == 4 then 90 else if m == 5 then 120 else if m == 6 then 151
      else if m == 7 then 181 else if m == 8 then 212 else if m == 9 then 243
      else if m == 10 then 273 else if m == 11 then 304 else 334;
    common + (if m > 2 && IsLeapYear(y) then 1 else 0)
  }

  /** `date.toordinal()`: 0001-01-01 is day 1. */
  function Ordinal(d: Date): int {
    DaysBeforeYear(d.year) + DaysBeforeMonth(d.year, d.month) + d.day
  }

  /** The ordinal of `LastDate`. */
  const MaxOrdinal := 3652059

  /** `date.weekday()`: Monday is 0 and Sunday is 6. */
  function Weekday(d: Date): int {
    (Ordinal(d) + 6) % 7
  }

  /** Dates compared as days. */
  predicate DateLe(a: Date, b: Date) {
    Ordinal(a) <= Ordinal(b)
  }

  /** Timestamps compared as (day, time of day). */
  predicate TimestampLe(a: Timestamp, b: Timestamp) {
    Ordinal(a.date) < Ordinal(b.date) || (Ordinal(a.date) == Ordinal(b.date) && a.micros <= b.micros)
  }

  /** A date used where a timestamp is expected means its midnight. */
  function Midnight(d: Date): Timestamp {
    Timestamp(d, 0)
  }

  /* ---------------- Lemmas ---------------- */

  lemma DaysBeforeMonthStep(y: int, m: int)
    requires 1 <= m < 12
    ensures DaysBeforeMonth(y, m + 1) == DaysBeforeMonth(y, m) + DaysInMonth(y, m)
  {
  }

  lemma DaysBeforeYearStep(y: int)
    requires y >= 1
    ensures DaysBeforeYear(y + 1) == DaysBeforeYear(y) + DaysInYear(y)
  {
    LeapCounts(y - 1);
    LeapDivisors(y);
  }

  /** Going from `p` to `p + 1` adds one to the count of multiples of 4,
      100 and 400 exactly when `p + 1` is one. */
  lemma LeapCounts(p: int)
    requires p >= 0
    ensures (p + 1) / 4 == p / 4 + (if (p + 1) % 4 == 0 then 1 else 0)
    ensures (p + 1) / 100 == p / 100 + (if (p + 1) % 100 == 0 then 1 else 0)
    ensures (p + 1) / 400 == p / 400 + (if (p + 1) % 400 == 0 then 1 else 0)
  {
  }

  lemma LeapDivisors(y: int)
    ensures y % 400 == 0 ==> y % 100 == 0
    ensures y % 100 == 0 ==> y % 4 == 0
  {
  }

  lemma {:induction false} DaysBeforeYearMonotone(a: int, b: int)
    requires 1 <= a <= b
    ensures DaysBeforeYear(a) <= DaysBeforeYear(b)
    decreases b - a
  {
    if a < b {
      DaysBeforeYearStep(a);
      DaysBeforeYearMonotone(a + 1, b);
    }
  }

  /** Every valid date has an ordinal between 1 and `MaxOrdinal`. */
  lemma OrdinalRange(d: Date)
    requires Valid(d)
    ensures 1 <= Ordinal(d) <= MaxOrdinal
  {
    assert DaysBeforeYear(d.year) >= 0;
    assert DaysBeforeMonth(d.year, d.month) + DaysInMonth(d.year, d.month) <= DaysInYear(d.year);
    DaysBeforeYearStep(d.year);
    DaysBeforeYearMonotone(d.year + 1, MaxYear + 1);
    assert DaysBeforeYear(MaxYear + 1) == MaxOrdinal;
  }

  lemma NextDaySpec(d: Date)
    requires Valid(d)
    ensures NextDay(d).None? <==> d == LastDate
    ensures NextDay(d).Some? ==> Valid(NextDay(d).value) && Ordinal(NextDay(d).value) == Ordinal(d) + 1
  {
    if d.day < DaysInMonth(d.year, d.month) {
    } else if d.month < 12 {
      DaysBeforeMonthStep(d.year, d.month);
    } else if d.year < MaxYear {
      DaysBeforeYearStep(d.year);
    }
  }

  lemma PrevDaySpec(d: Date)
    requires Valid(d)
    ensures PrevDay(d).None? <==> d == FirstDate
    ensures PrevDay(d).Some? ==> Valid(PrevDay(d).value) && Ordinal(PrevDay(d).value) == Ordinal(d) - 1
  {
    if d.day > 1 {
      assert PrevDay(d) == Some(Date(d.year, d.month, d.day - 1));
    } else if d.month > 1 {
      var e := Date(d.year, d.month - 1, DaysInMonth(d.year, d.month - 1));
      assert PrevDay(d) == Some(e);
      DaysBeforeMonthStep(d.year, d.month - 1);
      assert Ordinal(e) == Ordinal(d) - 1;
    } else if d.year > MinYear {
      var e := Date(d.year - 1, 12, 31);
      assert PrevDay(d) == Some(e);
      DaysBeforeYearStep(d.year - 1);
      assert DaysBeforeMonth(d.year - 1, 12) + 31 == DaysInYear(d.year - 1);
      assert Ordinal(e) == Ordinal(d) - 1;
    } else {
      assert d == FirstDate;
    }
  }

  /** Adding `n` days moves the ordinal by exactly `n`, and overflows exactly
      when the target ordinal leaves the representable range. */
  lemma AddDaysSpec(d: Date, n: int)
    requires Valid(d)
    ensures AddDays(d, n).Some? <==> 1 <= Ordinal(d) + n <= MaxOrdinal
    ensures AddDays(d, n).Some? ==> Valid(AddDays(d, n).value) && Ordinal(AddDays(d, n).value) == Ordinal(d) + n
  {
    OrdinalRange(d);
    if n >= 0 {
      AddDaysForward(d, n);
    } else {
      AddDaysBackward(d, -n);
    }
  }

  /** Stepping forwards `n` days reaches ordinal `Ordinal(d) + n`, failing
      exactly when that passes `MaxOrdinal`. */
  lemma {:induction false} AddDaysForward(d: Date, n: nat)
    requires Valid(d) && Ordinal(d) <= MaxOrdinal
    ensures AddDays(d, n).Some? <==> Ordinal(d) + n <= MaxOrdinal
    ensures AddDays(d, n).Some? ==> Valid(AddDays(d, n).value) && Ordinal(AddDays(d, n).value) == Ordinal(d) + n
    decreases n
  {
    if n > 0 {
      NextDaySpec(d);
      match NextDay(d)
      case None =>
        assert Ordinal(LastDate) == MaxOrdinal;
      case Some(e) =>
        assert AddDays(d, n) == AddDays(e, n - 1);
        AddDaysForward(e, n - 1);
    }
  }

  /** Stepping backwards `n` days reaches ordinal `Ordinal(d) - n`, failing
      exactly when that falls below 1. */
  lemma {:induction false} AddDaysBackward(d: Date, n: int)
    requires Valid(d) && 1 <= Ordinal(d) && 0 <= n
    ensures AddDays(d, -n).Some? <==> 1 <= Ordinal(d) - n
    ensures AddDays(d, -n).Some? ==> Valid(AddDays(d, -n).value) && Ordinal(AddDays(d, -n).value) == Ordinal(d) - n
    decreases n
  {
    if n > 0 {
      PrevDaySpec(d);
      match PrevDay(d)
      case None =>
        assert Ordinal(FirstDate) == 1;
      case Some(e) =>
        assert AddDays(d, -n) == AddDays(e, -n + 1);
        AddDaysBackward(e, n - 1);
    }
  }

  /** Adding days that stay inside the month only moves the day of the month. */
  lemma {:induction false} AddDaysWithinMonth(d: Date, k: nat)
    requires Valid(d)
    requires d.day + k <= DaysInMonth(d.year, d.month)
    ensures AddDays(d, k) == Some(Date(d.year, d.month, d.day + k))
    decreases k
  {
    if k > 0 {
      AddDaysWithinMonth(Date(d.year, d.month, d.day + 1), k - 1);
    }
  }

  /** The month after (y, m), as (year, month). */
  function NextMonth(y: int, m: int): (int, int) {
    if m < 12 then (y, m + 1) else (y + 1, 1)
  }

  /** Adding days that run past the end of the month, but not past the end of
      the next one, lands in the next month. */
  lemma {:induction false} AddDaysIntoNextMonth(d: Date, k: nat)
    requires Valid(d)
    requires !(d.year == MaxYear && d.month == 12)
    requires DaysInMonth(d.year, d.month) < d.day + k
    requires d.day + k - DaysInMonth(d.year, d.month) <= DaysInMonth(NextMonth(d.year, d.month).0, NextMonth(d.year, d.month).1)
    ensures AddDays(d, k) == Some(Date(NextMonth(d.year, d.month).0, NextMonth(d.year, d.month).1, d.day + k - DaysInMonth(d.year, d.month)))
    decreases k
  {
    var dim := DaysInMonth(d.year, d.month);
    var (ny, nm) := NextMonth(d.year, d.month);
    if d.day < dim {
      AddDaysIntoNextMonth(Date(d.year, d.month, d.day + 1), k - 1);
    } else {
      assert NextDay(d) == Some(Date(ny, nm, 1));
      AddDaysWithinMonth(Date(ny, nm, 1), k - 1);
    }
  }
}
