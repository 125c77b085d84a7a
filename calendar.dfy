/**
 * The proleptic Gregorian calendar as Python's `datetime.date` has it: dates from
 * 0001-01-01 to 9999-12-31, the ordinal day number (`date.toordinal()`), adding a
 * number of days (`date + timedelta(days=n)`, OverflowError outside the range) and
 * the order in which `time.struct_time` values produced from dates compare.
 */
module Calendar {
  import opened Wrappers

  datatype Date = Date(year: int, month: int, day: int)

  const MinYear := 1
  const MaxYear := 9999
  const FirstDate := Date(MinYear, 1, 1)
  const LastDate := Date(MaxYear, 12, 31)
  /** `date.max.toordinal()` */
  const MaxOrdinal := 3652059

  predicate IsLeapYear(y: int)
  {
    y % 4 == 0 && (y % 100 != 0 || y % 400 == 0)
  }

  function DaysInYear(y: int): int
  {
    if IsLeapYear(y) then 366 else 365
  }

  function DaysInMonth(y: int, m: int): (n: int)
    requires 1 <= m <= 12
    ensures 28 <= n <= 31
  {
    if m == 2 then (if IsLeapYear(y) then 29 else 28)
    else if m == 4 || m == 6 || m == 9 || m == 11 then 30
    else 31
  }

  /** A date `datetime.date` accepts. */
  predicate Valid(d: Date)
  {
    MinYear <= d.year <= MaxYear && 1 <= d.month <= 12 && 1 <= d.day <= DaysInMonth(d.year, d.month)
  }

  /** Days in the years before `y`: the lengths of years 1 .. y - 1 added up. */
  function DaysBeforeYear(y: int): int
    requires y >= 1
  {
    if y == 1 then 0 else DaysBeforeYear(y - 1) + DaysInYear(y - 1)
  }

  /** Days in the months of year `y` before month `m` (Python's `_days_before_month`). */
  function DaysBeforeMonth(y: int, m: int): int
    requires 1 <= m <= 12
  {
    var common :=
      match m
      case 1 => 0    case 2 => 31   case 3 => 59   case 4 => 90
      case 5 => 120  case 6 => 151  case 7 => 181  case 8 => 212
      case 9 => 243  case 10 => 273 case 11 => 304 case _ => 334;
    common + (if m > 2 && IsLeapYear(y) then 1 else 0)
  }

  /** `d.toordinal()`: 0001-01-01 is day 1. */
  function Ordinal(d: Date): int
    requires Valid(d)
  {
    DaysBeforeYear(d.year) + DaysBeforeMonth(d.year, d.month) + d.day
  }

  /** The day after `d`. */
  function NextDay(d: Date): (r: Date)
    requires Valid(d) && d != LastDate
    ensures Valid(r)
  {
    if d.day < DaysInMonth(d.year, d.month) then Date(d.year, d.month, d.day + 1)
    else if d.month < 12 then Date(d.year, d.month + 1, 1)
    else Date(d.year + 1, 1, 1)
  }

  /** The day before `d`. */
  function PreviousDay(d: Date): (r: Date)
    requires Valid(d) && d != FirstDate
    ensures Valid(r)
  {
    if d.day > 1 then Date(d.year, d.month, d.day - 1)
    else if d.month > 1 then Date(d.year, d.month - 1, DaysInMonth(d.year, d.month - 1))
    else Date(d.year - 1, 12, 31)
  }

  /** `d + timedelta(days=n)`; None is the OverflowError for a result outside 0001-01-01..9999-12-31. */
  function AddDays(d: Date, n: int): Option<Date>
    requires Valid(d)
    decreases if n < 0 then -n else n
  {
    if n == 0 then Some(d)
    else if n > 0 then (if d == LastDate then None else AddDays(NextDay(d), n - 1))
    else (if d == FirstDate then None else AddDays(PreviousDay(d), n + 1))
  }

  /**
   * `a < b` on the `struct_time` values `time.strptime` makes of two dates: the tuples
   * compare field by field, and after (year, month, day) the remaining fields are equal
   * (midnight, no DST flag) or determined by the date (weekday, day of year).
   */
  predicate Precedes(a: Date, b: Date)
  {
    a.year < b.year
    || (a.year == b.year && a.month < b.month)
    || (a.year == b.year && a.month == b.month && a.day < b.day)
  }

  /** The count agrees with the closed form of Python's `_days_before_year`. */
  lemma {:induction false} DaysBeforeYearClosedForm(y: int)
    requires y >= 1
    ensures var p := y - 1; DaysBeforeYear(y) == p * 365 + p / 4 - p / 100 + p / 400
  {
    if y > 1 {
      DaysBeforeYearClosedForm(y - 1);
      var p := y - 1;
      var q := p - 1;
      QuotientStep(p, 4);
      QuotientStep(p, 100);
      QuotientStep(p, 400);
      DivisorsOfCentury(p);
    }
  }

  lemma DivisorsOfCentury(p: int)
    ensures p % 400 == 0 ==> p % 100 == 0
    ensures p % 100 == 0 ==> p % 4 == 0
  {
    if p % 400 == 0 {
      assert p == 400 * (p / 400);
      assert p == 100 * (4 * (p / 400));
    }
    if p % 100 == 0 {
      assert p == 100 * (p / 100);
      assert p == 4 * (25 * (p / 100));
    }
  }

  /** Counting the multiples of `k` up to `p` instead of up to `p - 1` adds one exactly when `k` divides `p`. */
  lemma QuotientStep(p: int, k: int)
    requires p >= 1 && (k == 4 || k == 100 || k == 400)
    ensures p / k == (p - 1) / k + (if p % k == 0 then 1 else 0)
  {
    // One case per divisor: with `k` a literal, the division is linear for the solver.
    if k == 4 {
    } else if k == 100 {
    } else {
    }
  }

  lemma {:induction false} DaysBeforeYearMonotone(y1: int, y2: int)
    requires 1 <= y1 < y2
    ensures DaysBeforeYear(y1) + DaysInYear(y1) <= DaysBeforeYear(y2)
    decreases y2 - y1
  {
    if y1 + 1 < y2 {
      DaysBeforeYearMonotone(y1 + 1, y2);
    }
  }

  lemma DaysBeforeMonthStep(y: int, m: int)
    requires 1 <= m < 12
    ensures DaysBeforeMonth(y, m + 1) == DaysBeforeMonth(y, m) + DaysInMonth(y, m)
  {
  }

  lemma {:induction false} DaysBeforeMonthMonotone(y: int, m1: int, m2: int)
    requires 1 <= m1 < m2 <= 12
    ensures DaysBeforeMonth(y, m1) + DaysInMonth(y, m1) <= DaysBeforeMonth(y, m2)
    decreases m2 - m1
  {
    DaysBeforeMonthStep(y, m1);
    if m1 + 1 < m2 {
      DaysBeforeMonthMonotone(y, m1 + 1, m2);
    }
  }

  lemma DaysBeforeMonthInYear(y: int, m: int)
    requires 1 <= m <= 12
    ensures DaysBeforeMonth(y, m) + DaysInMonth(y, m) <= DaysInYear(y)
    ensures m == 12 ==> DaysBeforeMonth(y, m) + DaysInMonth(y, m) == DaysInYear(y)
  {
  }

  /** On valid dates the struct_time order is the order of day numbers. */
  lemma OrdinalMonotone(a: Date, b: Date)
    requires Valid(a) && Valid(b) && Precedes(a, b)
    ensures Ordinal(a) < Ordinal(b)
  {
    if a.year < b.year {
      DaysBeforeMonthInYear(a.year, a.month);
      DaysBeforeYearMonotone(a.year, b.year);
    } else if a.month < b.month {
      DaysBeforeMonthMonotone(a.year, a.month, b.month);
    }
  }

  lemma PrecedesIffOrdinal(a: Date, b: Date)
    requires Valid(a) && Valid(b)
    ensures Precedes(a, b) <==> Ordinal(a) < Ordinal(b)
    ensures a == b <==> Ordinal(a) == Ordinal(b)
  {
    if Precedes(a, b) {
      OrdinalMonotone(a, b);
    } else if Precedes(b, a) {
      OrdinalMonotone(b, a);
    }
  }

  /** Every valid date lies between day 1 and the last day number, reaching each end only at the range's ends. */
  lemma OrdinalRange(d: Date)
    requires Valid(d)
    ensures 1 <= Ordinal(d) <= MaxOrdinal
    ensures Ordinal(d) == 1 <==> d == FirstDate
    ensures Ordinal(d) == MaxOrdinal <==> d == LastDate
  {
    OrdinalAboveFirst(d);
    OrdinalBelowLast(d);
  }

  lemma OrdinalAboveFirst(d: Date)
    requires Valid(d)
    ensures 1 <= Ordinal(d)
    ensures Ordinal(d) == 1 <==> d == FirstDate
  {
    if d == FirstDate {
      FirstDateOrdinal();
    } else {
      FirstDatePrecedes(d);
      OrdinalMonotone(FirstDate, d);
      FirstDateOrdinal();
    }
  }

  lemma FirstDatePrecedes(d: Date)
    requires Valid(d) && d != FirstDate
    ensures Precedes(FirstDate, d)
  {
  }

  lemma OrdinalBelowLast(d: Date)
    requires Valid(d)
    ensures Ordinal(d) <= MaxOrdinal
    ensures Ordinal(d) == MaxOrdinal <==> d == LastDate
  {
    LastDateOrdinal();
    if d != LastDate {
      PrecedesLastDate(d);
      OrdinalMonotone(d, LastDate);
    }
  }

  lemma PrecedesLastDate(d: Date)
    requires Valid(d) && d != LastDate
    ensures Precedes(d, LastDate)
  {
  }

  lemma FirstDateOrdinal()
    ensures Valid(FirstDate) && Ordinal(FirstDate) == 1
  {
  }

  lemma LastDateOrdinal()
    ensures Valid(LastDate) && Ordinal(LastDate) == MaxOrdinal
  {
    LastYearFacts();
  }

  lemma LastYearFacts()
    ensures DaysBeforeYear(MaxYear) == 3651694 && DaysBeforeMonth(MaxYear, 12) == 334
  {
    DaysBeforeYearClosedForm(MaxYear);
  }

  lemma OrdinalNextDay(d: Date)
    requires Valid(d) && d != LastDate
    ensures Ordinal(NextDay(d)) == Ordinal(d) + 1
  {
    if d.day == DaysInMonth(d.year, d.month) {
      if d.month < 12 {
        DaysBeforeMonthStep(d.year, d.month);
      } else {
        DaysBeforeMonthInYear(d.year, d.month);
      }
    }
  }

  lemma OrdinalPreviousDay(d: Date)
    requires Valid(d) && d != FirstDate
    ensures Ordinal(PreviousDay(d)) == Ordinal(d) - 1
  {
    var p := PreviousDay(d);
    assert NextDay(p) == d;
    OrdinalNextDay(p);
  }

  /**
   * `d + timedelta(days=n)` is the date whose day number is `d`'s plus `n`, and it
   * overflows exactly when that day number falls outside the calendar's range.
   */
  lemma AddDaysOrdinal(d: Date, n: int)
    requires Valid(d)
    ensures AddDays(d, n).Some? <==> 1 <= Ordinal(d) + n <= MaxOrdinal
    ensures AddDays(d, n).Some? ==> Valid(AddDays(d, n).value) && Ordinal(AddDays(d, n).value) == Ordinal(d) + n
  {
    OrdinalRange(d);
    if n >= 0 {
      AddDaysForward(d, n);
    } else {
      AddDaysBackward(d, n);
    }
  }

  lemma {:induction false} AddDaysForward(d: Date, n: nat)
    requires Valid(d)
    ensures AddDays(d, n).Some? <==> Ordinal(d) + n <= MaxOrdinal
    ensures AddDays(d, n).Some? ==> Valid(AddDays(d, n).value) && Ordinal(AddDays(d, n).value) == Ordinal(d) + n
    decreases n
  {
    OrdinalBelowLast(d);
    if n > 0 && d != LastDate {
      var e := NextDay(d);
      OrdinalNextDay(d);
      AddDaysForward(e, n - 1);
      assert AddDays(d, n) == AddDays(e, n - 1);
    }
  }

  lemma {:induction false} AddDaysBackward(d: Date, n: int)
    requires Valid(d) && n <= 0
    ensures AddDays(d, n).Some? <==> 1 <= Ordinal(d) + n
    ensures AddDays(d, n).Some? ==> Valid(AddDays(d, n).value) && Ordinal(AddDays(d, n).value) == Ordinal(d) + n
    decreases -n
  {
    if n == 0 {
      OrdinalAboveFirst(d);
    } else if d == FirstDate {
      BeforeFirstDateOverflows(d, n);
    } else {
      var e := PreviousDay(d);
      OrdinalPreviousDay(d);
      AddDaysBackward(e, n + 1);
      assert AddDays(d, n) == AddDays(e, n + 1);
    }
  }

  lemma BeforeFirstDateOverflows(d: Date, n: int)
    requires d == FirstDate && n < 0
    ensures AddDays(d, n).None? && Ordinal(d) + n < 1
  {
    assert AddDays(d, n).None?;
    assert Ordinal(d) == 1 by { FirstDateOrdinal(); }
  }
}
