/**
 * Proleptic Gregorian calendar dates with the arithmetic the views use from
 * Python's `datetime.date`: adding and subtracting days (which raises
 * `OverflowError` outside years 1..9999), `replace(day=1)` and comparison.
 */
module Dates {
  import opened Wrappers

  datatype Date = Date(year: int, month: int, day: int)

  const MinYear: int := 1
  const MaxYear: int := 9999

  predicate IsLeapYear(y: int) {
    y % 4 == 0 && (y % 100 != 0 || y % 400 == 0)
  }

  function DaysInMonth(y: int, m: int): (n: int)
    requires 1 <= m <= 12
    ensures 28 <= n <= 31
  {
    if m == 2 then (if IsLeapYear(y) then 29 else 28)
    else if m == 4 || m == 6 || m == 9 || m == 11 then 30
    else 31
  }

  function DaysInYear(y: int): int {
    if IsLeapYear(y) then 366 else 365
  }

  /** A date `datetime.date` can represent. */
  predicate Valid(d: Date) {
    MinYear <= d.year <= MaxYear && 1 <= d.month <= 12 && 1 <= d.day <= DaysInMonth(d.year, d.month)
  }

  /** Date comparison `a <= b`. */
  predicate Le(a: Date, b: Date) {
    a.year < b.year
    || (a.year == b.year && (a.month < b.month || (a.month == b.month && a.day <= b.day)))
  }

  /** `d.replace(day=1)`. */
  function FirstOfMonth(d: Date): (r: Date)
    requires Valid(d)
    ensures Valid(r) && r.year == d.year && r.month == d.month && r.day == 1
  {
    d.(day := 1)
  }

  /** `d + timedelta(days=1)`; `None` where Python raises `OverflowError`. */
  function NextDay(d: Date): Option<Date>
    requires Valid(d)
  {
    if d.day < DaysInMonth(d.year, d.month) then Some(d.(day := d.day + 1))
    else if d.month < 12 then Some(Date(d.year, d.month + 1, 1))
    else if d.year < MaxYear then Some(Date(d.year + 1, 1, 1))
    else None
  }

  /** `d - timedelta(days=1)`; `None` where Python raises `OverflowError`. */
  function PrevDay(d: Date): Option<Date>
    requires Valid(d)
  {
    if d.day > 1 then Some(d.(day := d.day - 1))
    else if d.month > 1 then Some(Date(d.year, d.month - 1, DaysInMonth(d.year, d.month - 1)))
    else if d.year > MinYear then Some(Date(d.year - 1, 12, 31))
    else None
  }

  /** `d + timedelta(days=n)`. */
  function AddDays(d: Date, n: nat): (r: Option<Date>)
    requires Valid(d)
    ensures r.Some? ==> Valid(r.value)
    decreases n
  {
    if n == 0 then Some(d)
    else
      match NextDay(d)
      case None => None
      case Some(e) => AddDays(e, n - 1)
  }

  // ---------------------------------------------------------------------
  // Day numbers (Python's `date.toordinal()`)
  // ---------------------------------------------------------------------

  function DaysBeforeYear(y: int): nat
    requires y >= 1
  {
    if y == 1 then 0 else DaysBeforeYear(y - 1) + DaysInYear(y - 1)
  }

  function DaysBeforeMonth(y: int, m: int): nat
    requires 1 <= m <= 12
  {
    if m == 1 then 0 else DaysBeforeMonth(y, m - 1) + DaysInMonth(y, m - 1)
  }

  /** Day 1 is 0001-01-01, as for `date.toordinal()`. */
  function Ordinal(d: Date): nat
    requires Valid(d)
  {
    DaysBeforeYear(d.year) + DaysBeforeMonth(d.year, d.month) + d.day
  }

  lemma MonthsFillYear(y: int)
    ensures DaysBeforeMonth(y, 12) + DaysInMonth(y, 12) == DaysInYear(y)
  {
    assert DaysBeforeMonth(y, 2) == 31;
    assert DaysBeforeMonth(y, 3) == 31 + DaysInMonth(y, 2);
    assert DaysBeforeMonth(y, 4) == DaysBeforeMonth(y, 3) + 31;
    assert DaysBeforeMonth(y, 5) == DaysBeforeMonth(y, 3) + 61;
    assert DaysBeforeMonth(y, 6) == DaysBeforeMonth(y, 3) + 92;
    assert DaysBeforeMonth(y, 7) == DaysBeforeMonth(y, 3) + 122;
    assert DaysBeforeMonth(y, 8) == DaysBeforeMonth(y, 3) + 153;
    assert DaysBeforeMonth(y, 9) == DaysBeforeMonth(y, 3) + 184;
    assert DaysBeforeMonth(y, 10) == DaysBeforeMonth(y, 3) + 214;
    assert DaysBeforeMonth(y, 11) == DaysBeforeMonth(y, 3) + 245;
    assert DaysBeforeMonth(y, 12) == DaysBeforeMonth(y, 3) + 275;
  }

  lemma {:induction false} MonthsMonotone(y: int, m1: int, m2: int)
    requires 1 <= m1 < m2 <= 12
    ensures DaysBeforeMonth(y, m1) + DaysInMonth(y, m1) <= DaysBeforeMonth(y, m2)
    decreases m2
  {
    if m1 < m2 - 1 {
      MonthsMonotone(y, m1, m2 - 1);
    }
  }

  lemma {:induction false} YearsMonotone(y1: int, y2: int)
    requires 1 <= y1 < y2
    ensures DaysBeforeYear(y1) + DaysInYear(y1) <= DaysBeforeYear(y2)
    decreases y2
  {
    if y1 < y2 - 1 {
      YearsMonotone(y1, y2 - 1);
    }
  }

  lemma MonthWithinYear(d: Date)
    requires Valid(d)
    ensures DaysBeforeMonth(d.year, d.month) + d.day <= DaysInYear(d.year)
  {
    MonthsFillYear(d.year);
    if d.month < 12 {
      MonthsMonotone(d.year, d.month, 12);
    }
  }

  /** The next day has the next day number. */
  lemma NextDayOrdinal(d: Date)
    requires Valid(d) && NextDay(d).Some?
    ensures Valid(NextDay(d).value) && Ordinal(NextDay(d).value) == Ordinal(d) + 1
  {
    if d.day == DaysInMonth(d.year, d.month) && d.month == 12 {
      MonthsFillYear(d.year);
    }
  }

  /** `d + timedelta(days=n)` moves the day number by exactly `n`. */
  lemma {:induction false} AddDaysOrdinal(d: Date, n: nat)
    requires Valid(d) && AddDays(d, n).Some?
    ensures Ordinal(AddDays(d, n).value) == Ordinal(d) + n
    decreases n
  {
    if n > 0 {
      NextDayOrdinal(d);
      AddDaysOrdinal(NextDay(d).value, n - 1);
    }
  }

  /** Date comparison agrees with comparison of day numbers. */
  lemma LeIffOrdinal(a: Date, b: Date)
    requires Valid(a) && Valid(b)
    ensures Le(a, b) <==> Ordinal(a) <= Ordinal(b)
    ensures a == b <==> Ordinal(a) == Ordinal(b)
  {
    if a.year < b.year {
      MonthWithinYear(a);
      YearsMonotone(a.year, b.year);
    } else if b.year < a.year {
      MonthWithinYear(b);
      YearsMonotone(b.year, a.year);
    } else if a.month < b.month {
      MonthsMonotone(a.year, a.month, b.month);
    } else if b.month < a.month {
      MonthsMonotone(a.year, b.month, a.month);
    }
  }

  // ---------------------------------------------------------------------
  // Moving by whole months
  // ---------------------------------------------------------------------

  lemma {:induction false} AddDaysSplit(d: Date, a: nat, b: nat)
    requires Valid(d)
    ensures AddDays(d, a + b) == (match AddDays(d, a) case None => None case Some(e) => AddDays(e, b))
    decreases a
  {
    if a > 0 {
      match NextDay(d)
      case None =>
      case Some(e) => AddDaysSplit(e, a - 1, b);
    }
  }

  lemma {:induction false} AddDaysWithinMonth(d: Date, n: nat)
    requires Valid(d) && d.day + n <= DaysInMonth(d.year, d.month)
    ensures AddDays(d, n) == Some(d.(day := d.day + n))
    decreases n
  {
    if n > 0 {
      AddDaysWithinMonth(d.(day := d.day + 1), n - 1);
    }
  }

  /** The first day of the month after `(y, m)`; December rolls over to January. */
  function FollowingMonth(y: int, m: int): Date
    requires 1 <= m <= 12
  {
    if m == 12 then Date(y + 1, 1, 1) else Date(y, m + 1, 1)
  }

  /** The first day of the month before `(y, m)`; January rolls back to December. */
  function PrecedingMonth(y: int, m: int): Date
    requires 1 <= m <= 12
  {
    if m == 1 then Date(y - 1, 12, 1) else Date(y, m - 1, 1)
  }

  /** `n` days after the last of a month, for a short `n`, is day `n` of the following month. */
  lemma AddDaysAfterLast(last: Date, n: nat)
    requires Valid(last) && last.day == DaysInMonth(last.year, last.month) && 1 <= n <= 5
    ensures AddDays(last, n).Some? <==> !(last.year == MaxYear && last.month == 12)
    ensures AddDays(last, n).Some? ==>
      AddDays(last, n).value == FollowingMonth(last.year, last.month).(day := n)
  {
    if !(last.year == MaxYear && last.month == 12) {
      var e := FollowingMonth(last.year, last.month);
      assert NextDay(last) == Some(e);
      AddDaysWithinMonth(e, n - 1);
    }
  }

  /**
   * `(first + timedelta(days=32)).replace(day=1)` for the first of a month is
   * the first of the following month, and raises only for December 9999.
   */
  lemma Add32FromFirst(first: Date)
    requires Valid(first) && first.day == 1
    ensures AddDays(first, 32).Some? <==> !(first.year == MaxYear && first.month == 12)
    ensures AddDays(first, 32).Some? ==>
      FirstOfMonth(AddDays(first, 32).value) == FollowingMonth(first.year, first.month)
  {
    var dim := DaysInMonth(first.year, first.month);
    var last := first.(day := dim);
    AddDaysWithinMonth(first, dim - 1);
    AddDaysSplit(first, dim - 1, 33 - dim);
    AddDaysAfterLast(last, 33 - dim);
  }

  /**
   * `(first - timedelta(days=1)).replace(day=1)` for the first of a month is
   * the first of the preceding month, and raises only for January of year 1.
   */
  lemma PrevFromFirst(first: Date)
    requires Valid(first) && first.day == 1
    ensures PrevDay(first).Some? <==> !(first.year == MinYear && first.month == 1)
    ensures PrevDay(first).Some? ==>
      Valid(PrevDay(first).value)
      && FirstOfMonth(PrevDay(first).value) == PrecedingMonth(first.year, first.month)
  {
  }
}
