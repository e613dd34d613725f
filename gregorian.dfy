/** Proleptic Gregorian dates, the arithmetic the calendar takes from chrono: month
    lengths, a day number counted from 0001-01-01 (a Monday), the weekday, and moving
    by whole days. */
module Gregorian {

  predicate IsLeapYear(y: int) {
    y % 4 == 0 && (y % 100 != 0 || y % 400 == 0)
  }

  function DaysInYear(y: int): int {
    if IsLeapYear(y) then 366 else 365
  }

  function DaysInMonth(y: int, m: int): (n: int)
    requires 1 <= m <= 12
    ensures 28 <= n <= 31
  {
    if m == 2 then (if IsLeapYear(y) then 29 else 28)
    else if m == 4 || m == 6 || m == 9 || m == 11 then 30
    else 31
  }

  /** A calendar date; `month` runs 1..12 (chrono's `month()`; `month0()` is one less). */
  datatype Date = Date(year: int, month: int, day: int)

  predicate Valid(d: Date) {
    1 <= d.month <= 12 && 1 <= d.day <= DaysInMonth(d.year, d.month)
  }

  /** Days of the year `y` before the first of month `m`. */
  function DaysBeforeMonth(y: int, m: int): int
    requires 1 <= m <= 12
  {
    var common :=
      if m == 1 then 0 else if m == 2 then 31 else if m == 3 then 59 else if m == 4 then 90
      else if m == 5 then 120 else if m == 6 then 151 else if m == 7 then 181
      else if m == 8 then 212 else if m == 9 then 243 else if m == 10 then 273
      else if m == 11 then 304 else 334;
    if m > 2 && IsLeapYear(y) then common + 1 else common
  }

  /** Days from 0001-01-01 to the first of January of `y` (negative before year 1);
      the divisions round down, as Dafny's do for a positive divisor. */
  function DaysBeforeYear(y: int): int {
    365 * (y - 1) + (y - 1) / 4 - (y - 1) / 100 + (y - 1) / 400
  }

  /** The number of days from 0001-01-01 to `d`. */
  function DayNumber(d: Date): int
    requires Valid(d)
  {
    DaysBeforeYear(d.year) + DaysBeforeMonth(d.year, d.month) + d.day - 1
  }

  /** chrono's `weekday().num_days_from_sunday()`: 0 for Sunday through 6 for Saturday. */
  function WeekdayFromSunday(d: Date): (w: nat)
    requires Valid(d)
    ensures w < 7
  {
    (DayNumber(d) + 1) % 7
  }

  function NextDay(d: Date): (r: Date)
    requires Valid(d)
    ensures Valid(r)
  {
    if d.day < DaysInMonth(d.year, d.month) then d.(day := d.day + 1)
    else if d.month < 12 then Date(d.year, d.month + 1, 1)
    else Date(d.year + 1, 1, 1)
  }

  function PrevDay(d: Date): (r: Date)
    requires Valid(d)
    ensures Valid(r)
  {
    if d.day > 1 then d.(day := d.day - 1)
    else if d.month > 1 then Date(d.year, d.month - 1, DaysInMonth(d.year, d.month - 1))
    else Date(d.year - 1, 12, 31)
  }

  /** `d + Duration::days(k)`, one day at a time. */
  function AddDays(d: Date, k: int): (r: Date)
    requires Valid(d)
    ensures Valid(r)
    decreases if k < 0 then -k else k
  {
    if k == 0 then d
    else if k > 0 then NextDay(AddDays(d, k - 1))
    else PrevDay(AddDays(d, k + 1))
  }

  // ---------------------------------------------------------------------------
  // The day number is an independent count that the day steps agree with

  lemma FloorDivStep(y: int, k: int)
    requires k == 4 || k == 100 || k == 400
    ensures y / k - (y - 1) / k == if y % k == 0 then 1 else 0
  {
  }

  /** A multiple of 400 is a multiple of 100, and a multiple of 100 one of 4. */
  lemma DivisorChain(y: int)
    ensures y % 400 == 0 ==> y % 100 == 0
    ensures y % 100 == 0 ==> y % 4 == 0
  {
    if y % 400 == 0 {
      MultipleMod(4 * (y / 400), 100);
    }
    if y % 100 == 0 {
      MultipleMod(25 * (y / 100), 4);
    }
  }

  lemma MultipleMod(m: int, k: int)
    requires k == 4 || k == 100
    ensures (k * m) % k == 0
  {
  }

  lemma DaysBeforeNextYear(y: int)
    ensures DaysBeforeYear(y + 1) == DaysBeforeYear(y) + DaysInYear(y)
  {
    var s4, s100, s400 := y / 4 - (y - 1) / 4, y / 100 - (y - 1) / 100, y / 400 - (y - 1) / 400;
    FloorDivStep(y, 4);
    FloorDivStep(y, 100);
    FloorDivStep(y, 400);
    DivisorChain(y);
    assert DaysBeforeYear(y + 1) - DaysBeforeYear(y) == 365 + s4 - s100 + s400;
  }

  lemma DayNumberNextDay(d: Date)
    requires Valid(d)
    ensures DayNumber(NextDay(d)) == DayNumber(d) + 1
  {
    if d.day == DaysInMonth(d.year, d.month) && d.month == 12 {
      DaysBeforeNextYear(d.year);
    }
  }

  lemma DayNumberPrevDay(d: Date)
    requires Valid(d)
    ensures DayNumber(PrevDay(d)) == DayNumber(d) - 1
  {
    if d.day == 1 && d.month == 1 {
      DaysBeforeNextYear(d.year - 1);
    }
  }

  lemma NextDayPrevDay(d: Date)
    requires Valid(d)
    ensures NextDay(PrevDay(d)) == d
    ensures PrevDay(NextDay(d)) == d
  {
  }

  /** Moving `k` days moves the day number by exactly `k`. */
  lemma {:induction false} DayNumberAddDays(d: Date, k: int)
    requires Valid(d)
    ensures DayNumber(AddDays(d, k)) == DayNumber(d) + k
    decreases if k < 0 then -k else k
  {
    if k > 0 {
      DayNumberAddDays(d, k - 1);
      DayNumberNextDay(AddDays(d, k - 1));
    } else if k < 0 {
      DayNumberAddDays(d, k + 1);
      DayNumberPrevDay(AddDays(d, k + 1));
    }
  }

  /** Moving `k` days moves the weekday by `k`, modulo 7. */
  lemma WeekdayAddDays(d: Date, k: int)
    requires Valid(d)
    ensures WeekdayFromSunday(AddDays(d, k)) == (WeekdayFromSunday(d) + k) % 7
  {
    DayNumberAddDays(d, k);
    ModSevenShift(DayNumber(d) + 1, k);
  }

  lemma ModSevenShift(a: int, k: int)
    ensures (a + k) % 7 == (a % 7 + k) % 7
  {
    var q := a / 7;
    assert a == 7 * q + a % 7;
    assert a + k == 7 * q + (a % 7 + k);
  }

  lemma {:induction false} AddDaysFromNextDay(d: Date, k: int)
    requires Valid(d) && k >= 1
    ensures AddDays(d, k) == AddDays(NextDay(d), k - 1)
    decreases k
  {
    if k > 1 {
      AddDaysFromNextDay(d, k - 1);
    }
  }

  /** Going back `k` days and then forward `k` days returns to the same date. */
  lemma {:induction false} AddDaysBackAndForth(d: Date, k: int)
    requires Valid(d) && k >= 0
    ensures AddDays(AddDays(d, -k), k) == d
    decreases k
  {
    if k > 0 {
      var e := AddDays(d, -(k - 1));
      assert AddDays(d, -k) == PrevDay(e);
      AddDaysFromNextDay(PrevDay(e), k);
      NextDayPrevDay(e);
      AddDaysBackAndForth(d, k - 1);
    }
  }

  /** Within a month, moving `j` days from the first lands on day `1 + j`. */
  lemma {:induction false} AddDaysWithinMonth(y: int, m: int, j: nat)
    requires 1 <= m <= 12 && j < DaysInMonth(y, m)
    ensures AddDays(Date(y, m, 1), j) == Date(y, m, 1 + j)
  {
    if j > 0 {
      AddDaysWithinMonth(y, m, j - 1);
    }
  }

  /** 2024-01-01 was a Monday. */
  lemma WeekdayExample()
    ensures WeekdayFromSunday(Date(2024, 1, 1)) == 1
  {
  }
}
