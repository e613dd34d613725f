/** The model of `iced-calendar`: month navigation in `Calendar::update` and the
    sequences of dates the month, week and list views display. */
module IcedCalendar {
  import opened Wrappers
  import opened Gregorian

  /** chrono's `NaiveTime`: seconds since midnight and nanoseconds. */
  datatype Time = Time(secs: nat, frac: nat)

  /** chrono's `NaiveDateTime`. */
  datatype DateTime = DateTime(date: Date, time: Time)

  /** A valid date at a time of day outside a leap second (`frac < 10^9`), the only
      times `Local::now()` returns; adding whole days then keeps the time of day. */
  predicate ValidDateTime(dt: DateTime) {
    Valid(dt.date) && dt.time.secs < 86400 && dt.time.frac < 1_000_000_000
  }

  datatype ViewMode = Month | Week | Day | List

  datatype Message =
    | PreviousMonth
    | NextMonth
    /** `Today`, carrying the local time that `Local::now()` reads. */
    | Today(now: DateTime)
    | ChangeView(view: ViewMode)

  function Month0(dt: DateTime): int {
    dt.date.month - 1
  }

  // ---------------------------------------------------------------------------
  // The chrono calls `update` chains

  /** `with_day(day)`: None when that day does not exist in the month. */
  function WithDay(dt: DateTime, day: int): (r: Option<DateTime>)
    requires ValidDateTime(dt)
    ensures r.Some? ==> ValidDateTime(r.value)
  {
    if 1 <= day <= DaysInMonth(dt.date.year, dt.date.month) then Some(dt.(date := dt.date.(day := day)))
    else None
  }

  /** `with_month0(m0)`: None when `m0` is no month or the day does not exist in it. */
  function WithMonth0(dt: DateTime, m0: int): (r: Option<DateTime>)
    requires ValidDateTime(dt)
    ensures r.Some? ==> ValidDateTime(r.value)
  {
    if 0 <= m0 < 12 && dt.date.day <= DaysInMonth(dt.date.year, m0 + 1) then
      Some(dt.(date := dt.date.(month := m0 + 1)))
    else None
  }

  /** `checked_add_months` / `checked_sub_months` by `k` months: the day is clamped to
      the length of the month reached. */
  function AddMonths(dt: DateTime, k: int): (r: DateTime)
    requires ValidDateTime(dt)
    ensures ValidDateTime(r)
  {
    var index := dt.date.year * 12 + Month0(dt) + k;
    var year := index / 12;
    var month := index % 12 + 1;
    var day := if dt.date.day <= DaysInMonth(year, month) then dt.date.day else DaysInMonth(year, month);
    DateTime(Date(year, month, day), dt.time)
  }

  /** `dt + Duration::days(k)`: the time of day is kept. */
  function PlusDays(dt: DateTime, k: int): (r: DateTime)
    requires ValidDateTime(dt)
    ensures ValidDateTime(r) && r.time == dt.time
  {
    DateTime(AddDays(dt.date, k), dt.time)
  }

  /** The `PreviousMonth` arm: first of the month, back one month, then month0 set to
      (month0 + 11) % 12, falling back to the old date if that fails. */
  function PreviousMonthDate(dt: DateTime): DateTime
    requires ValidDateTime(dt)
  {
    var first := WithDay(dt, 1).value;
    WithMonth0(AddMonths(first, -1), (Month0(dt) + 11) % 12).UnwrapOr(dt)
  }

  /** The `NextMonth` arm: first of the month, on one month, then month0 set to
      (month0 + 1) % 12, falling back to the old date if that fails. */
  function NextMonthDate(dt: DateTime): DateTime
    requires ValidDateTime(dt)
  {
    var first := WithDay(dt, 1).value;
    WithMonth0(AddMonths(first, 1), (Month0(dt) + 1) % 12).UnwrapOr(dt)
  }

  /** Euclidean division by 12 of `12 * q + r` with `0 <= r < 12`. */
  lemma DivModTwelve(q: int, r: int)
    requires 0 <= r < 12
    ensures (12 * q + r) / 12 == q && (12 * q + r) % 12 == r
  {
  }

  /** One month on from a first of the month is the first of the next month. */
  lemma AddOneMonthToFirst(dt: DateTime)
    requires ValidDateTime(dt) && dt.date.day == 1
    ensures AddMonths(dt, 1)
         == if dt.date.month == 12 then DateTime(Date(dt.date.year + 1, 1, 1), dt.time)
            else DateTime(Date(dt.date.year, dt.date.month + 1, 1), dt.time)
  {
    if dt.date.month == 12 {
      DivModTwelve(dt.date.year + 1, 0);
      assert dt.date.year * 12 + Month0(dt) + 1 == 12 * (dt.date.year + 1) + 0;
    } else {
      DivModTwelve(dt.date.year, dt.date.month);
      assert dt.date.year * 12 + Month0(dt) + 1 == 12 * dt.date.year + dt.date.month;
    }
  }

  /** One month back from a first of the month is the first of the previous month. */
  lemma SubOneMonthFromFirst(dt: DateTime)
    requires ValidDateTime(dt) && dt.date.day == 1
    ensures AddMonths(dt, -1)
         == if dt.date.month == 1 then DateTime(Date(dt.date.year - 1, 12, 1), dt.time)
            else DateTime(Date(dt.date.year, dt.date.month - 1, 1), dt.time)
  {
    if dt.date.month == 1 {
      DivModTwelve(dt.date.year - 1, 11);
      assert dt.date.year * 12 + Month0(dt) - 1 == 12 * (dt.date.year - 1) + 11;
    } else {
      DivModTwelve(dt.date.year, dt.date.month - 2);
      assert dt.date.year * 12 + Month0(dt) - 1 == 12 * dt.date.year + (dt.date.month - 2);
    }
  }

  /** `NextMonth` lands on the first of the following month, at the same time of day;
      the year moves on exactly from December, and the fallback is never taken. */
  lemma NextMonthMoves(dt: DateTime)
    requires ValidDateTime(dt)
    ensures WithMonth0(AddMonths(WithDay(dt, 1).value, 1), (Month0(dt) + 1) % 12).Some?
    ensures NextMonthDate(dt)
         == if dt.date.month == 12 then DateTime(Date(dt.date.year + 1, 1, 1), dt.time)
            else DateTime(Date(dt.date.year, dt.date.month + 1, 1), dt.time)
  {
    AddOneMonthToFirst(WithDay(dt, 1).value);
  }

  /** `PreviousMonth` lands on the first of the preceding month, at the same time of
      day; the year moves back exactly from January, and the fallback is never taken. */
  lemma PreviousMonthMoves(dt: DateTime)
    requires ValidDateTime(dt)
    ensures WithMonth0(AddMonths(WithDay(dt, 1).value, -1), (Month0(dt) + 11) % 12).Some?
    ensures PreviousMonthDate(dt)
         == if dt.date.month == 1 then DateTime(Date(dt.date.year - 1, 12, 1), dt.time)
            else DateTime(Date(dt.date.year, dt.date.month - 1, 1), dt.time)
  {
    SubOneMonthFromFirst(WithDay(dt, 1).value);
  }

  /** Next then previous, or previous then next, gives the first of the original month. */
  lemma NavigationRoundTrip(dt: DateTime)
    requires ValidDateTime(dt)
    ensures ValidDateTime(NextMonthDate(dt)) && ValidDateTime(PreviousMonthDate(dt))
    ensures PreviousMonthDate(NextMonthDate(dt)) == dt.(date := dt.date.(day := 1))
    ensures NextMonthDate(PreviousMonthDate(dt)) == dt.(date := dt.date.(day := 1))
  {
    NextMonthMoves(dt);
    PreviousMonthMoves(dt);
    NextMonthMoves(PreviousMonthDate(dt));
    PreviousMonthMoves(NextMonthDate(dt));
  }

  // ---------------------------------------------------------------------------
  // The dates the views display

  /** One cell of the month grid: its date and whether it is drawn as in the month. */
  datatype Cell = Cell(date: DateTime, isCurrentMonth: bool)

  /** The Sunday on or before `dt`: `dt` less its `num_days_from_sunday()` days. */
  function SundayOnOrBefore(dt: DateTime): (r: DateTime)
    requires ValidDateTime(dt)
    ensures ValidDateTime(r)
  {
    PlusDays(dt, -(WeekdayFromSunday(dt.date) as int))
  }

  /** The first of the month that `current` lies in. */
  function FirstOfMonth(current: DateTime): (r: DateTime)
    requires ValidDateTime(current)
    ensures ValidDateTime(r) && r == WithDay(current, 1).value
  {
    current.(date := current.date.(day := 1))
  }

  /** The first cell of the month grid: the first of the month moved back to Sunday. */
  function MonthGridStart(current: DateTime): (r: DateTime)
    requires ValidDateTime(current)
    ensures ValidDateTime(r)
  {
    SundayOnOrBefore(FirstOfMonth(current))
  }

  /** The Sunday on or before `current`, where the week view starts. */
  function WeekStart(current: DateTime): (r: DateTime)
    requires ValidDateTime(current)
    ensures ValidDateTime(r)
  {
    SundayOnOrBefore(current)
  }

  /** The cell for the day `n` places after `start`, as the month view draws it for
      `current`. */
  function CellFor(start: DateTime, n: int, current: DateTime): Cell
    requires ValidDateTime(start) && n >= 0
  {
    var date := PlusDays(start, n);
    Cell(date, date.date.month == current.date.month)
  }

  /** One more day after `n` days is `n + 1` days. */
  lemma PlusDaysStep(start: DateTime, n: nat)
    requires ValidDateTime(start)
    ensures PlusDays(PlusDays(start, n), 1) == PlusDays(start, n + 1)
  {
    AddDaysSum(start.date, n, 1);
  }

  /** Row `week` of the month grid that starts at `start`: seven cells, one day apart. */
  predicate IsGridRow(row: seq<Cell>, start: DateTime, week: nat, current: DateTime)
    requires ValidDateTime(start)
  {
    |row| == 7 && forall d :: 0 <= d < 7 ==> row[d] == CellFor(start, 7 * week + d, current)
  }

  /** `generate_month_view`: six rows of seven cells, starting at `MonthGridStart`, one
      day apart, each flagged when its month is the current date's month. */
  method MonthView(current: DateTime) returns (grid: seq<seq<Cell>>)
    requires ValidDateTime(current)
    ensures |grid| == 6
    ensures forall w :: 0 <= w < 6 ==> IsGridRow(grid[w], MonthGridStart(current), w, current)
  {
    var firstDay := WithDay(current, 1).value;
    var startOffset: int := WeekdayFromSunday(firstDay.date);
    var start := PlusDays(firstDay, -startOffset);
    assert start == MonthGridStart(current);
    var date := start;
    grid := [];
    for week := 0 to 6
      invariant |grid| == week
      invariant date == PlusDays(start, 7 * week)
      invariant forall w :: 0 <= w < week ==> IsGridRow(grid[w], start, w, current)
    {
      var weekRow := [];
      for day := 0 to 7
        invariant |weekRow| == day
        invariant date == PlusDays(start, 7 * week + day)
        invariant forall d :: 0 <= d < day ==> weekRow[d] == CellFor(start, 7 * week + d, current)
      {
        var isCurrentMonth := date.date.month == current.date.month;
        weekRow := weekRow + [Cell(date, isCurrentMonth)];
        PlusDaysStep(start, 7 * week + day);
        date := PlusDays(date, 1);
      }
      assert IsGridRow(weekRow, start, week, current);
      grid := grid + [weekRow];
    }
  }

  /** `generate_week_view`: the seven days from `WeekStart`. */
  method WeekView(current: DateTime) returns (days: seq<DateTime>)
    requires ValidDateTime(current)
    ensures |days| == 7
    ensures forall i :: 0 <= i < 7 ==> days[i] == PlusDays(WeekStart(current), i)
  {
    var startOfWeek := PlusDays(current, -(WeekdayFromSunday(current.date) as int));
    assert startOfWeek == WeekStart(current);
    days := [];
    for i := 0 to 7
      invariant |days| == i
      invariant forall j :: 0 <= j < i ==> days[j] == PlusDays(startOfWeek, j)
    {
      days := days + [PlusDays(startOfWeek, i)];
    }
  }

  /** `generate_list_view`: the thirty days from `current`. */
  method ListView(current: DateTime) returns (days: seq<DateTime>)
    requires ValidDateTime(current)
    ensures |days| == 30
    ensures forall i :: 0 <= i < 30 ==> days[i] == PlusDays(current, i)
  {
    days := [];
    for i := 0 to 30
      invariant |days| == i
      invariant forall j :: 0 <= j < i ==> days[j] == PlusDays(current, j)
    {
      days := days + [PlusDays(current, i)];
    }
  }

  /** The Sunday on or before `dt` is a Sunday. */
  lemma SundayOnOrBeforeIsSunday(dt: DateTime)
    requires ValidDateTime(dt)
    ensures WeekdayFromSunday(SundayOnOrBefore(dt).date) == 0
  {
    var w: int := WeekdayFromSunday(dt.date);
    WeekdayAddDays(dt.date, -w);
    assert (w + -w) % 7 == 0;
  }

  /** The Sunday on or before `dt` lies `w` days before it, where `w < 7` is the weekday
      of `dt`, and `w` days after it is `dt` again. */
  lemma SundayOnOrBeforeDistance(dt: DateTime)
    requires ValidDateTime(dt)
    ensures var w: int := WeekdayFromSunday(dt.date);
            && 0 <= w < 7
            && DayNumber(SundayOnOrBefore(dt).date) == DayNumber(dt.date) - w
            && PlusDays(SundayOnOrBefore(dt), w) == dt
  {
    var w: int := WeekdayFromSunday(dt.date);
    var back := AddDays(dt.date, -w);
    assert SundayOnOrBefore(dt) == DateTime(back, dt.time);
    assert DayNumber(back) == DayNumber(dt.date) - w by {
      DayNumberAddDays(dt.date, -w);
    }
    assert AddDays(back, w) == dt.date by {
      AddDaysBackAndForth(dt.date, w);
    }
  }

  /** The month grid starts on a Sunday, 0 to 6 days before the first of the month,
      and the first of the month is its cell number `offset`. */
  lemma MonthGridStartsOnSunday(current: DateTime)
    requires ValidDateTime(current)
    ensures var first := FirstOfMonth(current);
            var offset: int := WeekdayFromSunday(first.date);
            var start := MonthGridStart(current);
            && WeekdayFromSunday(start.date) == 0
            && DayNumber(start.date) == DayNumber(first.date) - offset
            && PlusDays(start, offset) == first
  {
    SundayOnOrBeforeIsSunday(FirstOfMonth(current));
    SundayOnOrBeforeDistance(FirstOfMonth(current));
  }

  /** Every day of the current month is in the grid: day `1 + j` is cell `offset + j`,
      where `offset < 7` is the weekday of the first. */
  lemma MonthGridCoversMonth(current: DateTime, j: int)
    requires ValidDateTime(current)
    requires 0 <= j < DaysInMonth(current.date.year, current.date.month)
    ensures var offset: int := WeekdayFromSunday(FirstOfMonth(current).date);
            && offset + j < 42
            && PlusDays(MonthGridStart(current), offset + j).date
               == Date(current.date.year, current.date.month, 1 + j)
  {
    var first := FirstOfMonth(current);
    var offset: int := WeekdayFromSunday(first.date);
    var start := MonthGridStart(current);
    MonthGridStartsOnSunday(current);
    AddDaysSum(start.date, offset, j);
    AddDaysWithinMonth(current.date.year, current.date.month, j);
  }

  /** Moving `a` days then `b` days is moving `a + b` days. */
  lemma {:induction false} AddDaysSum(d: Date, a: nat, b: nat)
    requires Valid(d)
    ensures AddDays(AddDays(d, a), b) == AddDays(d, a + b)
    decreases b
  {
    if b > 0 {
      AddDaysSum(d, a, b - 1);
    }
  }

  /** Cells are consecutive days: cell i is i days after the first cell. */
  lemma GridCellsConsecutive(current: DateTime, i: int)
    requires ValidDateTime(current) && 0 <= i < 42
    ensures DayNumber(PlusDays(MonthGridStart(current), i).date)
         == DayNumber(MonthGridStart(current).date) + i
    ensures PlusDays(MonthGridStart(current), i).time == current.time
  {
    DayNumberAddDays(MonthGridStart(current).date, i);
  }

  /** The week view starts at the Sunday on or before `current` and contains it. */
  lemma WeekStartShape(current: DateTime)
    requires ValidDateTime(current)
    ensures var w: int := WeekdayFromSunday(current.date);
            var start := WeekStart(current);
            && WeekdayFromSunday(start.date) == 0
            && DayNumber(start.date) == DayNumber(current.date) - w
            && PlusDays(start, w) == current
  {
    SundayOnOrBeforeIsSunday(current);
    SundayOnOrBeforeDistance(current);
  }

  /** Day i of the week or list view is i days after its first day. */
  lemma ViewDaysConsecutive(start: DateTime, i: int)
    requires ValidDateTime(start) && i >= 0
    ensures DayNumber(PlusDays(start, i).date) == DayNumber(start.date) + i
    ensures PlusDays(start, i).time == start.time
  {
    DayNumberAddDays(start.date, i);
  }

  // ---------------------------------------------------------------------------
  // The calendar state

  class Calendar {
    var currentDate: DateTime
    var viewMode: ViewMode

    ghost predicate Valid()
      reads this
    {
      ValidDateTime(currentDate)
    }

    /** `Calendar::new`, given the local time read at start-up. */
    constructor (now: DateTime)
      requires ValidDateTime(now)
      ensures Valid() && currentDate == now && viewMode == Month
    {
      currentDate := now;
      viewMode := Month;
    }

    method Update(m: Message)
      requires Valid()
      requires m.Today? ==> ValidDateTime(m.now)
      modifies this
      ensures Valid()
      ensures m.PreviousMonth? ==> currentDate == PreviousMonthDate(old(currentDate)) && viewMode == old(viewMode)
      ensures m.NextMonth? ==> currentDate == NextMonthDate(old(currentDate)) && viewMode == old(viewMode)
      ensures m.Today? ==> currentDate == m.now && viewMode == old(viewMode)
      ensures m.ChangeView? ==> currentDate == old(currentDate) && viewMode == m.view
    {
      match m {
        case PreviousMonth =>
          PreviousMonthMoves(currentDate);
          var first := WithDay(currentDate, 1).value;
          currentDate := WithMonth0(AddMonths(first, -1), (Month0(currentDate) + 11) % 12).UnwrapOr(currentDate);
        case NextMonth =>
          NextMonthMoves(currentDate);
          var first := WithDay(currentDate, 1).value;
          currentDate := WithMonth0(AddMonths(first, 1), (Month0(currentDate) + 1) % 12).UnwrapOr(currentDate);
        case Today(now) =>
          currentDate := now;
        case ChangeView(view) =>
          viewMode := view;
      }
    }
  }
}
