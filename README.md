# iced examples: calculator, timer list and calendar, in Dafny

This project models the application logic of three small GUI programs written with
the Rust `iced` toolkit. It also proves what the code promises about that logic.

- **Calculator** (`iced-calculator`). `Calculator::update` is the message handler of a
  scientific calculator. It has an input line and a result line, an optional pending
  operator with its operand, and an angle mode. The pure model is the
  `IcedCalculator.CalcState` datatype. Each handler method is a member function of it,
  and `Step` is `update`. The imperative class `IcedCalculator.Calculator` has the
  same five fields. Each of its methods ensures that its new state is the pure step
  applied to the old state.
- **Timer list** (`iced-timer`). `TimerApp::update` edits, starts, stops, deletes,
  appends and ticks a list of countdown timers. `IcedTimer.Apply` is the pure step.
  The class `IcedTimer.TimerApp` keeps `timers: seq<Timer>` and updates it in place.
  Its `Tick` is a `while` loop over the list with invariants, and it keeps the ids
  distinct.
- **Calendar** (`iced-calendar`). `Calendar::update` moves the shown date a month back
  or on, jumps to today, or changes the view. The month, week and list views show
  sequences of dates, computed by the methods `MonthView`, `WeekView` and `ListView`.
  The arithmetic the calendar takes from chrono is modelled in the module `Gregorian`:
  - month lengths;
  - a day number counted from 0001-01-01;
  - the weekday;
  - moving by days, and in `IcedCalendar`, moving by months.

Shared modules:
- `Wrappers` holds `Option`.
- `Decimal` is `u64` parsing and decimal printing, both concrete.
- `Float64` represents an `f64` by its 64 bits and bundles the floating-point
  operations into a record of functions, `FloatLib`, held by the calculator.
- `Factorial` is the `u64` factorial.

Three behaviours a reader might expect are not in the code, and the model follows the code:
- The calculator does not keep "an operator is pending exactly when an operand is
  held". Pressing an operator with nothing typed leaves the operator without an
  operand, and `Calculate` leaves the operand without an operator
  (`PendingFieldsUnpaired`).
- Division by zero is not reported as "Error", although the commented-out test at
  iced-calculator/src/main.rs:455-464 expects it. It is the plain `f64` division at
  main.rs:169, whose result is then printed (`DivisionByZeroIsPlainDivision`). Only the reciprocal
  button (`1/x`) checks for zero (`ReciprocalOfZero`).
- A number typed after "=" does not start a new calculation. `Calculate` keeps the
  result as operand with no operator, so the next operator press calls `calculate`,
  which does nothing, and then clears the typed number (main.rs:180-188). "5 + 3 =",
  "2 × 4 =" shows (5 + 3) × 4 (`OperatorReplacesWithoutInput`, `InputAfterEqualsDiscarded`).

## Model

| member | source | states |
|---|---|---|
| Decimal.NatToString | iced-calculator/src/main.rs:100 | `u64::to_string`: at least one decimal digit, all digits, and a leading zero exactly for 0 |
| Decimal.ParseU64 | iced-calculator/src/main.rs:99 | `str::parse::<u64>`: a result is always below 2^64 |
| Decimal.DigitsValueOfNatToString | iced-calculator/src/main.rs:99-100 | the digits `to_string` prints read back as the same number |
| Decimal.ParseU64OfNatToString | iced-calculator/src/main.rs:99-100 | parsing the printed form of any `u64` gives that value back |
| Decimal.ParseU64RejectsNonDigit | iced-calculator/src/main.rs:99 | a string with a non-digit (other than a leading '+') does not parse as a `u64` |
| Factorial.Factorial | iced-calculator/src/main.rs:240-242 | the product 1·2·…·n is at least 1, and at least n when n ≥ 1 |
| Factorial.FactorialU64 | iced-calculator/src/main.rs:240-242 | the `u64` product `(1..=n).product()` in a release build is always below 2^64; `FactorialFitsU64` and `FactorialOverflowsFrom21` relate it to n! |
| Factorial.FactorialExamples | iced-calculator/src/main.rs:240-242 | 0! = 1, 5! = 120, 10! = 3628800 |
| Factorial.FactorialRecurrence | iced-calculator/src/main.rs:240-242 | (n+1)! = (n+1)·n! |
| Factorial.FactorialMonotone | iced-calculator/src/main.rs:240-242 | m ≤ n implies m! ≤ n! |
| Factorial.FactorialFitsU64 | iced-calculator/src/main.rs:240-242 | for n ≤ 20 the factorial fits in a `u64`, so the wrapped product is the true one |
| Factorial.FactorialOverflowsAt21 | iced-calculator/src/main.rs:240-242 | 21! does not fit in a `u64`, so the `u64` result at 21 differs from 21! |
| Factorial.FactorialOverflowsFrom21 | iced-calculator/src/main.rs:240-242 | for every n ≥ 21, n! does not fit in a `u64` and the `u64` result differs from n! |
| IcedCalculator.InputAppends | iced-calculator/src/main.rs:89 | `Input(v)` appends `v` to the input and changes nothing else |
| IcedCalculator.InputExample | iced-calculator/src/main.rs:89 | typing "5" then "3" gives the input "53" |
| IcedCalculator.ClearResets | iced-calculator/src/main.rs:155-160 | `Clear` empties input and result and drops operand and operator; only the angle mode survives |
| IcedCalculator.ClearIdempotent | iced-calculator/src/main.rs:155-160 | clearing twice is clearing once |
| IcedCalculator.ToggleAngleModeFlips | iced-calculator/src/main.rs:233-238  | the mode starts as radians; a toggle changes only the mode; two toggles restore the state |
| IcedCalculator.CalculateNoOpIff | iced-calculator/src/main.rs:162-178 | `Calculate` leaves the state unchanged exactly when the operator or the operand is missing or the input does not parse |
| IcedCalculator.CalculateSucceeds | iced-calculator/src/main.rs:162-178 | on success the result shows `operand op input`, the input is emptied, the result becomes the operand and the operator is consumed |
| IcedCalculator.InvalidInputExample | iced-calculator/src/main.rs:162-178 | "abc" followed by = leaves the result empty |
| IcedCalculator.OperatorInstalled | iced-calculator/src/main.rs:180-188 | after an operator press the input is empty, that operator is pending and the angle mode is kept |
| IcedCalculator.OperatorCapturesOperand | iced-calculator/src/main.rs:180-188  | with no operand held, the parsed input (None if it does not parse) becomes the operand |
| IcedCalculator.OperatorChains | iced-calculator/src/main.rs:183-187 | with an operand, an operator and a parsable input, the pending operation is completed first and its result is the new operand |
| IcedCalculator.OperatorReplacesWithoutInput | iced-calculator/src/main.rs:162-188 | with an operand held and either no operator pending or no parsable input, an operator press only installs the new operator and empties the input: the last of two consecutive operators wins, and a number typed after "=" is discarded with the previous result kept as operand |
| IcedCalculator.InputAfterEqualsDiscarded | iced-calculator/src/main.rs:162-188 | "5 + 3 =" then "2 × 4 =" shows (5 + 3) × 4, since the 2 typed after "=" is discarded |
| IcedCalculator.AdditionExample | iced-calculator/src/main.rs:162-188 | "5 + 3 =" shows the sum of 5 and 3 |
| IcedCalculator.NoPrecedence | iced-calculator/src/main.rs:162-188 | "5 + 3 × 2 =" evaluates left to right, as (5 + 3) × 2 |
| IcedCalculator.DivisionByZeroIsPlainDivision | iced-calculator/src/main.rs:169 | "1 ÷ 0 =" shows the plain `f64` quotient; no error is raised |
| IcedCalculator.PendingFieldsUnpaired | iced-calculator/src/main.rs:162-188  | an operator can be pending without an operand, and an operand can be held without an operator |
| IcedCalculator.FactorialMessage | iced-calculator/src/main.rs:98-103 | `Factorial` shows the wrapped `u64` factorial of the parsed input and empties it; no change when the input is not a `u64` |
| IcedCalculator.FactorialMessageExample | iced-calculator/src/main.rs:98-103 | "5" then n! shows "120" |
| IcedCalculator.FactorialIgnoresNonInteger | iced-calculator/src/main.rs:98-103 | a '-', a point or any other non-digit, other than a leading '+', makes `Factorial` a no-op |
| IcedCalculator.ReciprocalOfZero | iced-calculator/src/main.rs:116-125 | the reciprocal of a parsed +0.0 or -0.0 shows "Error" and empties the input |
| IcedCalculator.UnaryFrame | iced-calculator/src/main.rs:87-231  | the one-argument messages write only input and result: no-ops when the input does not parse, otherwise the input is emptied |
| IcedCalculator.TrigUsesAngleMode | iced-calculator/src/main.rs:190-205 | sin/cos/tan get the angle converted to radians exactly in degrees mode |
| IcedCalculator.EulerAndEE | iced-calculator/src/main.rs:139-144 | `Euler` writes only the result (e); `EE` appends "e" to the input and nothing else |
| IcedCalculator.PrepareExponentiationSetsBase | iced-calculator/src/main.rs:218-224 | `Exponentiate` makes the parsed input the operand of a pending power; no change when it does not parse |
| IcedCalculator.PowerExample | iced-calculator/src/main.rs:162-224  | "b", x^y, "y", = shows b to the power y |
| IcedCalculator.RootYNeedsOperand | iced-calculator/src/main.rs:126-132 | `RootY` needs both an operand and a parsable input; it shows operand^(1/input) and drops the operand |
| IcedCalculator.SquareRootIsRootOfTwo | iced-calculator/src/main.rs:226-231  | `SquareRoot` shows x^(1/2.0) |
| IcedCalculator.AngleModeOnlyToggled | iced-calculator/src/main.rs:87-153 | no message but `ToggleAngleMode` changes the angle mode |
| IcedCalculator.PendingFieldsWriters | iced-calculator/src/main.rs:87-153 | only Clear, Calculate, an operator, Exponentiate and RootY write the operand or the operator |
| IcedCalculator.InputDiscipline | iced-calculator/src/main.rs:87-153 | the input grows only by typing (`Input`, `EE`); every other message keeps it or empties it |
| IcedCalculator.RunAppend | iced-calculator/src/main.rs:87-153 | running messages one after another is folding `update` over them |
| IcedCalculator.AngleModeParity | iced-calculator/src/main.rs:87-238  | after any messages the angle mode has been flipped once per toggle |
| IcedCalculator.ClearRestoresInitial | iced-calculator/src/main.rs:74-160  | after an even number of toggles, `Clear` returns to the start-up state |
| IcedCalculator.Calculator.constructor | iced-calculator/src/main.rs:74-85 | `new`: empty input and result, nothing pending, radians |
| IcedCalculator.Calculator.Clear | iced-calculator/src/main.rs:155-160 | the new state is the old one cleared |
| IcedCalculator.Calculator.Calculate | iced-calculator/src/main.rs:162-178 | the new state is the old one with the pending operation applied |
| IcedCalculator.Calculator.HandleOperator | iced-calculator/src/main.rs:180-188 | the new state is the old one after an operator press |
| IcedCalculator.Calculator.ApplyTrigFunction | iced-calculator/src/main.rs:190-205 | the new state is the old one after the trig function |
| IcedCalculator.Calculator.ApplyLogFunction | iced-calculator/src/main.rs:207-216 | the new state is the old one after the logarithm |
| IcedCalculator.Calculator.PrepareExponentiation | iced-calculator/src/main.rs:218-224 | the new state is the old one with a pending power |
| IcedCalculator.Calculator.ApplyRoot | iced-calculator/src/main.rs:226-231 | the new state is the old one after the root of the given degree |
| IcedCalculator.Calculator.ToggleAngleMode | iced-calculator/src/main.rs:233-238 | the new state is the old one with the mode flipped |
| IcedCalculator.Calculator.Update | iced-calculator/src/main.rs:87-153 | the new state is `Step` of the old state and the message |
| IcedTimer.TickCountsDown | iced-timer/src/main.rs:105-122 | a running timer with time left loses exactly one second, keeps running and keeps id and name |
| IcedTimer.TickStopsAtZero | iced-timer/src/main.rs:117-119 | a running timer at 0:0:0 only stops |
| IcedTimer.TickLeavesStoppedTimer | iced-timer/src/main.rs:107 | a stopped timer is not changed by a tick |
| IcedTimer.TickNeverUnderflows | iced-timer/src/main.rs:108-119 | every field is kept, lowered from a positive value, or refilled to 59 after a borrow; none goes below 0 |
| IcedTimer.TickRefillsWith59 | iced-timer/src/main.rs:110-116 | a borrow from minutes or hours sets the lower fields to exactly 59 |
| IcedTimer.CountdownTakesTotalTicks | iced-timer/src/main.rs:105-122 | a running timer with T seconds left reads 0:0:0 after T ticks, still running, and tick T+1 stops it |
| IcedTimer.FirstIndex | iced-timer/src/main.rs:63 | `iter_mut().find`: the first timer with that id, or None exactly when no timer has it |
| IcedTimer.Without | iced-timer/src/main.rs:93 | `retain` never lengthens the list and keeps it whole when the id is unused |
| IcedTimer.WithoutMembers | iced-timer/src/main.rs:93 | `retain` keeps exactly the timers with another id |
| IcedTimer.Ticks | iced-timer/src/main.rs:105-122  | ticking the list k times keeps its length |
| IcedTimer.TickKeepsList | iced-timer/src/main.rs:105-122 | `Tick` keeps length, order, ids and names, ticks every timer and leaves stopped ones alone |
| IcedTimer.TicksPointwise | iced-timer/src/main.rs:106-121 | timers tick independently: after k list ticks each timer is its own k-th tick |
| IcedTimer.ListCountdown | iced-timer/src/main.rs:105-122 | in a list, a running timer with T seconds left reads 0:0:0 after T ticks and is stopped after T+1 |
| IcedTimer.AddTimerAppends | iced-timer/src/main.rs:95-104 | `AddTimer` appends a stopped 0:1:0 timer named "Timer n+1" and keeps the others in place |
| IcedTimer.AddTimerExample | iced-timer/src/main.rs:44-104  | from the start-up list, `AddTimer` adds "Timer 2" |
| IcedTimer.WithoutConcat | iced-timer/src/main.rs:93 | `retain` keeps order: it distributes over concatenation |
| IcedTimer.DeleteTimerRemoves | iced-timer/src/main.rs:92-94 | after `DeleteTimer(id)` exactly the timers with another id remain; an unknown id changes nothing |
| IcedTimer.UnusedAfterDistinct | iced-timer/src/main.rs:92-94 | with distinct ids, no timer after the one with `id` has that id again |
| IcedTimer.WithoutSingle | iced-timer/src/main.rs:93 | removing an id that occurs once, at k, leaves the timers before and after k |
| IcedTimer.DeleteTimerRemovesOne | iced-timer/src/main.rs:92-94 | with distinct ids, deleting a present id removes exactly that one timer |
| IcedTimer.EditChangesFirstMatch | iced-timer/src/main.rs:62-91 | an editing message writes one field of the first timer with that id and nothing else; an unknown id changes nothing |
| IcedTimer.ApplyKeepsIdsDistinct | iced-timer/src/main.rs:60-125 | every message keeps the ids distinct, provided `AddTimer` draws an unused id |
| IcedTimer.AppendKeepsDistinct | iced-timer/src/main.rs:95-104 | appending a timer with an unused id keeps the ids distinct |
| IcedTimer.TickKeepsDistinct | iced-timer/src/main.rs:105-122 | a tick keeps the ids distinct |
| IcedTimer.EditKeepsDistinct | iced-timer/src/main.rs:62-91 | an edit keeps the ids distinct |
| IcedTimer.SameIdsKeepDistinct | iced-timer/src/main.rs:62-122 | a list with the same ids, position by position, as a list of distinct ids has distinct ids |
| IcedTimer.IdsDistinctCons | iced-timer/src/main.rs:93 | a timer whose id the rest does not use, put before a list of distinct ids, keeps them distinct |
| IcedTimer.WithoutKeepsDistinct | iced-timer/src/main.rs:93 | `retain` keeps the ids distinct |
| IcedTimer.TimerApp.constructor | iced-timer/src/main.rs:44-58 | `new`: the single stopped 0:1:0 "Timer 1" |
| IcedTimer.TimerApp.TickTimers | iced-timer/src/main.rs:105-122 | the loop over the list leaves it equal to the pure tick of the old list |
| IcedTimer.TimerApp.EditTimer | iced-timer/src/main.rs:62-91 | the in-place write to the found timer leaves the list equal to the pure edit |
| IcedTimer.TimerApp.Update | iced-timer/src/main.rs:60-125 | the new list is `Apply` of the old list and the message, and the ids stay distinct |
| Gregorian.DaysInMonth | iced-calendar/src/main.rs:61-75  | every month has 28 to 31 days |
| Gregorian.WeekdayFromSunday | iced-calendar/src/main.rs:137  | `num_days_from_sunday` is between 0 and 6 |
| Gregorian.NextDay | iced-calendar/src/main.rs:162 | the day after a valid date is valid |
| Gregorian.PrevDay | iced-calendar/src/main.rs:138  | the day before a valid date is valid |
| Gregorian.AddDays | iced-calendar/src/main.rs:138  | adding any number of days to a valid date gives a valid date |
| Gregorian.DaysBeforeNextYear | iced-calendar/src/main.rs:162 | the year count advances by the length of the year |
| Gregorian.DayNumberNextDay | iced-calendar/src/main.rs:162 | the next day has the next day number |
| Gregorian.DayNumberPrevDay | iced-calendar/src/main.rs:138  | the previous day has the previous day number |
| Gregorian.NextDayPrevDay | iced-calendar/src/main.rs:138-162  | a day back and a day on are inverse |
| Gregorian.DayNumberAddDays | iced-calendar/src/main.rs:138  | adding k days moves the day number by exactly k |
| Gregorian.WeekdayAddDays | iced-calendar/src/main.rs:137-138  | adding k days moves the weekday by k modulo 7 |
| Gregorian.AddDaysFromNextDay | iced-calendar/src/main.rs:162 | k days from d is k-1 days from the day after d |
| Gregorian.AddDaysBackAndForth | iced-calendar/src/main.rs:136-162  | going back k days and forward k days returns to the same date |
| Gregorian.AddDaysWithinMonth | iced-calendar/src/main.rs:140-165 | j days after the first of a month is day 1+j of it, while j is less than the month's length |
| Gregorian.WeekdayExample | iced-calendar/src/main.rs:137 | 2024-01-01 falls on a Monday |
| IcedCalendar.WithDay | iced-calendar/src/main.rs:61  | `with_day` returns only valid dates |
| IcedCalendar.WithMonth0 | iced-calendar/src/main.rs:65-75  | `with_month0` returns only valid dates |
| IcedCalendar.AddMonths | iced-calendar/src/main.rs:63-73  | moving by months, with the day clamped, gives a valid date |
| IcedCalendar.PlusDays | iced-calendar/src/main.rs:162  | adding days to a valid date and time gives a valid one, at the same time of day |
| IcedCalendar.AddOneMonthToFirst | iced-calendar/src/main.rs:73 | one month on from the first of a month is the first of the next month, across December |
| IcedCalendar.SubOneMonthFromFirst | iced-calendar/src/main.rs:63 | one month back from the first of a month is the first of the previous month, across January |
| IcedCalendar.NextMonthMoves | iced-calendar/src/main.rs:68-77 | `NextMonth` lands on the first of the following month at the same time of day; the year moves on only from December; the `unwrap_or` fallback is never taken |
| IcedCalendar.PreviousMonthMoves | iced-calendar/src/main.rs:58-67 | `PreviousMonth` lands on the first of the preceding month at the same time of day; the year moves back only from January; the fallback is never taken |
| IcedCalendar.NavigationRoundTrip | iced-calendar/src/main.rs:58-77 | next then previous, and previous then next, both give the first of the original month |
| IcedCalendar.SundayOnOrBefore | iced-calendar/src/main.rs:171-172  | the Sunday on or before a valid date is valid |
| IcedCalendar.FirstOfMonth | iced-calendar/src/main.rs:136 | the first of the month is `with_day(1)` and always exists |
| IcedCalendar.MonthGridStart | iced-calendar/src/main.rs:136-138 | the first cell of the month grid is a valid date |
| IcedCalendar.WeekStart | iced-calendar/src/main.rs:171-172 | the first day of the week view is a valid date |
| IcedCalendar.MonthView | iced-calendar/src/main.rs:135-165 | the grid has 6 rows of 7 cells; cell (w, d) is 7w+d days from the grid start and is flagged exactly when its month is the current month |
| IcedCalendar.WeekView | iced-calendar/src/main.rs:170-183 | seven days; day i is i days after the Sunday on or before the current date |
| IcedCalendar.ListView | iced-calendar/src/main.rs:191-202 | thirty days; day i is i days after the current date |
| IcedCalendar.SundayOnOrBeforeIsSunday | iced-calendar/src/main.rs:171-172  | stepping back `num_days_from_sunday` days always reaches a Sunday |
| IcedCalendar.SundayOnOrBeforeDistance | iced-calendar/src/main.rs:171-172  | that Sunday is w < 7 days earlier, and w days after it is the date again |
| IcedCalendar.MonthGridStartsOnSunday | iced-calendar/src/main.rs:136-138 | the month grid starts on a Sunday, `offset` days before the first of the month, which is then cell `offset` |
| IcedCalendar.MonthGridCoversMonth | iced-calendar/src/main.rs:136-165 | every day 1+j of the current month is cell offset+j, inside the 42 cells |
| IcedCalendar.AddDaysSum | iced-calendar/src/main.rs:162 | a days and then b days is a+b days |
| IcedCalendar.GridCellsConsecutive | iced-calendar/src/main.rs:140-165 | cell i of the grid has the day number of the start plus i, at the same time of day |
| IcedCalendar.WeekStartShape | iced-calendar/src/main.rs:171-176 | the week view starts on the Sunday on or before the current date and contains it at index w |
| IcedCalendar.ViewDaysConsecutive | iced-calendar/src/main.rs:175-195  | day i of the week or list view has the start's day number plus i, at the same time of day |
| IcedCalendar.Calendar.constructor | iced-calendar/src/main.rs:42-54 | `new`: the current date is the supplied local time, in month view |
| IcedCalendar.Calendar.Update | iced-calendar/src/main.rs:56-86 | Previous/NextMonth set the date as the pure navigation does and keep the view; `Today` sets the supplied time; `ChangeView` sets only the view |

## Left out

- Rendering is not modelled, in all three programs. That covers the `view`, button
  and layout code, the text formatting of cells, the day view (a formatted line only),
  and `view_mode_picklist` and the button `Status` fields, which `update` never reads.
  The timer's text fields parse hours, minutes and seconds in `view`. The model takes
  the `u32` they produce as the message payload.
- `iced-clock` is not part of this model.
- The timer's one-second subscription and the event loop are not modelled. A `Tick`
  is one message.
- `Local::now()` cannot be modelled, because it reads the clock. `Calendar.constructor`
  takes the time as a parameter, and the `Today` message carries it.
- `Uuid::new_v4()` cannot be modelled, because it is random. `TimerApp.constructor`
  takes the first id, and `AddTimer` carries the new id. `TimerApp.Update` requires
  `AddTimer`'s id to be unused, so that the ids stay distinct. A version-4 collision
  has negligible probability.
- `f64` arithmetic, parsing and printing are uninterpreted functions in `FloatLib`,
  so rounding, NaN and infinities are not modelled. The exact check `n != 0.0` is
  modelled on the bit pattern. The constants 1.0, 2.0, 100.0 and `E` are their
  IEEE 754 encodings.
- Factorial.FactorialU64: models the release build, where the product wraps modulo
  2^64. A debug build panics on overflow from 21!, which is not modelled. The
  product takes n multiplications, so a large input blocks `update` for an
  impractically long time; the model gives only the value the product would reach.
- Years are unbounded integers, so chrono's supported range of years is not modelled.
  In this model `checked_add_months` and `checked_sub_months` never fail.
- Only the date part of `NaiveDateTime` is modelled. A valid date and time has a time
  of day outside a leap second (nanoseconds below 10^9). On such times, chrono's
  `± Duration::days(k)` keeps the time and moves only the date. Leap-second times are
  excluded because `Local::now()`, the only source of dates here, does not return
  them. On a leap second chrono would move the time, and a subtraction could shift the
  date by a day.
- Shared mutation inside `iter_mut().find(...)` is modelled as a write at the found
  index of the `timers` sequence. The model has no separate timer objects.
