# differenceInBusinessDays, modelled in Dafny

This project models date-fns' `differenceInBusinessDays(dateLeft, dateRight)`. It returns the
signed number of business days (Monday to Friday) between two dates, or an invalid-date
sentinel when either date is invalid.

The function works in two steps. First it takes the signed calendar-day difference and counts
whole weeks, truncated toward zero, at five business days each. It moves `dateRight` toward
`dateLeft` by that many weeks. Then a loop walks `dateRight` one day at a time toward
`dateLeft`. For each day it passes that is not a weekend day, it adds the sign of the
difference to the result.

Model choices:

- A date is a whole-day number: days since 1 January 1970, which was a Thursday.
  `DateLike = Valid(day) | Invalid`, where `Invalid` stands for a `Date` whose timestamp is NaN.
- The weekday is `(day + 4) % 7`, with 0 = Sunday as in `getDay`.
  `isWeekend` tests for 0 or 6.
  `differenceInCalendarDays`, `addDays` and `isSameDay` become `-`, `+` and `==`.
- The result is `Outcome = InvalidDate | Count(days)`.
- `toInteger(calendarDifference / 7)` is written out as truncating division (`Weeks`).
  Dafny's `/` is Euclidean and would round `-10 / 7` to `-2`.
- `DifferenceInBusinessDays` is a method with the source's `while` loop. It keeps `result` and
  `dateRight` as mutable locals that the loop reassigns. The source declares both `const`, so
  the model follows the evident intent rather than the code as written (see "Left out").
- The method is proved equal to an independent reference, `BusinessDaysBetween`, which counts
  business days one by one:
  - When `left >= right`, it counts the days in [right, left).
  - Otherwise, it gives minus the number of business days in (left, right].
- A ghost out-parameter counts loop iterations, which proves that the loop runs at most six times.

Some consequences of the loop's shape, all proved:

- Saturday 11 January 2014 against Friday 10 January 2014 gives 1. The loop counts the Friday it
  starts on (`WeekendScenarios`).
- The function is not antisymmetric, even when both results are non-zero. Thursday against
  Saturday gives -1, and Saturday against Thursday gives 2. `SwapArguments` proves the exact
  relation.
- Moving `dateLeft` one day later changes the result by 0 or 1.
  - In the forward direction, the old left day decides the change.
  - In the backward direction, the new left day decides it (`StepLeft`).

## Model

| member | source | states |
|---|---|---|
| `BusinessDays.DifferenceInBusinessDays` | src/differenceInBusinessDays/index.ts:33-58 | the result equals the reference count `BusinessDayDifference` for all inputs (sentinel for an invalid date, otherwise the signed business days); the correction loop runs exactly `|difference - 7·weeks|` times, never more than 6 |
| `BusinessDays.BusinessDayDifference` | src/differenceInBusinessDays/index.ts:40 | the result is the invalid-date sentinel exactly when either input is invalid, whatever the other is; otherwise its magnitude never exceeds the calendar-day distance |
| `BusinessDays.BusinessDaysBetween` | src/differenceInBusinessDays/index.ts:42-57 | the count is non-negative and at most the calendar difference when dateLeft is not before dateRight, and non-positive and at least the (negative) difference otherwise |
| `BusinessDays.WeekdaysIn` | src/differenceInBusinessDays/index.ts:51-55 | the number of non-weekend days in a half-open range is a natural number no larger than the range's length |
| `BusinessDays.IsWeekend` | src/differenceInBusinessDays/index.ts:53 | a day is a weekend day exactly when it is congruent modulo 7 to 3 or 4 January 1970 (a Saturday and a Sunday) |
| `BusinessDays.IsSameDay` | src/differenceInBusinessDays/index.ts:51 | two day numbers are the same day exactly when they share a weekday and lie less than a week apart |
| `BusinessDays.DifferenceInCalendarDays` | src/differenceInBusinessDays/index.ts:42 | the difference is zero exactly on the same day and negative exactly when dateLeft is the earlier day |
| `BusinessDays.AddDays` | src/differenceInBusinessDays/index.ts:48 | adding n days gives a day whose calendar difference from the start is n, with the weekday moved on by n (modulo 7); the loop's step at line 54 is the same call with n = sign |
| `BusinessDays.Weekday` | src/differenceInBusinessDays/index.ts:53 | the day of the week of a day number lies in 0..6 |
| `BusinessDays.Sign` | src/differenceInBusinessDays/index.ts:43 | the sign is +1 or -1, and -1 exactly when the calendar difference is negative (a zero difference gives +1) |
| `BusinessDays.Weeks` | src/differenceInBusinessDays/index.ts:45 | weeks is the calendar difference divided by 7 truncated toward zero: 7·weeks has the difference's sign, does not exceed it in magnitude, and is within 6 of it |
| `BusinessDays.WeeksTruncatesTowardZero` | src/differenceInBusinessDays/index.ts:45 | on -10 the week count is -1, whereas Euclidean division gives -2; on 10, -6 and -7 it gives 1, 0 and -1 |
| `BusinessDays.RemainderWithinSixDays` | src/differenceInBusinessDays/index.ts:48-50 | after the shift by whole weeks at most six days remain between the dates, and they lie in the direction of the sign |
| `BusinessDays.WeekdaysSplit` | src/differenceInBusinessDays/index.ts:47-55 | the business days of two adjacent ranges add up to those of their union, which lets the week estimate and the loop's count combine |
| `BusinessDays.WeekdaysFront` | src/differenceInBusinessDays/index.ts:51-55 | the count of a range is the first day's mark plus the count of the rest, which is the step the backward loop takes |
| `BusinessDays.FullWeek` | src/differenceInBusinessDays/index.ts:47 | any seven consecutive days contain exactly five business days, whatever weekday they start on |
| `BusinessDays.WholeWeeks` | src/differenceInBusinessDays/index.ts:45-48 | k whole weeks starting on any day contain exactly 5k business days, which justifies seeding the result with weeks·5 |
| `BusinessDays.WholeWeeksApart` | src/differenceInBusinessDays/index.ts:45-51 | two dates exactly 7k days apart are 5k business days apart with the sign of k, and the week count is exactly k, so the loop does not run |
| `BusinessDays.SameDayIsZero` | src/differenceInBusinessDays/index.ts:42-57 | the same calendar day gives 0 |
| `BusinessDays.StepLeft` | src/differenceInBusinessDays/index.ts:51-55 | moving dateLeft one day later raises the result by 1 or 0: by the old left day's business-day mark going forwards, by the new left day's mark going backwards |
| `BusinessDays.SwapArguments` | src/differenceInBusinessDays/index.ts:43-55 | for b before a, f(a, b) + f(b, a) equals mark(b) - mark(a): the forward count includes the earlier day, the backward count the later day |
| `BusinessDays.DocumentedExample` | src/differenceInBusinessDays/index.ts:24-31 | 20 July 2014 (a Sunday) against 10 January 2014 (a Friday) gives 136 |
| `BusinessDays.WeekendScenarios` | src/differenceInBusinessDays/index.ts:40-57 | same day gives 0; Monday 13 against Friday 10 January 2014 gives 1; Saturday 11 against Friday 10 gives 1; Saturday against the following Monday gives -1 and the reverse gives 0; Saturday against Thursday gives 2 and the reverse gives -1; an invalid date gives the sentinel |

## Left out

- DifferenceInBusinessDays: the source declares `dateRight` (line 38) and `result` (line 47)
  `const` and then reassigns them (lines 48, 53 and 54). As written, the file does not
  type-check in TypeScript. As JavaScript it would throw a TypeError at the first reassignment,
  line 48, for every pair of valid inputs. The model treats both as mutable locals, which is the
  evident intent.
- The internals of `toDate`, `isValid`, `differenceInCalendarDays`, `addDays`, `isSameDay` and
  `isWeekend` are not part of this model. These are JavaScript `Date` handling with time of day,
  time zones, daylight saving and NaN timestamps. Here a date is already a whole-day number and
  validity is a constructor.
- The `new Date(NaN)` object returned for an invalid input is represented by the `InvalidDate`
  constructor.
- Floating-point division in `calendarDifference / 7` is not modelled. The quotient itself is
  generally not exact in binary floating point (10 / 7, say). What is exact is
  `toInteger(calendarDifference / 7)`: for every day difference a JavaScript `Date` can produce
  (at most 2·10^8 in magnitude) it equals the integer quotient truncated toward zero, which
  `Weeks` computes.
- The normalisation `result === 0 ? 0 : result` is not modelled. It only turns a JavaScript -0
  into 0, and a Dafny `int` has no -0.
- Mapping from a calendar date (year, month, day) to a day number is not modelled. The concrete
  scenarios give day numbers directly and prove the weekday of each anchor date.
