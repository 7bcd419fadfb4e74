/** differenceInBusinessDays: the signed number of business days (Monday to
    Friday) between two dates, on whole-day numbers. */
module BusinessDays {

  /** A date as the function receives it: either a valid date, identified by
      its day number (days since 1 January 1970, a Thursday), or a date whose
      timestamp is not a number. */
  datatype DateLike = Valid(day: int) | Invalid

  /** What the function returns: the invalid-date sentinel, or a signed count. */
  datatype Outcome = InvalidDate | Count(days: int)

  // ---------------------------------------------------------------------
  // The date primitives, on day numbers.
  // ---------------------------------------------------------------------

  /** Day of the week, 0 = Sunday through 6 = Saturday (the numbering of
      Date.prototype.getDay); day 0 was a Thursday. */
  function Weekday(d: int): (w: int)
    ensures 0 <= w < 7
  {
    (d + 4) % 7
  }

  /** Saturday and Sunday: the days congruent to 3 and 4 January 1970. */
  function IsWeekend(d: int): (weekend: bool)
    ensures weekend <==> d % 7 == 2 || d % 7 == 3
  {
    Weekday(d) == 0 || Weekday(d) == 6
  }

  /** Two day numbers name the same day exactly when they fall on the same
      weekday less than a week apart. */
  function IsSameDay(a: int, b: int): (same: bool)
    ensures same <==> Weekday(a) == Weekday(b) && Abs(a - b) < 7
  {
    a == b
  }

  /** Signed whole days from right to left: zero exactly on the same day,
      negative exactly when left is the earlier day. */
  function DifferenceInCalendarDays(left: int, right: int): (n: int)
    ensures n == 0 <==> IsSameDay(left, right)
    ensures n < 0 <==> left < right
  {
    left - right
  }

  /** The day n days after d (before it for negative n): it lies n calendar
      days from d, and its weekday is d's moved on by n. */
  function AddDays(d: int, n: int): (r: int)
    ensures DifferenceInCalendarDays(r, d) == n
    ensures Weekday(r) == (Weekday(d) + n) % 7
  {
    d + n
  }

  function Abs(x: int): nat {
    if x < 0 then -x else x
  }

  /** 1 for a business day, 0 for a weekend day. */
  function Mark(d: int): nat {
    if IsWeekend(d) then 0 else 1
  }

  // ---------------------------------------------------------------------
  // The arithmetic of the week estimate.
  // ---------------------------------------------------------------------

  /** The direction of the correction loop: -1 exactly for a negative
      calendar difference, so a zero difference walks forwards. */
  function Sign(calendarDifference: int): (s: int)
    ensures s == 1 || s == -1
    ensures s == -1 <==> calendarDifference < 0
  {
    if calendarDifference < 0 then -1 else 1
  }

  /** Whole weeks in the calendar difference, the quotient by 7 truncated
      toward zero (not Dafny's Euclidean `/`, which rounds -10 / 7 to -2). */
  function Weeks(calendarDifference: int): (w: int)
    ensures calendarDifference >= 0 ==> 0 <= 7 * w <= calendarDifference < 7 * w + 7
    ensures calendarDifference < 0 ==> 7 * w - 7 < calendarDifference <= 7 * w <= 0
  {
    if calendarDifference >= 0 then calendarDifference / 7
    else -((-calendarDifference) / 7)
  }

  /** Truncation and Euclidean division part ways on negative differences. */
  lemma WeeksTruncatesTowardZero()
    ensures Weeks(-10) == -1 && -10 / 7 == -2
    ensures Weeks(10) == 1 && Weeks(-6) == 0 && Weeks(-7) == -1
  {
  }

  /** After the shift by whole weeks, at most six days remain, and they lie
      in the direction of the sign. */
  lemma RemainderWithinSixDays(calendarDifference: int)
    ensures var rest := calendarDifference - 7 * Weeks(calendarDifference);
      Abs(rest) <= 6 && rest * Sign(calendarDifference) >= 0
  {
  }

  // ---------------------------------------------------------------------
  // The reference definition: counting business days one by one.
  // ---------------------------------------------------------------------

  /** Number of business days d with lo <= d < hi. */
  function WeekdaysIn(lo: int, hi: int): (n: nat)
    ensures n <= if lo <= hi then hi - lo else 0
    decreases hi - lo
  {
    if hi <= lo then 0 else WeekdaysIn(lo, hi - 1) + Mark(hi - 1)
  }

  /** The signed business-day count between two valid days: the business days
      in [right, left) when left is not before right, and minus the business
      days in (left, right] otherwise. */
  function BusinessDaysBetween(left: int, right: int): (n: int)
    ensures left >= right ==> 0 <= n <= left - right
    ensures left < right ==> left - right <= n <= 0
  {
    if left >= right then WeekdaysIn(right, left) else -(WeekdaysIn(left + 1, right + 1) as int)
  }

  /** The whole function: the sentinel when either date is invalid,
      otherwise the count, which never exceeds the calendar distance. */
  function BusinessDayDifference(dateLeft: DateLike, dateRight: DateLike): (r: Outcome)
    ensures r == InvalidDate <==> dateLeft == Invalid || dateRight == Invalid
    ensures r.Count? ==> Abs(r.days) <= Abs(dateLeft.day - dateRight.day)
  {
    if dateLeft.Invalid? || dateRight.Invalid? then InvalidDate
    else Count(BusinessDaysBetween(dateLeft.day, dateRight.day))
  }

  // ---------------------------------------------------------------------
  // Lemmas about the count.
  // ---------------------------------------------------------------------

  /** Counting over adjacent ranges adds up. */
  lemma {:induction false} WeekdaysSplit(a: int, b: int, c: int)
    requires a <= b <= c
    ensures WeekdaysIn(a, c) == WeekdaysIn(a, b) + WeekdaysIn(b, c)
    decreases c - b
  {
    if c > b {
      WeekdaysSplit(a, b, c - 1);
    }
  }

  /** The count, peeled from the low end of the range. */
  lemma WeekdaysFront(lo: int, hi: int)
    requires lo < hi
    ensures WeekdaysIn(lo, hi) == Mark(lo) + WeekdaysIn(lo + 1, hi)
  {
    WeekdaysSplit(lo, lo + 1, hi);
  }

  lemma WeekdayShift(d: int, i: nat)
    ensures Weekday(d + i) == (Weekday(d) + i) % 7
  {
  }

  /** Any seven consecutive days hold exactly five business days. */
  lemma FullWeek(a: int)
    ensures WeekdaysIn(a, a + 7) == 5
  {
    WeekdayShift(a, 1); WeekdayShift(a, 2); WeekdayShift(a, 3);
    WeekdayShift(a, 4); WeekdayShift(a, 5); WeekdayShift(a, 6);
    assert WeekdaysIn(a, a + 7) == WeekdaysIn(a, a + 6) + Mark(a + 6);
    assert WeekdaysIn(a, a + 6) == WeekdaysIn(a, a + 5) + Mark(a + 5);
    assert WeekdaysIn(a, a + 5) == WeekdaysIn(a, a + 4) + Mark(a + 4);
    assert WeekdaysIn(a, a + 4) == WeekdaysIn(a, a + 3) + Mark(a + 3);
    assert WeekdaysIn(a, a + 3) == WeekdaysIn(a, a + 2) + Mark(a + 2);
    assert WeekdaysIn(a, a + 2) == WeekdaysIn(a, a + 1) + Mark(a + 1);
    assert WeekdaysIn(a, a + 1) == Mark(a);
  }

  /** k whole weeks hold 5k business days, whatever day they start on. */
  lemma {:induction false} WholeWeeks(a: int, k: nat)
    ensures WeekdaysIn(a, a + 7 * k) == 5 * k
  {
    if k > 0 {
      WholeWeeks(a, k - 1);
      WeekdaysSplit(a, a + 7 * (k - 1), a + 7 * k);
      FullWeek(a + 7 * (k - 1));
    }
  }

  /** Two dates exactly k weeks apart are 5k business days apart, with the
      sign of k, and the week estimate leaves no days for the loop. */
  lemma WholeWeeksApart(d: int, k: int)
    ensures Weeks(DifferenceInCalendarDays(d + 7 * k, d)) == k
    ensures BusinessDayDifference(Valid(d + 7 * k), Valid(d)) == Count(5 * k)
  {
    if k >= 0 {
      WholeWeeks(d, k);
    } else {
      WholeWeeks(d + 7 * k + 1, -k);
    }
  }

  /** The same calendar day gives zero. */
  lemma SameDayIsZero(d: int)
    ensures BusinessDayDifference(Valid(d), Valid(d)) == Count(0)
  {
  }

  /** Moving the left date one day later raises the count by 1 or 0: by the
      old left day's mark when counting forwards from right, and by the new
      left day's mark when counting backwards towards right. */
  lemma StepLeft(left: int, right: int)
    ensures BusinessDaysBetween(left + 1, right) - BusinessDaysBetween(left, right)
      == if left >= right then Mark(left) else Mark(left + 1)
  {
    if left < right {
      WeekdaysFront(left + 1, right + 1);
    }
  }

  /** Swapping the arguments does not simply negate the count: the forward
      count includes the earlier day and the backward count the later one. */
  lemma SwapArguments(a: int, b: int)
    requires b < a
    ensures BusinessDaysBetween(a, b) + BusinessDaysBetween(b, a) == Mark(b) - Mark(a)
  {
    WeekdaysFront(b, a);
  }

  // ---------------------------------------------------------------------
  // The function itself.
  // ---------------------------------------------------------------------

  /** The week estimate followed by the day-by-day correction loop. The ghost
      out-parameter `steps` counts the loop's iterations. */
  method DifferenceInBusinessDays(dateLeft: DateLike, dateRight: DateLike)
    returns (r: Outcome, ghost steps: nat)
    ensures r == BusinessDayDifference(dateLeft, dateRight)
    ensures steps <= 6
    ensures dateLeft.Valid? && dateRight.Valid? ==>
      var calendarDifference := DifferenceInCalendarDays(dateLeft.day, dateRight.day);
      steps == Abs(calendarDifference - 7 * Weeks(calendarDifference))
  {
    steps := 0;
    if dateLeft.Invalid? || dateRight.Invalid? {
      return InvalidDate, 0;
    }
    var left := dateLeft.day;
    var right := dateRight.day;

    var calendarDifference := DifferenceInCalendarDays(left, right);
    var sign := Sign(calendarDifference);
    var weeks := Weeks(calendarDifference);

    var result := weeks * 5;
    right := AddDays(right, weeks * 7);
    ghost var start := right;
    RemainderWithinSixDays(calendarDifference);

    while !IsSameDay(left, right)
      invariant sign == 1 ==> start <= right <= left && result == 5 * weeks + WeekdaysIn(start, right)
      invariant sign == -1 ==> left <= right <= start && result == 5 * weeks - WeekdaysIn(right + 1, start + 1)
      invariant steps == Abs(right - start) <= 6
      decreases Abs(left - right)
    {
      if sign == -1 {
        WeekdaysFront(right, start + 1);
      }
      result := result + (if IsWeekend(right) then 0 else sign);
      right := AddDays(right, sign);
      steps := steps + 1;
    }

    if sign == 1 {
      WholeWeeks(dateRight.day, weeks);
      WeekdaysSplit(dateRight.day, start, left);
    } else {
      WholeWeeks(start + 1, -weeks);
      WeekdaysSplit(left + 1, start + 1, dateRight.day + 1);
    }
    r := Count(result);
  }

  // ---------------------------------------------------------------------
  // Concrete dates.
  // ---------------------------------------------------------------------

  /** 10 January 2014 (a Friday) to 20 July 2014 (a Sunday): 136 business days. */
  lemma DocumentedExample()
    ensures Weekday(16080) == 5 && Weekday(16271) == 0
    ensures BusinessDayDifference(Valid(16271), Valid(16080)) == Count(136)
  {
    WholeWeeks(16080, 27);
    WeekdaysSplit(16080, 16269, 16271);
    assert WeekdaysIn(16269, 16271) == 1 by {
      assert WeekdaysIn(16269, 16271) == WeekdaysIn(16269, 16270) + Mark(16270);
      assert WeekdaysIn(16269, 16270) == Mark(16269);
    }
  }

  /** Days around the weekend of 11 and 12 January 2014: Thursday 9 (16079),
      Friday 10 (16080), Saturday 11 (16081), Monday 13 (16083). */
  lemma WeekendScenarios()
    ensures BusinessDayDifference(Valid(16080), Valid(16080)) == Count(0)
    ensures BusinessDayDifference(Valid(16083), Valid(16080)) == Count(1)
    ensures BusinessDayDifference(Valid(16081), Valid(16080)) == Count(1)
    ensures BusinessDayDifference(Valid(16081), Valid(16083)) == Count(-1)
    ensures BusinessDayDifference(Valid(16083), Valid(16081)) == Count(0)
    ensures BusinessDayDifference(Valid(16081), Valid(16079)) == Count(2)
    ensures BusinessDayDifference(Valid(16079), Valid(16081)) == Count(-1)
    ensures BusinessDayDifference(Invalid, Valid(16080)) == InvalidDate
  {
  }
}
