/**
 * The daily work window (`WorkHoursScheduler`): a start hour, an end hour and
 * an on/off switch.  When the start hour is later than the end hour the window
 * runs overnight, past midnight.  The wall clock becomes a parameter: a time of
 * day in whole seconds since midnight.
 */
module WorkHours {
  import opened Wrappers
  import TextUtil

  const SecondsPerHour: int := 3600
  const SecondsPerDay: int := 86400

  /** A time of day, in whole seconds since midnight. */
  type TimeOfDay = t: int | 0 <= t < 86400

  datatype Scheduler = Scheduler(startHour: int, endHour: int, enabled: bool)

  /**
   * The constructor builds `datetime.time(hour, 0)` from both hours, which
   * raises unless the hour lies in 0..23: every scheduler that exists has valid hours.
   */
  predicate ValidHours(s: Scheduler) {
    0 <= s.startHour < 24 && 0 <= s.endHour < 24
  }

  function StartSecond(s: Scheduler): int {
    s.startHour * SecondsPerHour
  }

  function EndSecond(s: Scheduler): int {
    s.endHour * SecondsPerHour
  }

  /**
   * `_is_overnight_shift`: the window wraps past midnight, that is, the shift
   * counted forward round the clock from its start hour runs past hour 24.
   */
  predicate IsOvernightShift(s: Scheduler): (r: bool)
    ensures ValidHours(s) ==> (r <==> s.startHour + (s.endHour - s.startHour) % 24 >= 24)
  {
    s.startHour > s.endHour
  }

  /**
   * `is_within_work_hours`: always open when disabled; otherwise open exactly
   * when the clock's hour lies within the shift's length after the start hour,
   * wrapping at midnight.
   */
  predicate IsWithinWorkHours(s: Scheduler, t: TimeOfDay): (r: bool)
    ensures ValidHours(s) ==> (r <==> !s.enabled || (t / SecondsPerHour - s.startHour) % 24 < (s.endHour - s.startHour) % 24)
  {
    if !s.enabled then true
    else if ValidHours(s) then
      ClockTestIsHourTest(s, t);
      ClockTest(s, t)
    else ClockTest(s, t)
  }

  /** The clock comparisons of `is_within_work_hours` for an enabled window. */
  predicate ClockTest(s: Scheduler, t: TimeOfDay) {
    if IsOvernightShift(s) then t >= StartSecond(s) || t < EndSecond(s)
    else StartSecond(s) <= t < EndSecond(s)
  }

  /**
   * The clock test and the hour test agree: a time passes the source's
   * comparisons exactly when its hour lies within the shift's length after the
   * start hour, wrapping at midnight.
   */
  lemma ClockTestIsHourTest(s: Scheduler, t: TimeOfDay)
    requires ValidHours(s)
    ensures ClockTest(s, t) <==> (t / SecondsPerHour - s.startHour) % 24 < (s.endHour - s.startHour) % 24
  {
    var h := t / SecondsPerHour;
    assert h * SecondsPerHour <= t < h * SecondsPerHour + SecondsPerHour;
    assert 0 <= h < 24;
    HourCompare(h, s.startHour, t);
    HourCompare(h, s.endHour, t);
    if h < s.startHour {
      assert (h - s.startHour) % 24 == h - s.startHour + 24;
    } else {
      assert (h - s.startHour) % 24 == h - s.startHour;
    }
  }

  /**
   * `can_run_tasks`: the gate the dispatcher consults before every spawn.  It
   * is open exactly during the `DailyWorkHours` whole hours that follow the
   * start hour, counted round the clock.
   */
  function CanRunTasks(s: Scheduler, now: TimeOfDay): (r: bool)
    ensures ValidHours(s) ==> (r <==> !s.enabled || (now / SecondsPerHour - s.startHour) % 24 < DailyWorkHours(s))
  {
    IsWithinWorkHours(s, now)
  }

  /** A time lies at or after the start of an hour exactly when its own hour is not earlier. */
  lemma HourCompare(h: int, k: int, t: int)
    requires h * SecondsPerHour <= t < h * SecondsPerHour + SecondsPerHour
    ensures t >= k * SecondsPerHour <==> h >= k
  {
    if h >= k {
      assert h * SecondsPerHour >= k * SecondsPerHour;
    } else {
      assert h + 1 <= k;
      assert (h + 1) * SecondsPerHour <= k * SecondsPerHour;
    }
  }

  /** An enabled window runs overnight exactly when it is open in the last second before midnight. */
  lemma OvernightIffOpenBeforeMidnight(s: Scheduler)
    requires ValidHours(s) && s.enabled
    ensures IsOvernightShift(s) <==> IsWithinWorkHours(s, SecondsPerDay - 1)
  {
  }

  /** `should_pause_system`. */
  function ShouldPauseSystem(s: Scheduler, now: TimeOfDay): (r: bool)
    ensures r <==> !CanRunTasks(s, now)
    ensures !s.enabled ==> !r
  {
    !CanRunTasks(s, now)
  }

  /**
   * `get_time_until_work_starts`: seconds until the window next opens, None
   * when disabled or already open.
   */
  function TimeUntilWorkStarts(s: Scheduler, t: TimeOfDay): (r: Option<int>)
    requires ValidHours(s)
    ensures r.None? <==> (!s.enabled || IsWithinWorkHours(s, t))
    ensures r.Some? ==> 0 < r.value <= SecondsPerDay
  {
    if !s.enabled || IsWithinWorkHours(s, t) then None
    else if IsOvernightShift(s) then Some(StartSecond(s) - t)
    else if t < StartSecond(s) then Some(StartSecond(s) - t)
    else Some(SecondsPerDay + StartSecond(s) - t)
  }

  /**
   * `get_time_until_work_ends`: seconds until the window next closes, None
   * when disabled or currently closed.
   */
  function TimeUntilWorkEnds(s: Scheduler, t: TimeOfDay): (r: Option<int>)
    requires ValidHours(s)
    ensures r.None? <==> (!s.enabled || !IsWithinWorkHours(s, t))
    ensures r.Some? ==> 0 < r.value <= SecondsPerDay
  {
    if !s.enabled || !IsWithinWorkHours(s, t) then None
    else if IsOvernightShift(s) && t >= StartSecond(s) then Some(SecondsPerDay + EndSecond(s) - t)
    else Some(EndSecond(s) - t)
  }

  /** `get_daily_work_hours`: the hours from start to end, counted forward round the clock. */
  function DailyWorkHours(s: Scheduler): (r: int)
    ensures ValidHours(s) ==> 0 <= r < 24 && r == (s.endHour - s.startHour) % 24
    ensures ValidHours(s) ==> (r == 0 <==> s.startHour == s.endHour)
  {
    if IsOvernightShift(s) then (24 - s.startHour) + s.endHour
    else s.endHour - s.startHour
  }

  /** `{h:02d}` for an hour in 0..23. */
  function Pad2(h: int): (r: string)
    requires 0 <= h < 100
    ensures |r| == 2 && TextUtil.IsDigits(r) && TextUtil.DigitsValue(r) == h
  {
    var r := [TextUtil.DigitChar(h / 10), TextUtil.DigitChar(h % 10)];
    assert r[..1] == [r[0]] && r[..1][..0] == [];
    assert TextUtil.DigitsValue(r[..1]) == h / 10;
    r
  }

  /** `get_work_hours_string`: "HH:00 - HH:00". */
  function WorkHoursString(s: Scheduler): (r: string)
    requires ValidHours(s)
    ensures |r| == 13
    ensures r[2..5] == ":00" && r[5..8] == " - " && r[10..13] == ":00"
    ensures TextUtil.IsDigits(r[0..2]) && TextUtil.DigitsValue(r[0..2]) == s.startHour
    ensures TextUtil.IsDigits(r[8..10]) && TextUtil.DigitsValue(r[8..10]) == s.endHour
  {
    var a, b := Pad2(s.startHour), Pad2(s.endHour);
    var r := a + ":00 - " + b + ":00";
    assert r[0..2] == a && r[8..10] == b;
    r
  }

  /** The time of day `k` seconds after `t`, wrapping at midnight. */
  function Later(t: TimeOfDay, k: nat): TimeOfDay {
    (t + k) % SecondsPerDay
  }

  /** Reduces a time at most two days ahead to a time of day. */
  lemma ModDay(x: int)
    requires 0 <= x < 2 * SecondsPerDay
    ensures x < SecondsPerDay ==> x % SecondsPerDay == x
    ensures x >= SecondsPerDay ==> x % SecondsPerDay == x - SecondsPerDay
  {
  }

  /** With equal start and end hours an enabled window never opens: the daytime interval is empty. */
  lemma EqualHoursNeverOpen(s: Scheduler, t: TimeOfDay)
    requires s.enabled && s.startHour == s.endHour
    ensures !IsWithinWorkHours(s, t)
  {
  }

  /**
   * The start countdown is exact: the gate stays shut for every second of the
   * wait and is open once it has elapsed (unless the window is empty).
   */
  lemma StartCountdownIsExact(s: Scheduler, t: TimeOfDay, d: int)
    requires ValidHours(s) && s.startHour != s.endHour
    requires TimeUntilWorkStarts(s, t) == Some(d)
    ensures forall k: nat :: k < d ==> !IsWithinWorkHours(s, Later(t, k))
    ensures IsWithinWorkHours(s, Later(t, d))
  {
    forall k: nat | k < d
      ensures !IsWithinWorkHours(s, Later(t, k))
    {
      ModDay(t + k);
    }
    ModDay(t + d);
  }

  /**
   * The end countdown is exact: the gate stays open for every second of the
   * wait and is shut once it has elapsed.
   */
  lemma EndCountdownIsExact(s: Scheduler, t: TimeOfDay, d: int)
    requires ValidHours(s)
    requires TimeUntilWorkEnds(s, t) == Some(d)
    ensures forall k: nat :: k < d ==> IsWithinWorkHours(s, Later(t, k))
    ensures !IsWithinWorkHours(s, Later(t, d))
  {
    forall k: nat | k < d
      ensures IsWithinWorkHours(s, Later(t, k))
    {
      ModDay(t + k);
    }
    ModDay(t + d);
  }

  /** How many of the whole hours 0 .. n-1 start inside the window. */
  function OpenHoursBefore(s: Scheduler, n: nat): nat
    requires n <= 24
  {
    if n == 0 then 0
    else OpenHoursBefore(s, n - 1) + (if IsWithinWorkHours(s, (n - 1) * SecondsPerHour) then 1 else 0)
  }

  lemma {:induction false} OpenHoursBeforeFormula(s: Scheduler, n: nat)
    requires ValidHours(s) && s.enabled && n <= 24
    ensures IsOvernightShift(s) ==>
      OpenHoursBefore(s, n) == (if n <= s.endHour then n else s.endHour) + (if n > s.startHour then n - s.startHour else 0)
    ensures !IsOvernightShift(s) ==>
      OpenHoursBefore(s, n) == (if n <= s.startHour then 0 else if n <= s.endHour then n - s.startHour else s.endHour - s.startHour)
  {
    if n > 0 {
      OpenHoursBeforeFormula(s, n - 1);
    }
  }

  /** `get_daily_work_hours` counts exactly the whole hours of the day at which an enabled gate is open. */
  lemma DailyWorkHoursCountsOpenHours(s: Scheduler)
    requires ValidHours(s) && s.enabled
    ensures DailyWorkHours(s) == OpenHoursBefore(s, 24)
  {
    OpenHoursBeforeFormula(s, 24);
  }

  /** A 20:00-08:00 night shift and an 08:00-18:00 day shift, as illustrations of `IsWithinWorkHours`. */
  lemma WindowExamples()
    ensures IsWithinWorkHours(Scheduler(20, 8, true), 23 * 3600)
    ensures IsWithinWorkHours(Scheduler(20, 8, true), 3 * 3600)
    ensures !IsWithinWorkHours(Scheduler(20, 8, true), 12 * 3600)
    ensures IsWithinWorkHours(Scheduler(8, 18, true), 9 * 3600)
    ensures !IsWithinWorkHours(Scheduler(8, 18, true), 19 * 3600)
    ensures DailyWorkHours(Scheduler(20, 8, true)) == 12
  {
  }
}
