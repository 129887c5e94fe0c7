/**
  The time of day written to the real-time clock's alarm before shutdown. The
  daily window runs from `start` to `end` and may cross midnight.
*/
module Wake {
  import opened Clock

  /**
    Whether `t` lies inside the window, stated independently of the rule in
    `WakeTime`: a window that does not cross midnight is open strictly between
    its bounds; one that does is open from `start` on and before `end`.
  */
  predicate InWindow(start: TimeOfDay, end: TimeOfDay, t: TimeOfDay) {
    if start <= end then start < t < end else start <= t || t < end
  }

  /**
    The next wake-up: `off` after `now` while inside the window, otherwise the
    window's start.
  */
  function WakeTime(start: TimeOfDay, end: TimeOfDay, now: int, off: int): (r: TimeOfDay)
    ensures r == start || (r - now - off) % Day == 0
  {
    var t := TimeOfDayAt(now);
    if end >= start && t > start && t < end then Advance(now, off)
    else if end < start && ((t < start && t < end) || (t >= start && t >= end)) then Advance(now, off)
    else start
  }

  /** The rule in `WakeTime` agrees with the window: advance exactly when inside, else wait for `start`. */
  lemma WakeTimeFollowsWindow(start: TimeOfDay, end: TimeOfDay, now: int, off: int)
    ensures InWindow(start, end, TimeOfDayAt(now)) ==> WakeTime(start, end, now, off) == Advance(now, off)
    ensures !InWindow(start, end, TimeOfDayAt(now)) ==> WakeTime(start, end, now, off) == start
  {
  }

  /** For a window crossing midnight the two-clause test is "before `end` or from `start` on". */
  lemma WrappingTestSimplifies(start: TimeOfDay, end: TimeOfDay, t: TimeOfDay)
    requires end < start
    ensures ((t < start && t < end) || (t >= start && t >= end)) <==> (t < end || t >= start)
  {
  }

  /** A window whose bounds coincide is never open: the alarm is always its start. */
  lemma EmptyWindowWakesAtStart(start: TimeOfDay, now: int, off: int)
    ensures WakeTime(start, start, now, off) == start
  {
  }

  /** At the very opening second of a window that does not cross midnight the alarm is the start itself. */
  lemma OpeningSecondWakesAtStart(start: TimeOfDay, end: TimeOfDay, now: int, off: int)
    requires start <= end && TimeOfDayAt(now) == start
    ensures WakeTime(start, end, now, off) == start
  {
  }

  /** Only the time of day of `now` matters, not its date. */
  lemma WakeTimeIgnoresDate(start: TimeOfDay, end: TimeOfDay, now1: int, now2: int, off: int)
    requires TimeOfDayAt(now1) == TimeOfDayAt(now2)
    ensures WakeTime(start, end, now1, off) == WakeTime(start, end, now2, off)
  {
    AdvanceFromTimeOfDay(now1, off);
    AdvanceFromTimeOfDay(now2, off);
  }

  /** Seconds from the time of day `t` until the clock next shows `wake` (zero when equal). */
  function Until(t: TimeOfDay, wake: TimeOfDay): (d: int)
    ensures 0 <= d < Day
    ensures (t + d - wake) % Day == 0
  {
    (wake - t) % Day
  }

  /** Inside the window a sleep shorter than a day ends after exactly `off` seconds. */
  lemma SleepInsideWindow(start: TimeOfDay, end: TimeOfDay, now: int, off: int)
    requires InWindow(start, end, TimeOfDayAt(now))
    requires 0 <= off < Day
    ensures Until(TimeOfDayAt(now), WakeTime(start, end, now, off)) == off
  {
    var t := TimeOfDayAt(now);
    AdvanceFromTimeOfDay(now, off);
    if t + off >= Day {
      assert Advance(t, off) == t + off - Day;
    }
  }

  /**
    Worked example: inside 09:00 to 17:00 at noon, wake `off` later, even past
    the window's end. The bound only keeps the wake-up before midnight.
  */
  lemma WakeExampleDaytime(off: int)
    requires 0 <= off < 12 * 3600
    ensures WakeTime(TimeOf(9, 0, 0), TimeOf(17, 0, 0), TimeOf(12, 0, 0), off) == TimeOf(12, 0, 0) + off
  {
    assert TimeOfDayAt(TimeOf(12, 0, 0)) == 43200;
    assert Advance(43200, off) == 43200 + off;
  }

  /** Worked example: window 22:00 to 06:00; inside at 23:00, outside at 10:00 so wake at 22:00. */
  lemma WakeExampleOvernight(off: int)
    requires 0 <= off < 3600
    ensures WakeTime(TimeOf(22, 0, 0), TimeOf(6, 0, 0), TimeOf(23, 0, 0), off) == TimeOf(23, 0, 0) + off
    ensures WakeTime(TimeOf(22, 0, 0), TimeOf(6, 0, 0), TimeOf(10, 0, 0), off) == TimeOf(22, 0, 0)
  {
  }
}
