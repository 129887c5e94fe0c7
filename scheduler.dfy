/**
  The scheduler object: built once at boot from the environment, then asked
  repeatedly whether the device has been on long enough, and once before power
  down to adapt the sleep duration and set the wake-up alarm.
*/
module Scheduler {
  import opened Wrappers
  import opened Clock
  import opened TimeResolver
  import opened ScheduleConfig
  import opened DurationPolicy
  import opened Wake

  /** The parts of the boot object the scheduler writes: the shutdown request and the clock's alarm. */
  class Boot {
    var shutdown: bool
    var alarm1Time: Option<TimeOfDay>

    constructor ()
      ensures !shutdown && alarm1Time == None
    {
      shutdown := false;
      alarm1Time := None;
    }
  }

  /** Whether a device up since `started` has, at `now`, been on for at least `onDuration`. */
  predicate OnTimeElapsed(started: int, now: int, onDuration: int)
    ensures OnTimeElapsed(started, now, onDuration) <==> started + onDuration <= now
  {
    now - started >= onDuration
  }

  /** Once elapsed, the on-time stays elapsed: later checks never withdraw a shutdown request. */
  lemma OnTimeElapsedStays(started: int, now: int, later: int, onDuration: int)
    requires OnTimeElapsed(started, now, onDuration) && now <= later
    ensures OnTimeElapsed(started, later, onDuration)
  {
  }

  class Module {
    const boot: Boot
    var ready: bool
    var started: int
    var scheduleStart: TimeOfDay
    var scheduleEnd: TimeOfDay
    var onDuration: int
    var offDuration: int

    /** The schedule fields as Python's `__init__` sets them. */
    ghost predicate Valid()
      reads this
    {
      scheduleStart != 0 && scheduleEnd != 0 &&
      onDuration % 60 == 0 && offDuration % 60 == 0
    }

    /**
      `Module(boot)`: reads the schedule from `env` (for the calendar `month`
      when monthly scheduling is on), resolving solar names with `sky`, and
      records `now` as the start of this on period.
    */
    constructor (boot: Boot, env: Env, sky: Option<SolarEvents>, month: nat, now: int)
      requires 1 <= month <= 12
      ensures this.boot == boot && ready && started == now
      ensures Schedule(scheduleStart, scheduleEnd, offDuration, onDuration) == BuildSchedule(env, sky, month)
      ensures Valid()
    {
      this.boot := boot;
      ready := false;
      var schedule := BuildSchedule(env, sky, month);
      assert schedule.start != 0 && schedule.end != 0;
      assert schedule.offDuration % 60 == 0 && schedule.onDuration % 60 == 0;
      started := now;
      scheduleStart := schedule.start;
      scheduleEnd := schedule.end;
      onDuration := schedule.onDuration;
      offDuration := schedule.offDuration;
      ready := true;
    }

    /** `process`: request a shutdown once the on-time has elapsed; never clears the request. */
    method Process(now: int)
      requires Valid()
      modifies boot`shutdown
      ensures Valid()
      ensures boot.shutdown == (old(boot.shutdown) || (ready && OnTimeElapsed(started, now, onDuration)))
    {
      if !ready {
        return;
      }
      if OnTimeElapsed(started, now, onDuration) {
        boot.shutdown := true;
      }
    }

    /**
      `shutdown`: apply the voltage backoff to the stored sleep duration, then
      set the alarm to the next wake-up time of day. `half` and `quart` are the
      two voltage thresholds and `currentTime` the clock's reading.
    */
    method Shutdown(voltage: real, half: real, quart: real, currentTime: int)
      requires Valid()
      modifies this`offDuration, boot`alarm1Time
      ensures Valid()
      ensures ready ==> offDuration == Backoff(old(offDuration), voltage, half, quart)
      ensures ready ==> boot.alarm1Time == Some(WakeTime(scheduleStart, scheduleEnd, currentTime, offDuration))
      ensures !ready ==> offDuration == old(offDuration) && boot.alarm1Time == old(boot.alarm1Time)
      ensures ready && !InWindow(scheduleStart, scheduleEnd, TimeOfDayAt(currentTime)) ==>
                boot.alarm1Time == Some(scheduleStart) && boot.alarm1Time != Some(0)
    {
      if !ready {
        return;
      }
      BackoffLengthens(offDuration, voltage, half, quart);
      offDuration := Backoff(offDuration, voltage, half, quart);
      WakeTimeFollowsWindow(scheduleStart, scheduleEnd, currentTime, offDuration);
      var wakeup := WakeTime(scheduleStart, scheduleEnd, currentTime, offDuration);
      boot.alarm1Time := Some(wakeup);
    }
  }

  /**
    Under the safe schedule the device always wakes within four times 59
    minutes, whatever the voltage: `off` is at most quadrupled, and outside
    the window the alarm is at most two minutes away.
  */
  lemma SafeScheduleWakesSoon(now: int, voltage: real, half: real, quart: real)
    ensures var off := Backoff(SafeSchedule.offDuration, voltage, half, quart);
            var wake := WakeTime(SafeSchedule.start, SafeSchedule.end, now, off);
            Until(TimeOfDayAt(now), wake) <= 4 * 59 * 60
  {
    assert SafeSchedule.start == 60 && SafeSchedule.end == 86340 && SafeSchedule.offDuration == 3540;
    var off := Backoff(3540, voltage, half, quart);
    BackoffIsOneTier(3540, voltage, half, quart);
    SafeWindowWakesSoon(now, off);
  }

  lemma SafeWindowWakesSoon(now: int, off: int)
    requires 0 <= off <= 4 * 59 * 60
    ensures Until(TimeOfDayAt(now), WakeTime(60, 86340, now, off)) <= 4 * 59 * 60
  {
    var t := TimeOfDayAt(now);
    WakeTimeFollowsWindow(60, 86340, now, off);
    if InWindow(60, 86340, t) {
      SleepInsideWindow(60, 86340, now, off);
    } else if t <= 60 {
      ModuloInRange(60 - t);
    } else {
      ModuloInRange(60 - t + Day);
      ModuloShift(60 - t, 1);
    }
  }
}
