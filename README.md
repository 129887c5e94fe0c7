# PiRA scheduler: a verified model of the wake/sleep decision logic

This project models `pira/modules/scheduler.py` of the PiRA zero firmware. That
module decides when a battery- or solar-powered device should power down and
when it should wake again. It covers four things:

- **Reading the schedule.** The schedule is read from the environment at boot:
  a daily window from `start` to `end`, an on-time and an off-time. These are
  either static settings or month-keyed ones. Each setting has a default, and a
  safe schedule replaces all four settings when any one is unusable.
- **Parsing.** Times are `HH:MM` literals, or `sunrise`/`sunset` when astronomy
  is available. Durations are whole minutes.
- **Process.** The module asks for a shutdown once the device has been up for
  the on-time.
- **Shutdown.** Before power down, the module applies a voltage backoff to the
  off-time and sets the real-time clock's alarm to the next wake-up time of
  day. That time is computed with window logic that handles windows crossing
  midnight.

Units used throughout:

- A time of day is a whole number of seconds in `[0, 86400)`.
- A timestamp is a number of seconds counted from some midnight, so
  `datetime.time()` is `timestamp % 86400`.
- A duration (`timedelta`) is a whole number of seconds, and it may be negative.

Dafny's `%` is Euclidean, so `(timestamp + span) % 86400` matches Python's
normalisation of `(current_time + off).time()` even when `span` is negative.

Modules, leaves first:

- `Wrappers`: `Option`.
- `Decimal`: `int()`/`str()` for decimal integers. `int(str(n)) == n` holds for
  every integer; the reverse round trip holds for unsigned digit strings without
  a superfluous leading zero.
- `Strings`: `str.split` for a one-character separator, and its inverse.
- `Clock`: times of day, timestamps and the `HH:MM` spelling.
- `TimeResolver`: `_parse_time` and `_parse_duration`.
- `ScheduleConfig`: key selection, defaults and the safe fallback in `__init__`.
- `DurationPolicy`: the voltage tiers.
- `Wake`: the wake-up rule.
- `Scheduler`: the `Module` class, with `Process` and `Shutdown`.

An independent definition of "inside the window" (`Wake.InWindow`) is the
reference that the source's two-branch test is proved against.

Behaviour of the code worth noting:

- Zero and negative on/off durations are accepted; nothing checks that they are
  positive.
- Under Python 2, which this module targets, `not schedule_start` is also true
  for a window bound of `00:00`, because midnight is a false `time`. So a
  configured `00:00` start or end brings in the safe schedule. As a consequence,
  a stored window bound is never midnight (`BuildSchedule`, `Module.Valid`), and
  outside the window the alarm is never set to midnight (`Module.Shutdown`).
- At the exact opening second of a window that does not cross midnight, the
  alarm is set to the start itself, which is the current time of day.

## Model

| member | source | states |
|---|---|---|
| `Decimal.ParseInt` | pira/modules/scheduler.py:72 | an accepted string is non-empty, and a negative result comes only from a leading `-` |
| `Decimal.ParseIntMeaning` | pira/modules/scheduler.py:79 | `int(s)` succeeds exactly when, after an optional sign, `s` is one or more ASCII digits; the value is those digits read in base ten, negated after `-` |
| `Decimal.NatToString` | pira/modules/scheduler.py:25 | the spelling of a natural number is a non-empty string of digits |
| `Decimal.NatToStringCanonical` | pira/modules/scheduler.py:25 | that spelling has no superfluous leading zero |
| `Decimal.IntToString` | pira/modules/scheduler.py:25 | `str(n)` is non-empty, starts with `-` exactly when `n` is negative, and is digits otherwise |
| `Decimal.ParseIntOfIntToString` | pira/modules/scheduler.py:79 | `int(str(n)) == n` for every integer, negative ones included |
| `Decimal.NatToStringOfDigitsValue` | pira/modules/scheduler.py:72 | a digit string without a superfluous leading zero is the spelling of the number `int()` reads from it |
| `Decimal.LeadingZero` | pira/modules/scheduler.py:72 | a leading zero does not change the value `int()` reads (`"08"` is 8) |
| `Strings.Split` | pira/modules/scheduler.py:71 | `s.split(':')` always returns at least one piece |
| `Strings.JoinSplit` | pira/modules/scheduler.py:71 | joining the pieces of `s.split(':')` with `:` gives `s` back |
| `Strings.SplitCount` | pira/modules/scheduler.py:71 | `s.split(':')` has one piece more than `s` has colons |
| `Strings.SplitPair` | pira/modules/scheduler.py:71 | `(a + ':' + b).split(':') == [a, b]` when neither side holds a colon |
| `Clock.TimeOfParts` | pira/modules/scheduler.py:72 | `datetime.time(h, m, s)` has hour `h`, minute `m` and second `s` |
| `Clock.TimeOfFields` | pira/modules/scheduler.py:72 | every time of day is `datetime.time` of its own hour, minute and second |
| `TimeResolver.ParseTimeLiteral` | pira/modules/scheduler.py:70-74 | a parsed literal always has zero seconds |
| `TimeResolver.ParseTimeLiteralOfFields` | pira/modules/scheduler.py:70-74 | with exactly one colon, the literal parses if and only if both sides are integers with hour in 0..23 and minute in 0..59, and then to `time(h, m, 0)` |
| `TimeResolver.ParseTimeLiteralNeedsOneColon` | pira/modules/scheduler.py:71-74 | no colon, or more than one, gives `None` |
| `TimeResolver.ParseTimeLiteralSound` | pira/modules/scheduler.py:70-74 | every accepted string is an hour, one colon and a minute, and the result's hour and minute are what `int()` reads from them |
| `TimeResolver.ParseClockLiteral` | pira/modules/scheduler.py:70-72 | a two-digit `HH:MM` literal with a valid hour and minute parses to `time(h, m, 0)` |
| `TimeResolver.ParseFormatClock` | pira/modules/scheduler.py:70-74 | the `HH:MM` spelling of any whole-minute time of day parses back to that time |
| `TimeResolver.ResolveTime` | pira/modules/scheduler.py:50-74 | with astronomy, `sunrise` and `sunset` give today's solar times; anything else, and every name when astronomy is unavailable, goes through the literal parser |
| `TimeResolver.SolarNamesNeedAstronomy` | pira/modules/scheduler.py:52-74 | without astronomy, `sunrise` and `sunset` resolve to `None` |
| `TimeResolver.ParseDuration` | pira/modules/scheduler.py:76-81 | `None` exactly when the string is not an integer; otherwise a whole number of minutes, namely the integer read |
| `TimeResolver.ParseDurationOfInt` | pira/modules/scheduler.py:76-81 | the string of any integer `n`, zero and negative included, parses to `n` minutes |
| `TimeResolver.ParseTimeLiteralAfternoon` | pira/modules/scheduler.py:70-72 | `"14:30"` parses to 14:30:00 |
| `TimeResolver.ParseTimeLiteralOutOfRange` | pira/modules/scheduler.py:72-74 | `"25:99"` gives `None` |
| `TimeResolver.ParseTimeLiteralNoSeparator` | pira/modules/scheduler.py:71-74 | `"bad"` gives `None` |
| `ScheduleConfig.Get` | pira/modules/scheduler.py:21 | a present key yields its value, and an absent key yields the default |
| `ScheduleConfig.MonthlyEnabled` | pira/modules/scheduler.py:21 | month-keyed settings are used exactly when `SCHEDULE_MONTHLY` is present and equal to `1`; the default `0` never enables them |
| `ScheduleConfig.SettingKey` | pira/modules/scheduler.py:25-34 | every setting key starts with `SCHEDULE_` and ends with its field name |
| `ScheduleConfig.ReadSettings` | pira/modules/scheduler.py:21-34 | each parsed duration is a whole number of minutes |
| `ScheduleConfig.Falsy` | pira/modules/scheduler.py:36 | a time that is not false is present and strictly after midnight |
| `ScheduleConfig.Malformed` | pira/modules/scheduler.py:36 | usable settings have all four values, and neither window bound is midnight |
| `ScheduleConfig.Validate` | pira/modules/scheduler.py:36-41 | unusable settings give the safe schedule and usable ones are kept as they are; in both cases neither bound is midnight |
| `ScheduleConfig.BuildSchedule` | pira/modules/scheduler.py:20-47 | the stored window bounds are never midnight, and both durations are whole minutes |
| `ScheduleConfig.BuildScheduleFallback` | pira/modules/scheduler.py:36-47 | if start or end is missing or midnight, or either duration is missing, the schedule is exactly the safe one; otherwise the parsed values are stored unchanged |
| `ScheduleConfig.SafeWindowIsParsed` | pira/modules/scheduler.py:38-39 | `00:01` and `23:59` resolve to the safe schedule's start and end, with or without astronomy |
| `ScheduleConfig.SafeDurationsAreParsed` | pira/modules/scheduler.py:40-41 | `59` and `1` parse to the safe off-time and on-time, 59 and 1 minutes |
| `ScheduleConfig.DefaultWindowIsParsed` | pira/modules/scheduler.py:31-32 | the defaults `08:00` and `18:00` resolve to the default window |
| `ScheduleConfig.DefaultDurationsAreParsed` | pira/modules/scheduler.py:33-34 | the defaults `35` and `15` parse to 35 and 15 minutes |
| `ScheduleConfig.MidnightStartIsMalformed` | pira/modules/scheduler.py:36-41 | a start of `00:00` is false under Python 2 and brings in exactly the safe schedule |
| `ScheduleConfig.SettingKeyExamples` | pira/modules/scheduler.py:25-33 | the keys are spelled `SCHEDULE_MONTH3_START`, `SCHEDULE_MONTH12_T_ON`, `SCHEDULE_T_OFF` and so on |
| `ScheduleConfig.ConfiguredScheduleIsStored` | pira/modules/scheduler.py:21-47 | when each selected key holds a usable value (an `HH:MM` bound other than midnight, an integer count of minutes), exactly those values are stored, statically and monthly |
| `ScheduleConfig.DefaultsWhenUnset` | pira/modules/scheduler.py:21-34 | when none of the four selected keys is set, the default 08:00 to 18:00, 35/15 minute schedule is stored, both statically and monthly |
| `ScheduleConfig.ReadsOnlySelectedKeys` | pira/modules/scheduler.py:21-34 | the schedule depends on the environment only through `SCHEDULE_MONTHLY` and the four keys it selects |
| `ScheduleConfig.StaticScheduleIgnoresMonth` | pira/modules/scheduler.py:29-34 | without `SCHEDULE_MONTHLY == '1'`, the current month plays no part |
| `ScheduleConfig.MonthKeysDistinct` | pira/modules/scheduler.py:25-28 | different months never share a setting key |
| `DurationPolicy.Backoff` | pira/modules/scheduler.py:101-111 | doubles at or below the half threshold; otherwise quadruples at or below the quarter threshold; otherwise leaves the off-time unchanged |
| `DurationPolicy.BackoffIsOneTier` | pira/modules/scheduler.py:101-111 | the result is the off-time times 1, 2 or 4, never a product of two tiers |
| `DurationPolicy.QuadruplingNeedsInvertedThresholds` | pira/modules/scheduler.py:101-108 | a quadrupled non-zero off-time implies the voltage lies above the half threshold and at or below the quarter one, so `quart > half` |
| `DurationPolicy.BackoffLengthens` | pira/modules/scheduler.py:101-111 | a non-negative off-time never shrinks, and whole minutes stay whole minutes |
| `DurationPolicy.BackoffExamples` | pira/modules/scheduler.py:101-111 | 35 min at 2.0 V with thresholds 5.0/1.0 gives 70 min; at 0.5 V with 1.0/5.0 gives 70 min, not 140 |
| `Clock.AdvanceFromTimeOfDay` | pira/modules/scheduler.py:116 | `(current_time + off).time()` depends only on `current_time.time()` |
| `Clock.TimeOfDayAt` | pira/modules/scheduler.py:115-117 | `timestamp.time()` differs from the timestamp by whole days |
| `Clock.Advance` | pira/modules/scheduler.py:116 | `(current_time + off).time()` differs from `current_time + off` by whole days |
| `Wake.WakeTime` | pira/modules/scheduler.py:113-120 | the alarm is the window start, or a time of day exactly `off` after now modulo one day |
| `Wake.WakeTimeFollowsWindow` | pira/modules/scheduler.py:115-120 | the alarm is `(now + off).time()` exactly when now is inside the window by the independent definition, and the window start otherwise |
| `Wake.WrappingTestSimplifies` | pira/modules/scheduler.py:117 | for a window crossing midnight, the two-clause test means "before end or from start on" |
| `Wake.EmptyWindowWakesAtStart` | pira/modules/scheduler.py:115-120 | a window with `start == end` always sets the alarm to its start |
| `Wake.OpeningSecondWakesAtStart` | pira/modules/scheduler.py:115-120 | at `now == start` in a window not crossing midnight, the alarm is the start |
| `Wake.WakeTimeIgnoresDate` | pira/modules/scheduler.py:113-120 | the alarm depends on the current time of day, not on the date |
| `Wake.SleepInsideWindow` | pira/modules/scheduler.py:115-118 | inside the window, an off-time shorter than a day puts the alarm exactly `off` seconds ahead |
| `Wake.WakeExampleDaytime` | pira/modules/scheduler.py:115-116 | window 09:00 to 17:00 at 12:00 wakes `off` later, even past 17:00 |
| `Wake.WakeExampleOvernight` | pira/modules/scheduler.py:117-120 | window 22:00 to 06:00 wakes `off` after 23:00, and at 22:00 when it is 10:00 |
| `Scheduler.OnTimeElapsed` | pira/modules/scheduler.py:89 | the on-time has elapsed exactly from `started + onDuration` on |
| `Scheduler.OnTimeElapsedStays` | pira/modules/scheduler.py:89-91 | once the on-time has elapsed it stays elapsed at every later time |
| `Scheduler.SafeScheduleWakesSoon` | pira/modules/scheduler.py:113-120 | under the safe schedule the alarm is at most 4 × 59 minutes ahead, whatever the voltage |
| `Scheduler.Module.constructor` | pira/modules/scheduler.py:14-48 | the object is ready, its start time is now, and its schedule fields are `BuildSchedule` of the environment, astronomy and month |
| `Scheduler.Module.Process` | pira/modules/scheduler.py:83-91 | the shutdown flag becomes its old value or, when ready, whether the on-time has elapsed; it is never cleared, and nothing else changes |
| `Scheduler.Module.Shutdown` | pira/modules/scheduler.py:93-123 | when ready, the off-time is replaced by its backoff and the alarm is set to `WakeTime` with the new off-time; when not ready, nothing changes; outside the window the alarm is the window start, which is never midnight; the schedule invariant is kept |

## Left out

- Astronomy (`astral`, lines 52-68) is external. It uses floating-point astronomy from a foreign library. The caller supplies today's sunrise and sunset, in seconds, exactly when the library is installed and both `LATITUDE` and `LONGITUDE` are present and numeric; otherwise the caller supplies `None`, and the literal parser sees `sunrise`/`sunset`. Errors the library raises other than `KeyError`/`ValueError` escape uncaught in the source and are not modelled.
- `print` diagnostics (lines 18, 37, 90, 104, 108, 122) are not modelled. They are output only; line 18 merely resolves `sunrise` and `sunset` for display.
- `os.environ` is an explicit map parameter, `Env`. `datetime.date.today().month`, `datetime.datetime.now()`, `boot.rtc.current_time` and `sensor_mcp.get_voltage()` are parameters of the constructor, `Process` and `Shutdown`. Failures of the sensor or the clock, which propagate uncaught, are not modelled.
- `Scheduler.Module.Shutdown`: the two thresholds are numeric parameters (`half`, `quart`; 0.0 when their keys are absent). It models the intended numeric tier rule. Lines 101 and 105 compare the float voltage with the raw environment string; Python 2 orders such mixed types by type, not value, and Python 3 raises. That ordering is not modelled: under Python 2 a number is always less than a string, so as written lines 101-103 double the off-time at every shutdown whatever the voltage, and line 107 is never reached.
- `DurationPolicy.Backoff`: voltages and thresholds are `real`. Floating-point rounding and NaN are not modelled.
- `Decimal.ParseInt`: accepts only an optional `+`/`-` followed by ASCII digits. Python 2's `int()` on a byte string also accepts surrounding whitespace (`" 8"`, `"15 "`); that is not modelled, and such settings give `None` in the model.
- `TimeResolver.ParseDuration`: integers are unbounded in the model. In the source, `timedelta(minutes=n)` raises `OverflowError` when the minutes exceed 999999999 days; that escapes uncaught and aborts `__init__`. The later `self._off_duration * 2` and `* 4` (lines 103, 107) and `current_time + self._off_duration` (lines 116, 118) raise the same error when the result leaves the `timedelta` or `datetime` range: `SCHEDULE_T_OFF=1000000000000` is accepted at line 79 and overflows when doubled. None of these errors is modelled.
- `TimeResolver.ParseTimeLiteral`: an hour or minute outside the C `int` range, such as `"2147483648:00"`, makes `datetime.time` raise `OverflowError` rather than `ValueError`. That error escapes the `except` at line 73 and aborts `__init__`; the model answers `None`, and so the safe schedule, instead.
- Times of day have one-second granularity; the microseconds of `datetime` are not modelled.
- `Scheduler.Module.constructor`: the constructor always completes in the model, so `ready` is always true afterwards. The source leaves `ready` false only when `__init__` raises; the `ready` guards of `Process` and `Shutdown` are nevertheless modelled.
- `Scheduler.Boot` holds only what the scheduler writes: the shutdown flag and `rtc.alarm1_time`, the latter as an optional time of day.
