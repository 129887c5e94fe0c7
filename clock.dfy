/**
  Times of day and timestamps at one-second granularity. A time of day is the
  number of seconds since midnight; a timestamp is the number of seconds since
  some midnight, so its time of day is the remainder modulo one day.
*/
module Clock {
  import opened Decimal

  const Day: int := 86400

  type TimeOfDay = t: int | 0 <= t < 86400

  /** `datetime.time(hour, minute, second)`. */
  function TimeOf(hour: int, minute: int, second: int): (t: TimeOfDay)
    requires 0 <= hour < 24 && 0 <= minute < 60 && 0 <= second < 60
  {
    hour * 3600 + minute * 60 + second
  }

  /** The fields of `time(hour, minute, second)` are those it was built from. */
  lemma TimeOfParts(hour: int, minute: int, second: int)
    requires 0 <= hour < 24 && 0 <= minute < 60 && 0 <= second < 60
    ensures Hour(TimeOf(hour, minute, second)) == hour
    ensures Minute(TimeOf(hour, minute, second)) == minute
    ensures Second(TimeOf(hour, minute, second)) == second
  {
  }

  function Hour(t: TimeOfDay): (h: int)
    ensures 0 <= h < 24
  {
    t / 3600
  }

  function Minute(t: TimeOfDay): (m: int)
    ensures 0 <= m < 60
  {
    t % 3600 / 60
  }

  function Second(t: TimeOfDay): (s: int)
    ensures 0 <= s < 60
  {
    t % 60
  }

  /** A time of day is determined by its hour, minute and second. */
  lemma TimeOfFields(t: TimeOfDay)
    ensures TimeOf(Hour(t), Minute(t), Second(t)) == t
  {
  }

  /** `timestamp.time()`. */
  function TimeOfDayAt(timestamp: int): (t: TimeOfDay)
    ensures (timestamp - t) % Day == 0
  {
    timestamp % Day
  }

  /** `(timestamp + span).time()`; `span` may be negative, like a `timedelta`. */
  function Advance(timestamp: int, span: int): (t: TimeOfDay)
    ensures (timestamp + span - t) % Day == 0
  {
    (timestamp + span) % Day
  }

  /** Only the time of day of the starting timestamp matters when advancing. */
  lemma AdvanceFromTimeOfDay(timestamp: int, span: int)
    ensures Advance(timestamp, span) == Advance(TimeOfDayAt(timestamp), span)
  {
    var q := timestamp / Day;
    assert timestamp == q * Day + TimeOfDayAt(timestamp);
    assert timestamp + span == q * Day + (TimeOfDayAt(timestamp) + span);
    ModuloShift(TimeOfDayAt(timestamp) + span, q);
  }

  lemma ModuloShift(x: int, q: int)
    ensures (q * Day + x) % Day == x % Day
  {
    var r := x % Day;
    var k := x / Day;
    assert x == k * Day + r;
    assert q * Day + x == (q + k) * Day + r;
  }

  lemma ModuloInRange(x: int)
    requires 0 <= x < Day
    ensures x % Day == x
  {
  }

  /** Two digits, zero padded, as `time.isoformat()` writes hours and minutes. */
  function TwoDigits(n: nat): (s: string)
    requires n < 100
    ensures |s| == 2 && AllDigits(s)
  {
    [DigitChar(n / 10), DigitChar(n % 10)]
  }

  lemma TwoDigitsValue(n: nat)
    requires n < 100
    ensures DigitsValue(TwoDigits(n)) == n
  {
    var s := TwoDigits(n);
    assert s[..1][..0] == [];
    assert DigitsValue(s[..1]) == n / 10;
  }

  /** The `"HH:MM"` spelling of a time of day (its seconds are dropped). */
  function FormatClock(t: TimeOfDay): string {
    TwoDigits(Hour(t)) + ":" + TwoDigits(Minute(t))
  }
}
