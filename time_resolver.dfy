/**
  Resolution of a configured time of day: the solar names `sunrise` and
  `sunset` when astronomy is available, otherwise an `HH:MM` literal; and of a
  configured duration given in whole minutes.
*/
module TimeResolver {
  import opened Wrappers
  import opened Decimal
  import opened Strings
  import opened Clock

  /**
    Today's sunrise and sunset at the configured coordinates. A value is
    supplied exactly when the astronomy library is installed and both
    coordinates are present and numeric; otherwise the resolver gets `None`.
  */
  datatype SolarEvents = SolarEvents(sunrise: TimeOfDay, sunset: TimeOfDay)

  /** The `HH:MM` literal path: split on `:` into exactly two integers, then build `time(h, m, 0)`. */
  function ParseTimeLiteral(s: string): (r: Option<TimeOfDay>)
    ensures r.Some? ==> Second(r.value) == 0
  {
    var parts := Split(s, ':');
    if |parts| != 2 then None
    else
      match (ParseInt(parts[0]), ParseInt(parts[1]))
      case (Some(h), Some(m)) =>
        if 0 <= h < 24 && 0 <= m < 60 then TimeOfParts(h, m, 0); Some(TimeOf(h, m, 0)) else None
      case _ => None
  }

  /** A configured time of day, or `None` when it cannot be resolved. */
  function ResolveTime(name: string, sky: Option<SolarEvents>): (r: Option<TimeOfDay>)
    ensures name != "sunrise" && name != "sunset" ==> r == ParseTimeLiteral(name)
    ensures sky.None? ==> r == ParseTimeLiteral(name)
    ensures sky.Some? && name == "sunrise" ==> r == Some(sky.value.sunrise)
    ensures sky.Some? && name == "sunset" ==> r == Some(sky.value.sunset)
  {
    if sky.Some? && name == "sunrise" then Some(sky.value.sunrise)
    else if sky.Some? && name == "sunset" then Some(sky.value.sunset)
    else ParseTimeLiteral(name)
  }

  /** A duration in seconds from a count of minutes; zero and negative counts are accepted. */
  function ParseDuration(s: string): (r: Option<int>)
    ensures r.Some? <==> ParseInt(s).Some?
    ensures r.Some? ==> r.value % 60 == 0 && ParseInt(s) == Some(r.value / 60)
  {
    match ParseInt(s)
    case Some(n) => Some(n * 60)
    case None => None
  }

  /**
    A string with exactly one colon parses exactly when both sides are integers
    in range, and then to that hour and minute with zero seconds.
  */
  lemma ParseTimeLiteralOfFields(hs: string, ms: string)
    requires ':' !in hs && ':' !in ms
    ensures ParseTimeLiteral(hs + ":" + ms).Some? <==>
              ParseInt(hs).Some? && 0 <= ParseInt(hs).value < 24 &&
              ParseInt(ms).Some? && 0 <= ParseInt(ms).value < 60
    ensures ParseTimeLiteral(hs + ":" + ms).Some? ==>
              ParseTimeLiteral(hs + ":" + ms).value == TimeOf(ParseInt(hs).value, ParseInt(ms).value, 0)
  {
    SplitPair(hs, ':', ms);
  }

  /** No colon, or more than one, is rejected whatever else the string holds. */
  lemma ParseTimeLiteralNeedsOneColon(s: string)
    requires Count(s, ':') != 1
    ensures ParseTimeLiteral(s) == None
  {
    SplitCount(s, ':');
  }

  /** Every accepted string is an hour, one colon and a minute, and parses to exactly those fields. */
  lemma ParseTimeLiteralSound(s: string) returns (hs: string, ms: string)
    requires ParseTimeLiteral(s).Some?
    ensures s == hs + ":" + ms && ':' !in hs && ':' !in ms
    ensures ParseInt(hs) == Some(Hour(ParseTimeLiteral(s).value))
    ensures ParseInt(ms) == Some(Minute(ParseTimeLiteral(s).value))
  {
    var parts := Split(s, ':');
    hs, ms := parts[0], parts[1];
    JoinSplit(s, ':');
    SplitPartsFree(s, ':');
    assert parts[1..] == [ms];
    assert Join(parts, ':') == hs + [':'] + ms;
    var h, m := ParseInt(hs).value, ParseInt(ms).value;
    assert ParseTimeLiteral(s) == Some(TimeOf(h, m, 0));
    TimeOfParts(h, m, 0);
  }

  /** Reading back the `HH:MM` spelling of a whole-minute time gives that time. */
  lemma ParseFormatClock(t: TimeOfDay)
    requires Second(t) == 0
    ensures ParseTimeLiteral(FormatClock(t)) == Some(t)
  {
    var hs, ms := TwoDigits(Hour(t)), TwoDigits(Minute(t));
    TwoDigitsValue(Hour(t));
    TwoDigitsValue(Minute(t));
    assert ParseInt(hs) == Some(Hour(t));
    assert ParseInt(ms) == Some(Minute(t));
    ParseTimeLiteralOfFields(hs, ms);
    TimeOfFields(t);
  }

  /** Without astronomy the solar names are not literals and resolve to nothing. */
  lemma SolarNamesNeedAstronomy()
    ensures ResolveTime("sunrise", None) == None
    ensures ResolveTime("sunset", None) == None
  {
    ParseTimeLiteralNeedsOneColon("sunrise");
    ParseTimeLiteralNeedsOneColon("sunset");
  }

  /** `int(str(n))` minutes is `n` minutes, including zero and negative `n`. */
  lemma ParseDurationOfInt(n: int)
    ensures ParseDuration(IntToString(n)) == Some(60 * n)
  {
    ParseIntOfIntToString(n);
  }

  /** An `HH:MM` literal with two-digit fields parses to that hour and minute. */
  lemma ParseClockLiteral(s: string, h: nat, m: nat)
    requires h < 24 && m < 60
    requires s == TwoDigits(h) + [':'] + TwoDigits(m)
    ensures ParseTimeLiteral(s) == Some(TimeOf(h, m, 0))
  {
    SplitPair(TwoDigits(h), ':', TwoDigits(m));
    TwoDigitsValue(h);
    TwoDigitsValue(m);
  }

  /** Worked example: an ordinary afternoon time. */
  lemma ParseTimeLiteralAfternoon()
    ensures ParseTimeLiteral("14:30") == Some(TimeOf(14, 30, 0))
  {
    ParseClockLiteral("14:30", 14, 30);
  }

  /** Worked example: an hour and minute out of range. */
  lemma ParseTimeLiteralOutOfRange()
    ensures ParseTimeLiteral("25:99") == None
  {
    assert "25:99" == TwoDigits(25) + [':'] + TwoDigits(99);
    SplitPair(TwoDigits(25), ':', TwoDigits(99));
    TwoDigitsValue(25);
  }

  /** Worked example: no separator at all. */
  lemma ParseTimeLiteralNoSeparator()
    ensures ParseTimeLiteral("bad") == None
  {
    ParseTimeLiteralNeedsOneColon("bad");
  }
}
