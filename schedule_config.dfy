/**
  Construction of the daily schedule from the environment: which keys are read
  (static or month-keyed), the defaults for absent keys, and the safe schedule
  that replaces all four settings when any of them is unusable.
*/
module ScheduleConfig {
  import opened Wrappers
  import opened Decimal
  import opened Clock
  import opened TimeResolver

  /** The process environment, as key/value strings. */
  type Env = map<string, string>

  /** `os.environ.get(key, default)`. */
  function Get(env: Env, key: string, default: string): (v: string)
    ensures key in env ==> v == env[key]
    ensures key !in env ==> v == default
  {
    if key in env then env[key] else default
  }

  /** Month-keyed settings are used only when the flag is present and exactly `1`. */
  predicate MonthlyEnabled(env: Env)
    ensures MonthlyEnabled(env) <==> "SCHEDULE_MONTHLY" in env && env["SCHEDULE_MONTHLY"] == "1"
  {
    Get(env, "SCHEDULE_MONTHLY", "0") == "1"
  }

  /** The key of one schedule setting: `SCHEDULE_<field>` or `SCHEDULE_MONTH<m>_<field>`. */
  function SettingKey(monthly: bool, month: nat, field: string): (k: string)
    ensures |k| >= 9 + |field| && k[..9] == "SCHEDULE_" && k[|k| - |field|..] == field
  {
    var prefix := if monthly then "SCHEDULE_MONTH" + NatToString(month) + "_" else "SCHEDULE_";
    assert prefix[..9] == "SCHEDULE_";
    assert (prefix + field)[..9] == prefix[..9];
    assert (prefix + field)[|prefix|..] == field;
    prefix + field
  }

  /** The four settings as parsed, before validation. */
  datatype Settings = Settings(start: Option<TimeOfDay>, end: Option<TimeOfDay>,
                               tOff: Option<int>, tOn: Option<int>)

  function SettingText(env: Env, month: nat, field: string, default: string): string {
    Get(env, SettingKey(MonthlyEnabled(env), month, field), default)
  }

  /** The four settings as read; parsed durations are always whole minutes. */
  function ReadSettings(env: Env, sky: Option<SolarEvents>, month: nat): (r: Settings)
    ensures r.tOff.Some? ==> r.tOff.value % 60 == 0
    ensures r.tOn.Some? ==> r.tOn.value % 60 == 0
  {
    Settings(ResolveTime(SettingText(env, month, "START", "08:00"), sky),
             ResolveTime(SettingText(env, month, "END", "18:00"), sky),
             ParseDuration(SettingText(env, month, "T_OFF", "35")),
             ParseDuration(SettingText(env, month, "T_ON", "15")))
  }

  /**
    `not t` for a parsed time. The module runs under Python 2, where a `time`
    object is false exactly at midnight, so `00:00` counts as missing.
  */
  predicate Falsy(t: Option<TimeOfDay>)
    ensures !Falsy(t) ==> t.Some? && 0 < t.value < Day
  {
    t.None? || t.value == 0
  }

  /** Settings are unusable when a bound is missing or midnight, or a duration is missing. */
  predicate Malformed(raw: Settings)
    ensures !Malformed(raw) ==>
              raw.start.Some? && raw.end.Some? && raw.tOff.Some? && raw.tOn.Some? &&
              raw.start.value != 0 && raw.end.value != 0
  {
    Falsy(raw.start) || Falsy(raw.end) || raw.tOff.None? || raw.tOn.None?
  }

  /** The stored schedule: window bounds and durations in seconds. */
  datatype Schedule = Schedule(start: TimeOfDay, end: TimeOfDay, offDuration: int, onDuration: int)

  /** 00:01 to 23:59, off for 59 minutes, on for 1 minute. */
  const SafeSchedule: Schedule := Schedule(TimeOf(0, 1, 0), TimeOf(23, 59, 0), 59 * 60, 60)

  /** 08:00 to 18:00, off for 35 minutes, on for 15 minutes. */
  const DefaultSchedule: Schedule := Schedule(TimeOf(8, 0, 0), TimeOf(18, 0, 0), 35 * 60, 15 * 60)

  /**
    Unusable settings give the safe schedule; usable ones are stored as they
    are. Either way neither window bound is midnight.
  */
  function Validate(raw: Settings): (s: Schedule)
    ensures s.start != 0 && s.end != 0
    ensures Malformed(raw) ==> s == SafeSchedule
    ensures !Malformed(raw) ==> Some(s.start) == raw.start && Some(s.end) == raw.end &&
                                Some(s.offDuration) == raw.tOff && Some(s.onDuration) == raw.tOn
  {
    if Malformed(raw) then SafeSchedule
    else Schedule(raw.start.value, raw.end.value, raw.tOff.value, raw.tOn.value)
  }

  /**
    The schedule `Module.__init__` stores. Its window bounds are never midnight
    and its durations are whole minutes.
  */
  function BuildSchedule(env: Env, sky: Option<SolarEvents>, month: nat): (s: Schedule)
    requires 1 <= month <= 12
    ensures s.start != 0 && s.end != 0
    ensures s.offDuration % 60 == 0 && s.onDuration % 60 == 0
  {
    var raw := ReadSettings(env, sky, month);
    ValidateKeepsWholeMinutes(raw);
    Validate(raw)
  }

  /** Validation keeps durations that are whole minutes whole minutes. */
  lemma ValidateKeepsWholeMinutes(raw: Settings)
    requires raw.tOff.Some? ==> raw.tOff.value % 60 == 0
    requires raw.tOn.Some? ==> raw.tOn.value % 60 == 0
    ensures Validate(raw).offDuration % 60 == 0 && Validate(raw).onDuration % 60 == 0
  {
    assert SafeSchedule.offDuration == 3540 && SafeSchedule.onDuration == 60;
  }

  /**
    Any unusable setting replaces all four with the safe schedule; otherwise the
    parsed values are stored unchanged.
  */
  lemma BuildScheduleFallback(env: Env, sky: Option<SolarEvents>, month: nat)
    requires 1 <= month <= 12
    ensures var raw := ReadSettings(env, sky, month);
            Malformed(raw) ==> BuildSchedule(env, sky, month) == SafeSchedule
    ensures var raw := ReadSettings(env, sky, month);
            !Malformed(raw) ==>
              BuildSchedule(env, sky, month) ==
              Schedule(raw.start.value, raw.end.value, raw.tOff.value, raw.tOn.value)
  {
  }

  /**
    A usable value under each selected key is what gets stored: whole-minute
    bounds other than midnight spelled `HH:MM`, and durations spelled as integers.
  */
  lemma ConfiguredScheduleIsStored(env: Env, sky: Option<SolarEvents>, month: nat,
                                   a: TimeOfDay, b: TimeOfDay, x: int, y: int)
    requires 1 <= month <= 12
    requires Second(a) == 0 && Second(b) == 0 && a != 0 && b != 0
    requires SettingKey(MonthlyEnabled(env), month, "START") in env
    requires env[SettingKey(MonthlyEnabled(env), month, "START")] == FormatClock(a)
    requires SettingKey(MonthlyEnabled(env), month, "END") in env
    requires env[SettingKey(MonthlyEnabled(env), month, "END")] == FormatClock(b)
    requires SettingKey(MonthlyEnabled(env), month, "T_OFF") in env
    requires env[SettingKey(MonthlyEnabled(env), month, "T_OFF")] == IntToString(x)
    requires SettingKey(MonthlyEnabled(env), month, "T_ON") in env
    requires env[SettingKey(MonthlyEnabled(env), month, "T_ON")] == IntToString(y)
    ensures BuildSchedule(env, sky, month) == Schedule(a, b, 60 * x, 60 * y)
  {
    ParseFormatClock(a);
    ParseFormatClock(b);
    assert |FormatClock(a)| == 5 && |FormatClock(b)| == 5;
    ParseDurationOfInt(x);
    ParseDurationOfInt(y);
  }

  /** A two-digit `HH:MM` literal is never a solar name, so it resolves as a literal. */
  lemma ResolveClockLiteral(s: string, sky: Option<SolarEvents>, h: nat, m: nat)
    requires h < 24 && m < 60
    requires s == TwoDigits(h) + [':'] + TwoDigits(m)
    ensures ResolveTime(s, sky) == Some(TimeOf(h, m, 0))
  {
    ParseClockLiteral(s, h, m);
    assert |s| == 5;
  }

  /** A literal count of minutes parses to that many minutes. */
  lemma ParseMinutesLiteral(s: string, n: nat)
    requires s == IntToString(n)
    ensures ParseDuration(s) == Some(60 * n)
  {
    ParseDurationOfInt(n);
  }

  /** The safe window is what parsing the literals `00:01` and `23:59` gives. */
  lemma SafeWindowIsParsed(sky: Option<SolarEvents>)
    ensures ResolveTime("00:01", sky) == Some(SafeSchedule.start)
    ensures ResolveTime("23:59", sky) == Some(SafeSchedule.end)
  {
    SafeStartIsParsed(sky);
    SafeEndIsParsed(sky);
  }

  lemma SafeStartIsParsed(sky: Option<SolarEvents>)
    ensures ResolveTime("00:01", sky) == Some(SafeSchedule.start)
  {
    ResolveClockLiteral("00:01", sky, 0, 1);
  }

  lemma SafeEndIsParsed(sky: Option<SolarEvents>)
    ensures ResolveTime("23:59", sky) == Some(SafeSchedule.end)
  {
    ResolveClockLiteral("23:59", sky, 23, 59);
  }

  /** The safe durations are what parsing the literals `59` and `1` gives. */
  lemma SafeDurationsAreParsed()
    ensures ParseDuration("59") == Some(SafeSchedule.offDuration)
    ensures ParseDuration("1") == Some(SafeSchedule.onDuration)
  {
    ParseMinutesLiteral("59", 59);
    ParseMinutesLiteral("1", 1);
  }

  /** The default window is what parsing the literals `08:00` and `18:00` gives. */
  lemma DefaultWindowIsParsed(sky: Option<SolarEvents>)
    ensures ResolveTime("08:00", sky) == Some(DefaultSchedule.start)
    ensures ResolveTime("18:00", sky) == Some(DefaultSchedule.end)
  {
    DefaultStartIsParsed(sky);
    DefaultEndIsParsed(sky);
  }

  lemma DefaultStartIsParsed(sky: Option<SolarEvents>)
    ensures ResolveTime("08:00", sky) == Some(DefaultSchedule.start)
  {
    ResolveClockLiteral("08:00", sky, 8, 0);
  }

  lemma DefaultEndIsParsed(sky: Option<SolarEvents>)
    ensures ResolveTime("18:00", sky) == Some(DefaultSchedule.end)
  {
    ResolveClockLiteral("18:00", sky, 18, 0);
  }

  /** The default durations are what parsing the literals `35` and `15` gives. */
  lemma DefaultDurationsAreParsed()
    ensures ParseDuration("35") == Some(DefaultSchedule.offDuration)
    ensures ParseDuration("15") == Some(DefaultSchedule.onDuration)
  {
    ParseMinutesLiteral("35", 35);
    ParseMinutesLiteral("15", 15);
  }

  /** With none of the four selected keys set, the default schedule is stored. */
  lemma DefaultsWhenUnset(env: Env, sky: Option<SolarEvents>, month: nat)
    requires 1 <= month <= 12
    requires SettingKey(MonthlyEnabled(env), month, "START") !in env
    requires SettingKey(MonthlyEnabled(env), month, "END") !in env
    requires SettingKey(MonthlyEnabled(env), month, "T_OFF") !in env
    requires SettingKey(MonthlyEnabled(env), month, "T_ON") !in env
    ensures BuildSchedule(env, sky, month) == DefaultSchedule
  {
    assert SettingText(env, month, "START", "08:00") == "08:00";
    assert SettingText(env, month, "END", "18:00") == "18:00";
    assert SettingText(env, month, "T_OFF", "35") == "35";
    assert SettingText(env, month, "T_ON", "15") == "15";
    DefaultWindowIsParsed(sky);
    DefaultDurationsAreParsed();
  }

  /** Both environments hold the same value for `key`, or neither holds it. */
  predicate SameSetting(env1: Env, env2: Env, key: string) {
    (key in env1 <==> key in env2) && (key in env1 ==> env1[key] == env2[key])
  }

  /** The schedule depends on the environment only through the monthly flag and the four selected keys. */
  lemma ReadsOnlySelectedKeys(env1: Env, env2: Env, sky: Option<SolarEvents>, month: nat)
    requires 1 <= month <= 12
    requires MonthlyEnabled(env1) == MonthlyEnabled(env2)
    requires forall field :: field in ["START", "END", "T_OFF", "T_ON"] ==>
               SameSetting(env1, env2, SettingKey(MonthlyEnabled(env1), month, field))
    ensures BuildSchedule(env1, sky, month) == BuildSchedule(env2, sky, month)
  {
    var fields := ["START", "END", "T_OFF", "T_ON"];
    assert fields[0] in fields && fields[1] in fields && fields[2] in fields && fields[3] in fields;
    assert SettingText(env1, month, "START", "08:00") == SettingText(env2, month, "START", "08:00");
    assert SettingText(env1, month, "END", "18:00") == SettingText(env2, month, "END", "18:00");
    assert SettingText(env1, month, "T_OFF", "35") == SettingText(env2, month, "T_OFF", "35");
    assert SettingText(env1, month, "T_ON", "15") == SettingText(env2, month, "T_ON", "15");
  }

  /** Without the monthly flag the current month plays no part. */
  lemma StaticScheduleIgnoresMonth(env: Env, sky: Option<SolarEvents>, m1: nat, m2: nat)
    requires 1 <= m1 <= 12 && 1 <= m2 <= 12
    requires !MonthlyEnabled(env)
    ensures BuildSchedule(env, sky, m1) == BuildSchedule(env, sky, m2)
  {
  }

  /** Key spellings: `'SCHEDULE_MONTH{}_START'.format(3)` and the like. */
  lemma SettingKeyExamples()
    ensures SettingKey(true, 3, "START") == "SCHEDULE_MONTH3_START"
    ensures SettingKey(true, 12, "T_ON") == "SCHEDULE_MONTH12_T_ON"
    ensures SettingKey(false, 12, "T_OFF") == "SCHEDULE_T_OFF"
  {
    assert NatToString(3) == "3";
    assert NatToString(12) == NatToString(1) + [DigitChar(2)] == "12";
  }

  lemma MidnightIsParsed(sky: Option<SolarEvents>)
    ensures ResolveTime("00:00", sky) == Some(0)
  {
    ResolveClockLiteral("00:00", sky, 0, 0);
  }

  /** Under Python 2 a `00:00` window start is false, so it brings in the safe schedule. */
  lemma MidnightStartIsMalformed(sky: Option<SolarEvents>, month: nat)
    requires 1 <= month <= 12
    ensures BuildSchedule(map["SCHEDULE_START" := "00:00"], sky, month) == SafeSchedule
  {
    var env := map["SCHEDULE_START" := "00:00"];
    assert !MonthlyEnabled(env);
    assert SettingKey(false, month, "START") == "SCHEDULE_" + "START" == "SCHEDULE_START";
    assert SettingText(env, month, "START", "08:00") == "00:00";
    MidnightIsParsed(sky);
    var raw := ReadSettings(env, sky, month);
    assert raw.start == Some(0);
    assert Malformed(raw);
  }

  lemma CancelAround(p: string, a: string, b: string, q: string)
    requires p + a + q == p + b + q
    ensures a == b
  {
    var s := p + a + q;
    assert a == s[|p|..|s| - |q|];
    assert b == (p + b + q)[|p|..|s| - |q|];
  }

  /** Each month reads its own keys: different months never share a setting key. */
  lemma MonthKeysDistinct(m1: nat, m2: nat, field: string)
    requires m1 != m2
    ensures SettingKey(true, m1, field) != SettingKey(true, m2, field)
  {
    if SettingKey(true, m1, field) == SettingKey(true, m2, field) {
      var q := "_" + field;
      assert SettingKey(true, m1, field) == "SCHEDULE_MONTH" + NatToString(m1) + q;
      assert SettingKey(true, m2, field) == "SCHEDULE_MONTH" + NatToString(m2) + q;
      CancelAround("SCHEDULE_MONTH", NatToString(m1), NatToString(m2), q);
      NatToStringInjective(m1, m2);
    }
  }
}
