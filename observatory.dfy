// astrokat/observatory.py: the MeerKAT observer. The ephemeris (next rising and
// setting times, the sidereal time at a date) is an oracle `Sky`; what the module
// itself decides is modelled: the reference location, the fallback LSTs of targets
// that are always up or have no rise data, the observer date that each rise and
// set query moves, the earliest rise and latest set over a target list, the
// conversion of an LST text to decimal hours and the "key=value" target reader.
module Observatory {
  import opened Common
  import opened Text
  import opened Numbers

  /** The MeerKAT reference position used when no node configuration is available. */
  const RefLocation: string := "ref, -30:42:39.8, 21:26:38.0, 1035.0, 0.0, , , 1.15"

  /** An LST in hours. */
  type Hours = h: real | 0.0 <= h < 24.0

  /** One second past midnight, the rise LST of a target that is always up. */
  const MidnightPlusOne: Hours := 1.0 / 3600.0

  /** One second before midnight, the set LST of a target that is always up. */
  const MidnightMinusOne: Hours := 86399.0 / 3600.0

  /**
   * What the ephemeris answers for the next rising or setting of a target: the time,
   * or the exception it raises — `AlwaysUpError`, `NeverUpError`, or an
   * `AttributeError` for a body without rise data.
   */
  datatype Event = At(time: real) | AlwaysUp | NeverUp | NoData

  /** The exceptions the rise and set queries catch and replace by a fallback LST. */
  predicate Caught(e: Event) { e.AlwaysUp? || e.NoData? }

  /** The error of a target that never rises, which the queries let through. */
  function NeverUpOf(target: string): Error
  {
    NeverUpError(target + " is never up")
  }

  /**
   * The ephemeris: the next rising of a target after a date, the next setting after
   * a date, and the local sidereal time at a date.
   */
  datatype Sky = Sky(nextRising: (string, real) -> Event,
                     nextSetting: (string, real) -> Event,
                     siderealTime: real -> Hours)

  // ---------------------------------------------------------------- rise and set

  /**
   * `_ephem_risetime_`: the rise time (as LST or as a date) and the observer date
   * afterwards; a target always up or without rise data rises one second past
   * midnight, and one that never rises raises.
   */
  function RiseStep(date: real, target: string, sky: Sky, lst: bool): (r: Result<(real, real)>)
    ensures Caught(sky.nextRising(target, date)) ==> r == Ok((MidnightPlusOne as real, date))
    ensures sky.nextRising(target, date).NeverUp? ==> r == Err(NeverUpOf(target))
    ensures sky.nextRising(target, date).At? && lst ==>
      r == Ok((sky.siderealTime(sky.nextRising(target, date).time) as real, sky.nextRising(target, date).time))
    ensures sky.nextRising(target, date).At? && !lst ==> r == Ok((sky.nextRising(target, date).time, date))
    ensures r.Ok? && lst ==> 0.0 <= r.value.0 < 24.0
  {
    match sky.nextRising(target, date)
    case At(t) => if lst then Ok((sky.siderealTime(t) as real, t)) else Ok((t, date))
    case NeverUp => Err(NeverUpOf(target))
    case _ => Ok((MidnightPlusOne as real, date))
  }

  /** The set query raises: the target never rises, or rises and then never sets. */
  predicate NeverSets(sky: Sky, target: string, date: real)
  {
    sky.nextRising(target, date).NeverUp? ||
    (sky.nextRising(target, date).At? && sky.nextSetting(target, sky.nextRising(target, date).time).NeverUp?)
  }

  /**
   * `_ephem_settime_`: the setting after the next rising, and the observer date
   * afterwards; a caught exception from either query gives one second before
   * midnight, and a target that never rises or sets raises.
   */
  function SetStep(date: real, target: string, sky: Sky, lst: bool): (r: Result<(real, real)>)
    ensures r.Ok? && lst ==> 0.0 <= r.value.0 < 24.0
    ensures Caught(sky.nextRising(target, date)) ==> r == Ok((MidnightMinusOne as real, date))
    ensures r.Err? <==> NeverSets(sky, target, date)
    ensures r.Err? ==> r.error == NeverUpOf(target)
    ensures sky.nextRising(target, date).At? && Caught(sky.nextSetting(target, sky.nextRising(target, date).time)) ==>
      r == Ok((MidnightMinusOne as real, date))
  {
    match sky.nextRising(target, date)
    case At(rise) =>
      (match sky.nextSetting(target, rise)
       case At(t) => if lst then Ok((sky.siderealTime(t) as real, t)) else Ok((t, date))
       case NeverUp => Err(NeverUpOf(target))
       case _ => Ok((MidnightMinusOne as real, date)))
    case NeverUp => Err(NeverUpOf(target))
    case _ => Ok((MidnightMinusOne as real, date))
  }

  /**
   * The LSTs of a target list as far as the queries got: the values in target order,
   * the observer date they left, and the error that stopped them, if any.
   */
  datatype Lsts = Lsts(values: seq<real>, date: real, error: Option<Error>)

  /** The rise LSTs of the targets in order, each query starting at the date the previous one left; the first error stops them. */
  function RiseLsts(date: real, targets: seq<string>, sky: Sky): (r: Lsts)
    ensures r.error.None? ==> |r.values| == |targets|
    ensures forall i :: 0 <= i < |r.values| ==> 0.0 <= r.values[i] < 24.0
    ensures r.error.Some? ==> r.error.value.NeverUpError?
  {
    if |targets| == 0 then Lsts([], date, None)
    else
      var prev := RiseLsts(date, targets[..|targets| - 1], sky);
      if prev.error.Some? then prev
      else
        match RiseStep(prev.date, targets[|targets| - 1], sky, true)
        case Ok(v) => Lsts(prev.values + [v.0], v.1, None)
        case Err(e) => prev.(error := Some(e))
  }

  /** The set LSTs of the targets in order, each query starting at the date the previous one left; the first error stops them. */
  function SetLsts(date: real, targets: seq<string>, sky: Sky): (r: Lsts)
    ensures r.error.None? ==> |r.values| == |targets|
    ensures forall i :: 0 <= i < |r.values| ==> 0.0 <= r.values[i] < 24.0
    ensures r.error.Some? ==> r.error.value.NeverUpError?
  {
    if |targets| == 0 then Lsts([], date, None)
    else
      var prev := SetLsts(date, targets[..|targets| - 1], sky);
      if prev.error.Some? then prev
      else
        match SetStep(prev.date, targets[|targets| - 1], sky, true)
        case Ok(v) => Lsts(prev.values + [v.0], v.1, None)
        case Err(e) => prev.(error := Some(e))
  }

  /** Once a rise query has raised, the later targets change nothing. */
  lemma {:induction false} RiseErrSticks(date: real, targets: seq<string>, k: nat, sky: Sky)
    requires k <= |targets| && RiseLsts(date, targets[..k], sky).error.Some?
    ensures RiseLsts(date, targets, sky) == RiseLsts(date, targets[..k], sky)
    decreases |targets|
  {
    if |targets| == k {
      assert targets[..k] == targets;
    } else {
      var front := targets[..|targets| - 1];
      assert front[..k] == targets[..k];
      RiseErrSticks(date, front, k, sky);
    }
  }

  /** Once a set query has raised, the later targets change nothing. */
  lemma {:induction false} SetErrSticks(date: real, targets: seq<string>, k: nat, sky: Sky)
    requires k <= |targets| && SetLsts(date, targets[..k], sky).error.Some?
    ensures SetLsts(date, targets, sky) == SetLsts(date, targets[..k], sky)
    decreases |targets|
  {
    if |targets| == k {
      assert targets[..k] == targets;
    } else {
      var front := targets[..|targets| - 1];
      assert front[..k] == targets[..k];
      SetErrSticks(date, front, k, sky);
    }
  }

  /** `numpy.argmin`: the first index of a smallest value. */
  function ArgMin(xs: seq<real>): (i: nat)
    requires |xs| > 0
    ensures i < |xs|
    ensures forall j :: 0 <= j < |xs| ==> xs[i] <= xs[j]
    ensures forall j :: 0 <= j < i ==> xs[j] > xs[i]
  {
    if |xs| == 1 then 0
    else
      var n := |xs| - 1;
      var k := ArgMin(xs[..n]);
      assert forall j :: 0 <= j < n ==> xs[..n][j] == xs[j];
      if xs[n] < xs[k] then n else k
  }

  /** `numpy.argmax`: the first index of a largest value. */
  function ArgMax(xs: seq<real>): (i: nat)
    requires |xs| > 0
    ensures i < |xs|
    ensures forall j :: 0 <= j < |xs| ==> xs[i] >= xs[j]
    ensures forall j :: 0 <= j < i ==> xs[j] < xs[i]
  {
    if |xs| == 1 then 0
    else
      var n := |xs| - 1;
      var k := ArgMax(xs[..n]);
      assert forall j :: 0 <= j < n ==> xs[..n][j] == xs[j];
      if xs[n] > xs[k] then n else k
  }

  /** The error numpy raises for the arg-extremum of an empty list. */
  function EmptyError(which: string): Error
  {
    ValueError("attempt to get " + which + " of an empty sequence")
  }

  // ---------------------------------------------------------------- LST text to hours

  /** A wall-clock time of day as `strptime` returns it. */
  datatype Clock = Clock(hour: nat, minute: nat, second: nat, microsecond: nat)

  predicate ValidClock(c: Clock)
  {
    c.hour < 24 && c.minute < 60 && c.second < 60 && c.microsecond < 1000000
  }

  /** A one- or two-digit field of `strptime` with its largest accepted value. */
  function ClockField(s: string, max: nat): (r: Option<nat>)
    ensures r.Some? ==> r.value <= max
  {
    if 1 <= |s| <= 2 && AllDigits(s) && DigitsValue(s) <= max then Some(DigitsValue(s)) else None
  }

  /** `%f`: one to six digits, read as the leading digits of a six-digit microsecond count. */
  function Microseconds(s: string): (r: Option<nat>)
    ensures r.Some? ==> r.value < 1000000
  {
    if 1 <= |s| <= 6 && AllDigits(s) then
      MicrosecondsBound(s);
      Some(DigitsValue(s) * Pow10(6 - |s|))
    else None
  }

  /** Digits of a shorter field scaled up stay below a million. */
  lemma MicrosecondsBound(s: string)
    requires 1 <= |s| <= 6 && AllDigits(s)
    ensures DigitsValue(s) * Pow10(6 - |s|) < 1000000
  {
    DigitsBound(s);
    Pow10Add(|s|, 6 - |s|);
    MulLess(DigitsValue(s), Pow10(|s|), Pow10(6 - |s|));
    assert Pow10(6) == 1000000;
  }

  lemma MulLess(a: nat, b: nat, c: nat)
    requires a < b && c >= 1
    ensures a * c < b * c
  {
  }

  lemma {:induction false} DigitsBound(s: string)
    requires AllDigits(s)
    ensures DigitsValue(s) < Pow10(|s|)
    decreases |s|
  {
    if |s| > 0 {
      DigitsBound(s[..|s| - 1]);
    }
  }

  lemma {:induction false} Pow10Add(a: nat, b: nat)
    ensures Pow10(a) * Pow10(b) == Pow10(a + b)
    decreases a
  {
    if a > 0 {
      Pow10Add(a - 1, b);
    }
  }

  /** The message `strptime` gives when the text does not fit the format. */
  function Mismatch(s: string): Error
  {
    ValueError("time data '" + s + "' does not match format '%H:%M:%S.%f'")
  }

  /**
   * `datetime.strptime(s, "%H:%M:%S.%f").time()`: hours up to 23, minutes up to 59,
   * seconds up to 61 by the format but only up to 59 by the time of day, and one to
   * six fraction digits.
   */
  function ParseClock(s: string): (r: Result<Clock>)
    ensures r.Ok? ==> ValidClock(r.value)
  {
    var parts := Split(s, ':');
    if |parts| != 3 then Err(Mismatch(s))
    else
      var sf := Split(parts[2], '.');
      if |sf| != 2 then Err(Mismatch(s))
      else
        match (ClockField(parts[0], 23), ClockField(parts[1], 59), ClockField(sf[0], 61), Microseconds(sf[1]))
        case (Some(h), Some(m), Some(sec), Some(us)) =>
          if sec > 59 then Err(ValueError("second must be in 0..59")) else Ok(Clock(h, m, sec, us))
        case _ => Err(Mismatch(s))
  }

  /** A time of day as text: the hour, then two-digit minutes and seconds and six fraction digits. */
  function ClockText(c: Clock): string
  {
    NatToString(c.hour) + ":" + ZeroPad(NatToString(c.minute), 2) + ":" +
    ZeroPad(NatToString(c.second), 2) + "." + ZeroPad(NatToString(c.microsecond), 6)
  }

  /** A number below 10^w written with exactly `w` zero-padded digits. */
  lemma PaddedDigits(n: nat, w: nat)
    requires w >= 1 && n < Pow10(w)
    ensures |ZeroPad(NatToString(n), w)| == w && AllDigits(ZeroPad(NatToString(n), w))
    ensures DigitsValue(ZeroPad(NatToString(n), w)) == n
    ensures ':' !in ZeroPad(NatToString(n), w) && '.' !in ZeroPad(NatToString(n), w)
  {
    var b := FractionDigits(n, w);
    DigitsNoMark(b);
  }

  /** Three colon-free fields joined by colons split back into the three fields. */
  lemma SplitThree(a: string, b: string, c: string, sep: char)
    requires sep !in a && sep !in b && sep !in c
    ensures Split(a + [sep] + b + [sep] + c, sep) == [a, b, c]
  {
    SplitNoSep(c, sep);
    SplitAfter(b, sep, c);
    assert a + [sep] + b + [sep] + c == a + [sep] + (b + [sep] + c);
    SplitAfter(a, sep, b + [sep] + c);
  }

  /** Two point-free fields joined by a point split back into the two fields. */
  lemma SplitTwo(a: string, b: string, sep: char)
    requires sep !in a && sep !in b
    ensures Split(a + [sep] + b, sep) == [a, b]
  {
    SplitNoSep(b, sep);
    SplitAfter(a, sep, b);
  }

  /** Digits hold neither a colon nor a point. */
  lemma DigitsNoMark(d: string)
    requires AllDigits(d)
    ensures ':' !in d && '.' !in d
  {
    forall i | 0 <= i < |d| ensures d[i] != ':' && d[i] != '.' { assert IsDigit(d[i]); }
  }

  /** The text of a time splits at its colons and its point into its four fields. */
  lemma ClockTextSplits(c: Clock)
    requires ValidClock(c)
    ensures var parts := Split(ClockText(c), ':');
      |parts| == 3 && parts[0] == NatToString(c.hour) && parts[1] == ZeroPad(NatToString(c.minute), 2) &&
      Split(parts[2], '.') == [ZeroPad(NatToString(c.second), 2), ZeroPad(NatToString(c.microsecond), 6)]
  {
    var h := NatToString(c.hour);
    var m := ZeroPad(NatToString(c.minute), 2);
    var s := ZeroPad(NatToString(c.second), 2);
    var f := ZeroPad(NatToString(c.microsecond), 6);
    DigitsNoMark(h);
    PaddedDigits(c.minute, 2);
    PaddedDigits(c.second, 2);
    PaddedDigits(c.microsecond, 6);
    assert ClockText(c) == h + ":" + m + ":" + s + "." + f;
    FieldsSplit(h, m, s, f);
  }

  /** Four fields free of colons and points, written "h:m:s.f", split back into those fields. */
  lemma FieldsSplit(h: string, m: string, s: string, f: string)
    requires ':' !in h && ':' !in m && ':' !in s && ':' !in f && '.' !in s && '.' !in f
    ensures var parts := Split(h + ":" + m + ":" + s + "." + f, ':');
      |parts| == 3 && parts[0] == h && parts[1] == m && Split(parts[2], '.') == [s, f]
  {
    var tail := s + ['.'] + f;
    assert ':' !in tail;
    assert h + ":" + m + ":" + s + "." + f == h + [':'] + m + [':'] + tail;
    SplitThree(h, m, tail, ':');
    SplitTwo(s, f, '.');
  }

  /** Writing a time of day and reading it back gives the same time. */
  lemma ClockRoundTrip(c: Clock)
    requires ValidClock(c)
    ensures ParseClock(ClockText(c)) == Ok(c)
  {
    ClockTextSplits(c);
    NatToStringWidth(c.hour, 2);
    PaddedDigits(c.minute, 2);
    PaddedDigits(c.second, 2);
    PaddedDigits(c.microsecond, 6);
    assert Pow10(0) == 1;
  }

  /** The hours since midnight of a time of day. */
  function HoursOf(c: Clock): real
  {
    c.hour as real + c.minute as real / 60.0 + (c.second as real + c.microsecond as real / 1000000.0) / 3600.0
  }

  /** A valid time of day is less than 24 hours past midnight. */
  lemma HoursOfBounds(c: Clock)
    requires ValidClock(c)
    ensures 0.0 <= HoursOf(c) < 24.0
  {
    assert c.microsecond as real / 1000000.0 < 1.0;
    assert c.second as real + c.microsecond as real / 1000000.0 < 60.0;
    assert c.minute as real / 60.0 <= 59.0 / 60.0;
  }

  /** `lst2hours`: the LST text as decimal hours, formatted to three decimals. */
  function Lst2Hours(lst: string): (r: Result<string>)
    ensures r.Ok? <==> ParseClock(lst).Ok?
    ensures r.Ok? ==> r.value == FormatFixed(HoursOf(ParseClock(lst).value), 3)
  {
    var c :- ParseClock(lst);
    Ok(FormatFixed(HoursOf(c), 3))
  }

  /** The three-decimal hours read back within half a thousandth of the LST, which lies in [0, 24). */
  lemma Lst2HoursReads(lst: string)
    requires Lst2Hours(lst).Ok?
    ensures var h := HoursOf(ParseClock(lst).value);
      0.0 <= h < 24.0 &&
      ParseDecimal(Lst2Hours(lst).value) == Some(Rounded(h, 3)) &&
      Abs(Rounded(h, 3) - h) <= 0.5 / 1000.0
  {
    var c := ParseClock(lst).value;
    HoursOfBounds(c);
    ThreeDecimals(HoursOf(c));
  }

  /** Three decimals read back within half a thousandth. */
  lemma ThreeDecimals(h: real)
    ensures ParseDecimal(FormatFixed(h, 3)) == Some(Rounded(h, 3))
    ensures Abs(Rounded(h, 3) - h) <= 0.5 / 1000.0
  {
    assert Pow10(3) == 1000;
    assert 0.5 / Pow10(3) as real == 0.5 / 1000.0;
    FormatFixedParses(h, 3);
  }

  // ---------------------------------------------------------------- the observer

  /** The observer: its location and the date the ephemeris queries start from. */
  class Observer {
    var location: string
    var horizon: real
    var date: real

    /**
     * `Observatory.__init__`: the reference location unless one is given, the given
     * horizon in degrees, and the date the given datetime or else the current time.
     */
    constructor(location: Option<string>, horizon: real, datetime: Option<real>, now: real)
      ensures this.location == (if location.Some? then location.value else RefLocation)
      ensures this.horizon == horizon
      ensures date == (if datetime.Some? then datetime.value else now)
    {
      this.location := if location.Some? then location.value else RefLocation;
      this.horizon := horizon;
      date := if datetime.Some? then datetime.value else now;
    }

    /** `_ephem_risetime_`: an LST query moves the observer date to the rise time; a target that never rises raises. */
    method RiseTime(target: string, sky: Sky, lst: bool) returns (r: Result<real>)
      modifies this
      ensures var step := RiseStep(old(date), target, sky, lst);
        (step.Ok? ==> r == Ok(step.value.0) && date == step.value.1) &&
        (step.Err? ==> r == Err(step.error) && date == old(date))
      ensures location == old(location) && horizon == old(horizon)
    {
      var rise := sky.nextRising(target, date);
      if rise.NeverUp? {
        return Err(NeverUpOf(target));
      }
      if !rise.At? {
        return Ok(MidnightPlusOne as real);
      }
      if !lst {
        return Ok(rise.time);
      }
      date := rise.time;
      r := Ok(sky.siderealTime(date) as real);
    }

    /** `_ephem_settime_`: an LST query moves the observer date to the setting time; a target that never rises or sets raises. */
    method SetTime(target: string, sky: Sky, lst: bool) returns (r: Result<real>)
      modifies this
      ensures var step := SetStep(old(date), target, sky, lst);
        (step.Ok? ==> r == Ok(step.value.0) && date == step.value.1) &&
        (step.Err? ==> r == Err(step.error) && date == old(date))
      ensures location == old(location) && horizon == old(horizon)
    {
      var rise := sky.nextRising(target, date);
      if rise.NeverUp? {
        return Err(NeverUpOf(target));
      }
      if !rise.At? {
        return Ok(MidnightMinusOne as real);
      }
      var setting := sky.nextSetting(target, rise.time);
      if setting.NeverUp? {
        return Err(NeverUpOf(target));
      }
      if !setting.At? {
        return Ok(MidnightMinusOne as real);
      }
      if !lst {
        return Ok(setting.time);
      }
      date := setting.time;
      r := Ok(sky.siderealTime(date) as real);
    }

    /** `target_rise_and_set_times`: the rise and then the set of one target; a raising query stops it. */
    method RiseAndSetTimes(target: string, sky: Sky, lst: bool) returns (r: Result<(real, real)>)
      modifies this
      ensures var rs := RiseStep(old(date), target, sky, lst);
        (rs.Err? ==> r == Err(rs.error) && date == old(date)) &&
        (rs.Ok? ==> var ss := SetStep(rs.value.1, target, sky, lst);
          (ss.Ok? ==> r == Ok((rs.value.0, ss.value.0)) && date == ss.value.1) &&
          (ss.Err? ==> r == Err(ss.error) && date == rs.value.1))
    {
      var rise := RiseTime(target, sky, lst);
      if rise.Err? {
        return Err(rise.error);
      }
      var setting := SetTime(target, sky, lst);
      if setting.Err? {
        return Err(setting.error);
      }
      r := Ok((rise.value, setting.value));
    }

    /**
     * `start_obs`: the earliest rise LST of the targets, as the ephemeris text of the
     * LST when `strFlag` is set and as three-decimal hours otherwise; a target that
     * never rises raises, and an empty list raises numpy's argmin error.
     */
    method StartObs(targets: seq<string>, sky: Sky, strFlag: bool, show: real -> string) returns (r: Result<string>)
      modifies this
      ensures var lsts := RiseLsts(old(date), targets, sky);
        date == lsts.date &&
        (lsts.error.Some? ==> r == Err(lsts.error.value)) &&
        (lsts.error.None? && |targets| == 0 ==> r == Err(EmptyError("argmin"))) &&
        (lsts.error.None? && |targets| > 0 ==> r == Shown(lsts.values[ArgMin(lsts.values)], strFlag, show))
    {
      var starts: seq<real> := [];
      ghost var date0 := date;
      for i := 0 to |targets|
        invariant RiseLsts(date0, targets[..i], sky) == Lsts(starts, date, None)
      {
        assert targets[..i + 1][..i] == targets[..i];
        var t := RiseTime(targets[i], sky, true);
        if t.Err? {
          RiseErrSticks(date0, targets, i + 1, sky);
          return Err(t.error);
        }
        starts := starts + [t.value];
      }
      assert targets[..|targets|] == targets;
      if |starts| == 0 {
        return Err(EmptyError("argmin"));
      }
      r := Shown(starts[ArgMin(starts)], strFlag, show);
    }

    /** `end_obs`: the latest set LST of the targets, shown as `start_obs` shows the earliest rise; errors as there. */
    method EndObs(targets: seq<string>, sky: Sky, strFlag: bool, show: real -> string) returns (r: Result<string>)
      modifies this
      ensures var lsts := SetLsts(old(date), targets, sky);
        date == lsts.date &&
        (lsts.error.Some? ==> r == Err(lsts.error.value)) &&
        (lsts.error.None? && |targets| == 0 ==> r == Err(EmptyError("argmax"))) &&
        (lsts.error.None? && |targets| > 0 ==> r == Shown(lsts.values[ArgMax(lsts.values)], strFlag, show))
    {
      var ends: seq<real> := [];
      ghost var date0 := date;
      for i := 0 to |targets|
        invariant SetLsts(date0, targets[..i], sky) == Lsts(ends, date, None)
      {
        assert targets[..i + 1][..i] == targets[..i];
        var t := SetTime(targets[i], sky, true);
        if t.Err? {
          SetErrSticks(date0, targets, i + 1, sky);
          return Err(t.error);
        }
        ends := ends + [t.value];
      }
      assert targets[..|targets|] == targets;
      if |ends| == 0 {
        return Err(EmptyError("argmax"));
      }
      r := Shown(ends[ArgMax(ends)], strFlag, show);
    }
  }

  /** The LST as the ephemeris prints it, or that text converted to three-decimal hours. */
  function Shown(lst: real, strFlag: bool, show: real -> string): Result<string>
  {
    if strFlag then Ok(show(lst)) else Lst2Hours(show(lst))
  }

  /** The start is the earliest rise LST: no target rises earlier, and it lies in [0, 24). */
  lemma StartIsEarliest(date: real, targets: seq<string>, sky: Sky)
    requires |targets| > 0 && RiseLsts(date, targets, sky).error.None?
    ensures var lsts := RiseLsts(date, targets, sky).values;
      var s := lsts[ArgMin(lsts)];
      0.0 <= s < 24.0 && s in lsts && forall j :: 0 <= j < |lsts| ==> s <= lsts[j]
  {
  }

  /** The end is the latest set LST: no target sets later, and it lies in [0, 24). */
  lemma EndIsLatest(date: real, targets: seq<string>, sky: Sky)
    requires |targets| > 0 && SetLsts(date, targets, sky).error.None?
    ensures var lsts := SetLsts(date, targets, sky).values;
      var e := lsts[ArgMax(lsts)];
      0.0 <= e < 24.0 && e in lsts && forall j :: 0 <= j < |lsts| ==> e >= lsts[j]
  {
  }

  /**
   * A target that is always up, or has no rise data, rises one second past midnight
   * and sets one second before it, and the observer date stays where it was.
   */
  lemma AlwaysUpFallbacks(date: real, target: string, sky: Sky)
    requires Caught(sky.nextRising(target, date))
    ensures RiseLsts(date, [target], sky) == Lsts([MidnightPlusOne as real], date, None)
    ensures SetLsts(date, [target], sky) == Lsts([MidnightMinusOne as real], date, None)
  {
    assert [target][..0] == [];
  }

  /** A target that never rises stops both queries with its error, before any LST is found. */
  lemma NeverUpRaises(date: real, target: string, sky: Sky)
    requires sky.nextRising(target, date).NeverUp?
    ensures RiseLsts(date, [target], sky) == Lsts([], date, Some(NeverUpOf(target)))
    ensures SetLsts(date, [target], sky) == Lsts([], date, Some(NeverUpOf(target)))
  {
    assert [target][..0] == [];
  }

  /** A target that never rises stops a whole list at its place: the targets after it are not queried. */
  lemma NeverUpStopsList(date: real, targets: seq<string>, k: nat, sky: Sky)
    requires k < |targets| && RiseLsts(date, targets[..k], sky).error.None?
    requires sky.nextRising(targets[k], RiseLsts(date, targets[..k], sky).date).NeverUp?
    ensures RiseLsts(date, targets, sky) == RiseLsts(date, targets[..k], sky).(error := Some(NeverUpOf(targets[k])))
  {
    assert targets[..k + 1][..k] == targets[..k];
    RiseErrSticks(date, targets, k + 1, sky);
  }

  // ---------------------------------------------------------------- "key=value" targets

  /** The key of one item: the stripped text before its first '='. */
  function ItemKey(item: string): string
  {
    Strip(Split(Strip(item), '=')[0])
  }

  /** An item with an '=': `split("=")[1]` exists. */
  predicate HasValue(item: string) { |Split(Strip(item), '=')| >= 2 }

  /** The value of one item: the stripped text between its first and second '='. */
  function ItemValue(item: string): string
    requires HasValue(item)
  {
    Strip(Split(Strip(item), '=')[1])
  }

  /** The key and value an item gives, or None for an item without '='. */
  function Entry(item: string): Option<(string, string)>
  {
    if HasValue(item) then Some((ItemKey(item), ItemValue(item))) else None
  }

  /** One pass of the loop: the item's key maps to its value; an item without '=' raises. */
  function PutItem(d: map<string, string>, item: string): Result<map<string, string>>
  {
    match Entry(item)
    case None => Err(IndexError("list index out of range"))
    case Some((key, value)) => Ok(d[key := value])
  }

  /** `unpack_target` over the comma-separated items. */
  function UnpackSpec(s: string): Result<map<string, string>>
  {
    Fold(map[], Split(s, ','), PutItem)
  }

  /** `Observatory.unpack_target`: a dictionary from the "key=value" items of a target string. */
  method UnpackTarget(s: string) returns (r: Result<map<string, string>>)
    ensures r == UnpackSpec(s)
  {
    var items := Split(s, ',');
    var d: map<string, string> := map[];
    for i := 0 to |items|
      invariant Fold(map[], items[..i], PutItem) == Ok(d)
    {
      FoldSnoc(map[], items, i, PutItem);
      var parts := Split(Strip(items[i]), '=');
      if |parts| < 2 {
        FoldErrSticks(map[], items, i + 1, PutItem);
        return Err(IndexError("list index out of range"));
      }
      d := d[Strip(parts[0]) := Strip(parts[1])];
    }
    assert items[..|items|] == items;
    return Ok(d);
  }

  /** The value the last item with key `k` gives, if any. */
  function LastValue<T>(items: seq<T>, k: string, entry: T -> Option<(string, string)>): Option<string>
  {
    if |items| == 0 then None
    else
      var e := entry(items[|items| - 1]);
      if e.Some? && e.value.0 == k then Some(e.value.1)
      else LastValue(items[..|items| - 1], k, entry)
  }

  /** Each key of `d` is one an item gives, with the value of the last item that gives it. */
  ghost predicate LastValues<T>(d: map<string, string>, items: seq<T>, entry: T -> Option<(string, string)>)
  {
    forall k :: (k in d <==> LastValue(items, k, entry).Some?) && (k in d ==> d[k] == LastValue(items, k, entry).value)
  }

  /** One more item overrides its key and leaves every other key as it was. */
  lemma LastValuesSnoc<T>(d: map<string, string>, more: seq<T>, entry: T -> Option<(string, string)>)
    requires |more| > 0 && LastValues(d, more[..|more| - 1], entry) && entry(more[|more| - 1]).Some?
    ensures LastValues(d[entry(more[|more| - 1]).value.0 := entry(more[|more| - 1]).value.1], more, entry)
  {
    var e := entry(more[|more| - 1]).value;
    var d' := d[e.0 := e.1];
    forall k
      ensures (k in d' <==> LastValue(more, k, entry).Some?) && (k in d' ==> d'[k] == LastValue(more, k, entry).value)
    {
      if k != e.0 {
        assert LastValue(more, k, entry) == LastValue(more[..|more| - 1], k, entry);
      }
    }
  }

  /** The dictionary built from a prefix of the items holds for each key the value of its last item. */
  lemma {:induction false} UnpackPrefix(items: seq<string>, n: nat)
    requires n <= |items| && Fold(map[], items[..n], PutItem).Ok?
    ensures LastValues(Fold(map[], items[..n], PutItem).value, items[..n], Entry)
  {
    if n > 0 {
      var m := n - 1;
      FoldSnoc(map[], items, m, PutItem);
      var prev := Fold(map[], items[..m], PutItem);
      assert prev.Ok?;
      UnpackPrefix(items, m);
      assert items[..n][..m] == items[..m];
      assert items[..n][m] == items[m];
      assert Entry(items[m]).Some?;
      LastValuesSnoc(prev.value, items[..n], Entry);
    }
  }

  /** Every item has an '='. */
  predicate AllHaveValues(items: seq<string>)
  {
    forall i :: 0 <= i < |items| ==> HasValue(items[i])
  }

  /** The loop gets through the items exactly when every item has an '='. */
  lemma UnpackOk(items: seq<string>)
    ensures Fold(map[], items, PutItem).Ok? <==> AllHaveValues(items)
  {
    forall d: map<string, string>, item: string
      ensures PutItem(d, item).Ok? <==> HasValue(item)
    {
    }
    FoldOkIff(map[], items, PutItem, HasValue);
  }

  /** The target is read exactly when every item has an '='; a later item overrides an earlier one with the same key. */
  lemma UnpackTargetLast(s: string)
    ensures UnpackSpec(s).Ok? <==> AllHaveValues(Split(s, ','))
    ensures UnpackSpec(s).Ok? ==> LastValues(UnpackSpec(s).value, Split(s, ','), Entry)
  {
    UnpackOk(Split(s, ','));
    UnpackAll(Split(s, ','));
  }

  /** The whole fold holds for each key the value of its last item. */
  lemma UnpackAll(items: seq<string>)
    ensures Fold(map[], items, PutItem).Ok? ==> LastValues(Fold(map[], items, PutItem).value, items, Entry)
  {
    assert items[..|items|] == items;
    if Fold(map[], items, PutItem).Ok? {
      UnpackPrefix(items, |items|);
    }
  }
}
