// scripts/astrokat-lst.py: the LST helper. `longformat_date` brings a date
// string to the "YYYY-MM-DD HH:MM" form by matching it against a date-time
// regular expression, `main` chooses which report to give, and the script
// shields negative numbers on its command line from the option parser.
module LstScript {
  import opened Common
  import opened Text
  import opened Numbers
  import Utility

  // ---------------------------------------------------------------- the date-time pattern

  /** `\s` of Python's regular expressions, over ASCII. */
  predicate RegexSpace(c: char) { IsSpace(c) || c == '\U{C}' || c == '\U{B}' }

  /** `[1-9]` */
  predicate NonZero(c: char) { '1' <= c <= '9' }

  /** `0[1-9]|1[0-2]` */
  predicate IsMonth2(a: char, b: char) { (a == '0' && NonZero(b)) || (a == '1' && '0' <= b <= '2') }

  /** `[12]\d|0[1-9]|3[01]` */
  predicate IsDay2(a: char, b: char)
  {
    (('1' <= a <= '2') && IsDigit(b)) || (a == '0' && NonZero(b)) || (a == '3' && (b == '0' || b == '1'))
  }

  /** `[01]\d|2[0-3]` */
  predicate IsHour2(a: char, b: char) { (('0' <= a <= '1') && IsDigit(b)) || (a == '2' && '0' <= b <= '3') }

  /** `[0-5]\d` */
  predicate IsMinute2(a: char, b: char) { '0' <= a <= '5' && IsDigit(b) }

  /** `[tT\s]` */
  predicate DateSep(c: char) { c == 't' || c == 'T' || RegexSpace(c) }

  /** `$`: the end of the text, or a final newline. */
  predicate AtEnd(t: string) { t == "" || t == "\n" }

  /**
   * The groups of a match: year, month, the two-digit day group (group 4,
   * None for a one-digit day), the whole day (group 3), hour, minute and the
   * optional seconds (group 8).
   */
  datatype Groups = Groups(year: string, month: string, day2: Option<string>, day: string,
                           hour: string, minute: string, second: Option<string>)

  /** The month group and the text after the dash that ends it. */
  function MatchMonth(t: string): (r: Option<(string, string)>)
    ensures r.Some? ==> |r.value.0| + 1 + |r.value.1| == |t| && r.value.0 + "-" + r.value.1 == t
  {
    if |t| >= 3 && IsMonth2(t[0], t[1]) && t[2] == '-' then
      assert t[..2] + "-" + t[3..] == t;
      Some((t[..2], t[3..]))
    else if |t| >= 2 && NonZero(t[0]) && t[1] == '-' then
      assert t[..1] + "-" + t[2..] == t;
      Some((t[..1], t[2..]))
    else None
  }

  /** The day groups, the separator and the text after it. */
  function MatchDay(t: string): (r: Option<(Option<string>, string, string)>)
    ensures r.Some? ==> |r.value.2| <= |t| && t[|t| - |r.value.2|..] == r.value.2
  {
    if |t| >= 3 && IsDay2(t[0], t[1]) && DateSep(t[2]) then Some((Some(t[..2]), t[..2], t[3..]))
    else if |t| >= 2 && NonZero(t[0]) && DateSep(t[1]) then Some((None, t[..1], t[2..]))
    else None
  }

  /** The hour, minute and optional seconds groups, up to the end of the text. */
  function MatchTime(t: string): (r: Option<(string, string, Option<string>)>)
    ensures r.Some? && r.value.2.Some? ==> (|t| == 8 && t[5] == ':') || (|t| == 9 && t[8] == '\n')
  {
    if |t| < 5 || !IsHour2(t[0], t[1]) || t[2] != ':' || !IsMinute2(t[3], t[4]) then None
    else
      var rest := t[5..];
      if AtEnd(rest) then Some((t[..2], t[3..5], None))
      else if |rest| >= 3 && rest[0] == ':' && IsMinute2(rest[1], rest[2]) && AtEnd(rest[3..]) then
        Some((t[..2], t[3..5], Some(rest[1..3])))
      else None
  }

  /** `r.match(s)`: the groups of the date-time pattern, or None when the text does not match. */
  function Match(s: string): Option<Groups>
  {
    if |s| < 5 || !AllDigits(s[..4]) || s[4] != '-' then None
    else
      match MatchMonth(s[5..])
      case None => None
      case Some((month, t1)) =>
        match MatchDay(t1)
        case None => None
        case Some((day2, day, t2)) =>
          match MatchTime(t2)
          case None => None
          case Some((hour, minute, second)) => Some(Groups(s[..4], month, day2, day, hour, minute, second))
  }

  // ---------------------------------------------------------------- longformat_date

  /** `"{}".format(d)` for the two-digit day group. */
  function DayText(d: Option<string>): string
  {
    match d
    case None => "None"
    case Some(s) => s
  }

  /** "Y-M-D H:m", the text written for a match that had seconds. */
  function Short(year: string, month: string, day: string, hour: string, minute: string): string
  {
    year + "-" + month + "-" + day + " " + hour + ":" + minute
  }

  /** The text matched the second time: the input, or the input completed by a time or by seconds. */
  function Completed(s: string): string
  {
    if Match(s).Some? then s
    else if |Split(s, ' ')| == 1 then s + " 00:00"
    else s + ":00"
  }

  const NoMatch: Error := AttributeError("'NoneType' object has no attribute 'groups'")

  /**
   * `longformat_date(s)` as written: with seconds present the text is rebuilt
   * from the two-digit day group, which is None for a one-digit day.
   */
  function LongformatDate(s: string): (r: Result<string>)
    ensures r.Err? <==> Match(Completed(s)).None?
    ensures r.Ok? && Match(Completed(s)).value.second.None? ==> r.value == Completed(s)
  {
    var s1 := Completed(s);
    match Match(s1)
    case None => Err(NoMatch)
    case Some(g) =>
      if g.second.Some? then Ok(Short(g.year, g.month, DayText(g.day2), g.hour, g.minute)) else Ok(s1)
  }

  /** `longformat_date(s)` as evidently intended: the rebuilt text carries the whole day group. */
  function LongformatDateFixed(s: string): (r: Result<string>)
    ensures r.Err? <==> Match(Completed(s)).None?
    ensures r.Ok? && Match(Completed(s)).value.second.None? ==> r.value == Completed(s)
  {
    var s1 := Completed(s);
    match Match(s1)
    case None => Err(NoMatch)
    case Some(g) =>
      if g.second.Some? then Ok(Short(g.year, g.month, g.day, g.hour, g.minute)) else Ok(s1)
  }

  /** The groups a short text is built from: each a valid instance of its group. */
  predicate ValidGroups(year: string, month: string, day: string, hour: string, minute: string)
  {
    ValidDate(year, month, day) && |hour| == 2 && IsHour2(hour[0], hour[1]) && |minute| == 2 && IsMinute2(minute[0], minute[1])
  }

  predicate ValidDate(year: string, month: string, day: string)
  {
    |year| == 4 && AllDigits(year) &&
    ((|month| == 2 && IsMonth2(month[0], month[1])) || (|month| == 1 && NonZero(month[0]))) &&
    ((|day| == 2 && IsDay2(day[0], day[1])) || (|day| == 1 && NonZero(day[0])))
  }

  /** The groups a match finds are valid instances of their groups, and the two-digit day group is the day when present. */
  lemma MatchValid(s: string)
    requires Match(s).Some?
    ensures var g := Match(s).value; ValidGroups(g.year, g.month, g.day, g.hour, g.minute)
    ensures var g := Match(s).value; g.day2.Some? <==> |g.day| == 2
    ensures var g := Match(s).value; g.day2.Some? ==> g.day2.value == g.day
  {
  }

  /** The time part "H:m" of a short text matches with no seconds. */
  lemma MatchShortTime(hour: string, minute: string)
    requires |hour| == 2 && IsHour2(hour[0], hour[1]) && |minute| == 2 && IsMinute2(minute[0], minute[1])
    ensures MatchTime(hour + ":" + minute) == Some((hour, minute, None))
  {
    var t := hour + ":" + minute;
    assert t[..2] == hour && t[3..5] == minute && t[5..] == "";
  }

  /** The day part "D H:m" of a short text gives back the day groups and the time part. */
  lemma MatchShortDay(day: string, rest: string)
    requires (|day| == 2 && IsDay2(day[0], day[1])) || (|day| == 1 && NonZero(day[0]))
    ensures MatchDay(day + " " + rest) == Some((if |day| == 2 then Some(day) else None, day, rest))
  {
    var t := day + " " + rest;
    if |day| == 2 {
      assert t[..2] == day && t[3..] == rest;
    } else {
      assert t[..1] == day && t[2..] == rest;
      assert !IsDay2(t[0], t[1]);
    }
  }

  /** The month part "M-..." of a short text gives back the month group and the rest. */
  lemma MatchShortMonth(month: string, rest: string)
    requires (|month| == 2 && IsMonth2(month[0], month[1])) || (|month| == 1 && NonZero(month[0]))
    ensures MatchMonth(month + "-" + rest) == Some((month, rest))
  {
    var t := month + "-" + rest;
    if |month| == 2 {
      assert t[..2] == month && t[3..] == rest;
    } else {
      assert t[..1] == month && t[2..] == rest;
    }
  }

  /**
   * The short text built from valid groups matches the pattern with no seconds
   * and gives the groups back.
   */
  lemma MatchShort(year: string, month: string, day: string, hour: string, minute: string)
    requires ValidGroups(year, month, day, hour, minute)
    ensures Match(Short(year, month, day, hour, minute)) ==
      Some(Groups(year, month, if |day| == 2 then Some(day) else None, day, hour, minute, None))
  {
    assert Short(year, month, day, hour, minute) == year + "-" + month + "-" + day + " " + (hour + ":" + minute);
    MatchDate(year, month, day, hour + ":" + minute);
    MatchShortTime(hour, minute);
  }

  /** A text that starts with a valid date and a blank matches as its time part does. */
  lemma MatchDate(year: string, month: string, day: string, timePart: string)
    requires ValidDate(year, month, day)
    ensures Match(year + "-" + month + "-" + day + " " + timePart) ==
      match MatchTime(timePart)
      case None => None
      case Some((hour, minute, second)) =>
        Some(Groups(year, month, if |day| == 2 then Some(day) else None, day, hour, minute, second))
  {
    var dayPart := day + " " + timePart;
    var s := year + "-" + month + "-" + day + " " + timePart;
    assert s == year + "-" + (month + "-" + dayPart);
    assert s[..4] == year && s[5..] == month + "-" + dayPart;
    MatchShortMonth(month, dayPart);
    MatchShortDay(day, timePart);
  }

  /** Text that already matches with no seconds is returned unchanged. */
  lemma LongformatUnchanged(s: string)
    requires Match(s).Some? && Match(s).value.second.None?
    ensures LongformatDate(s) == Ok(s) && LongformatDateFixed(s) == Ok(s)
  {
  }

  /** A match with seconds ends in ":SS", or in a newline. */
  lemma MatchSecondsEnd(s: string)
    requires Match(s).Some? && Match(s).value.second.Some?
    ensures (|s| >= 8 && s[|s| - 3] == ':') || (|s| >= 1 && s[|s| - 1] == '\n')
  {
    var (month, t1) := MatchMonth(s[5..]).value;
    var (day2, day, t2) := MatchDay(t1).value;
    assert s[|s| - |t2|..] == t2;
  }

  /** A date with no blank that matches once " 00:00" is appended comes back with " 00:00" appended. */
  lemma LongformatDateOnly(s: string)
    requires Match(s).None? && ' ' !in s
    requires Match(s + " 00:00").Some?
    ensures LongformatDate(s) == Ok(s + " 00:00")
  {
    SplitNoSep(s, ' ');
  }

  /**
   * What `longformat_date` returns as written matches the pattern without
   * seconds whenever the day it matched had two digits.
   */
  lemma LongformatShape(s: string)
    requires LongformatDate(s).Ok? && Match(Completed(s)).value.day2.Some?
    ensures Match(LongformatDate(s).value).Some? && Match(LongformatDate(s).value).value.second.None?
  {
    var g := Match(Completed(s)).value;
    MatchValid(Completed(s));
    if g.second.Some? {
      MatchShort(g.year, g.month, g.day, g.hour, g.minute);
    }
  }

  /** `longformat_date` as written is idempotent on texts whose matched day has two digits. */
  lemma LongformatIdempotent(s: string)
    requires LongformatDate(s).Ok? && Match(Completed(s)).value.day2.Some?
    ensures LongformatDate(LongformatDate(s).value) == LongformatDate(s)
  {
    LongformatShape(s);
    LongformatUnchanged(LongformatDate(s).value);
  }

  /** What the corrected `longformat_date` returns always matches the pattern without seconds. */
  lemma LongformatFixedShape(s: string)
    requires LongformatDateFixed(s).Ok?
    ensures Match(LongformatDateFixed(s).value).Some? && Match(LongformatDateFixed(s).value).value.second.None?
  {
    var g := Match(Completed(s)).value;
    MatchValid(Completed(s));
    if g.second.Some? {
      MatchShort(g.year, g.month, g.day, g.hour, g.minute);
    }
  }

  /** The corrected `longformat_date` is idempotent on every text it accepts. */
  lemma LongformatFixedIdempotent(s: string)
    requires LongformatDateFixed(s).Ok?
    ensures LongformatDateFixed(LongformatDateFixed(s).value) == LongformatDateFixed(s)
  {
    LongformatFixedShape(s);
    LongformatUnchanged(LongformatDateFixed(s).value);
  }

  /** The time part "H:m:S" of a long text matches with seconds. */
  lemma MatchLongTime(hour: string, minute: string, second: string)
    requires |hour| == 2 && IsHour2(hour[0], hour[1]) && |minute| == 2 && IsMinute2(minute[0], minute[1])
    requires |second| == 2 && IsMinute2(second[0], second[1])
    ensures MatchTime(hour + ":" + minute + ":" + second) == Some((hour, minute, Some(second)))
  {
    var t := hour + ":" + minute + ":" + second;
    assert t[..2] == hour && t[3..5] == minute && t[5..] == ":" + second;
    assert t[5..][1..3] == second && t[5..][3..] == "";
  }

  /** A text with seconds, "Y-M-D H:m:S", matches and gives its groups back. */
  lemma MatchLong(year: string, month: string, day: string, hour: string, minute: string, second: string)
    requires ValidGroups(year, month, day, hour, minute)
    requires |second| == 2 && IsMinute2(second[0], second[1])
    ensures Match(Short(year, month, day, hour, minute) + ":" + second) ==
      Some(Groups(year, month, if |day| == 2 then Some(day) else None, day, hour, minute, Some(second)))
  {
    var timePart := hour + ":" + minute + ":" + second;
    assert Short(year, month, day, hour, minute) + ":" + second == year + "-" + month + "-" + day + " " + timePart;
    MatchDate(year, month, day, timePart);
    MatchLongTime(hour, minute, second);
  }

  /** A short text whose day is the word "None" does not match. */
  lemma NoneDayNoMatch(year: string, month: string, hour: string, minute: string)
    requires ValidGroups(year, month, "1", hour, minute)
    ensures Match(Short(year, month, "None", hour, minute)).None?
  {
    var rest := "None" + " " + hour + ":" + minute;
    var s := Short(year, month, "None", hour, minute);
    assert s == year + "-" + (month + "-" + rest);
    assert s[..4] == year && s[5..] == month + "-" + rest;
    MatchShortMonth(month, rest);
    assert MatchDay(rest) == None;
  }

  /**
   * As written, a one-digit day given with seconds is rebuilt as the text
   * "None" ("2020-01-5 10:00:30" becomes "2020-01-None 10:00"), which no
   * longer matches; the corrected function keeps the day.
   */
  lemma LongformatNoneDay(year: string, month: string, day: string, hour: string, minute: string, second: string)
    requires ValidGroups(year, month, day, hour, minute) && |day| == 1
    requires |second| == 2 && IsMinute2(second[0], second[1])
    ensures LongformatDate(Short(year, month, day, hour, minute) + ":" + second) == Ok(Short(year, month, "None", hour, minute))
    ensures Match(Short(year, month, "None", hour, minute)).None?
    ensures LongformatDateFixed(Short(year, month, day, hour, minute) + ":" + second) == Ok(Short(year, month, day, hour, minute))
  {
    MatchLong(year, month, day, hour, minute, second);
    NoneDayNoMatch(year, month, hour, minute);
  }

  // ---------------------------------------------------------------- main

  /** The report `main` gives. */
  datatype LstReport =
    | TargetRange(target: seq<string>)
    | LstAtDate(utc: Utility.DateTime)
    | DateForLst(lst: real, utc: Utility.DateTime)
    | CurrentTimes(utc: Utility.DateTime)

  /** Python truthiness of an optional string and an optional float. */
  predicate GivenText(v: Option<string>) { v.Some? && v.value != "" }
  predicate GivenNumber(v: Option<real>) { v.Some? && v.value != 0.0 }

  /** `datetime.strptime(longformat_date(d), "%Y-%m-%d %H:%M")` for a given date text. */
  function DateOf(d: string): (r: Result<Utility.DateTime>)
    ensures Match(Completed(d)).None? ==> r == Err(NoMatch)
    ensures r.Ok? ==> LongformatDate(d).Ok? && Utility.StartTime(LongformatDate(d).value) == Some(r.value)
    ensures LongformatDate(d).Ok? && Utility.StartTime(LongformatDate(d).value).None? ==> r.Err? && r.error.ValueError?
  {
    var ds :- LongformatDate(d);
    match Utility.StartTime(ds)
    case None => Err(ValueError("time data '" + ds + "' does not match format '%Y-%m-%d %H:%M'"))
    case Some(t) => Ok(t)
  }

  /**
   * As written, a one-digit day given with seconds is refused: "2020-01-5 10:00:30"
   * raises ValueError, because the rebuilt text has the day "None".
   */
  lemma DateOfNoneDay(year: string, month: string, day: string, hour: string, minute: string, second: string)
    requires ValidGroups(year, month, day, hour, minute) && |day| == 1
    requires |second| == 2 && IsMinute2(second[0], second[1])
    ensures var r := DateOf(Short(year, month, day, hour, minute) + ":" + second); r.Err? && r.error.ValueError?
  {
    var d := Short(year, month, day, hour, minute) + ":" + second;
    LongformatNoneDay(year, month, day, hour, minute, second);
    ValidDateDigits(year, month, day);
    NoneDayNoTime(year, month, hour, minute);
    DateOfRefused(d, Short(year, month, "None", hour, minute));
  }

  /** The year and month of a valid date are digits. */
  lemma ValidDateDigits(year: string, month: string, day: string)
    requires ValidDate(year, month, day)
    ensures |year| == 4 && AllDigits(year) && 1 <= |month| <= 2 && AllDigits(month)
  {
  }

  /** A date text whose long form is not a time is refused with ValueError. */
  lemma DateOfRefused(d: string, long: string)
    requires LongformatDate(d) == Ok(long) && Utility.StartTime(long).None?
    ensures DateOf(d).Err? && DateOf(d).error.ValueError?
  {
  }

  /** A date text whose day is "None" is not a time: its third date field has four characters. */
  lemma NoneDayNoTime(year: string, month: string, hour: string, minute: string)
    requires |year| == 4 && AllDigits(year) && 1 <= |month| <= 2 && AllDigits(month)
    ensures Utility.StartTime(Short(year, month, "None", hour, minute)).None?
  {
    var date := year + "-" + month + "-" + "None";
    var time := " " + hour + ":" + minute;
    var s := Short(year, month, "None", hour, minute);
    assert s == date + time;
    assert NoSpace(date) by {
      assert forall k :: 0 <= k < |date| ==> date[k] == '-' || IsDigit(date[k]) || date[k] in "None";
    }
    WordLenOfWord(date, time);
    assert s[..|date|] == date;
    assert date == year + ['-'] + (month + ['-'] + "None");
    assert '-' !in year && '-' !in month;
    SplitNoSep("None", '-');
    SplitAfter(month, '-', "None");
    SplitAfter(year, '-', month + ['-'] + "None");
  }

  /** `[t.strip() for t in target]` */
  function StripAll(ts: seq<string>): (r: seq<string>)
    ensures |r| == |ts| && forall i :: 0 <= i < |ts| ==> r[i] == Strip(ts[i])
  {
    seq(|ts|, i requires 0 <= i < |ts| => Strip(ts[i]))
  }

  /**
   * `main(args)`: the date is parsed first (the current time `now` when no
   * date is given), then the report is chosen: a target range, else the LST
   * at a date given without an LST, else the date for a given LST, else the
   * current clock times.
   */
  function Main(target: Option<seq<string>>, date: Option<string>, lst: Option<real>,
                now: Utility.DateTime): (r: Result<LstReport>)
    ensures r.Ok? && target.Some? && |target.value| > 0 ==> r.value.TargetRange?
    ensures r.Ok? && !(target.Some? && |target.value| > 0) && GivenText(date) && !GivenNumber(lst) ==> r.value.LstAtDate?
    ensures r.Ok? && r.value.DateForLst? ==> GivenNumber(lst) && GivenText(date) && r.value.lst == lst.value
    ensures r.Ok? && r.value.CurrentTimes? ==> !GivenText(date) && !GivenNumber(lst) && r.value.utc == now
    ensures GivenNumber(lst) && date.None? && !(target.Some? && |target.value| > 0) ==> r.Err? && r.error.TypeError?
  {
    var utc :- if GivenText(date) then DateOf(date.value) else Ok(now);
    if target.Some? && |target.value| > 0 then
      Ok(TargetRange(StripAll(target.value)))
    else if GivenText(date) && !GivenNumber(lst) then Ok(LstAtDate(utc))
    else if GivenNumber(lst) then
      if date.None? then Err(TypeError("expected string or bytes-like object"))
      else
        var t :- DateOf(date.value);
        Ok(DateForLst(lst.value, t))
    else Ok(CurrentTimes(utc))
  }

  // ---------------------------------------------------------------- negative numbers on the command line

  /** An argument the option parser would take for an option: '-' followed by a digit. */
  predicate LooksNegative(arg: string) { |arg| >= 2 && arg[0] == '-' && IsDigit(arg[1]) }

  /** One argument after the fix: a blank is put in front of a negative number. */
  function FixArg(arg: string): (r: string)
    ensures !LooksNegative(r)
    ensures LooksNegative(arg) ==> r == " " + arg
    ensures !LooksNegative(arg) ==> r == arg
  {
    if LooksNegative(arg) then " " + arg else arg
  }

  /** The fix changes nothing the second time. */
  lemma FixArgIdempotent(arg: string)
    ensures FixArg(FixArg(arg)) == FixArg(arg)
  {
  }

  /** The loop over `sys.argv`, rewriting each negative-number argument in place. */
  method FixNegativeArgs(argv: array<string>)
    modifies argv
    ensures forall i :: 0 <= i < argv.Length ==> argv[i] == FixArg(old(argv[i]))
  {
    var i := 0;
    while i < argv.Length
      invariant 0 <= i <= argv.Length
      invariant forall k :: 0 <= k < i ==> argv[k] == FixArg(old(argv[k]))
      invariant forall k :: i <= k < argv.Length ==> argv[k] == old(argv[k])
    {
      if LooksNegative(argv[i]) {
        argv[i] := " " + argv[i];
      }
      i := i + 1;
    }
  }
}
