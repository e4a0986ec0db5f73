// astrokat/utility.py: the normalisation and validation `read_yaml` applies to
// a freshly loaded observation plan, and the `get_lst` parser of an LST range.
// The YAML loader itself is not modelled: the plan arrives as a loaded document.
module Utility {
  import opened Common
  import opened Text
  import opened Numbers

  /** A `datetime.datetime` without time zone. */
  datatype DateTime = DateTime(year: int, month: int, day: int, hour: int, minute: int, second: int)

  /** A value produced by `yaml.safe_load`, plus the float array `read_yaml` builds. */
  datatype Yaml =
    | YNull
    | YBool(b: bool)
    | YInt(i: int)
    | YFloat(f: real)
    | YStr(s: string)
    | YDateTime(dt: DateTime)
    | YList(items: seq<Yaml>)
    | YMap(m: map<string, Yaml>)
    /** a `numpy.array(..., dtype=float)` */
    | YArray(values: seq<real>)

  /** The top-level plan dictionary. */
  type Plan = map<string, Yaml>

  /** What `yaml.safe_load` gave back: a parser error or a document. */
  datatype Loaded = ParseError | Doc(doc: Yaml)

  const DurationsEmpty := "Durations primary key cannot be empty in YAML file"
  const NothingToObserve := "Nothing to observe, exiting"
  const EmptyLoop := "Empty observation loop, exiting"
  const IncompleteLoop := "Incomplete observation input: LST range and at least one target required."
  const NoLst := "Observation LST not provided, exiting"
  const NoTargetList := "Empty target list, exiting"
  const LstFormatError := "Format error reading LST range in observation file."

  // ---------------------------------------------------------------- strptime

  /** One or two ASCII digits whose value is at most `hi`, as `%H`, `%M`, `%m` and `%d` read them. */
  function ShortNumber(s: string, hi: nat): (r: Option<nat>)
    ensures r.Some? ==> r.value <= hi
    ensures r.Some? <==> 1 <= |s| <= 2 && AllDigits(s) && DigitsValue(s) <= hi
  {
    if 1 <= |s| <= 2 && AllDigits(s) && DigitsValue(s) <= hi then Some(DigitsValue(s)) else None
  }

  /** `strptime(s, "%H:%M")`: hour and minute, or None where Python raises ValueError. */
  function HourMinute(s: string): (r: Option<(nat, nat)>)
    ensures r.Some? ==> r.value.0 <= 23 && r.value.1 <= 59
  {
    var parts := Split(s, ':');
    if |parts| != 2 then None
    else
      match (ShortNumber(parts[0], 23), ShortNumber(parts[1], 59))
      case (Some(h), Some(m)) => Some((h, m))
      case _ => None
  }

  /** The hour that `"{}:{}".format(h, m)` denotes. */
  function HoursOf(hm: (nat, nat)): real
  {
    hm.0 as real + hm.1 as real / 60.0
  }

  function IsLeap(y: int): bool { y % 4 == 0 && (y % 100 != 0 || y % 400 == 0) }

  function DaysIn(year: int, month: int): int
  {
    if month == 2 then (if IsLeap(year) then 29 else 28)
    else if month == 4 || month == 6 || month == 9 || month == 11 then 30
    else 31
  }

  /** Index of the first whitespace character of `s`, or `|s|`. */
  function FirstSpace(s: string): (i: nat)
    ensures i <= |s| && NoSpace(s[..i]) && (i < |s| ==> IsSpace(s[i]))
  {
    WordLen(s)
  }

  /** `strptime(s, "%Y-%m-%d %H:%M")`: a calendar date, a whitespace run and a clock time. */
  function StartTime(s: string): (r: Option<DateTime>)
    ensures r.Some? ==> 1 <= r.value.month <= 12 && 1 <= r.value.day <= DaysIn(r.value.year, r.value.month)
    ensures r.Some? ==> 0 <= r.value.hour <= 23 && 0 <= r.value.minute <= 59 && r.value.second == 0
  {
    var i := FirstSpace(s);
    var date := Split(s[..i], '-');
    if i == |s| || |date| != 3 || |date[0]| != 4 || !AllDigits(date[0]) || DigitsValue(date[0]) < 1 then None
    else
      match (ShortNumber(date[1], 12), ShortNumber(date[2], 31), HourMinute(LStrip(s[i..])))
      case (Some(mo), Some(d), Some(hm)) =>
        var y := DigitsValue(date[0]);
        if 1 <= mo && 1 <= d <= DaysIn(y, mo) then Some(DateTime(y, mo, d, hm.0, hm.1, 0)) else None
      case _ => None
  }

  // ---------------------------------------------------------------- read_yaml

  predicate IsMapping(loaded: Loaded) { loaded.Doc? && loaded.doc.YMap? }

  /** The top-level entries whose value is not None. */
  function DropNulls(m: Plan): Plan
  {
    map k | k in m && m[k] != YNull :: m[k]
  }

  /** Python's `float(v)` on a loaded YAML value. */
  function FloatOf(v: Yaml): Result<real>
  {
    match v
    case YStr(s) => ToFloat(s)
    case YInt(i) => Ok(i as real)
    case YFloat(f) => Ok(f)
    case YBool(b) => Ok(if b then 1.0 else 0.0)
    case _ => Err(TypeError("float() argument must be a string or a number"))
  }

  /** The instrument section with `integration_time` t replaced by `dump_rate` 1/t. */
  function WithDumpRate(instrument: Yaml): Result<Yaml>
  {
    match instrument
    case YMap(m) =>
      if "integration_time" !in m then Ok(instrument)
      else
        var t :- FloatOf(m["integration_time"]);
        if t == 0.0 then Err(ZeroDivisionError)
        else Ok(YMap(m["dump_rate" := YFloat(1.0 / t)] - {"integration_time"}))
    case _ => Err(AttributeError("instrument has no attribute 'keys'"))
  }

  /** The durations section with a textual `start_time` parsed into a date and time. */
  function WithStartTime(durations: Yaml): Result<Yaml>
  {
    match durations
    case YMap(m) =>
      if "start_time" !in m then Ok(durations)
      else if m["start_time"].YStr? then
        match StartTime(m["start_time"].s)
        case None => Err(ValueError("time data does not match format '%Y-%m-%d %H:%M'"))
        case Some(dt) => Ok(YMap(m["start_time" := YDateTime(dt)]))
      else Ok(durations)
    case YStr(s) =>
      if Contains(s, "start_time") then Err(TypeError("string indices must be integers")) else Ok(durations)
    case YList(items) =>
      if YStr("start_time") in items then Err(TypeError("list indices must be integers or slices, not str"))
      else Ok(durations)
    case _ => Err(TypeError("argument of type is not iterable"))
  }

  /** The exception the entry check raises for one observation-loop entry, if any. */
  function EntryError(entry: Yaml): Option<Error>
  {
    match entry
    case YStr(_) => Some(RuntimeError(IncompleteLoop))
    case YMap(m) =>
      if "LST" !in m then Some(RuntimeError(NoLst))
      else if "target_list" !in m then Some(RuntimeError(NoTargetList))
      else None
    case _ => Some(AttributeError("observation loop entry has no attribute 'keys'"))
  }

  /** The first failing entry's exception, in list order. */
  function FirstEntryError(entries: seq<Yaml>): Option<Error>
  {
    if |entries| == 0 then None
    else if EntryError(entries[0]).Some? then EntryError(entries[0])
    else FirstEntryError(entries[1..])
  }

  /**
   * The exception iterating over the observation loop raises, if any: a string
   * iterates over one-character strings and a mapping over its keys, both of
   * which fail the string check on the first step.
   */
  function LoopError(loop: Yaml): Option<Error>
  {
    match loop
    case YList(items) => FirstEntryError(items)
    case YStr(s) => if |s| > 0 then Some(RuntimeError(IncompleteLoop)) else None
    case YMap(m) => if |m| > 0 then Some(RuntimeError(IncompleteLoop)) else None
    case YArray(vs) => if |vs| > 0 then EntryError(YFloat(vs[0])) else None
    case _ => Some(TypeError("observation loop is not iterable"))
  }

  /** `float(p)` for every part, as `numpy.array(parts, dtype=float)` converts them. */
  function Floats(parts: seq<string>): (r: Result<seq<real>>)
    ensures r.Ok? ==> |r.value| == |parts|
  {
    Each(parts, ToFloat)
  }

  /** `Floats` succeeds exactly when every part parses, each value being its part's. */
  lemma FloatsParse(parts: seq<string>)
    ensures Floats(parts).Ok? ==> forall i :: 0 <= i < |parts| ==> ParseDecimal(parts[i]) == Some(Floats(parts).value[i])
    ensures Floats(parts).Err? <==> exists i :: 0 <= i < |parts| && ParseDecimal(parts[i]).None?
  {
    var r := Each(parts, ToFloat);
    forall i | 0 <= i < |parts|
      ensures ParseDecimal(parts[i]).None? <==> ToFloat(parts[i]).Err?
      ensures r.Ok? ==> ParseDecimal(parts[i]) == Some(r.value[i])
    {
    }
    if r.Err? {
      var j :| 0 <= j < |parts| && ToFloat(parts[j]).Err?;
      assert ParseDecimal(parts[j]).None?;
    }
  }

  /** A comma-separated string turned into a float array. */
  function FloatArray(v: Yaml): Result<Yaml>
  {
    match v
    case YStr(s) =>
      var values :- Floats(Split(s, ','));
      Ok(YArray(values))
    case _ => Err(AttributeError("scan bound has no attribute 'split'"))
  }

  /** The scan section with its `start` and `end` strings turned into float arrays. */
  function WithScanArrays(scan: Yaml): Result<Yaml>
  {
    match scan
    case YMap(m) =>
      var m1 :- if "start" in m then (var a :- FloatArray(m["start"]); Ok(m["start" := a])) else Ok(m);
      var m2 :- if "end" in m1 then (var a :- FloatArray(m1["end"]); Ok(m1["end" := a])) else Ok(m1);
      Ok(YMap(m2))
    case _ => Err(AttributeError("scan has no attribute 'keys'"))
  }

  /** Replace the section `key`, if present, by what `f` makes of it. */
  function Rewrite(data: Plan, key: string, f: Yaml -> Result<Yaml>): (r: Result<Plan>)
    ensures r.Ok? ==> r.value.Keys == data.Keys
    ensures r.Ok? ==> forall k :: k in data && k != key ==> r.value[k] == data[k]
  {
    if key !in data then Ok(data)
    else
      var v :- f(data[key]);
      Ok(data[key := v])
  }

  /** The first rewrite: the instrument section's integration time becomes a dump rate. */
  function AfterInstrument(data: Plan): Result<Plan>
  {
    Rewrite(data, "instrument", WithDumpRate)
  }

  /** The durations checks: a None section is refused, a textual start time is parsed. */
  function AfterDurations(data: Plan): Result<Plan>
  {
    if "durations" in data && data["durations"] == YNull then Err(RuntimeError(DurationsEmpty))
    else Rewrite(data, "durations", WithStartTime)
  }

  /** The observation-loop checks, then the scan section's bounds become float arrays. */
  function AfterLoop(data: Plan): Result<Plan>
  {
    if "observation_loop" !in data then Err(RuntimeError(NothingToObserve))
    else if data["observation_loop"] == YNull then Err(RuntimeError(EmptyLoop))
    else if LoopError(data["observation_loop"]).Some? then Err(LoopError(data["observation_loop"]).value)
    else Rewrite(data, "scan", WithScanArrays)
  }

  /** What `read_yaml` returns for a loaded document, or the exception it raises. */
  function ReadYamlSpec(loaded: Loaded): Result<Plan>
  {
    if !IsMapping(loaded) then Ok(map[])
    else
      var data :- AfterInstrument(DropNulls(loaded.doc.m));
      var data :- AfterDurations(data);
      AfterLoop(data)
  }

  /**
   * `read_yaml` applied to what the loader produced: None-valued keys deleted
   * one by one, the instrument, durations and scan sections rewritten in
   * place, and every observation-loop entry checked in order.
   */
  method ReadYaml(loaded: Loaded) returns (r: Result<Plan>)
    ensures r == ReadYamlSpec(loaded)
  {
    if !IsMapping(loaded) {
      return Ok(map[]);
    }
    var data := DeleteNulls(loaded.doc.m);
    ghost var dropped := data;
    if "instrument" in data {
      var instrument := WithDumpRate(data["instrument"]);
      if instrument.Err? {
        return Err(instrument.error);
      }
      data := data["instrument" := instrument.value];
    }
    assert AfterInstrument(dropped) == Ok(data);
    ghost var instrumented := data;
    if "durations" in data {
      if data["durations"] == YNull {
        return Err(RuntimeError(DurationsEmpty));
      }
      var durations := WithStartTime(data["durations"]);
      if durations.Err? {
        return Err(durations.error);
      }
      data := data["durations" := durations.value];
    }
    assert AfterDurations(instrumented) == Ok(data);
    if "observation_loop" !in data {
      return Err(RuntimeError(NothingToObserve));
    }
    if data["observation_loop"] == YNull {
      return Err(RuntimeError(EmptyLoop));
    }
    var e := CheckLoop(data["observation_loop"]);
    if e.Some? {
      return Err(e.value);
    }
    if "scan" in data {
      var scan := WithScanArrays(data["scan"]);
      if scan.Err? {
        return Err(scan.error);
      }
      data := data["scan" := scan.value];
    }
    return Ok(data);
  }

  /** The loop deleting every key whose value is None. */
  method DeleteNulls(m: map<string, Yaml>) returns (data: map<string, Yaml>)
    ensures data == DropNulls(m)
  {
    data := m;
    var keys := data.Keys;
    while keys != {}
      invariant keys <= m.Keys
      invariant data.Keys <= m.Keys
      invariant forall k :: k in data ==> data[k] == m[k]
      invariant forall k :: k in m && k !in keys ==> (k in data <==> m[k] != YNull)
      invariant forall k :: k in keys ==> k in data
      decreases keys
    {
      var k :| k in keys;
      if data[k] == YNull {
        data := data - {k};
      }
      keys := keys - {k};
    }
  }

  /** The check of every observation-loop entry, in order. */
  method CheckLoop(loop: Yaml) returns (e: Option<Error>)
    ensures e == LoopError(loop)
  {
    if !loop.YList? {
      return LoopError(loop);
    }
    var i := 0;
    while i < |loop.items|
      invariant 0 <= i <= |loop.items|
      invariant FirstEntryError(loop.items) == FirstEntryError(loop.items[i..])
    {
      var entry := EntryError(loop.items[i]);
      if entry.Some? {
        return entry;
      }
      assert loop.items[i..][1..] == loop.items[i + 1..];
      i := i + 1;
    }
    return None;
  }

  /** The sections `read_yaml` may rewrite; every other key keeps its loaded value. */
  predicate Rewritten(k: string) { k == "instrument" || k == "durations" || k == "scan" }

  /** A document that is not a mapping, or did not parse, reads as the empty plan. */
  lemma ReadYamlNotMapping(loaded: Loaded)
    requires !IsMapping(loaded)
    ensures ReadYamlSpec(loaded) == Ok(map[])
  {
  }

  /**
   * None-valued keys are gone before any check, so the "cannot be empty"
   * branches for durations and for the observation loop are never taken.
   */
  lemma NullSectionsUnreachable(loaded: Loaded)
    requires IsMapping(loaded)
    ensures var r1 := AfterInstrument(DropNulls(loaded.doc.m));
      r1.Ok? ==> !("durations" in r1.value && r1.value["durations"] == YNull)
    ensures var r1 := AfterInstrument(DropNulls(loaded.doc.m));
      r1.Ok? && AfterDurations(r1.value).Ok? ==>
        var data2 := AfterDurations(r1.value).value;
        !("observation_loop" in data2 && data2["observation_loop"] == YNull)
  {
    var data0 := DropNulls(loaded.doc.m);
    var r1 := AfterInstrument(data0);
    if r1.Ok? {
      NoNullAfter(data0, r1.value, "durations");
      NoNullAfter(data0, r1.value, "observation_loop");
      var r2 := AfterDurations(r1.value);
      if r2.Ok? {
        NoNullAfterDurations(r1.value, r2.value, "observation_loop");
      }
    }
  }

  /** A section other than the instrument keeps its non-None value through the first rewrite. */
  lemma NoNullAfter(data0: Plan, data1: Plan, key: string)
    requires forall k :: k in data0 ==> data0[k] != YNull
    requires AfterInstrument(data0) == Ok(data1)
    requires key != "instrument"
    ensures key in data1 <==> key in data0
    ensures key in data1 ==> data1[key] == data0[key] && data1[key] != YNull
  {
  }

  lemma NoNullAfterDurations(data1: Plan, data2: Plan, key: string)
    requires AfterDurations(data1) == Ok(data2)
    requires key != "durations"
    requires key in data1 ==> data1[key] != YNull
    ensures key in data2 <==> key in data1
    ensures key in data2 ==> data2[key] == data1[key] && data2[key] != YNull
  {
  }

  /** A plan without a (non-None) observation loop is refused; past the earlier checks, with "Nothing to observe". */
  lemma MissingLoopRefused(loaded: Loaded)
    requires IsMapping(loaded)
    requires "observation_loop" !in loaded.doc.m || loaded.doc.m["observation_loop"] == YNull
    ensures ReadYamlSpec(loaded).Err?
    ensures (var r1 := AfterInstrument(DropNulls(loaded.doc.m)); r1.Ok? && AfterDurations(r1.value).Ok?) ==>
            ReadYamlSpec(loaded) == Err(RuntimeError(NothingToObserve))
  {
    var data0 := DropNulls(loaded.doc.m);
    assert "observation_loop" !in data0;
    var r1 := AfterInstrument(data0);
    if r1.Ok? {
      NoNullAfter(data0, r1.value, "observation_loop");
      var r2 := AfterDurations(r1.value);
      if r2.Ok? {
        NoNullAfterDurations(r1.value, r2.value, "observation_loop");
      }
    }
  }

  /** The stages of a successful read, each succeeding in turn. */
  lemma ReadYamlStages(loaded: Loaded) returns (data1: Plan, data2: Plan)
    requires IsMapping(loaded) && ReadYamlSpec(loaded).Ok?
    ensures AfterInstrument(DropNulls(loaded.doc.m)) == Ok(data1)
    ensures AfterDurations(data1) == Ok(data2)
    ensures AfterLoop(data2) == ReadYamlSpec(loaded)
  {
    data1 := AfterInstrument(DropNulls(loaded.doc.m)).value;
    data2 := AfterDurations(data1).value;
  }

  /**
   * A successful read keeps exactly the keys whose loaded value is not None,
   * and every key other than instrument, durations and scan keeps its value.
   */
  lemma ReadYamlKeys(loaded: Loaded)
    requires IsMapping(loaded) && ReadYamlSpec(loaded).Ok?
    ensures var m := loaded.doc.m; var r := ReadYamlSpec(loaded).value;
      (forall k :: k in r <==> k in m && m[k] != YNull) &&
      (forall k :: k in r && !Rewritten(k) ==> r[k] == m[k])
  {
    var data1, data2 := ReadYamlStages(loaded);
    var data3 := AfterLoop(data2).value;
    assert data3.Keys == data2.Keys;
    assert data2.Keys == data1.Keys;
  }

  /**
   * Every entry of a successfully read observation-loop list is a mapping
   * that names both an LST range and a target list.
   */
  lemma ReadYamlLoopEntries(loaded: Loaded)
    requires IsMapping(loaded) && ReadYamlSpec(loaded).Ok?
    ensures "observation_loop" in ReadYamlSpec(loaded).value
    ensures var loop := ReadYamlSpec(loaded).value["observation_loop"];
      loop.YList? ==> forall i :: 0 <= i < |loop.items| ==>
        loop.items[i].YMap? && "LST" in loop.items[i].m && "target_list" in loop.items[i].m
  {
    var data1, data2 := ReadYamlStages(loaded);
    var loop := data2["observation_loop"];
    assert LoopError(loop).None?;
    assert ReadYamlSpec(loaded).value["observation_loop"] == loop;
    if loop.YList? {
      forall i | 0 <= i < |loop.items|
        ensures loop.items[i].YMap? && "LST" in loop.items[i].m && "target_list" in loop.items[i].m
      {
        NoEntryError(loop.items, i);
      }
    }
  }

  lemma {:induction false} NoEntryError(entries: seq<Yaml>, i: nat)
    requires i < |entries| && FirstEntryError(entries).None?
    ensures EntryError(entries[i]).None?
    decreases i
  {
    if i > 0 {
      NoEntryError(entries[1..], i - 1);
    }
  }

  /** A string entry anywhere in the loop list stops the read with the "Incomplete" RuntimeError or an earlier entry's error. */
  lemma {:induction false} StringEntryFails(entries: seq<Yaml>, i: nat)
    requires i < |entries| && entries[i].YStr?
    ensures FirstEntryError(entries).Some?
    decreases i
  {
    if i > 0 && EntryError(entries[0]).None? {
      StringEntryFails(entries[1..], i - 1);
    }
  }

  /**
   * When the instrument section holds an `integration_time` t that reads as a
   * float, a successful read has t non-zero and `dump_rate` = 1/t in its place.
   */
  lemma ReadYamlDumpRate(loaded: Loaded, t: real)
    requires IsMapping(loaded) && ReadYamlSpec(loaded).Ok?
    requires "instrument" in loaded.doc.m && loaded.doc.m["instrument"].YMap?
    requires var inst := loaded.doc.m["instrument"].m;
      "integration_time" in inst && FloatOf(inst["integration_time"]) == Ok(t)
    ensures t != 0.0
    ensures var inst := loaded.doc.m["instrument"].m; var r := ReadYamlSpec(loaded).value;
      "instrument" in r && r["instrument"].YMap? &&
      r["instrument"].m == inst["dump_rate" := YFloat(1.0 / t)] - {"integration_time"}
  {
    var data1, data2 := ReadYamlStages(loaded);
    assert "instrument" != "durations" && "instrument" != "scan";
    assert data2["instrument"] == data1["instrument"];
  }

  // ---------------------------------------------------------------- get_lst

  /** One end of an LST range: hours, or the text of a start that has no ':'. */
  datatype LstBound = Hours(h: real) | Raw(text: string)

  /** `int(n / 60)` for an integer `n`: division truncated toward zero. */
  function TruncDiv60(n: int): int
  {
    if n >= 0 then n / 60 else -((-n) / 60)
  }

  /** The text `get_lst` goes on to parse: minutes and hours rendered as "HH:MM". */
  function LstText(v: Yaml): Result<string>
  {
    match v
    case YInt(n) =>
      var hh := TruncDiv60(n);
      Ok(IntToString(hh) + ":" + IntToString(n - 60 * hh))
    case YBool(b) => Ok(if b then "0:1" else "0:0")
    case YFloat(f) =>
      var hh := Trunc(f);
      Ok(IntToString(hh) + ":" + IntToString(Trunc(60.0 * (f - hh as real))))
    case YStr(s) => Ok(s)
    case _ => Err(RuntimeError(LstFormatError))
  }

  /** `strptime(t, "%H:%M")` as hours. */
  function ClockHours(t: string): Result<real>
  {
    match HourMinute(t)
    case None => Err(ValueError("time data does not match format '%H:%M'"))
    case Some(hm) => Ok(HoursOf(hm))
  }

  /** The start of a range: hours when it holds ':', else the text as it stands. */
  function StartBound(t: string): Result<LstBound>
  {
    if ':' in t then (var h :- ClockHours(t); Ok(Hours(h))) else Ok(Raw(t))
  }

  /** A range with only a start: it runs to the end of the day. */
  function StartOnly(t: string): Result<(LstBound, real)>
  {
    var start :- StartBound(t);
    if start.Raw? then Err(TypeError("can only concatenate str (not \"float\") to str"))
    else
      var wrapped := FloatMod(start.h + 24.0, 24.0);
      Ok((start, if Abs(wrapped - start.h) < 1.0 then 24.0 else wrapped))
  }

  /** A range "start-end", both ends stripped; an end without ':' is read by `float`. */
  function StartEnd(a: string, b: string): Result<(LstBound, real)>
  {
    var start :- StartBound(Strip(a));
    var endText := Strip(b);
    var end :- if ':' in endText then ClockHours(endText) else ToFloat(endText);
    Ok((start, end))
  }

  /** `get_lst(yaml_lst)`: the start and end of an LST range, in hours. */
  function GetLst(v: Yaml): (r: Result<(LstBound, real)>)
    ensures !(v.YInt? || v.YBool? || v.YFloat? || v.YStr?) ==> r == Err(RuntimeError(LstFormatError))
    ensures v.YStr? && |Split(v.s, '-')| > 2 ==> r == Err(RuntimeError(LstFormatError))
  {
    var text :- LstText(v);
    var parts := Split(text, '-');
    if |parts| > 2 then Err(RuntimeError(LstFormatError))
    else if |parts| < 2 then StartOnly(text)
    else StartEnd(parts[0], parts[1])
  }

  /** `"{}:{}".format(h, m)` for a clock reading. */
  function ClockText(h: nat, m: nat): string
  {
    NatToString(h) + ":" + NatToString(m)
  }

  lemma ShortNumberOf(n: nat, hi: nat)
    requires n <= hi && n < 100
    ensures ShortNumber(NatToString(n), hi) == Some(n)
  {
  }

  /** A clock reading printed as "h:m" is read back by `strptime(..., "%H:%M")`. */
  lemma ClockTextReads(h: nat, m: nat)
    requires h <= 23 && m <= 59
    ensures '-' !in ClockText(h, m) && ':' in ClockText(h, m)
    ensures HourMinute(ClockText(h, m)) == Some((h, m))
    ensures Stripped(ClockText(h, m))
  {
    var a, b := NatToString(h), NatToString(m);
    assert ClockText(h, m) == a + [':'] + b;
    assert ':' !in a && ':' !in b by {
      assert AllDigits(a) && AllDigits(b);
    }
    assert '-' !in a && '-' !in b by {
      assert AllDigits(a) && AllDigits(b);
    }
    SplitAfter(a, ':', b);
    SplitNoSep(b, ':');
    ShortNumberOf(h, 23);
    ShortNumberOf(m, 59);
    assert ClockText(h, m)[|a|] == ':';
    assert IsDigit(a[0]) && IsDigit(b[|b| - 1]);
  }

  /** For a start in [0, 24), wrapping `start + 24` back into the day gives the start itself. */
  lemma WrapDay(x: real)
    requires 0.0 <= x < 24.0
    ensures FloatMod(x + 24.0, 24.0) == x
  {
    var y := (x + 24.0) / 24.0;
    assert 1.0 <= y < 2.0;
    assert y.Floor == 1;
  }

  /** A start-only range that parses always ends at 24 hours. */
  lemma StartOnlyEndsAtMidnight(s: string)
    requires '-' !in s && GetLst(YStr(s)).Ok?
    ensures GetLst(YStr(s)).value.1 == 24.0
    ensures GetLst(YStr(s)).value.0.Hours? && 0.0 <= GetLst(YStr(s)).value.0.h < 24.0
  {
    SplitNoSep(s, '-');
    GetLstOnePart(YStr(s), s);
    StartOnlyDay(s);
  }

  /** A start alone that parses is a clock reading within the day, running to 24 hours. */
  lemma StartOnlyDay(t: string)
    requires StartOnly(t).Ok?
    ensures StartOnly(t).value.1 == 24.0
    ensures StartOnly(t).value.0.Hours? && 0.0 <= StartOnly(t).value.0.h < 24.0
  {
    var hm := HourMinute(t).value;
    WrapDay(HoursOf(hm));
  }

  /** A stripped text without '-' that `strptime(..., "%H:%M")` reads as `hm`. */
  predicate ClockReading(a: string, hm: (nat, nat))
  {
    '-' !in a && ':' in a && Stripped(a) && HourMinute(a) == Some(hm)
  }

  /** Two clock readings such as "h1:m1" and "h2:m2" joined by '-' read as the range between their hours. */
  lemma GetLstRange(a: string, b: string, hm1: (nat, nat), hm2: (nat, nat))
    requires ClockReading(a, hm1) && ClockReading(b, hm2)
    ensures GetLst(YStr(a + "-" + b)) == Ok((Hours(HoursOf(hm1)), HoursOf(hm2)))
  {
    SplitPair(a, '-', b);
    GetLstTwoParts(a + "-" + b, a, b);
    StrippedFixed(a);
    StrippedFixed(b);
    ClockEnd(a, b, Hours(HoursOf(hm1)));
  }

  /** An end with ':' is read as a clock reading. */
  lemma ClockEnd(a: string, x: string, start: LstBound)
    requires StartBound(Strip(a)) == Ok(start) && ':' in Strip(x)
    ensures StartEnd(a, x) == (var e :- ClockHours(Strip(x)); Ok((start, e)))
  {
  }

  /** A clock reading such as "h:m", '-' and an end without ':' read as the clock's hours up to `float` of the end. */
  lemma GetLstDecimalEnd(a: string, x: string, hm: (nat, nat))
    requires ClockReading(a, hm) && '-' !in x && ':' !in Strip(x)
    ensures GetLst(YStr(a + "-" + x)) == (var e :- ToFloat(Strip(x)); Ok((Hours(HoursOf(hm)), e)))
  {
    SplitPair(a, '-', x);
    GetLstTwoParts(a + "-" + x, a, x);
    StrippedFixed(a);
    DecimalEnd(a, x, Hours(HoursOf(hm)));
  }

  /** A text that splits at '-' into two parts is read as the range between them. */
  lemma GetLstTwoParts(s: string, a: string, x: string)
    requires Split(s, '-') == [a, x]
    ensures GetLst(YStr(s)) == StartEnd(a, x)
  {
  }

  /** An end without ':' is read by `float`. */
  lemma DecimalEnd(a: string, x: string, start: LstBound)
    requires StartBound(Strip(a)) == Ok(start) && ':' !in Strip(x)
    ensures StartEnd(a, x) == (var e :- ToFloat(Strip(x)); Ok((start, e)))
  {
  }

  /** Splitting "a-x" where neither side holds the separator gives the two sides. */
  lemma SplitPair(a: string, sep: char, x: string)
    requires sep !in a && sep !in x
    ensures Split(a + [sep] + x, sep) == [a, x]
  {
    SplitAfter(a, sep, x);
    SplitNoSep(x, sep);
  }

  /** An integer n in [0, 1440) is read as n minutes past 0h, up to the end of the day. */
  lemma GetLstMinutes(n: int)
    requires 0 <= n < 1440
    ensures GetLst(YInt(n)) == Ok((Hours(n as real / 60.0), 24.0))
  {
    var h, m := n / 60, n % 60;
    assert TruncDiv60(n) == h && n - 60 * h == m;
    var text := ClockText(h, m);
    assert LstText(YInt(n)) == Ok(text);
    ClockTextReads(h, m);
    SplitNoSep(text, '-');
    GetLstOnePart(YInt(n), text);
    assert HoursOf((h, m)) == n as real / 60.0 by {
      assert n as real == 60.0 * h as real + m as real;
    }
    ClockStartOnly(h, m);
  }

  /** A text with no '-' is read as a range with only a start. */
  lemma GetLstOnePart(v: Yaml, text: string)
    requires LstText(v) == Ok(text) && Split(text, '-') == [text]
    ensures GetLst(v) == StartOnly(text)
  {
  }

  /** A clock reading alone starts at its hours and runs to the end of the day. */
  lemma ClockStartOnly(h: nat, m: nat)
    requires h <= 23 && m <= 59
    ensures StartOnly(ClockText(h, m)) == Ok((Hours(HoursOf((h, m))), 24.0))
  {
    ClockTextReads(h, m);
    assert StartBound(ClockText(h, m)) == Ok(Hours(HoursOf((h, m))));
    WrapDay(HoursOf((h, m)));
  }

  /**
   * A float f in [0, 24) is cut to whole hours and minutes: the parsed start
   * never exceeds f and lies less than a minute before it.
   */
  lemma GetLstHours(f: real)
    requires 0.0 <= f < 24.0
    ensures GetLst(YFloat(f)).Ok?
    ensures var (start, end) := GetLst(YFloat(f)).value;
      start.Hours? && start.h <= f < start.h + 1.0 / 60.0 && end == 24.0
  {
    var h, m := TruncClock(f);
    var text := ClockText(h, m);
    assert LstText(YFloat(f)) == Ok(text);
    ClockTextReads(h, m);
    SplitNoSep(text, '-');
    GetLstOnePart(YFloat(f), text);
    ClockStartOnly(h, m);
  }

  /** The whole hours and minutes `get_lst` cuts a float in [0, 24) into, and their bounds. */
  lemma TruncClock(f: real) returns (h: nat, m: nat)
    requires 0.0 <= f < 24.0
    ensures h == Trunc(f) && m == Trunc(60.0 * (f - h as real))
    ensures h <= 23 && m <= 59
    ensures HoursOf((h, m)) <= f < HoursOf((h, m)) + 1.0 / 60.0
  {
    h := Trunc(f);
    var frac := f - h as real;
    assert 0.0 <= frac < 1.0;
    m := Trunc(60.0 * frac);
    assert m as real <= 60.0 * frac < m as real + 1.0;
  }
}
