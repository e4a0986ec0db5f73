// scripts/astrokat-observe.py: the older observation script. Reading the target
// items of a loop into records, what `observe` asks of the session for one target,
// the LST gate without wrap-around, and the sweeps over the target list with their
// stopping rules. The session and its clock are the oracles of the newer run loop;
// `cadence_target` is the same function as in the newer loop (`ObserveMain.CadenceTarget`).
module LegacyObserve {
  import opened Common
  import opened Text
  import opened Numbers
  import opened Utility
  import Targets
  import opened ObserveMain

  // ---------------------------------------------------------------- read_targets

  const DurationPrefix: string := "duration="
  const TypePrefix: string := "type="
  const CadencePrefix: string := "cadence="
  const NdPrefix: string := "nd="

  /** The comma-separated items of a target item, stripped. */
  function StrippedItems(targetItem: string): (items: seq<string>)
    ensures |items| == |Split(targetItem, ',')|
  {
    var parts := Split(targetItem, ',');
    seq(|parts|, i requires 0 <= i < |parts| => Strip(parts[i]))
  }

  /** The text after `prefix` of the last item starting with it, None when no item does. */
  function Setting(items: seq<string>, prefix: string): Option<string>
  {
    if |items| == 0 then None
    else if StartsWith(items[|items| - 1], prefix) then Some(items[|items| - 1][|prefix|..])
    else Setting(items[..|items| - 1], prefix)
  }

  /** A setting with a default for when no item gives it. */
  function SettingOr(items: seq<string>, prefix: string, default: string): string
  {
    match Setting(items, prefix)
    case Some(v) => v
    case None => default
  }

  /** The item with the prefix that no later item overrides gives the setting. */
  lemma {:induction false} SettingIsLast(items: seq<string>, prefix: string, i: nat)
    requires i < |items| && StartsWith(items[i], prefix)
    requires forall j :: i < j < |items| ==> !StartsWith(items[j], prefix)
    ensures Setting(items, prefix) == Some(items[i][|prefix|..])
    decreases |items|
  {
    var n := |items| - 1;
    if i < n {
      var front := items[..n];
      assert front[i] == items[i];
      assert forall j :: i < j < |front| ==> front[j] == items[j];
      SettingIsLast(front, prefix, i);
    }
  }

  /** No setting is read exactly when no item starts with the prefix. */
  lemma {:induction false} SettingAbsent(items: seq<string>, prefix: string)
    ensures Setting(items, prefix).None? <==> forall j :: 0 <= j < |items| ==> !StartsWith(items[j], prefix)
    decreases |items|
  {
    if |items| > 0 {
      var n := |items| - 1;
      var front := items[..n];
      SettingAbsent(front, prefix);
      assert forall j :: 0 <= j < n ==> front[j] == items[j];
    }
  }

  /** A target item as the loop reads it, before its duration and cadence become floats. */
  datatype RawTarget = RawTarget(
    name: string,
    target: string,
    /** None: the NaN default */
    duration: Option<string>,
    /** None: the default -1 */
    cadence: Option<string>,
    obsType: string,
    noiseDiode: Option<string>)

  /**
   * One target item: katpoint's name and description from `katpoint_target`, the
   * preferred alias as the name, and the settings the items give, later items
   * overriding earlier ones.
   */
  function RawOf(targetItem: string, toRadec: Targets.Converter): Result<RawTarget>
  {
    var kt :- Targets.KatpointTarget(Some(targetItem), "source", "radec", None, None, None, Targets.FEmpty, toRadec);
    var items := StrippedItems(targetItem);
    Ok(RawTarget(Targets.PreferredName(kt.0), kt.1, Setting(items, DurationPrefix), Setting(items, CadencePrefix),
                 SettingOr(items, TypePrefix, "track"), Setting(items, NdPrefix)))
  }

  /** The body of the loop over target items: the settings are read item by item. */
  method ReadItem(targetItem: string, toRadec: Targets.Converter) returns (r: Result<RawTarget>)
    ensures r == RawOf(targetItem, toRadec)
  {
    var kt := Targets.KatpointTarget(Some(targetItem), "source", "radec", None, None, None, Targets.FEmpty, toRadec);
    if kt.Err? {
      return Err(kt.error);
    }
    var items := StrippedItems(targetItem);
    var duration, cadence, obsType, nd := ReadSettings(items);
    return Ok(RawTarget(Targets.PreferredName(kt.value.0), kt.value.1, duration, cadence, obsType, nd));
  }

  /** The loop over the stripped items: each item that starts with a setting's prefix overrides it. */
  method ReadSettings(items: seq<string>) returns (duration: Option<string>, cadence: Option<string>, obsType: string, nd: Option<string>)
    ensures duration == Setting(items, DurationPrefix) && cadence == Setting(items, CadencePrefix)
    ensures obsType == SettingOr(items, TypePrefix, "track") && nd == Setting(items, NdPrefix)
  {
    duration, cadence, obsType, nd := None, None, "track", None;
    for i := 0 to |items|
      invariant duration == Setting(items[..i], DurationPrefix)
      invariant obsType == SettingOr(items[..i], TypePrefix, "track")
      invariant cadence == Setting(items[..i], CadencePrefix)
      invariant nd == Setting(items[..i], NdPrefix)
    {
      var item := items[i];
      SettingSnoc(items, i, DurationPrefix);
      SettingSnoc(items, i, TypePrefix);
      SettingSnoc(items, i, CadencePrefix);
      SettingSnoc(items, i, NdPrefix);
      if StartsWith(item, DurationPrefix) {
        duration := Some(item[|DurationPrefix|..]);
      }
      if StartsWith(item, TypePrefix) {
        obsType := item[|TypePrefix|..];
      }
      if StartsWith(item, CadencePrefix) {
        cadence := Some(item[|CadencePrefix|..]);
      }
      if StartsWith(item, NdPrefix) {
        nd := Some(item[|NdPrefix|..]);
      }
    }
    assert items[..|items|] == items;
  }

  /** One more item read: it overrides the setting when it starts with the prefix. */
  lemma SettingSnoc(items: seq<string>, i: nat, prefix: string)
    requires i < |items|
    ensures Setting(items[..i + 1], prefix) ==
      if StartsWith(items[i], prefix) then Some(items[i][|prefix|..]) else Setting(items[..i], prefix)
  {
    assert items[..i + 1][..i] == items[..i] && items[..i + 1][i] == items[i];
  }

  /** numpy's float conversion of the duration column: NaN (None) when none was given. */
  function DurationOf(raw: RawTarget): Result<Option<real>>
  {
    match raw.duration
    case None => Ok(None)
    case Some(text) => var d :- ToFloat(text); Ok(Some(d))
  }

  /** The float conversion of the cadence column: -1 when none was given. */
  function CadenceOf(raw: RawTarget): Result<real>
  {
    match raw.cadence
    case None => Ok(-1.0)
    case Some(text) => ToFloat(text)
  }

  /** The record of one target, never observed yet. */
  function Row(raw: RawTarget, duration: Option<real>, cadence: real): ObsTarget
  {
    ObsTarget(raw.name, duration, cadence, raw.obsType, raw.noiseDiode, None, 0, false)
  }

  /**
   * `read_targets`: every item is read first; then the duration column and then the
   * cadence column are converted to floats, the first failure raising.
   */
  function TargetsOf(targetItems: seq<string>, toRadec: Targets.Converter): Result<seq<ObsTarget>>
  {
    var raws :- Each(targetItems, (s: string) => RawOf(s, toRadec));
    var durations :- Each(raws, DurationOf);
    var cadences :- Each(raws, CadenceOf);
    Ok(seq(|raws|, i requires 0 <= i < |raws| => Row(raws[i], durations[i], cadences[i])))
  }

  /** `read_targets`, column by column as the script fills the record array. */
  method ReadTargets(targetItems: seq<string>, toRadec: Targets.Converter) returns (r: Result<seq<ObsTarget>>)
    ensures r == TargetsOf(targetItems, toRadec)
  {
    var raws := ReadRaws(targetItems, toRadec);
    if raws.Err? {
      return Err(raws.error);
    }
    var durations := ConvertColumn(raws.value, DurationOf);
    if durations.Err? {
      return Err(durations.error);
    }
    var cadences := ConvertColumn(raws.value, CadenceOf);
    if cadences.Err? {
      return Err(cadences.error);
    }
    var rs, ds, cs := raws.value, durations.value, cadences.value;
    return Ok(seq(|rs|, i requires 0 <= i < |rs| => Row(rs[i], ds[i], cs[i])));
  }

  /** The loop over the target items: each is read in turn, the first failure raising. */
  method ReadRaws(targetItems: seq<string>, toRadec: Targets.Converter) returns (r: Result<seq<RawTarget>>)
    ensures r == Each(targetItems, (s: string) => RawOf(s, toRadec))
  {
    var read := (s: string) => RawOf(s, toRadec);
    var raws: seq<RawTarget> := [];
    for i := 0 to |targetItems|
      invariant Each(targetItems[..i], read) == Ok(raws)
    {
      var raw := ReadItem(targetItems[i], toRadec);
      if raw.Err? {
        EachFails(targetItems, i, read);
        return Err(raw.error);
      }
      EachSnoc(targetItems, i, read);
      raws := raws + [raw.value];
    }
    assert targetItems[..|targetItems|] == targetItems;
    return Ok(raws);
  }

  /** The conversion of one column of the records, row by row, the first failure raising. */
  method ConvertColumn<T, U>(rows: seq<T>, convert: T -> Result<U>) returns (r: Result<seq<U>>)
    ensures r == Each(rows, convert)
  {
    var column: seq<U> := [];
    for i := 0 to |rows|
      invariant Each(rows[..i], convert) == Ok(column)
    {
      var v := convert(rows[i]);
      if v.Err? {
        EachFails(rows, i, convert);
        return Err(v.error);
      }
      EachSnoc(rows, i, convert);
      column := column + [v.value];
    }
    assert rows[..|rows|] == rows;
    return Ok(column);
  }

  /**
   * Each record read carries the preferred name and the settings of its item: a
   * NaN duration, cadence -1, a track and no noise-diode setting unless an item
   * sets them; it was never observed and its count is 0.
   */
  lemma TargetFields(targetItems: seq<string>, toRadec: Targets.Converter, k: nat)
    requires TargetsOf(targetItems, toRadec).Ok? && k < |targetItems|
    ensures |TargetsOf(targetItems, toRadec).value| == |targetItems|
    ensures var t := TargetsOf(targetItems, toRadec).value[k];
      var items := StrippedItems(targetItems[k]);
      RawOf(targetItems[k], toRadec).Ok? &&
      t.name == RawOf(targetItems[k], toRadec).value.name &&
      t.lastObserved.None? && t.obsCount == 0 &&
      (Setting(items, DurationPrefix).None? <==> t.duration.None?) &&
      (Setting(items, DurationPrefix).Some? ==> ToFloat(Setting(items, DurationPrefix).value) == Ok(t.duration.value)) &&
      (Setting(items, CadencePrefix).None? ==> t.cadence == -1.0) &&
      (Setting(items, CadencePrefix).Some? ==> ToFloat(Setting(items, CadencePrefix).value) == Ok(t.cadence)) &&
      t.obsType == SettingOr(items, TypePrefix, "track") &&
      t.noiseDiode == Setting(items, NdPrefix)
  {
    var read := (s: string) => RawOf(s, toRadec);
    var raws := Each(targetItems, read).value;
    assert read(targetItems[k]) == Ok(raws[k]);
    var durations := Each(raws, DurationOf).value;
    assert DurationOf(raws[k]) == Ok(durations[k]);
    var cadences := Each(raws, CadenceOf).value;
    assert CadenceOf(raws[k]) == Ok(cadences[k]);
  }

  // ---------------------------------------------------------------- observe

  /** What `observe` asks of the session and the noise diode, in order. */
  datatype Call =
    | NdOff
    | NdTrigger(period: real)
    | NdPattern(setup: Yaml)
    | Label(text: string)
    | Track(duration: Option<real>)
    /** `session.raster_scan` or `session.scan`, with the plan's settings for the obs_type if any */
    | Scan(raster: bool, settings: Option<Yaml>)

  /** A slew-only visit, or the calls before the observation, the observation and the calls after it. */
  datatype Visit =
    | Slew
    | Visit(before: seq<Call>, main: Call, after: seq<Call>)

  /** The duration `observe` uses: the keyword argument when given, else the target's. */
  function DurationArg(t: ObsTarget, kwargs: Plan): Result<Option<real>>
  {
    if "duration" !in kwargs then Ok(t.duration)
    else
      match NumberOf(kwargs["duration"])
      case Some(d) => Ok(Some(d))
      case None => Err(TypeError("duration must be a number"))
  }

  /**
   * The noise-diode calls before the observation and the pattern to restore after:
   * "off" switches the diode off, remembering the plan's pattern; any other setting
   * is a trigger period read by `float`.
   */
  function NdCalls(nd: Option<string>, kwargs: Plan): Result<(seq<Call>, Option<Yaml>)>
  {
    match nd
    case None => Ok(([], None))
    case Some(s) =>
      if Contains(s, "off") then
        var restore := if "noise_diode" in kwargs && kwargs["noise_diode"] != YNull then Some(kwargs["noise_diode"]) else None;
        Ok(([NdOff], restore))
      else
        var period :- ToFloat(s);
        Ok(([NdTrigger(period)], None))
  }

  /**
   * `observe` on one target with keyword arguments `kwargs`: a negative duration only
   * slews; otherwise the noise diode is set up, a type naming a scan is scanned
   * (a raster scan when it names one) and anything else tracked, and a pattern
   * switched off for the target is restored.
   */
  function VisitOf(t: ObsTarget, kwargs: Plan): (r: Result<Visit>)
    ensures r.Ok? && r.value.Visit? ==> (r.value.main.Scan? <==> Contains(t.obsType, "scan"))
    ensures r.Ok? && r.value.Visit? && r.value.main.Track? ==> DurationArg(t, kwargs) == Ok(r.value.main.duration)
  {
    RasterNamesScan(t.obsType);
    var duration :- DurationArg(t, kwargs);
    if duration.Some? && duration.value < 0.0 then Ok(Slew)
    else
      var nd :- NdCalls(t.noiseDiode, kwargs);
      var after := if nd.1.Some? then [NdPattern(nd.1.value)] else [];
      if Contains(t.obsType, "raster_scan") || Contains(t.obsType, "scan") then
        var settings := if t.obsType in kwargs then Some(kwargs[t.obsType]) else None;
        Ok(Visit(nd.0 + [Label(Strip(t.obsType))], Scan(Contains(t.obsType, "raster_scan"), settings), after))
      else
        Ok(Visit(nd.0 + [Label("track")], Track(duration), after))
  }

  /** "raster_scan" names a scan. */
  lemma RasterNamesScan(obsType: string)
    ensures Contains(obsType, "raster_scan") ==> Contains(obsType, "scan")
  {
    if Contains(obsType, "raster_scan") {
      assert "raster_scan"[7..11] == "scan";
      ContainsPiece(obsType, "raster_scan", 7, 11);
    }
  }

  /** The slew to the first target, with duration=-1, only slews. */
  lemma FirstTargetSlews(t: ObsTarget)
    ensures VisitOf(t, map["duration" := YInt(-1)]) == Ok(Slew)
  {
  }

  /**
   * A target that switches the diode off is observed after an "off" and, when the
   * plan sets a pattern, before the restoring of that pattern.
   */
  lemma VisitSwitchesOff(t: ObsTarget, kwargs: Plan)
    requires VisitOf(t, kwargs).Ok? && VisitOf(t, kwargs).value.Visit?
    requires t.noiseDiode.Some? && Contains(t.noiseDiode.value, "off")
    ensures VisitOf(t, kwargs).value.before[0] == NdOff
    ensures VisitOf(t, kwargs).value.after ==
      if "noise_diode" in kwargs && kwargs["noise_diode"] != YNull then [NdPattern(kwargs["noise_diode"])] else []
  {
    VisitNd(t, kwargs);
    var nd := NdCalls(t.noiseDiode, kwargs);
    assert nd.Ok? && nd.value.0 == [NdOff];
  }

  /** Any other diode setting is a period: the diode is triggered at it first, and nothing is restored. */
  lemma VisitTriggers(t: ObsTarget, kwargs: Plan)
    requires VisitOf(t, kwargs).Ok? && VisitOf(t, kwargs).value.Visit?
    requires t.noiseDiode.Some? && !Contains(t.noiseDiode.value, "off")
    ensures ToFloat(t.noiseDiode.value).Ok?
    ensures VisitOf(t, kwargs).value.before[0] == NdTrigger(ToFloat(t.noiseDiode.value).value)
    ensures VisitOf(t, kwargs).value.after == []
  {
    VisitNd(t, kwargs);
    var nd := NdCalls(t.noiseDiode, kwargs);
    assert nd.Ok? && nd.value == ([NdTrigger(ToFloat(t.noiseDiode.value).value)], None);
  }

  /** A visit starts with the noise-diode calls and ends by restoring the pattern they switched off. */
  lemma VisitNd(t: ObsTarget, kwargs: Plan)
    requires VisitOf(t, kwargs).Ok? && VisitOf(t, kwargs).value.Visit?
    ensures var nd := NdCalls(t.noiseDiode, kwargs); var v := VisitOf(t, kwargs).value;
      && nd.Ok? && |v.before| == |nd.value.0| + 1 && v.before[..|nd.value.0|] == nd.value.0
      && v.after == if nd.value.1.Some? then [NdPattern(nd.value.1.value)] else []
  {
  }

  /**
   * A drift scan never reaches the script's drift-scan branch: its type names a
   * scan, so it is scanned like every other scan.
   */
  lemma DriftScanIsScanned(t: ObsTarget, kwargs: Plan)
    requires Contains(t.obsType, "drift_scan") && VisitOf(t, kwargs).Ok? && VisitOf(t, kwargs).value.Visit?
    ensures VisitOf(t, kwargs).value.main.Scan?
    ensures VisitOf(t, kwargs).value.main.settings == if t.obsType in kwargs then Some(kwargs[t.obsType]) else None
  {
    assert "drift_scan"[6..10] == "scan";
    ContainsPiece(t.obsType, "drift_scan", 6, 10);
  }

  /** A visit with a negative duration argument. */
  predicate Slews(t: ObsTarget, kwargs: Plan)
  {
    var duration := DurationArg(t, kwargs);
    duration.Ok? && duration.value.Some? && duration.value.value < 0.0
  }

  /** The visits that only slew are the ones with a negative duration argument. */
  lemma SlewsIff(t: ObsTarget, kwargs: Plan)
    ensures Slews(t, kwargs) <==> VisitOf(t, kwargs) == Ok(Slew)
  {
  }

  /**
   * `observe` on record `i` at run time: the session answers and takes its time;
   * unless it only slewed, the count goes up on success and the record is stamped
   * with the session time either way.
   */
  function Visited(o: Oracles, kwargs: Plan, s: RunState, i: nat): (r: Seen)
    requires i < |s.targets|
    ensures Progressed(s.targets, r.state.targets) && r.state.clock >= s.clock
    ensures forall j :: 0 <= j < |s.targets| && j != i ==> r.state.targets[j] == s.targets[j]
    ensures r.seen == o.observed(s.targets[i], s.clock)
    ensures Slews(s.targets[i], kwargs) ==> r.state.targets == s.targets
    ensures !Slews(s.targets[i], kwargs) ==>
      r.state.targets[i].lastObserved == Some(r.state.clock) &&
      r.state.targets[i].obsCount == s.targets[i].obsCount + (if r.seen then 1 else 0)
  {
    var after := Observed(o, s, i);
    if Slews(s.targets[i], kwargs) then after
    else Seen(RunState(s.targets[i := Stamp(s.targets[i], after.state.clock, after.seen)], after.state.clock), after.seen)
  }

  /** A record after a visit that ended at `clock`: stamped, and counted when `ok`. */
  function Stamp(t: ObsTarget, clock: real, ok: bool): ObsTarget
  {
    ObsTarget(t.name, t.duration, t.cadence, t.obsType, t.noiseDiode, Some(clock), t.obsCount + (if ok then 1 else 0), t.fixedBody)
  }

  // ---------------------------------------------------------------- the LST gate

  /** The script's gate: too early before the start, outside the range after the end; no wrap past midnight. */
  predicate Gate(start: real, end: real, lst: real)
  {
    !(lst < start) && !(lst > end)
  }

  /** A loop is observed exactly inside [start, end], so a range across midnight is never observed. */
  lemma GateNoWrap(start: real, end: real, lst: real)
    ensures Gate(start, end, lst) <==> start <= lst <= end
    ensures end < start ==> !Gate(start, end, lst)
  {
  }

  // ---------------------------------------------------------------- run_observation

  /** As written: obs_duration is read only when the plan also has it at the top level. */
  function ObsDurationAsWritten(plan: Plan): (r: Result<real>)
    ensures !("durations" in plan && "obs_duration" in plan) ==> r == Ok(-1.0)
  {
    if "durations" in plan && "obs_duration" in plan then
      if !plan["durations"].YMap? then Err(TypeError("indices must be integers"))
      else if "obs_duration" !in plan["durations"].m then Err(KeyError("obs_duration"))
      else
        match NumberOf(plan["durations"].m["obs_duration"])
        case Some(d) => Ok(d)
        case None => Err(TypeError("'>' not supported"))
    else Ok(-1.0)
  }

  /**
   * A duration given, as documented, under `durations` is ignored: the script
   * sweeps once, where the newer loop reads it.
   */
  lemma NestedDurationIgnored()
    ensures var plan := map["durations" := YMap(map["obs_duration" := YInt(3600)])];
      ObsDurationAsWritten(plan) == Ok(-1.0) && ObsDuration(plan) == Ok(3600.0)
  {
    var plan := map["durations" := YMap(map["obs_duration" := YInt(3600)])];
    assert PyIn(YStr("obs_duration"), plan["durations"]) == Ok(true);
  }

  /** What happens to one observation loop. */
  datatype LoopPlan =
    | NoTargetList
    | OutOfRange
    /** the loop is observed over these records until the end LST */
    | Observes(targets: seq<ObsTarget>, endLst: real)

  /** The target items of a loop: a list of strings. */
  function TargetItems(v: Yaml): Result<seq<string>>
  {
    if !v.YList? then Err(TypeError("target_list is not a list of strings"))
    else if exists i :: 0 <= i < |v.items| && !v.items[i].YStr? then Err(TypeError("target_list is not a list of strings"))
    else Ok(seq(|v.items|, i requires 0 <= i < |v.items| => v.items[i].s))
  }

  /**
   * One loop of the script: skipped without a target list; its targets are read;
   * it is observed only inside its LST range; outside a dry run no target up, or
   * with `all_up` any target down, raises; the first target must exist for the slew.
   */
  function LoopPlanOf(loop: Yaml, k: nat, sky: Sky, dryRun: bool, allUp: bool, toRadec: Targets.Converter): (r: Result<LoopPlan>)
    ensures loop.YMap? && "target_list" !in loop.m ==> r == Ok(NoTargetList)
    ensures r.Ok? && r.value.Observes? ==> |r.value.targets| > 0
    ensures r.Ok? && r.value.Observes? && !dryRun ==> sky.visibleCount(k) > 0
    ensures r.Ok? && r.value.Observes? && !dryRun && allUp ==> sky.visibleCount(k) == sky.catalogueSize(k)
  {
    if !loop.YMap? then Err(AttributeError("object has no attribute 'keys'"))
    else if "target_list" !in loop.m then Ok(NoTargetList)
    else
      var items :- TargetItems(loop.m["target_list"]);
      var targets :- TargetsOf(items, toRadec);
      if "LST" !in loop.m then Err(KeyError("LST"))
      else
        var range :- LstHours(loop.m["LST"]);
        if !Gate(range.0, range.1, sky.localLst(k)) then Ok(OutOfRange)
        else if !dryRun && sky.visibleCount(k) == 0 then
          Err(NoTargetsUpError("No targets are currently visible - please re-run the script later"))
        else if !dryRun && allUp && sky.visibleCount(k) != sky.catalogueSize(k) then
          Err(NotAllTargetsUpError("Not all targets are currently visible - please re-run the script with --visibility for information"))
        else if |targets| == 0 then Err(IndexError("index 0 is out of bounds"))
        else Ok(Observes(targets, range.1))
  }

  /** A loop with targets and a readable LST range is observed only when the local LST passes the gate. */
  lemma LoopPlanGated(loop: Yaml, k: nat, sky: Sky, dryRun: bool, allUp: bool, toRadec: Targets.Converter)
    requires LoopPlanOf(loop, k, sky, dryRun, allUp, toRadec).Ok? && LoopPlanOf(loop, k, sky, dryRun, allUp, toRadec).value.Observes?
    ensures loop.YMap? && "LST" in loop.m && LstHours(loop.m["LST"]).Ok?
    ensures Gate(LstHours(loop.m["LST"]).value.0, LstHours(loop.m["LST"]).value.1, sky.localLst(k))
    ensures LoopPlanOf(loop, k, sky, dryRun, allUp, toRadec).value.endLst == LstHours(loop.m["LST"]).value.1
  {
  }

  /**
   * `run_observation` before the sessions: the duration of the sweeps (read only
   * when obs_duration is also a top-level key) and each loop's plan, in order,
   * the first error raising.
   */
  method RunObservation(plan: Plan, sky: Sky, dryRun: bool, allUp: bool, toRadec: Targets.Converter)
    returns (r: Result<(real, seq<LoopPlan>)>)
    requires "observation_loop" in plan && plan["observation_loop"].YList?
    ensures ObsDurationAsWritten(plan).Err? ==> r == Err(ObsDurationAsWritten(plan).error)
    ensures ObsDurationAsWritten(plan).Ok? ==>
      var loops := plan["observation_loop"].items;
      var step := (k: nat) => if k < |loops| then LoopPlanOf(loops[k], k, sky, dryRun, allUp, toRadec) else Ok(NoTargetList);
      match Each(Indices(|loops|), step)
      case Err(e) => r == Err(e)
      case Ok(plans) => r == Ok((ObsDurationAsWritten(plan).value, plans))
  {
    var d :- ObsDurationAsWritten(plan);
    var loops := plan["observation_loop"].items;
    var step := (k: nat) => if k < |loops| then LoopPlanOf(loops[k], k, sky, dryRun, allUp, toRadec) else Ok(NoTargetList);
    var ks := Indices(|loops|);
    var plans: seq<LoopPlan> := [];
    for i := 0 to |ks|
      invariant Each(ks[..i], step) == Ok(plans)
    {
      var s := step(ks[i]);
      if s.Err? {
        EachFails(ks, i, step);
        return Err(s.error);
      }
      EachSnoc(ks, i, step);
      plans := plans + [s.value];
    }
    assert ks[..|ks|] == ks;
    return Ok((d, plans));
  }

  // ---------------------------------------------------------------- the sweeps

  /**
   * The cadence loop before each target: the first due target is visited, and the
   * sweep counts as visible once any visit succeeds; it stops when nothing is due
   * or after one round more than there are targets.
   */
  function CadenceRound(o: Oracles, kwargs: Plan, s: RunState, cntr: nat, visible: bool): (r: Seen)
    requires cntr <= |s.targets|
    ensures |r.state.targets| == |s.targets|
    decreases |s.targets| + 1 - cntr
  {
    match FirstDue(s.targets, s.clock)
    case None => Seen(s, visible)
    case Some(i) =>
      var after := Visited(o, kwargs, s, i);
      if cntr + 1 > |s.targets| then Seen(after.state, visible || after.seen)
      else CadenceRound(o, kwargs, after.state, cntr + 1, visible || after.seen)
  }

  /** The cadence loop with no cadence target due. */
  lemma CadenceRoundStops(o: Oracles, kwargs: Plan, s: RunState, cntr: nat, visible: bool)
    requires cntr <= |s.targets| && FirstDue(s.targets, s.clock).None?
    ensures CadenceRound(o, kwargs, s, cntr, visible) == Seen(s, visible)
  {
  }

  /** The cadence loop after visiting the due target `i`. */
  lemma CadenceRoundStep(o: Oracles, kwargs: Plan, s: RunState, cntr: nat, visible: bool, i: nat, after: Seen)
    requires cntr <= |s.targets| && FirstDue(s.targets, s.clock) == Some(i) && after == Visited(o, kwargs, s, i)
    ensures |after.state.targets| == |s.targets|
    ensures CadenceRound(o, kwargs, s, cntr, visible) ==
      if cntr + 1 > |s.targets| then Seen(after.state, visible || after.seen)
      else CadenceRound(o, kwargs, after.state, cntr + 1, visible || after.seen)
  {
  }

  /** The visit of a due target changes no record without a cadence. */
  lemma VisitedDueMoves(o: Oracles, kwargs: Plan, s: RunState, i: nat)
    requires i < |s.targets| && Due(s.targets[i], s.clock)
    ensures RoundMoves(s, Visited(o, kwargs, s, i).state)
  {
  }

  /**
   * The cadence loop only visits cadence targets: records without a cadence are
   * untouched, no count goes down and the clock never runs back.
   */
  lemma {:induction false} CadenceRoundMoves(o: Oracles, kwargs: Plan, s: RunState, cntr: nat, visible: bool)
    requires cntr <= |s.targets|
    ensures RoundMoves(s, CadenceRound(o, kwargs, s, cntr, visible).state)
    decreases |s.targets| + 1 - cntr
  {
    var due := FirstDue(s.targets, s.clock);
    if due.None? {
      CadenceRoundStops(o, kwargs, s, cntr, visible);
      StopMoves(s, CadenceRound(o, kwargs, s, cntr, visible));
    } else {
      var after := Visited(o, kwargs, s, due.value);
      if cntr + 1 <= |s.targets| {
        CadenceRoundMoves(o, kwargs, after.state, cntr + 1, visible || after.seen);
      }
      DueThenMoves(o, kwargs, s, cntr, visible, due.value, after);
    }
  }

  /** A cadence loop that stops where it started moves nothing. */
  lemma StopMoves(s: RunState, r: Seen)
    requires r.state == s
    ensures RoundMoves(s, r.state)
  {
    RoundMovesRefl(s);
  }

  /** One visit of a due target, then a cadence loop that moves, is a move. */
  lemma DueThenMoves(o: Oracles, kwargs: Plan, s: RunState, cntr: nat, visible: bool, i: nat, after: Seen)
    requires cntr <= |s.targets| && FirstDue(s.targets, s.clock) == Some(i) && after == Visited(o, kwargs, s, i)
    requires cntr + 1 <= |s.targets| ==>
      RoundMoves(after.state, CadenceRound(o, kwargs, after.state, cntr + 1, visible || after.seen).state)
    ensures RoundMoves(s, CadenceRound(o, kwargs, s, cntr, visible).state)
  {
    CadenceRoundStep(o, kwargs, s, cntr, visible, i, after);
    VisitedDueMoves(o, kwargs, s, i);
    if cntr + 1 <= |s.targets| {
      RoundMovesTrans(s, after.state, CadenceRound(o, kwargs, after.state, cntr + 1, visible || after.seen).state);
    }
  }

  /** Once the sweep is visible it stays visible through the cadence loop. */
  lemma {:induction false} CadenceRoundVisible(o: Oracles, kwargs: Plan, s: RunState, cntr: nat)
    requires cntr <= |s.targets|
    ensures CadenceRound(o, kwargs, s, cntr, true).seen
    decreases |s.targets| + 1 - cntr
  {
    var due := FirstDue(s.targets, s.clock);
    if due.Some? {
      var after := Visited(o, kwargs, s, due.value);
      CadenceRoundStep(o, kwargs, s, cntr, true, due.value, after);
      if cntr + 1 <= |s.targets| {
        CadenceRoundVisible(o, kwargs, after.state, cntr + 1);
      }
    }
  }

  /** `obs_duration - elapsed < duration` with a NaN duration comparing false. */
  predicate TimeUp(tm: Timing, clock: real, duration: Option<real>)
  {
    tm.obsDuration > 0.0 &&
    (clock - tm.startTime >= tm.obsDuration || LessThan(tm.obsDuration - (clock - tm.startTime), duration))
  }

  /**
   * The sweep from target `t` on: the cadence loop, then a target without a cadence
   * is visited and its answer becomes the sweep's visibility; with a duration the
   * sweep ends once the time is used up or less remains than this target's duration.
   */
  function PassFrom(o: Oracles, kwargs: Plan, tm: Timing, s: RunState, t: nat, visible: bool): (r: SweepEnd)
    requires t <= |s.targets|
    ensures Progressed(s.targets, r.state.targets) && r.state.clock >= s.clock
    ensures r.done ==> tm.obsDuration > 0.0
    decreases |s.targets| - t
  {
    if t == |s.targets| then SweepEnd(s, visible, false)
    else
      var round := CadenceRound(o, kwargs, s, 0, visible);
      CadenceRoundMoves(o, kwargs, s, 0, visible);
      var after := if round.state.targets[t].cadence < 0.0 then Visited(o, kwargs, round.state, t) else round;
      ProgressedTrans(s.targets, round.state.targets, after.state.targets);
      if TimeUp(tm, after.state.clock, after.state.targets[t].duration) then SweepEnd(after.state, after.seen, true)
      else
        var rest := PassFrom(o, kwargs, tm, after.state, t + 1, after.seen);
        ProgressedTrans(s.targets, after.state.targets, rest.state.targets);
        rest
  }

  /** The sweep at target `t`, given the cadence loop before it and the visit of `t` itself. */
  lemma PassFromStep(o: Oracles, kwargs: Plan, tm: Timing, s: RunState, t: nat, visible: bool, round: Seen, after: Seen)
    requires t < |s.targets| && round == CadenceRound(o, kwargs, s, 0, visible)
    requires after == if round.state.targets[t].cadence < 0.0 then Visited(o, kwargs, round.state, t) else round
    ensures |after.state.targets| == |s.targets|
    ensures PassFrom(o, kwargs, tm, s, t, visible) ==
      if TimeUp(tm, after.state.clock, after.state.targets[t].duration) then SweepEnd(after.state, after.seen, true)
      else PassFrom(o, kwargs, tm, after.state, t + 1, after.seen)
  {
  }

  /** The sweep past the last target. */
  lemma PassFromEnd(o: Oracles, kwargs: Plan, tm: Timing, s: RunState, visible: bool)
    ensures PassFrom(o, kwargs, tm, s, |s.targets|, visible) == SweepEnd(s, visible, false)
  {
  }

  /** Once the time is used up, the sweep ends after the next target. */
  lemma LateSweepEnds(o: Oracles, kwargs: Plan, tm: Timing, s: RunState, t: nat, visible: bool)
    requires t < |s.targets| && tm.obsDuration > 0.0 && s.clock - tm.startTime >= tm.obsDuration
    ensures PassFrom(o, kwargs, tm, s, t, visible).done
  {
    CadenceRoundMoves(o, kwargs, s, 0, visible);
  }

  /**
   * The visit of a target without a cadence overwrites the sweep's visibility: when
   * the last target has none and no duration is set, the sweep is visible exactly
   * when that visit succeeded, whatever the cadence targets before it did.
   */
  lemma LastPlainDecides(o: Oracles, kwargs: Plan, tm: Timing, s: RunState, t: nat, visible: bool)
    requires t + 1 == |s.targets| && tm.obsDuration <= 0.0
    requires CadenceRound(o, kwargs, s, 0, visible).state.targets[t].cadence < 0.0
    ensures var round := CadenceRound(o, kwargs, s, 0, visible);
      PassFrom(o, kwargs, tm, s, t, visible).visible == o.observed(round.state.targets[t], round.state.clock)
  {
    CadenceRoundMoves(o, kwargs, s, 0, visible);
  }

  /** A sweep is the last: time ran out, one sweep was asked for, nothing was visible, or the LST passed the end. */
  predicate Ends(o: Oracles, tm: Timing, endLst: real, sw: SweepEnd)
  {
    sw.done || tm.obsDuration < 0.0 || !sw.visible || o.lstAt(sw.state.clock) > endLst
  }

  /** The sweeps of a loop after `made` of them, until one is the last or `fuel` sweeps were made. */
  function PassesFrom(o: Oracles, kwargs: Plan, tm: Timing, endLst: real, s: RunState, made: nat, fuel: nat): (r: SweepsEnd)
    requires made <= fuel
    ensures made < r.sweeps <= fuel + 1
    ensures Progressed(s.targets, r.state.targets) && r.state.clock >= s.clock
    ensures Ends(o, tm, endLst, PassFrom(o, kwargs, tm, s, 0, false)) ==> r.sweeps == made + 1
    decreases fuel - made
  {
    var sw := PassFrom(o, kwargs, tm, s, 0, false);
    if Ends(o, tm, endLst, sw) || made == fuel then SweepsEnd(sw.state, made + 1)
    else
      var rest := PassesFrom(o, kwargs, tm, endLst, sw.state, made + 1, fuel);
      ProgressedTrans(s.targets, sw.state.targets, rest.state.targets);
      rest
  }

  /** Without an obs_duration the target list is swept once. */
  lemma SingleSweep(o: Oracles, kwargs: Plan, tm: Timing, endLst: real, s: RunState, fuel: nat)
    requires tm.obsDuration < 0.0
    ensures PassesFrom(o, kwargs, tm, endLst, s, 0, fuel).sweeps == 1
  {
  }

  /** Once the time is used up, the next sweep is the last. */
  lemma LateSweepIsLast(o: Oracles, kwargs: Plan, tm: Timing, endLst: real, s: RunState, fuel: nat)
    requires |s.targets| > 0 && tm.obsDuration > 0.0 && s.clock - tm.startTime >= tm.obsDuration
    ensures PassesFrom(o, kwargs, tm, endLst, s, 0, fuel).sweeps == 1
  {
    LateSweepEnds(o, kwargs, tm, s, 0, false);
  }

  /** A sweep after which the LST is past the end of the range is the last. */
  lemma PastEndStops(o: Oracles, kwargs: Plan, tm: Timing, endLst: real, s: RunState, fuel: nat)
    requires o.lstAt(PassFrom(o, kwargs, tm, s, 0, false).state.clock) > endLst
    ensures PassesFrom(o, kwargs, tm, endLst, s, 0, fuel).sweeps == 1
  {
  }

  /**
   * One observation loop of the script at run time: the records `observe` updates
   * in place, the session clock, the loop's timing and the plan passed to `observe`.
   */
  class LoopRun {
    var targets: seq<ObsTarget>
    var clock: real
    const timing: Timing
    const oracles: Oracles
    const kwargs: Plan

    constructor (targets: seq<ObsTarget>, timing: Timing, oracles: Oracles, kwargs: Plan)
      ensures this.targets == targets && clock == timing.startTime
      ensures this.timing == timing && this.oracles == oracles && this.kwargs == kwargs
    {
      this.targets := targets;
      this.clock := timing.startTime;
      this.timing := timing;
      this.oracles := oracles;
      this.kwargs := kwargs;
    }

    /** The records and the clock. */
    function State(): RunState
      reads this
    {
      RunState(targets, clock)
    }

    /** `observe(..., duration=-1)` on the first record before the sweeps: a slew only, so the clock moves by the slew. */
    method SlewToFirst() returns (err: Option<Error>)
      modifies this
      ensures var r := SlewedFirst(oracles, old(State()));
        (r.Ok? ==> err.None? && State() == r.value) && (r.Err? ==> err == Some(r.error) && State() == old(State()))
    {
      if |targets| == 0 {
        return Some(IndexError("list index out of range"));
      }
      clock := clock + oracles.slew(targets[0], clock);
      err := None;
    }

    /** `observe` on record `i`, updating it in place. */
    method Visit(i: nat) returns (ok: bool)
      requires i < |targets|
      modifies this
      ensures Seen(State(), ok) == Visited(oracles, kwargs, old(State()), i)
    {
      ghost var s0 := State();
      var t := targets[i];
      var slews := Slews(t, kwargs);
      ok := oracles.observed(t, clock);
      clock := clock + oracles.takes(t, clock);
      ghost var after := Observed(oracles, s0, i);
      assert after == Seen(State(), ok);
      if !slews {
        targets := targets[i := Stamp(t, clock, ok)];
      }
      assert Visited(oracles, kwargs, s0, i) == if slews then after
        else Seen(RunState(s0.targets[i := Stamp(t, after.state.clock, after.seen)], after.state.clock), after.seen);
    }

    /** The cadence loop before a target, with `visibleIn` seen so far in the sweep. */
    method Round(visibleIn: bool) returns (visible: bool)
      modifies this
      ensures Seen(State(), visible) == CadenceRound(oracles, kwargs, old(State()), 0, visibleIn)
    {
      var n := |targets|;
      var cntr := 0;
      ghost var goal := CadenceRound(oracles, kwargs, State(), 0, visibleIn);
      visible := visibleIn;
      while true
        invariant |targets| == n && cntr <= n
        invariant goal == CadenceRound(oracles, kwargs, State(), cntr, visible)
        decreases n + 1 - cntr
      {
        var due := CadenceTarget(targets, clock);
        ghost var s0, v0 := State(), visible;
        if due.None? {
          CadenceRoundStops(oracles, kwargs, s0, cntr, v0);
          return;
        }
        var ok := Visit(due.value);
        CadenceRoundStep(oracles, kwargs, s0, cntr, v0, due.value, Seen(State(), ok));
        visible := visible || ok;
        if cntr + 1 > n {
          return;
        }
        cntr := cntr + 1;
      }
    }

    /** Target `t` of a sweep: the cadence loop, then the target itself when it has no cadence. */
    method Pass(t: nat, visibleIn: bool) returns (visible: bool, done: bool)
      requires t < |targets|
      modifies this
      ensures |targets| == |old(targets)|
      ensures PassFrom(oracles, kwargs, timing, old(State()), t, visibleIn) ==
        if done then SweepEnd(State(), visible, true) else PassFrom(oracles, kwargs, timing, State(), t + 1, visible)
    {
      ghost var s0 := State();
      visible := Round(visibleIn);
      ghost var round := Seen(State(), visible);
      if targets[t].cadence < 0.0 {
        visible := Visit(t);
      }
      PassFromStep(oracles, kwargs, timing, s0, t, visibleIn, round, Seen(State(), visible));
      done := TimeUp(timing, clock, targets[t].duration);
    }

    /** One sweep over the records. */
    method Sweep() returns (visible: bool, done: bool)
      modifies this
      ensures SweepEnd(State(), visible, done) == PassFrom(oracles, kwargs, timing, old(State()), 0, false)
    {
      var n := |targets|;
      ghost var goal := PassFrom(oracles, kwargs, timing, State(), 0, false);
      visible, done := false, false;
      for t := 0 to n
        invariant |targets| == n
        invariant goal == PassFrom(oracles, kwargs, timing, State(), t, visible)
      {
        visible, done := Pass(t, visible);
        if done {
          return;
        }
      }
      PassFromEnd(oracles, kwargs, timing, State(), visible);
    }

    /** The sweeps of the loop, at most `fuel + 1` of them; returns how many were made. */
    method Sweeps(endLst: real, fuel: nat) returns (count: nat)
      modifies this
      ensures SweepsEnd(State(), count) == PassesFrom(oracles, kwargs, timing, endLst, old(State()), 0, fuel)
    {
      count := 0;
      while true
        invariant count <= fuel
        invariant PassesFrom(oracles, kwargs, timing, endLst, old(State()), 0, fuel) == PassesFrom(oracles, kwargs, timing, endLst, State(), count, fuel)
        decreases fuel - count
      {
        var visible, done := Sweep();
        if Ends(oracles, timing, endLst, SweepEnd(State(), visible, done)) || count == fuel {
          count := count + 1;
          return;
        }
        count := count + 1;
      }
    }
  }
}
