// astrokat/observe_main.py: the decisions of the observation run. The LST gate of
// each observation loop, the choice of the next cadence target, the horizon check,
// how `observe` dispatches a target to a track or a scan and sets up the noise
// diode, the quantisation of the noise-diode cycle to the correlator dump period,
// the instrument checks of `Telescope.subarray_setup`, and the sweeps over the
// target list with their termination rules. Ephemeris, sensors, the session and
// the wall clock are oracles.
module ObserveMain {
  import opened Common
  import opened Text
  import opened Numbers
  import opened Utility

  /** Largest difference allowed between the requested and the actual dump rate (Hz). */
  const DumpRateTolerance: real := 0.002

  /** Smallest |obs_duration| that is taken as a request to observe. */
  const ObsDurationEpsilon: real := 0.00001

  /** Most sweeps over the target list one observation loop makes. */
  const SweepCap: nat := 100000

  /** Integration time assumed in a dry run (seconds). */
  const DryRunDumpPeriod: real := 0.5

  // ---------------------------------------------------------------- LST gate

  /** `_same_day`: the local LST lies in a range that ends before midnight. */
  predicate SameDay(start: real, end: real, lst: real)
  {
    lst >= start && lst < end
  }

  /** `_next_day`: the local LST lies between the end and the start of a range that wraps midnight. */
  predicate NextDay(start: real, end: real, lst: real)
  {
    lst < start && lst > end
  }

  /** Whether an observation loop runs at the local LST: same-day window, or wrapped window not excluded. */
  function LstGate(start: real, end: real, lst: real): bool
  {
    if start < end then SameDay(start, end, lst) else !NextDay(start, end, lst)
  }

  /** The gate in terms of the window: inside [start, end) for a same-day range; for a wrapped range, not strictly between end and start. */
  lemma LstGateWindow(start: real, end: real, lst: real)
    ensures start < end ==> (LstGate(start, end, lst) <==> start <= lst < end)
    ensures end <= start ==> (!LstGate(start, end, lst) <==> end < lst < start)
    ensures end <= start ==> (LstGate(start, end, lst) <==> lst >= start || lst <= end)
  {
  }

  /** The end LST is outside a same-day window but inside a wrapped one; equal ends never skip. */
  lemma LstGateBoundary(start: real, end: real)
    ensures start < end ==> LstGate(start, end, start) && !LstGate(start, end, end)
    ensures end < start ==> LstGate(start, end, start) && LstGate(start, end, end)
    ensures forall lst :: LstGate(start, start, lst)
  {
  }

  // ---------------------------------------------------------------- targets

  /** A row of the target table as the run uses it. */
  datatype ObsTarget = ObsTarget(
    name: string,
    /** None stands for NaN, a target without a duration */
    duration: Option<real>,
    cadence: real,
    obsType: string,
    noiseDiode: Option<string>,
    lastObserved: Option<real>,
    obsCount: nat,
    /** a celestial (ra, dec) body, the only kind the horizon check applies to */
    fixedBody: bool)

  /** A cadence target is due: it has a cadence and was never observed or not within its cadence. */
  predicate Due(t: ObsTarget, now: real)
  {
    t.cadence > 0.0 && (t.lastObserved.None? || now - t.lastObserved.value > t.cadence)
  }

  /** The first due target in list order, or none. */
  function FirstDue(targets: seq<ObsTarget>, now: real): (r: Option<nat>)
    ensures r.Some? ==> r.value < |targets| && Due(targets[r.value], now)
  {
    if |targets| == 0 then None
    else if Due(targets[0], now) then Some(0)
    else
      var rest := FirstDue(targets[1..], now);
      if rest.Some? then Some(rest.value + 1) else None
  }

  /** The due target found is the first due one, and none is found only when none is due. */
  lemma {:induction false} FirstDueIsFirst(targets: seq<ObsTarget>, now: real)
    ensures FirstDue(targets, now).Some? ==> forall j :: 0 <= j < FirstDue(targets, now).value ==> !Due(targets[j], now)
    ensures FirstDue(targets, now).None? <==> forall j :: 0 <= j < |targets| ==> !Due(targets[j], now)
  {
    if |targets| > 0 && !Due(targets[0], now) {
      FirstDueIsFirst(targets[1..], now);
      assert forall j :: 1 <= j < |targets| ==> targets[j] == targets[1..][j - 1];
    }
  }

  /** `cadence_target`: the first due target in list order, or none. */
  method CadenceTarget(targets: seq<ObsTarget>, now: real) returns (r: Option<nat>)
    ensures r == FirstDue(targets, now)
  {
    FirstDueIsFirst(targets, now);
    for i := 0 to |targets|
      invariant forall j :: 0 <= j < i ==> !Due(targets[j], now)
    {
      var t := targets[i];
      if t.cadence > 0.0 {
        if t.lastObserved.None? {
          return Some(i);
        }
        var delta := now - t.lastObserved.value;
        if delta > t.cadence {
          return Some(i);
        }
      }
    }
    return None;
  }

  /** `x < d` for a duration that may be NaN: false against NaN. */
  predicate LessThan(x: real, d: Option<real>)
  {
    d.Some? && x < d.value
  }

  // ---------------------------------------------------------------- horizon

  /**
   * `above_horizon`: the target is above the horizon now and, for a non-zero (or NaN)
   * duration, also at the end of it. `elevation` gives the elevation in degrees at a
   * time, None standing for the NaN time a NaN duration gives.
   */
  function AboveHorizon(horizon: real, duration: Option<real>, now: real, elevation: Option<real> -> real): (up: bool)
    ensures up ==> elevation(Some(now)) > horizon
    ensures duration == Some(0.0) ==> (up <==> elevation(Some(now)) > horizon)
    ensures duration.Some? && duration.value != 0.0 ==>
      (up <==> elevation(Some(now)) > horizon && elevation(Some(now + duration.value)) > horizon)
  {
    if !(elevation(Some(now)) > horizon) then false
    else if duration != Some(0.0) then
      elevation(if duration.Some? then Some(now + duration.value) else None) > horizon
    else true
  }

  /** A target above a horizon is above every lower horizon. */
  lemma AboveLowerHorizon(h: real, lower: real, duration: Option<real>, now: real, elevation: Option<real> -> real)
    requires lower <= h && AboveHorizon(h, duration, now, elevation)
    ensures AboveHorizon(lower, duration, now, elevation)
  {
  }

  // ---------------------------------------------------------------- dispatch

  /** What `observe` does with a target. */
  datatype Kind =
    | DriftScanKind | ForwardScanKind | ReverseScanKind | ReferencePointingKind
    | ReturnScanKind | RasterScanKind | PlainScanKind | TrackKind

  /** The observation `observe` chooses for an obs_type, checking the names in precedence order. */
  function Dispatch(obsType: string): Kind
  {
    if Contains(obsType, "drift_scan") then DriftScanKind
    else if Contains(obsType, "scan") then
      if Contains(obsType, "forwardscan") then ForwardScanKind
      else if Contains(obsType, "reversescan") then ReverseScanKind
      else if Contains(obsType, "reference_pointing_scan") then ReferencePointingKind
      else if Contains(obsType, "return_scan") then ReturnScanKind
      else if Contains(obsType, "raster_scan") then RasterScanKind
      else PlainScanKind
    else TrackKind
  }

  /** A text holding `a` holds every piece of `a`. */
  lemma {:induction false} ContainsPiece(s: string, a: string, i: nat, j: nat)
    requires Contains(s, a) && i <= j <= |a|
    ensures Contains(s, a[i..j])
  {
    var p := ContainsWitness(s, a);
    forall k | 0 <= k < j - i
      ensures s[p + i..p + j][k] == a[i..j][k]
    {
      assert s[p + i + k] == s[p..p + |a|][i + k];
    }
    ContainsAt(s, a[i..j], p + i);
  }

  /**
   * Only an obs_type without "scan" is a track, and a drift scan wins over every
   * other scan; each scan name on its own is dispatched to its own scan.
   */
  lemma DispatchKinds(obsType: string)
    ensures Dispatch(obsType) == TrackKind <==> !Contains(obsType, "scan")
    ensures Contains(obsType, "drift_scan") ==> Dispatch(obsType) == DriftScanKind
    ensures Contains(obsType, "forwardscan") && !Contains(obsType, "drift_scan") ==> Dispatch(obsType) == ForwardScanKind
  {
    if Contains(obsType, "drift_scan") {
      assert "drift_scan"[6..10] == "scan";
      ContainsPiece(obsType, "drift_scan", 6, 10);
    }
    if Contains(obsType, "forwardscan") {
      assert "forwardscan"[7..11] == "scan";
      ContainsPiece(obsType, "forwardscan", 7, 11);
    }
  }

  /** Every scan name contains "scan", so none of them falls through to a track. */
  lemma ScanNamesAreScans(obsType: string)
    requires Contains(obsType, "reversescan") || Contains(obsType, "reference_pointing_scan") ||
             Contains(obsType, "return_scan") || Contains(obsType, "raster_scan")
    ensures Dispatch(obsType) != TrackKind
  {
    if Contains(obsType, "reversescan") {
      assert "reversescan"[7..11] == "scan";
      ContainsPiece(obsType, "reversescan", 7, 11);
    } else if Contains(obsType, "reference_pointing_scan") {
      assert "reference_pointing_scan"[19..23] == "scan";
      ContainsPiece(obsType, "reference_pointing_scan", 19, 23);
    } else if Contains(obsType, "return_scan") {
      assert "return_scan"[7..11] == "scan";
      ContainsPiece(obsType, "return_scan", 7, 11);
    } else {
      assert "raster_scan"[7..11] == "scan";
      ContainsPiece(obsType, "raster_scan", 7, 11);
    }
  }

  /** Python's `in` on a loaded value: a key of a mapping, a substring of a text, an item of a list. */
  function PyIn(x: Yaml, container: Yaml): Result<bool>
  {
    match container
    case YMap(m) => Ok(x.YStr? && x.s in m)
    case YStr(s) => if x.YStr? then Ok(Contains(s, x.s)) else Err(TypeError("'in <string>' requires string as left operand"))
    case YList(items) => Ok(x in items)
    case YArray(values) => Ok((x.YFloat? && x.f in values) || (x.YInt? && x.i as real in values))
    case _ => Err(TypeError("argument of type is not iterable"))
  }

  /** A duration as the plan holds it: None (NaN) is written as null. */
  function DurationValue(d: Option<real>): Yaml
  {
    if d.Some? then YFloat(d.value) else YNull
  }

  /** `section['duration'] = duration` for a plan section that may be missing: a missing one is created. */
  function WithDuration(plan: Plan, key: string, d: Option<real>): (r: Result<Plan>)
    ensures r.Ok? ==> key in r.value && r.value[key].YMap? && "duration" in r.value[key].m &&
                      r.value[key].m["duration"] == DurationValue(d)
    ensures r.Ok? ==> forall k :: k in plan && k != key ==> k in r.value && r.value[k] == plan[k]
    ensures r.Err? <==> key in plan && !plan[key].YMap?
  {
    if key !in plan then Ok(plan[key := YMap(map["duration" := DurationValue(d)])])
    else if plan[key].YMap? then Ok(plan[key := YMap(plan[key].m["duration" := DurationValue(d)])])
    else Err(TypeError("object does not support item assignment"))
  }

  /**
   * The keyword arguments `observe` hands to a scan: the section the scan reads,
   * with the target's duration written into it (into `scan` or
   * `reference_pointing_scan`), or for a raster scan a `scan_duration` of
   * duration/num_scans when none is set. Returns the section and the plan as the
   * in-place writes leave it.
   */
  function ScanSetup(obsType: string, kind: Kind, duration: Option<real>, plan: Plan): (r: Result<(Plan, Plan)>)
    requires kind == Dispatch(obsType) && kind != DriftScanKind && kind != TrackKind
    ensures Contains(obsType, "raster_scan") && ("raster_scan" !in plan || PyIn(YStr("num_scans"), plan["raster_scan"]) == Ok(false)) ==>
      r == Err(RuntimeError(Capitalize(obsType) + " needs 'num_scans' parameter"))
    ensures r.Ok? && !Contains(obsType, "raster_scan") ==>
      "scan" in r.value.1 && r.value.1["scan"].YMap? && "duration" in r.value.1["scan"].m &&
      r.value.1["scan"].m["duration"] == DurationValue(duration)
    ensures r.Ok? && kind == ReferencePointingKind ==>
      "duration" in r.value.0 && r.value.0["duration"] == DurationValue(duration)
    ensures r.Ok? && kind in {ForwardScanKind, ReverseScanKind, ReturnScanKind} ==>
      "scan" in r.value.1 && r.value.1["scan"] == YMap(r.value.0)
  {
    var plan1 :-
      if Contains(obsType, "raster_scan") then
        if "raster_scan" !in plan then Err(RuntimeError(Capitalize(obsType) + " needs 'num_scans' parameter"))
        else
          var has :- PyIn(YStr("num_scans"), plan["raster_scan"]);
          if !has then Err(RuntimeError(Capitalize(obsType) + " needs 'num_scans' parameter"))
          else RasterDuration(plan, duration)
      else WithDuration(plan, "scan", duration);
    var key := if kind == ReferencePointingKind then "reference_pointing_scan"
               else if kind == RasterScanKind || kind == PlainScanKind then obsType
               else "scan";
    var plan2 :- if kind == ReferencePointingKind then WithDuration(plan1, key, duration) else Ok(plan1);
    if key !in plan2 then Err(KeyError(key))
    else if !plan2[key].YMap? then Err(TypeError("argument after ** must be a mapping"))
    else Ok((plan2[key].m, plan2))
  }

  /**
   * `duration / nscans` where `duration` is a numpy float64 from the target table: numpy does not
   * raise on a zero divisor but gives inf or nan, which the model, like a NaN duration, holds as None.
   */
  function NumpyDiv(d: Option<real>, n: real): (r: Option<real>)
    ensures r.Some? <==> d.Some? && n != 0.0
    ensures r.Some? ==> r.value * n == d.value
  {
    if d.Some? && n != 0.0 then Some(d.value / n) else None
  }

  /** The raster-scan section with `scan_duration` defaulted to duration/num_scans. */
  function RasterDuration(plan: Plan, duration: Option<real>): (r: Result<Plan>)
    requires "raster_scan" in plan
    ensures r.Err? <==> (!plan["raster_scan"].YMap? || "num_scans" !in plan["raster_scan"].m ||
      FloatOf(plan["raster_scan"].m["num_scans"]).Err?)
    ensures r.Ok? ==> forall k :: k in plan && k != "raster_scan" ==> k in r.value && r.value[k] == plan[k]
    ensures r.Ok? && plan["raster_scan"].YMap? && "scan_duration" in plan["raster_scan"].m ==> r.value == plan
    ensures r.Ok? ==> ("raster_scan" in r.value && r.value["raster_scan"].YMap? &&
      "scan_duration" in r.value["raster_scan"].m)
    ensures (r.Ok? && "scan_duration" !in plan["raster_scan"].m && FloatOf(plan["raster_scan"].m["num_scans"]) == Ok(0.0)) ==>
      r.value["raster_scan"].m["scan_duration"] == YNull
  {
    var section := plan["raster_scan"];
    if !section.YMap? || "num_scans" !in section.m then Err(TypeError("string indices must be integers"))
    else
      var nscans :- FloatOf(section.m["num_scans"]);
      if "scan_duration" in section.m then Ok(plan)
      else Ok(plan["raster_scan" := YMap(section.m["scan_duration" := DurationValue(NumpyDiv(duration, nscans))])])
  }

  /**
   * A raster scan with zero scans and no scan_duration goes on: whatever the target's duration, the
   * setup succeeds and the scan duration is left non-finite (None).
   */
  lemma ZeroScansCarryOn(obsType: string, plan: Plan, d: Option<real>)
    requires Dispatch(obsType) == RasterScanKind
    requires "raster_scan" in plan && plan["raster_scan"].YMap?
    requires "num_scans" in plan["raster_scan"].m && FloatOf(plan["raster_scan"].m["num_scans"]) == Ok(0.0)
    requires "scan_duration" !in plan["raster_scan"].m
    requires obsType in plan && plan[obsType].YMap?
    ensures var r := ScanSetup(obsType, RasterScanKind, d, plan);
      r.Ok? && "raster_scan" in r.value.1 && r.value.1["raster_scan"].YMap? &&
      "scan_duration" in r.value.1["raster_scan"].m && r.value.1["raster_scan"].m["scan_duration"] == YNull
  {
    assert Contains(obsType, "raster_scan");
    var p1 := RasterDuration(plan, d);
    assert p1.Ok?;
  }

  /** The raster-scan duration is written once: a later target's duration leaves the first one in place. */
  lemma RasterDurationSticks(plan: Plan, d1: Option<real>, d2: Option<real>)
    requires "raster_scan" in plan && RasterDuration(plan, d1).Ok?
    requires plan["raster_scan"].YMap? && "scan_duration" !in plan["raster_scan"].m
    ensures var p1 := RasterDuration(plan, d1).value;
      "raster_scan" in p1 && RasterDuration(p1, d2) == Ok(p1)
  {
    var p1 := RasterDuration(plan, d1).value;
    assert p1["raster_scan"].YMap? && "scan_duration" in p1["raster_scan"].m;
  }

  // ---------------------------------------------------------------- noise diode

  /** The noise-diode part of `observe`'s decision. */
  datatype NdChoice = NdChoice(
    /** the plan's pattern, kept only when it defines `cycle_len` */
    setup: Option<map<string, Yaml>>,
    lead: Option<Yaml>,
    /** the trigger period of a target that names one */
    period: Option<real>,
    /** the target asks for no noise diode: the pattern is switched off */
    switchOff: bool,
    /** the plan's pattern is set up again after the target */
    restore: bool)

  /** Python truth of a loaded value. */
  predicate YTruthy(v: Yaml)
  {
    match v
    case YNull => false
    case YBool(b) => b
    case YInt(i) => i != 0
    case YFloat(f) => f != 0.0
    case YStr(s) => s != ""
    case YList(items) => items != []
    case YMap(m) => m != map[]
    case YArray(values) => values != []
    case YDateTime(_) => true
  }

  /**
   * The noise-diode decision of `observe`: the plan's `noise_diode` section gives
   * the lead time and, with `cycle_len`, the pattern; a target value containing
   * "off" switches the pattern off for the target, any other value is read as a
   * trigger period.
   */
  function NdDecision(planNd: Option<Yaml>, targetNd: Option<string>): (r: Result<NdChoice>)
    ensures r.Ok? ==> (r.value.restore <==> r.value.switchOff && r.value.setup.Some?)
    ensures r.Ok? ==> !(r.value.switchOff && r.value.period.Some?)
    ensures targetNd.None? && r.Ok? ==> !r.value.switchOff && r.value.period.None?
    ensures targetNd.Some? && Contains(targetNd.value, "off") && r.Ok? ==> r.value.switchOff
    ensures targetNd.Some? && !Contains(targetNd.value, "off") && r.Ok? ==>
      r.value.period.Some? && Ok(r.value.period.value) == ToFloat(targetNd.value)
    ensures r.Ok? && r.value.setup.Some? ==> "cycle_len" in r.value.setup.value
  {
    var planSetup: Option<Yaml> := if planNd.Some? && YTruthy(planNd.value) then planNd else None;
    var leadIn :- if planSetup.Some? then PyIn(YStr("lead_time"), planSetup.value) else Ok(false);
    var lead :- if !leadIn then Ok(None)
                else if planSetup.value.YMap? then Ok(Some(planSetup.value.m["lead_time"]))
                else Err(TypeError("indices must be integers"));
    var cycleIn :- if planSetup.Some? then PyIn(YStr("cycle_len"), planSetup.value) else Ok(false);
    var setup := if cycleIn && planSetup.value.YMap? then Some(planSetup.value.m) else None;
    if cycleIn && !planSetup.value.YMap? then Err(TypeError("pattern section must be a mapping"))
    else if targetNd.None? then Ok(NdChoice(setup, lead, None, false, false))
    else if Contains(targetNd.value, "off") then Ok(NdChoice(setup, lead, None, true, setup.Some?))
    else
      var period :- ToFloat(targetNd.value);
      Ok(NdChoice(setup, lead, Some(period), false, false))
  }

  /** Without a target value the plan's pattern runs untouched; "off" restores it exactly when it has a cycle length. */
  lemma NdRestoreOnlyAfterOff(planNd: map<string, Yaml>, targetNd: Option<string>)
    requires planNd != map[] && NdDecision(Some(YMap(planNd)), targetNd).Ok?
    ensures var c := NdDecision(Some(YMap(planNd)), targetNd).value;
      c.restore <==> targetNd.Some? && Contains(targetNd.value, "off") && "cycle_len" in planNd
  {
  }

  // ---------------------------------------------------------------- cycle quantisation

  /**
   * The noise-diode cycle length the run programs: a cycle at least one dump
   * period long becomes the largest whole number of dump periods not above it
   * (Python's floor division); a shorter one is kept.
   */
  function QuantiseCycle(cycle: real, dump: real): (r: Result<real>)
    ensures cycle < dump ==> r == Ok(cycle)
    ensures dump == 0.0 && cycle >= 0.0 ==> r == Err(ZeroDivisionError)
    ensures dump > 0.0 && cycle >= dump ==>
      r.Ok? && r.value <= cycle && cycle - r.value < dump && r.value >= dump &&
      r.value == ((r.value / dump).Floor as real) * dump
  {
    if cycle < dump then Ok(cycle)
    else if dump == 0.0 then Err(ZeroDivisionError)
    else
      var q := ((cycle / dump).Floor as real) * dump;
      if dump > 0.0 then QuantiseBounds(cycle, dump, q); Ok(q) else Ok(q)
  }

  /** ⌊c/d⌋·d lies in (c − d, c], is at least d, and is a whole number of periods. */
  lemma QuantiseBounds(cycle: real, dump: real, q: real)
    requires dump > 0.0 && cycle >= dump && q == ((cycle / dump).Floor as real) * dump
    ensures q <= cycle && cycle - q < dump && q >= dump && q == ((q / dump).Floor as real) * dump
  {
    var k := (cycle / dump).Floor;
    FloorScaled(cycle, dump);
    AtLeastOnePeriod(cycle, dump);
    assert k >= 1;
    MulMono(1.0, k as real, dump);
    TimesDiv(k as real, dump);
    assert q / dump == k as real;
    assert (k as real).Floor == k;
  }

  /** A cycle of at least one period is at least one period long, counted in periods. */
  lemma AtLeastOnePeriod(cycle: real, dump: real)
    requires dump > 0.0 && cycle >= dump
    ensures cycle / dump >= 1.0
  {
    DivTimes(cycle, dump);
    MulMono(cycle / dump, 1.0, dump);
  }

  /** Dividing by a positive number and multiplying back gives the number again. */
  lemma DivTimes(c: real, d: real)
    requires d > 0.0
    ensures (c / d) * d == c
  {
  }

  /** Multiplying by a positive number and dividing back gives the number again. */
  lemma TimesDiv(k: real, d: real)
    requires d > 0.0
    ensures (k * d) / d == k
  {
  }

  /** Quantising a quantised cycle changes nothing. */
  lemma QuantiseIdempotent(cycle: real, dump: real)
    requires dump > 0.0 && QuantiseCycle(cycle, dump).Ok?
    ensures QuantiseCycle(QuantiseCycle(cycle, dump).value, dump) == QuantiseCycle(cycle, dump)
  {
    if cycle >= dump {
      var q := QuantiseCycle(cycle, dump).value;
      QuantiseBounds(cycle, dump, q);
      assert q >= dump && q == ((q / dump).Floor as real) * dump;
      assert QuantiseCycle(q, dump).Ok?;
      assert QuantiseCycle(q, dump).value == ((q / dump).Floor as real) * dump;
    }
  }

  // ---------------------------------------------------------------- observe

  /** What `observe` asks of the session for a target. */
  datatype Action =
    | SlewOnly
    | TrackFor(duration: Option<real>)
    | DriftFor(duration: Option<real>)
    | ScanWith(kind: Kind, kwargs: map<string, Yaml>)

  /** The whole decision of `observe`: the noise-diode choice, the action, and the plan as its in-place writes leave it. */
  datatype Decision = Decision(nd: NdChoice, action: Action, plan: Plan)

  /**
   * `observe` before it talks to the session: a slew-only call just slews; otherwise
   * the noise diode is decided first, then the target goes to a drift scan, one of
   * the scans (with the keyword arguments `ScanSetup` prepares) or a track.
   */
  function ObserveDecision(t: ObsTarget, plan: Plan, slewOnly: bool): (r: Result<Decision>)
    ensures slewOnly ==> r.Ok? && r.value.action == SlewOnly && r.value.plan == plan
    ensures !slewOnly && r.Ok? ==> NdDecision(if "noise_diode" in plan then Some(plan["noise_diode"]) else None, t.noiseDiode) == Ok(r.value.nd)
    ensures !slewOnly && r.Ok? && !Contains(t.obsType, "scan") ==> r.value.action == TrackFor(t.duration) && r.value.plan == plan
    ensures !slewOnly && r.Ok? && Contains(t.obsType, "drift_scan") ==> r.value.action == DriftFor(t.duration)
    ensures !slewOnly && r.Ok? && r.value.action.ScanWith? ==> r.value.action.kind == Dispatch(t.obsType)
  {
    if slewOnly then Ok(Decision(NdChoice(None, None, None, false, false), SlewOnly, plan))
    else
      var nd :- NdDecision(if "noise_diode" in plan then Some(plan["noise_diode"]) else None, t.noiseDiode);
      var kind := Dispatch(t.obsType);
      DispatchKinds(t.obsType);
      if kind == DriftScanKind then Ok(Decision(nd, DriftFor(t.duration), plan))
      else if kind == TrackKind then Ok(Decision(nd, TrackFor(t.duration), plan))
      else
        var setup :- ScanSetup(t.obsType, kind, t.duration, plan);
        Ok(Decision(nd, ScanWith(kind, setup.0), setup.1))
  }

  // ---------------------------------------------------------------- subarray_setup

  /** The message of a failed instrument check, naming the sensor. */
  function ConfigError(key: string): Error
  {
    RuntimeError("Subarray configuration sub_" + key + " error")
  }

  /** A number as Python compares it: ints, floats and bools. */
  function NumberOf(v: Yaml): Option<real>
  {
    match v
    case YInt(i) => Some(i as real)
    case YFloat(f) => Some(f)
    case YBool(b) => Some(if b then 1.0 else 0.0)
    case _ => None
  }

  /** Python `==` after the lists on both sides became sets. */
  predicate PyEqual(a: Yaml, b: Yaml)
  {
    if a.YList? && b.YList? then (set x | x in a.items) == (set x | x in b.items)
    else if a.YList? || b.YList? then false
    else if NumberOf(a).Some? && NumberOf(b).Some? then NumberOf(a) == NumberOf(b)
    else a == b
  }

  /** The first pool resource the sensor does not list, if any; a failed `in` raises. */
  function MissingResource(params: seq<string>, sensor: Yaml): (r: Result<Option<nat>>)
    ensures r.Ok? && r.value.Some? ==> r.value.value < |params| && PyIn(YStr(params[r.value.value]), sensor) == Ok(false)
    ensures r.Ok? && r.value.Some? ==> forall j :: 0 <= j < r.value.value ==> PyIn(YStr(params[j]), sensor) == Ok(true)
    ensures r.Ok? && r.value.None? ==> forall j :: 0 <= j < |params| ==> PyIn(YStr(params[j]), sensor) == Ok(true)
  {
    if |params| == 0 then Ok(None)
    else
      var here :- PyIn(YStr(params[0]), sensor);
      if !here then Ok(Some(0))
      else
        var rest :- MissingResource(params[1..], sensor);
        assert forall j :: 1 <= j < |params| ==> params[j] == params[1..][j - 1];
        Ok(if rest.Some? then Some(rest.value + 1) else None)
  }

  /** The comma-separated pool resources, each stripped. */
  function PoolParams(conf: string): seq<string>
  {
    seq(|Split(conf, ',')|, i requires 0 <= i < |Split(conf, ',')| => Strip(Split(conf, ',')[i]))
  }

  /**
   * One instrument key against its `sub_<key>` sensor: a product contained in the
   * sensor passes; pool resources pass when "available" or all listed; the dump
   * rate passes within the tolerance; any other key must equal the sensor.
   */
  function KeyCheck(key: string, conf: Yaml, sensor: Yaml): (r: Result<()>)
    ensures key == "product" && PyIn(conf, sensor) == Ok(true) ==> r == Ok(())
    ensures key == "pool_resources" && conf == YStr("available") ==> r == Ok(())
    ensures key == "pool_resources" && conf.YStr? && conf.s != "available" ==>
      (r.Ok? <==> MissingResource(PoolParams(conf.s), sensor) == Ok(None))
    ensures key == "dump_rate" && NumberOf(conf).Some? && NumberOf(sensor).Some? ==>
      (r.Ok? <==> Abs(NumberOf(conf).value - NumberOf(sensor).value) <= DumpRateTolerance)
    ensures key != "product" && key != "pool_resources" && key != "dump_rate" ==>
      (r.Ok? <==> PyEqual(conf, sensor)) && (r.Err? ==> r.error == ConfigError(key))
  {
    var contained :- if key == "product" then PyIn(conf, sensor) else Ok(false);
    if contained then Ok(())
    else if key == "pool_resources" then
      if conf == YStr("available") then Ok(())
      else if !conf.YStr? then Err(AttributeError("object has no attribute 'split'"))
      else
        var missing :- MissingResource(PoolParams(conf.s), sensor);
        if missing.Some? then Err(ConfigError(key)) else Ok(())
    else if key == "dump_rate" then
      if NumberOf(conf).None? || NumberOf(sensor).None? then Err(TypeError("unsupported operand type(s) for -"))
      else if Abs(NumberOf(conf).value - NumberOf(sensor).value) > DumpRateTolerance then Err(ConfigError(key))
      else Ok(())
    else if !PyEqual(conf, sensor) then Err(ConfigError(key))
    else Ok(())
  }

  /** One key of the instrument: its sensor must exist, then `KeyCheck` decides. */
  function KeyResult(key: string, conf: Yaml, sensors: map<string, Yaml>): Result<()>
  {
    if "sub_" + key !in sensors then Err(AttributeError("'NoneType' object has no attribute 'get_value'"))
    else KeyCheck(key, conf, sensors["sub_" + key])
  }

  /** The checks are skipped: no instrument, no approved_schedule sensor, or a schedule block it does not list. */
  predicate SetupSkipped(instrument: Yaml, approved: Option<string>, sbId: string)
  {
    instrument == YNull || approved.None? || !Contains(approved.value, sbId)
  }

  /**
   * `Telescope.subarray_setup`: unless skipped, every instrument key is checked
   * against its sensor (in the dictionary's order, which is not modelled: any order
   * may be taken) and the first failure raises.
   */
  method SubarraySetup(instrument: Yaml, approved: Option<string>, sbId: string, sensors: map<string, Yaml>)
    returns (r: Result<()>)
    ensures SetupSkipped(instrument, approved, sbId) ==> r == Ok(())
    ensures !SetupSkipped(instrument, approved, sbId) && !instrument.YMap? ==> r.Err?
    ensures !SetupSkipped(instrument, approved, sbId) && instrument.YMap? ==>
      (r.Ok? <==> forall k :: k in instrument.m ==> KeyResult(k, instrument.m[k], sensors).Ok?)
    ensures !SetupSkipped(instrument, approved, sbId) && instrument.YMap? && r.Err? ==>
      exists k :: k in instrument.m && KeyResult(k, instrument.m[k], sensors) == r
  {
    if instrument == YNull || approved.None? || !Contains(approved.value, sbId) {
      return Ok(());
    }
    if !instrument.YMap? {
      return Err(AttributeError("object has no attribute 'keys'"));
    }
    var m := instrument.m;
    var remaining := m.Keys;
    while remaining != {}
      invariant remaining <= m.Keys
      invariant forall k :: k in m && k !in remaining ==> KeyResult(k, m[k], sensors).Ok?
      decreases |remaining|
    {
      var key :| key in remaining;
      var check := KeyResult(key, m[key], sensors);
      if check.Err? {
        return check;
      }
      remaining := remaining - {key};
    }
    return Ok(());
  }

  // ---------------------------------------------------------------- run_observation

  /** `obs_duration` from the plan's durations, -1 (one sweep) when none is given. */
  function ObsDuration(plan: Plan): (r: Result<real>)
    ensures "durations" !in plan ==> r == Ok(-1.0)
    ensures "durations" in plan && plan["durations"].YMap? && "obs_duration" in plan["durations"].m ==>
      (r.Ok? <==> NumberOf(plan["durations"].m["obs_duration"]).Some?) &&
      (r.Ok? ==> r.value == NumberOf(plan["durations"].m["obs_duration"]).value)
  {
    if "durations" !in plan then Ok(-1.0)
    else
      var has :- PyIn(YStr("obs_duration"), plan["durations"]);
      if !has then Ok(-1.0)
      else if !plan["durations"].YMap? then Err(TypeError("indices must be integers"))
      else
        var v := plan["durations"].m["obs_duration"];
        if NumberOf(v).None? then Err(TypeError("bad operand type for abs()")) else Ok(NumberOf(v).value)
  }

  /** A duration too close to zero to be meant: the run ends before any session starts. */
  predicate NonsensicalDuration(d: real)
  {
    Abs(d) < ObsDurationEpsilon
  }

  /** The default duration, -1, is a single sweep and not a nonsensical one. */
  lemma DefaultDurationSingleSweep(plan: Plan)
    requires "durations" !in plan
    ensures ObsDuration(plan).Ok? && ObsDuration(plan).value < 0.0 && !NonsensicalDuration(ObsDuration(plan).value)
  {
  }

  /** What happens to one observation loop. */
  datatype LoopStep =
    | NoTargets
    | OutsideLst
    /** the loop observes, with the next loop's LST range and the quantised noise-diode cycle */
    | Observe(nextLst: Option<(real, real)>, cycleLen: Option<real>)

  /**
   * The oracles of one run: the LST range of a loop that a later loop follows (read
   * with a `multi_loop` argument `get_lst` does not take, so its behaviour is not
   * part of this model), local LST and visibility per loop, the correlator.
   */
  datatype Sky = Sky(
    multiLoopLst: Yaml -> Result<(real, Option<real>)>,
    localLst: nat -> real,
    visibleCount: nat -> nat,
    catalogueSize: nat -> nat,
    dumpPeriod: real)

  /** `get_lst` in hours: a start given as a bare number is read by `float`. */
  function LstHours(v: Yaml): (r: Result<(real, real)>)
    ensures GetLst(v).Err? ==> r == Err(GetLst(v).error)
    ensures GetLst(v).Ok? && GetLst(v).value.0.Hours? ==> r == Ok((GetLst(v).value.0.h, GetLst(v).value.1))
  {
    var range :- GetLst(v);
    var start :- if range.0.Hours? then Ok(range.0.h) else ToFloat(range.0.text);
    Ok((start, range.1))
  }

  /** The LST range of a loop: a loop that a later loop follows must give an end. */
  function LoopRange(v: Yaml, multi: bool, sky: Sky): (r: Result<(real, real)>)
    ensures !multi ==> r == LstHours(v)
    ensures multi && sky.multiLoopLst(v).Ok? && sky.multiLoopLst(v).value.1.None? ==>
      r == Err(RuntimeError("Multi-loop observations require end LST times"))
  {
    if !multi then LstHours(v)
    else
      var range :- sky.multiLoopLst(v);
      if range.1.None? then Err(RuntimeError("Multi-loop observations require end LST times"))
      else Ok((range.0, range.1.value))
  }

  /** The LST range of the next loop, read when a later loop follows. */
  function NextRange(loops: seq<Yaml>, k: nat, multi: bool): (r: Result<Option<(real, real)>>)
    requires k < |loops|
    ensures r.Ok? ==> (r.value.Some? <==> multi)
  {
    if !multi then Ok(None)
    else if k + 1 >= |loops| || !loops[k + 1].YMap? || "LST" !in loops[k + 1].m then Err(KeyError("LST"))
    else
      var n :- LstHours(loops[k + 1].m["LST"]);
      Ok(Some(n))
  }

  /** `nd_setup['cycle_len']` after the run quantises it, when the plan sets a pattern. */
  function PlannedCycle(plan: Plan, dump: real): Result<Option<real>>
  {
    if "noise_diode" !in plan || !plan["noise_diode"].YMap? || "cycle_len" !in plan["noise_diode"].m then Ok(None)
    else
      var c := NumberOf(plan["noise_diode"].m["cycle_len"]);
      if c.None? then Err(TypeError("'>=' not supported"))
      else
        var q :- QuantiseCycle(c.value, dump);
        Ok(Some(q))
  }

  /**
   * One observation loop of `run_observation`: skipped without a target list; its LST
   * range (with an end LST required when a later loop follows, and the next loop's
   * range read too) gates it; outside a dry run every target down, or with
   * `all_up` any target down, raises; then the noise-diode cycle is quantised.
   */
  function LoopStepOf(plan: Plan, loops: seq<Yaml>, k: nat, sky: Sky, dryRun: bool, allUp: bool): (r: Result<LoopStep>)
    requires k < |loops|
    ensures loops[k].YMap? && "target_list" !in loops[k].m ==> r == Ok(NoTargets)
    ensures r.Ok? && r.value.Observe? ==> !dryRun ==> sky.visibleCount(k) > 0
    ensures r.Ok? && r.value.Observe? && !dryRun && allUp ==> sky.visibleCount(k) == sky.catalogueSize(k)
    ensures r.Ok? && r.value.Observe? ==> (r.value.nextLst.Some? <==> |loops| > 1 && k < |loops| - 1)
  {
    var loop := loops[k];
    if !loop.YMap? then Err(AttributeError("object has no attribute 'keys'"))
    else if "target_list" !in loop.m then Ok(NoTargets)
    else if "LST" !in loop.m then Err(KeyError("LST"))
    else
      var multi := |loops| > 1 && k < |loops| - 1;
      var range :- LoopRange(loop.m["LST"], multi, sky);
      var next :- NextRange(loops, k, multi);
      if !LstGate(range.0, range.1, sky.localLst(k)) then Ok(OutsideLst)
      else Admitted(plan, k, sky, dryRun, allUp, next)
  }

  /**
   * A loop inside its LST window: outside a dry run no target up, or with `all_up`
   * any target down, raises; otherwise it is observed with the quantised cycle.
   */
  function Admitted(plan: Plan, k: nat, sky: Sky, dryRun: bool, allUp: bool, next: Option<(real, real)>): (r: Result<LoopStep>)
    ensures r.Ok? ==> r.value.Observe? && r.value.nextLst == next
    ensures r.Ok? && !dryRun ==> sky.visibleCount(k) > 0
    ensures r.Ok? && !dryRun && allUp ==> sky.visibleCount(k) == sky.catalogueSize(k)
  {
    if !dryRun && sky.visibleCount(k) == 0 then
      Err(NoTargetsUpError("No targets are currently visible - please re-run the script later"))
    else if !dryRun && allUp && sky.visibleCount(k) != sky.catalogueSize(k) then
      Err(NotAllTargetsUpError("Not all targets are currently visible - please re-run the script with --visibility for information"))
    else
      var cycle :- PlannedCycle(plan, if dryRun then DryRunDumpPeriod else sky.dumpPeriod);
      Ok(Observe(next, cycle))
  }

  /** A loop runs only inside its LST window. */
  lemma LoopStepGated(plan: Plan, loops: seq<Yaml>, k: nat, sky: Sky, dryRun: bool, allUp: bool)
    requires k < |loops| && LoopStepOf(plan, loops, k, sky, dryRun, allUp).Ok?
    requires loops[k].YMap? && "target_list" in loops[k].m && "LST" in loops[k].m
    ensures LoopRange(loops[k].m["LST"], |loops| > 1 && k < |loops| - 1, sky).Ok?
    ensures LoopStepOf(plan, loops, k, sky, dryRun, allUp).value.Observe? <==>
      LstGate(LoopRange(loops[k].m["LST"], |loops| > 1 && k < |loops| - 1, sky).value.0,
              LoopRange(loops[k].m["LST"], |loops| > 1 && k < |loops| - 1, sky).value.1, sky.localLst(k))
  {
  }

  /**
   * The loops of `run_observation`: nothing at all for a nonsensical duration,
   * otherwise each loop's step in order, the first error raising.
   */
  method RunObservation(plan: Plan, sky: Sky, dryRun: bool, allUp: bool) returns (r: Result<seq<LoopStep>>)
    requires "observation_loop" in plan && plan["observation_loop"].YList?
    ensures ObsDuration(plan).Err? ==> r == Err(ObsDuration(plan).error)
    ensures ObsDuration(plan).Ok? && NonsensicalDuration(ObsDuration(plan).value) ==> r == Ok([])
    ensures ObsDuration(plan).Ok? && !NonsensicalDuration(ObsDuration(plan).value) ==>
      var loops := plan["observation_loop"].items;
      r == Each(Indices(|loops|), (k: nat) => if k < |loops| then LoopStepOf(plan, loops, k, sky, dryRun, allUp) else Ok(NoTargets))
  {
    var d :- ObsDuration(plan);
    if Abs(d) < ObsDurationEpsilon {
      return Ok([]);
    }
    var loops := plan["observation_loop"].items;
    var step := (k: nat) => if k < |loops| then LoopStepOf(plan, loops, k, sky, dryRun, allUp) else Ok(NoTargets);
    var ks := Indices(|loops|);
    var steps: seq<LoopStep> := [];
    for i := 0 to |ks|
      invariant Each(ks[..i], step) == Ok(steps)
    {
      var s := step(ks[i]);
      if s.Err? {
        EachFails(ks, i, step);
        return Err(s.error);
      }
      EachSnoc(ks, i, step);
      steps := steps + [s.value];
    }
    assert ks[..|ks|] == ks;
    return Ok(steps);
  }

  /** 0, 1, …, n-1. */
  function Indices(n: nat): (ks: seq<nat>)
    ensures |ks| == n && forall i :: 0 <= i < n ==> ks[i] == i
  {
    seq(n, i requires 0 <= i < n => i)
  }

  // ---------------------------------------------------------------- the next target

  /** `k` is the last target after `t` with a cadence. */
  ghost predicate LastCadenceAfter(targets: seq<ObsTarget>, t: nat, k: nat)
  {
    t < k < |targets| && targets[k].cadence > 0.0 &&
    forall j :: k < j < |targets| ==> targets[j].cadence <= 0.0
  }

  /** `k` is the first target after `t` with a cadence. */
  ghost predicate FirstCadenceAfter(targets: seq<ObsTarget>, t: nat, k: nat)
  {
    t < k < |targets| && targets[k].cadence > 0.0 &&
    forall j :: t < j < k ==> targets[j].cadence <= 0.0
  }

  /** No target after `t` has a cadence. */
  ghost predicate NoCadenceAfter(targets: seq<ObsTarget>, t: nat)
  {
    forall j :: t < j < |targets| ==> targets[j].cadence <= 0.0
  }

  /**
   * The next target as the run loop computes it: the following target, replaced by
   * each later cadence target in turn, so that the last one wins.
   */
  method NextTargetAsWritten(targets: seq<ObsTarget>, t: nat) returns (next: nat)
    requires t < |targets|
    ensures next < |targets|
    ensures NoCadenceAfter(targets, t) ==> next == (t + 1) % |targets|
    ensures !NoCadenceAfter(targets, t) ==> LastCadenceAfter(targets, t, next)
    ensures next == NextTargetSpec(targets, t)
  {
    var n := |targets|;
    var following := (t + 1) % n;
    next := following;
    ghost var found := false;
    for j := t + 1 to n
      invariant !found ==> next == following && forall i :: t < i < j ==> targets[i].cadence <= 0.0
      invariant found ==> t < next < j && targets[next].cadence > 0.0 && forall i :: next < i < j ==> targets[i].cadence <= 0.0
    {
      if targets[j].cadence > 0.0 {
        SmallMod(j, n);
        next := j % n;
        found := true;
      }
    }
  }

  /** The last target in `[lo, hi)` with a cadence. */
  function CadenceBefore(targets: seq<ObsTarget>, lo: nat, hi: nat): (r: Option<nat>)
    requires hi <= |targets|
    ensures r.Some? ==> lo <= r.value < hi && targets[r.value].cadence > 0.0
    ensures r.Some? ==> forall j :: r.value < j < hi ==> targets[j].cadence <= 0.0
    ensures r.None? ==> forall j :: lo <= j < hi ==> targets[j].cadence <= 0.0
    decreases hi
  {
    if hi <= lo then None
    else if targets[hi - 1].cadence > 0.0 then Some(hi - 1)
    else CadenceBefore(targets, lo, hi - 1)
  }

  /** The next target the look-ahead loop settles on: the last later cadence target, else the following target. */
  function NextTargetSpec(targets: seq<ObsTarget>, t: nat): (next: nat)
    requires t < |targets|
    ensures next < |targets|
    ensures NoCadenceAfter(targets, t) ==> next == (t + 1) % |targets|
    ensures !NoCadenceAfter(targets, t) ==> LastCadenceAfter(targets, t, next)
  {
    match CadenceBefore(targets, t + 1, |targets|)
    case Some(k) => k
    case None => (t + 1) % |targets|
  }

  /** An index below the length is its own remainder. */
  lemma SmallMod(j: nat, n: nat)
    requires j < n
    ensures j % n == j
  {
  }

  /** The first target from index `k` on with a cadence. */
  function CadenceFrom(targets: seq<ObsTarget>, k: nat): (r: Option<nat>)
    ensures r.Some? ==> k <= r.value < |targets| && targets[r.value].cadence > 0.0
    ensures r.Some? ==> forall j :: k <= j < r.value ==> targets[j].cadence <= 0.0
    ensures r.None? ==> forall j :: k <= j < |targets| ==> targets[j].cadence <= 0.0
    decreases |targets| - k
  {
    if k >= |targets| then None
    else if targets[k].cadence > 0.0 then Some(k)
    else CadenceFrom(targets, k + 1)
  }

  /** The next target the time check is meant to use: the first later cadence target, else the following target. */
  function NextTarget(targets: seq<ObsTarget>, t: nat): (next: nat)
    requires t < |targets|
    ensures next < |targets|
    ensures NoCadenceAfter(targets, t) ==> next == (t + 1) % |targets|
    ensures !NoCadenceAfter(targets, t) ==> FirstCadenceAfter(targets, t, next)
  {
    match CadenceFrom(targets, t + 1)
    case Some(k) => k
    case None => (t + 1) % |targets|
  }

  /** A plain target followed by two cadence targets of different durations. */
  function CounterexampleTargets(): seq<ObsTarget>
  {
    [ObsTarget("a", Some(10.0), -1.0, "track", None, None, 0, true),
     ObsTarget("b", Some(10.0), 100.0, "track", None, None, 0, true),
     ObsTarget("c", Some(500.0), 100.0, "track", None, None, 0, true)]
  }

  /**
   * After target 0 the loop as written looks at target 2, whose 500 s do not fit in
   * 100 s remaining, and ends the run, although target 1 comes first and takes 10 s.
   */
  lemma NextTargetCounterexample()
    ensures LastCadenceAfter(CounterexampleTargets(), 0, 2) && !LastCadenceAfter(CounterexampleTargets(), 0, 1)
    ensures FirstCadenceAfter(CounterexampleTargets(), 0, 1)
    ensures NextTargetSpec(CounterexampleTargets(), 0) == 2 && NextTarget(CounterexampleTargets(), 0) == 1
    ensures TimeLapsed(100.0, 0.0, CounterexampleTargets()[2].duration)
    ensures !TimeLapsed(100.0, 0.0, CounterexampleTargets()[1].duration)
  {
  }

  /** The time check after a target: with an obs_duration, less than a second left, or less than the next target needs. */
  predicate TimeLapsed(obsDuration: real, elapsed: real, nextDuration: Option<real>)
  {
    var remaining := obsDuration - elapsed;
    obsDuration > 0.0 && (remaining < 1.0 || LessThan(remaining, nextDuration))
  }

  // ---------------------------------------------------------------- the sweeps

  /** The target table and the clock while a loop runs. */
  datatype RunState = RunState(targets: seq<ObsTarget>, clock: real)

  /**
   * The oracles of the sweeps: whether a target is above the horizon for its whole
   * duration at a time, whether `observe` reports it observed, how long `observe`
   * takes, how long a slew to a target takes, and the local LST at a time.
   */
  datatype Oracles = Oracles(
    up: (ObsTarget, real) -> bool,
    observed: (ObsTarget, real) -> bool,
    takes: (ObsTarget, real) -> NonNeg,
    slew: (ObsTarget, real) -> NonNeg,
    lstAt: real -> real)

  /**
   * The slew to the first target before capture starts: only the clock moves on;
   * an empty target list raises on `obs_targets[0]`.
   */
  function SlewedFirst(o: Oracles, s: RunState): (r: Result<RunState>)
    ensures |s.targets| == 0 ==> r == Err(IndexError("list index out of range"))
    ensures |s.targets| > 0 ==> r.Ok? && r.value.targets == s.targets && r.value.clock >= s.clock
    ensures |s.targets| > 0 ==> r.value.clock - s.clock == o.slew(s.targets[0], s.clock)
  {
    if |s.targets| == 0 then Err(IndexError("list index out of range"))
    else Ok(RunState(s.targets, s.clock + o.slew(s.targets[0], s.clock)))
  }

  /** Only the counters of each target moved on: nothing else of the table changed, and no count went down. */
  predicate Progressed(a: seq<ObsTarget>, b: seq<ObsTarget>)
  {
    |a| == |b| &&
    forall j :: 0 <= j < |a| ==>
      b[j].name == a[j].name && b[j].duration == a[j].duration && b[j].cadence == a[j].cadence &&
      b[j].obsType == a[j].obsType && b[j].noiseDiode == a[j].noiseDiode && b[j].fixedBody == a[j].fixedBody &&
      a[j].obsCount <= b[j].obsCount
  }

  /** `observe` on target `i`: its answer, and the clock after it. */
  function Observed(o: Oracles, s: RunState, i: nat): (r: Seen)
    requires i < |s.targets|
    ensures r.state.targets == s.targets && r.state.clock >= s.clock
  {
    Seen(RunState(s.targets, s.clock + o.takes(s.targets[i], s.clock)), o.observed(s.targets[i], s.clock))
  }

  /** A state and whether something was seen. */
  datatype Seen = Seen(state: RunState, seen: bool)

  /** A step of the cadence loop: the state, whether anything was seen, and the cadence list left. */
  datatype Stepped = Stepped(state: RunState, visible: bool, pending: seq<nat>)

  /** One more observation of target `i`, observed now. */
  function Recorded(s: RunState, i: nat): (r: RunState)
    requires i < |s.targets|
    ensures Progressed(s.targets, r.targets) && r.clock == s.clock
    ensures r.targets[i].obsCount == s.targets[i].obsCount + 1 && r.targets[i].lastObserved == Some(s.clock)
    ensures forall j :: 0 <= j < |s.targets| && j != i ==> r.targets[j] == s.targets[j]
  {
    var t := s.targets[i];
    RunState(s.targets[i := t.(obsCount := t.obsCount + 1, lastObserved := Some(s.clock))], s.clock)
  }

  /** Every entry of the list indexes a table of `n` targets. */
  predicate Within(pending: seq<nat>, n: nat)
  {
    forall k :: 0 <= k < |pending| ==> pending[k] < n
  }

  /** The targets the cadence list still holds, in its order. */
  function Pick(targets: seq<ObsTarget>, pending: seq<nat>): (r: seq<ObsTarget>)
    requires Within(pending, |targets|)
    ensures |r| == |pending| && forall k :: 0 <= k < |pending| ==> r[k] == targets[pending[k]]
  {
    seq(|pending|, k requires 0 <= k < |pending| => targets[pending[k]])
  }

  /** The entry of the cadence list `cadence_target` picks: the first whose target is due. */
  function DueEntry(targets: seq<ObsTarget>, pending: seq<nat>, now: real): (r: Option<nat>)
    requires Within(pending, |targets|)
    ensures r.Some? ==> r.value < |pending| && Due(targets[pending[r.value]], now)
  {
    if |pending| == 0 then None
    else if Due(targets[pending[0]], now) then Some(0)
    else
      var rest := DueEntry(targets, pending[1..], now);
      if rest.Some? then Some(rest.value + 1) else None
  }

  /** `cadence_target` on the targets the list holds picks that entry. */
  lemma {:induction false} DueEntryPicked(targets: seq<ObsTarget>, pending: seq<nat>, now: real)
    requires Within(pending, |targets|)
    ensures FirstDue(Pick(targets, pending), now) == DueEntry(targets, pending, now)
  {
    if |pending| > 0 && !Due(targets[pending[0]], now) {
      DueEntryPicked(targets, pending[1..], now);
      assert Pick(targets, pending)[1..] == Pick(targets, pending[1..]);
    }
  }

  /** The list without its `k`-th entry. */
  function Remove(pending: seq<nat>, k: nat): (r: seq<nat>)
    requires k < |pending|
    ensures |r| == |pending| - 1
    ensures forall j :: 0 <= j < |r| ==> r[j] == if j < k then pending[j] else pending[j + 1]
  {
    pending[..k] + pending[k + 1..]
  }

  /** How a cadence round ends: the state, whether any target was seen, and whether time ran out. */
  datatype RoundEnd = RoundEnd(state: RunState, visible: bool, done: bool)

  /**
   * The cadence loop of a sweep from `pending` with `cntr` rounds made: the first
   * due target either ends the sweep because it does not fit in the time remaining,
   * or is observed when up (counting it, or dropping it from the list when `observe`
   * declines), or dropped when down; the loop stops when nothing is due or after
   * one round more than there are targets.
   */
  function CadenceLoop(o: Oracles, obsDuration: real, timeRemaining: real, s: RunState, pending: seq<nat>, cntr: nat, visible: bool): RoundEnd
    requires cntr <= |s.targets| && Within(pending, |s.targets|)
    decreases |s.targets| + 1 - cntr
  {
    var due := DueEntry(s.targets, pending, s.clock);
    if due.None? then RoundEnd(s, visible, false)
    else if obsDuration > 0.0 && LessThan(timeRemaining, s.targets[pending[due.value]].duration) then RoundEnd(s, visible, true)
    else
      var step := CadenceStep(o, s, pending, due.value, visible);
      if cntr + 1 > |s.targets| then RoundEnd(step.state, step.visible, false)
      else CadenceLoop(o, obsDuration, timeRemaining, step.state, step.pending, cntr + 1, step.visible)
  }

  /** What a cadence round may do to the table: move on the counters of cadence targets, never run the clock back. */
  predicate RoundMoves(a: RunState, b: RunState)
  {
    Progressed(a.targets, b.targets) && b.clock >= a.clock &&
    forall j :: 0 <= j < |a.targets| && a.targets[j].cadence <= 0.0 ==> b.targets[j] == a.targets[j]
  }

  /** A target was counted between two tables. */
  predicate SomeCounted(a: seq<ObsTarget>, b: seq<ObsTarget>)
  {
    exists j :: 0 <= j < |a| && j < |b| && b[j].obsCount > a[j].obsCount
  }

  /** A round that does nothing. */
  lemma RoundMovesRefl(s: RunState)
    ensures RoundMoves(s, s)
  {
  }

  /** Cadence rounds compose. */
  lemma RoundMovesTrans(a: RunState, b: RunState, c: RunState)
    requires RoundMoves(a, b) && RoundMoves(b, c)
    ensures RoundMoves(a, c)
  {
  }

  /** A step of the cadence loop moves the counters of the due target only. */
  lemma CadenceStepMoves(o: Oracles, s: RunState, pending: seq<nat>, k: nat, visible: bool)
    requires k < |pending| && Within(pending, |s.targets|)
    requires Due(s.targets[pending[k]], s.clock)
    ensures RoundMoves(s, CadenceStep(o, s, pending, k, visible).state)
  {
  }

  /** A step of the cadence loop sees its target exactly when it counts it. */
  lemma CadenceStepSeen(o: Oracles, s: RunState, pending: seq<nat>, k: nat, visible: bool)
    requires k < |pending| && Within(pending, |s.targets|)
    requires Due(s.targets[pending[k]], s.clock)
    ensures var r := CadenceStep(o, s, pending, k, visible);
      r.visible <==> visible || r.state.targets[pending[k]].obsCount > s.targets[pending[k]].obsCount
  {
  }

  /** The cadence loop after a step that neither stops it nor times out. */
  lemma CadenceLoopUnfold(o: Oracles, obsDuration: real, timeRemaining: real, s: RunState, pending: seq<nat>, cntr: nat, visible: bool, k: nat,
                          s1: RunState, v1: bool, p1: seq<nat>)
    requires cntr + 1 <= |s.targets| && Within(pending, |s.targets|)
    requires DueEntry(s.targets, pending, s.clock) == Some(k)
    requires !(obsDuration > 0.0 && LessThan(timeRemaining, s.targets[pending[k]].duration))
    requires Stepped(s1, v1, p1) == CadenceStep(o, s, pending, k, visible)
    ensures |s1.targets| == |s.targets| && Within(p1, |s.targets|)
    ensures CadenceLoop(o, obsDuration, timeRemaining, s, pending, cntr, visible) == CadenceLoop(o, obsDuration, timeRemaining, s1, p1, cntr + 1, v1)
  {
  }

  /** The cadence loop when nothing is due, or the due target does not fit in the time remaining. */
  lemma CadenceLoopStops(o: Oracles, obsDuration: real, timeRemaining: real, s: RunState, pending: seq<nat>, cntr: nat, visible: bool)
    requires cntr <= |s.targets| && Within(pending, |s.targets|)
    requires DueEntry(s.targets, pending, s.clock).None? ||
      (obsDuration > 0.0 && LessThan(timeRemaining, s.targets[pending[DueEntry(s.targets, pending, s.clock).value]].duration))
    ensures CadenceLoop(o, obsDuration, timeRemaining, s, pending, cntr, visible) ==
      RoundEnd(s, visible, DueEntry(s.targets, pending, s.clock).Some?)
  {
  }

  /** The cadence loop after its last permitted step. */
  lemma CadenceLoopLast(o: Oracles, obsDuration: real, timeRemaining: real, s: RunState, pending: seq<nat>, cntr: nat, visible: bool, k: nat,
                        s1: RunState, v1: bool, p1: seq<nat>)
    requires cntr == |s.targets| && Within(pending, |s.targets|)
    requires DueEntry(s.targets, pending, s.clock) == Some(k)
    requires !(obsDuration > 0.0 && LessThan(timeRemaining, s.targets[pending[k]].duration))
    requires Stepped(s1, v1, p1) == CadenceStep(o, s, pending, k, visible)
    ensures CadenceLoop(o, obsDuration, timeRemaining, s, pending, cntr, visible) == RoundEnd(s1, v1, false)
  {
  }

  /** Seeing something in a later step of a round still means something was counted in it. */
  lemma SomeCountedAfter(a: seq<ObsTarget>, b: seq<ObsTarget>, c: seq<ObsTarget>)
    requires Progressed(a, b) && Progressed(b, c) && (SomeCounted(a, b) || SomeCounted(b, c))
    ensures SomeCounted(a, c)
  {
    if SomeCounted(a, b) {
      var j :| 0 <= j < |a| && j < |b| && b[j].obsCount > a[j].obsCount;
      assert c[j].obsCount >= b[j].obsCount;
    } else {
      var j :| 0 <= j < |b| && j < |c| && c[j].obsCount > b[j].obsCount;
      assert b[j].obsCount >= a[j].obsCount;
    }
  }

  /**
   * What a cadence loop from `s` ending in `e` may do: move counters on (only those of
   * cadence targets) without running the clock back, end the sweep for lack of time
   * only when a duration was asked for, keep what was seen before it, and report a
   * target seen only when it counted one.
   */
  predicate LoopFacts(obsDuration: real, s: RunState, visible: bool, e: RoundEnd)
  {
    && RoundMoves(s, e.state)
    && (e.done ==> obsDuration > 0.0)
    && (visible ==> e.visible)
    && (e.visible && !visible ==> SomeCounted(s.targets, e.state.targets))
  }

  /** A step that keeps the facts, followed by a loop that keeps them, keeps them. */
  lemma LoopFactsCompose(obsDuration: real, s: RunState, visible: bool, s1: RunState, v1: bool, e: RoundEnd)
    requires RoundMoves(s, s1) && (visible ==> v1) && (v1 && !visible ==> SomeCounted(s.targets, s1.targets))
    requires LoopFacts(obsDuration, s1, v1, e)
    ensures LoopFacts(obsDuration, s, visible, e)
  {
    RoundMovesTrans(s, s1, e.state);
    if e.visible && !visible {
      if v1 {
        assert SomeCounted(s.targets, s1.targets);
      }
      SomeCountedAfter(s.targets, s1.targets, e.state.targets);
    }
  }

  /** A step of the cadence loop moves counters on and sees its target exactly when it counts it. */
  lemma CadenceStepFacts(o: Oracles, s: RunState, pending: seq<nat>, k: nat, visible: bool)
    requires k < |pending| && Within(pending, |s.targets|)
    requires Due(s.targets[pending[k]], s.clock)
    ensures var r := CadenceStep(o, s, pending, k, visible);
      RoundMoves(s, r.state) && (visible ==> r.visible) && (r.visible && !visible ==> SomeCounted(s.targets, r.state.targets))
  {
    CadenceStepMoves(o, s, pending, k, visible);
    CadenceStepSeen(o, s, pending, k, visible);
    var r := CadenceStep(o, s, pending, k, visible);
    if r.visible && !visible {
      assert r.state.targets[pending[k]].obsCount > s.targets[pending[k]].obsCount;
    }
  }

  /** Every cadence loop keeps the facts, by induction on the rounds left. */
  lemma {:induction false} CadenceLoopFacts(o: Oracles, obsDuration: real, timeRemaining: real, s: RunState, pending: seq<nat>, cntr: nat, visible: bool)
    requires cntr <= |s.targets| && Within(pending, |s.targets|)
    ensures LoopFacts(obsDuration, s, visible, CadenceLoop(o, obsDuration, timeRemaining, s, pending, cntr, visible))
    decreases |s.targets| + 1 - cntr
  {
    var due := DueEntry(s.targets, pending, s.clock);
    if due.None? || (obsDuration > 0.0 && LessThan(timeRemaining, s.targets[pending[due.value]].duration)) {
      CadenceLoopStops(o, obsDuration, timeRemaining, s, pending, cntr, visible);
      RoundMovesRefl(s);
    } else {
      var step := CadenceStep(o, s, pending, due.value, visible);
      if cntr < |s.targets| {
        CadenceLoopFacts(o, obsDuration, timeRemaining, step.state, step.pending, cntr + 1, step.visible);
      }
      CadenceLoopFactsStep(o, obsDuration, timeRemaining, s, pending, cntr, visible, due.value, step);
    }
  }

  /** One step of the cadence loop keeps the facts, given that the loop after it keeps them. */
  lemma CadenceLoopFactsStep(o: Oracles, obsDuration: real, timeRemaining: real, s: RunState, pending: seq<nat>, cntr: nat, visible: bool,
                             k: nat, step: Stepped)
    requires cntr <= |s.targets| && Within(pending, |s.targets|)
    requires DueEntry(s.targets, pending, s.clock) == Some(k)
    requires !(obsDuration > 0.0 && LessThan(timeRemaining, s.targets[pending[k]].duration))
    requires step == CadenceStep(o, s, pending, k, visible)
    requires cntr < |s.targets| ==>
      LoopFacts(obsDuration, step.state, step.visible, CadenceLoop(o, obsDuration, timeRemaining, step.state, step.pending, cntr + 1, step.visible))
    ensures LoopFacts(obsDuration, s, visible, CadenceLoop(o, obsDuration, timeRemaining, s, pending, cntr, visible))
  {
    var s1, v1, p1 := step.state, step.visible, step.pending;
    CadenceStepFacts(o, s, pending, k, visible);
    if cntr == |s.targets| {
      CadenceLoopLast(o, obsDuration, timeRemaining, s, pending, cntr, visible, k, s1, v1, p1);
      RoundMovesRefl(s1);
      LoopFactsCompose(obsDuration, s, visible, s1, v1, RoundEnd(s1, v1, false));
    } else {
      CadenceLoopUnfold(o, obsDuration, timeRemaining, s, pending, cntr, visible, k, s1, v1, p1);
      LoopFactsCompose(obsDuration, s, visible, s1, v1, CadenceLoop(o, obsDuration, timeRemaining, s1, p1, cntr + 1, v1));
    }
  }

  /**
   * A cadence loop only moves counters on, and only those of cadence targets; it
   * never runs the clock back; and it ends the sweep for lack of time only when a
   * duration was asked for.
   */
  lemma CadenceLoopProgress(o: Oracles, obsDuration: real, timeRemaining: real, s: RunState, pending: seq<nat>, cntr: nat, visible: bool)
    requires cntr <= |s.targets| && Within(pending, |s.targets|)
    ensures RoundMoves(s, CadenceLoop(o, obsDuration, timeRemaining, s, pending, cntr, visible).state)
    ensures CadenceLoop(o, obsDuration, timeRemaining, s, pending, cntr, visible).done ==> obsDuration > 0.0
  {
    CadenceLoopFacts(o, obsDuration, timeRemaining, s, pending, cntr, visible);
  }

  /** A cadence loop keeps what was seen before it, and reports a target seen only when it counted one. */
  lemma CadenceLoopSeen(o: Oracles, obsDuration: real, timeRemaining: real, s: RunState, pending: seq<nat>, cntr: nat, visible: bool)
    requires cntr <= |s.targets| && Within(pending, |s.targets|)
    ensures visible ==> CadenceLoop(o, obsDuration, timeRemaining, s, pending, cntr, visible).visible
    ensures CadenceLoop(o, obsDuration, timeRemaining, s, pending, cntr, visible).visible && !visible ==>
      SomeCounted(s.targets, CadenceLoop(o, obsDuration, timeRemaining, s, pending, cntr, visible).state.targets)
  {
    CadenceLoopFacts(o, obsDuration, timeRemaining, s, pending, cntr, visible);
  }

  /** One step of the cadence loop on the due entry `k` of the list. */
  function CadenceStep(o: Oracles, s: RunState, pending: seq<nat>, k: nat, visible: bool): (r: Stepped)
    requires k < |pending| && Within(pending, |s.targets|)
    requires Due(s.targets[pending[k]], s.clock)
    ensures |r.state.targets| == |s.targets| && Within(r.pending, |s.targets|)
  {
    var i := pending[k];
    if o.up(s.targets[i], s.clock) then
      var after := Observed(o, s, i);
      if after.seen then Stepped(Recorded(after.state, i), true, pending) else Stepped(after.state, visible, Remove(pending, k))
    else Stepped(s, visible, Remove(pending, k))
  }

  /** Moving on is transitive. */
  lemma ProgressedTrans(a: seq<ObsTarget>, b: seq<ObsTarget>, c: seq<ObsTarget>)
    requires Progressed(a, b) && Progressed(b, c)
    ensures Progressed(a, c)
  {
  }

  /** How a sweep (or its rest from some target) ends. */
  datatype SweepEnd = SweepEnd(state: RunState, visible: bool, done: bool)

  /** The timing of a loop: the session's start and the requested duration (negative: one sweep). */
  datatype Timing = Timing(startTime: real, obsDuration: real)

  /**
   * The sweep from target `t` on: a target below the horizon is passed over;
   * otherwise the cadence loop runs (ending the sweep when time runs out), then a
   * target without a cadence is observed and counted whenever anything was seen in
   * this sweep; with a duration the sweep ends once less than a second, or less than
   * the next target needs, remains.
   */
  function SweepFrom(o: Oracles, tm: Timing, s: RunState, t: nat, visible: bool, timeRemaining: real): (r: SweepEnd)
    requires t <= |s.targets|
    ensures Progressed(s.targets, r.state.targets) && r.state.clock >= s.clock
    ensures r.done ==> tm.obsDuration > 0.0
    ensures visible ==> r.visible
    decreases |s.targets| - t
  {
    if t == |s.targets| then SweepEnd(s, visible, false)
    else if s.targets[t].fixedBody && !o.up(s.targets[t], s.clock) then
      SweepFrom(o, tm, s, t + 1, visible, timeRemaining)
    else
      var round := CadenceLoop(o, tm.obsDuration, timeRemaining, s, Indices(|s.targets|), 0, visible);
      CadenceLoopProgress(o, tm.obsDuration, timeRemaining, s, Indices(|s.targets|), 0, visible);
      CadenceLoopSeen(o, tm.obsDuration, timeRemaining, s, Indices(|s.targets|), 0, visible);
      if round.done then SweepEnd(round.state, round.visible, true)
      else
        var after := PlainTarget(o, round.state, t, round.visible);
        ProgressedTrans(s.targets, round.state.targets, after.state.targets);
        if tm.obsDuration > 0.0 then
          var remaining := tm.obsDuration - (after.state.clock - tm.startTime);
          var next := NextTargetSpec(after.state.targets, t);
          if remaining < 1.0 || LessThan(remaining, after.state.targets[next].duration) then SweepEnd(after.state, after.seen, true)
          else
            var rest := SweepFrom(o, tm, after.state, t + 1, after.seen, remaining);
            ProgressedTrans(s.targets, after.state.targets, rest.state.targets);
            rest
        else
          var rest := SweepFrom(o, tm, after.state, t + 1, after.seen, timeRemaining);
          ProgressedTrans(s.targets, after.state.targets, rest.state.targets);
          rest
  }

  /**
   * The target of the sweep after its cadence loop: one without a cadence is
   * observed, and counted when anything was seen in the sweep so far.
   */
  function PlainTarget(o: Oracles, s: RunState, t: nat, visible: bool): (r: Seen)
    requires t < |s.targets|
    ensures Progressed(s.targets, r.state.targets) && r.state.clock >= s.clock
    ensures s.targets[t].cadence >= 0.0 ==> r == Seen(s, visible)
    ensures s.targets[t].cadence < 0.0 ==>
      r.seen == (visible || o.observed(s.targets[t], s.clock)) &&
      r.state.targets[t].obsCount == s.targets[t].obsCount + (if r.seen then 1 else 0)
    ensures visible ==> r.seen
  {
    if s.targets[t].cadence < 0.0 then
      var after := Observed(o, s, t);
      var seen := visible || after.seen;
      if seen then Seen(Recorded(after.state, t), seen) else Seen(after.state, seen)
    else Seen(s, visible)
  }

  /** The LST has passed the start of the next loop, or lies outside its window. */
  predicate MoveOn(nextLst: Option<(real, real)>, lst: real)
  {
    nextLst.Some? && (lst > nextLst.value.0 || !NextDay(nextLst.value.0, nextLst.value.1, lst))
  }

  /** A sweep is the last: time ran out, one sweep was asked for, the next loop is due, or nothing was seen. */
  predicate LastSweep(o: Oracles, tm: Timing, nextLst: Option<(real, real)>, sw: SweepEnd)
  {
    sw.done || tm.obsDuration < 0.0 || MoveOn(nextLst, o.lstAt(sw.state.clock)) || !sw.visible
  }

  /** How the sweeps of a loop end: the state and the number of sweeps made. */
  datatype SweepsEnd = SweepsEnd(state: RunState, sweeps: nat)

  /** The sweeps of a loop after `made` of them, at most `SweepCap` in all. */
  function SweepsFrom(o: Oracles, tm: Timing, nextLst: Option<(real, real)>, s: RunState, made: nat): (r: SweepsEnd)
    requires made <= SweepCap
    ensures made <= r.sweeps <= SweepCap
    ensures Progressed(s.targets, r.state.targets) && r.state.clock >= s.clock
    ensures made < SweepCap ==> made < r.sweeps
    ensures made < SweepCap && LastSweep(o, tm, nextLst, SweepFrom(o, tm, s, 0, false, tm.obsDuration)) ==> r.sweeps == made + 1
    decreases SweepCap - made
  {
    if made == SweepCap then SweepsEnd(s, made)
    else
      var sw := SweepFrom(o, tm, s, 0, false, tm.obsDuration);
      if LastSweep(o, tm, nextLst, sw) then SweepsEnd(sw.state, made + 1)
      else
        var rest := SweepsFrom(o, tm, nextLst, sw.state, made + 1);
        ProgressedTrans(s.targets, sw.state.targets, rest.state.targets);
        rest
  }

  /** Without an obs_duration the target list is swept exactly once. */
  lemma OneSweepWithoutDuration(o: Oracles, tm: Timing, nextLst: Option<(real, real)>, s: RunState)
    requires tm.obsDuration < 0.0
    ensures SweepsFrom(o, tm, nextLst, s, 0).sweeps == 1
  {
  }

  /** A sweep that sees nothing is the last one. */
  lemma NothingSeenStops(o: Oracles, tm: Timing, nextLst: Option<(real, real)>, s: RunState)
    requires !SweepFrom(o, tm, s, 0, false, tm.obsDuration).visible
    ensures SweepsFrom(o, tm, nextLst, s, 0).sweeps == 1
  {
  }

  /** A sweep without an obs_duration never ends for lack of time. */
  lemma NoDurationNoTimeout(o: Oracles, tm: Timing, s: RunState, t: nat, visible: bool, timeRemaining: real)
    requires t <= |s.targets| && tm.obsDuration <= 0.0
    ensures !SweepFrom(o, tm, s, t, visible, timeRemaining).done
  {
  }

  /**
   * One observation loop at run time: the target table whose counters the sweeps
   * update in place, and the session clock.
   */
  class Run {
    var targets: seq<ObsTarget>
    var clock: real
    const timing: Timing
    const oracles: Oracles

    constructor (targets: seq<ObsTarget>, timing: Timing, oracles: Oracles)
      ensures this.targets == targets && clock == timing.startTime
      ensures this.timing == timing && this.oracles == oracles
    {
      this.targets := targets;
      this.clock := timing.startTime;
      this.timing := timing;
      this.oracles := oracles;
    }

    /** The table and the clock. */
    function State(): RunState
      reads this
    {
      RunState(targets, clock)
    }

    /** `observe(..., slewonly=True)` on the first target before the sweeps: the clock moves by the slew. */
    method SlewToFirst() returns (err: Option<Error>)
      modifies this
      ensures var r := SlewedFirst(oracles, old(State()));
        (r.Ok? ==> err.None? && State() == r.value) && (r.Err? ==> err == Some(r.error) && State() == old(State()))
    {
      if |targets| == 0 {
        return Some(IndexError("list index out of range"));
      }
      clock := clock + oracles.slew(targets[0], clock);
      err := None;
    }

    /** `observe` on target `i`, which takes its time. */
    method Observe(i: nat) returns (ok: bool)
      requires i < |targets|
      modifies this
      ensures Seen(State(), ok) == Observed(oracles, old(State()), i)
    {
      ok := oracles.observed(targets[i], clock);
      clock := clock + oracles.takes(targets[i], clock);
    }

    /** Counts an observation of target `i` and stamps it with the clock. */
    method Record(i: nat)
      requires i < |targets|
      modifies this
      ensures State() == Recorded(old(State()), i)
    {
      targets := targets[i := targets[i].(obsCount := targets[i].obsCount + 1, lastObserved := Some(clock))];
    }

    /** One step of the cadence loop on the due entry `k` of the list. */
    method Step(pendingIn: seq<nat>, k: nat, visibleIn: bool) returns (pending: seq<nat>, visible: bool)
      requires k < |pendingIn| && Within(pendingIn, |targets|) && Due(targets[pendingIn[k]], clock)
      modifies this
      ensures Stepped(State(), visible, pending) == CadenceStep(oracles, old(State()), pendingIn, k, visibleIn)
    {
      var i := pendingIn[k];
      pending, visible := pendingIn, visibleIn;
      if oracles.up(targets[i], clock) {
        var ok := Observe(i);
        if ok {
          visible := true;
          Record(i);
        } else {
          pending := Remove(pendingIn, k);
        }
      } else {
        pending := Remove(pendingIn, k);
      }
    }

    /** The cadence loop of a sweep, with `visibleIn` seen so far in the sweep. */
    method CadenceRound(timeRemaining: real, visibleIn: bool) returns (visible: bool, done: bool)
      modifies this
      ensures |targets| == |old(targets)|
      ensures RoundEnd(State(), visible, done) ==
        CadenceLoop(oracles, timing.obsDuration, timeRemaining, old(State()), Indices(|old(targets)|), 0, visibleIn)
    {
      var pending := Indices(|targets|);
      var cntr := 0;
      var n := |targets|;
      visible, done := visibleIn, false;
      while true
        invariant |targets| == n && cntr <= n && Within(pending, n)
        invariant CadenceLoop(oracles, timing.obsDuration, timeRemaining, old(State()), Indices(n), 0, visibleIn) ==
          CadenceLoop(oracles, timing.obsDuration, timeRemaining, State(), pending, cntr, visible)
        decreases n + 1 - cntr
      {
        var stop;
        pending, visible, stop, done := RoundStep(timeRemaining, pending, cntr, visible);
        if stop {
          return;
        }
        cntr := cntr + 1;
      }
    }

    /**
     * One pass of the cadence loop: the first due target ends the loop when it does not
     * fit in the time remaining, and is stepped on otherwise; the loop also ends when
     * nothing is due or this was its last permitted round.
     */
    method RoundStep(timeRemaining: real, pendingIn: seq<nat>, cntr: nat, visibleIn: bool)
      returns (pending: seq<nat>, visible: bool, stop: bool, done: bool)
      requires cntr <= |targets| && Within(pendingIn, |targets|)
      modifies this
      ensures |targets| == |old(targets)| && Within(pending, |targets|)
      ensures !stop ==> cntr + 1 <= |targets|
      ensures CadenceLoop(oracles, timing.obsDuration, timeRemaining, old(State()), pendingIn, cntr, visibleIn) ==
        if stop then RoundEnd(State(), visible, done)
        else CadenceLoop(oracles, timing.obsDuration, timeRemaining, State(), pending, cntr + 1, visible)
    {
      pending, visible, stop, done := pendingIn, visibleIn, true, false;
      var due := CadenceTarget(Pick(targets, pending), clock);
      DueEntryPicked(targets, pending, clock);
      ghost var s0 := State();
      if due.None? {
        CadenceLoopStops(oracles, timing.obsDuration, timeRemaining, s0, pendingIn, cntr, visibleIn);
        return;
      }
      var i := pending[due.value];
      if timing.obsDuration > 0.0 && LessThan(timeRemaining, targets[i].duration) {
        CadenceLoopStops(oracles, timing.obsDuration, timeRemaining, s0, pendingIn, cntr, visibleIn);
        done := true;
        return;
      }
      pending, visible := Step(pendingIn, due.value, visibleIn);
      if cntr == |targets| {
        CadenceLoopLast(oracles, timing.obsDuration, timeRemaining, s0, pendingIn, cntr, visibleIn, due.value, State(), visible, pending);
        return;
      }
      CadenceLoopUnfold(oracles, timing.obsDuration, timeRemaining, s0, pendingIn, cntr, visibleIn, due.value, State(), visible, pending);
      stop := false;
    }

    /** The target after the cadence loop: observed when it has no cadence. */
    method Plain(t: nat, visibleIn: bool) returns (visible: bool)
      requires t < |targets|
      modifies this
      ensures Seen(State(), visible) == PlainTarget(oracles, old(State()), t, visibleIn)
    {
      visible := visibleIn;
      if targets[t].cadence < 0.0 {
        var ok := Observe(t);
        visible := visible || ok;
        if visible {
          Record(t);
        }
      }
    }

    /**
     * One target of the sweep: passed over below the horizon, else the cadence loop,
     * the plain target and, with a duration, the time check against the target the
     * look-ahead loop picks.
     */
    method Pass(t: nat, visibleIn: bool, remainingIn: real) returns (visible: bool, done: bool, remaining: real)
      requires t < |targets|
      modifies this
      ensures |targets| == |old(targets)|
      ensures done ==> SweepEnd(State(), visible, true) == SweepFrom(oracles, timing, old(State()), t, visibleIn, remainingIn)
      ensures !done ==> (SweepFrom(oracles, timing, old(State()), t, visibleIn, remainingIn) ==
        SweepFrom(oracles, timing, State(), t + 1, visible, remaining))
    {
      visible, done, remaining := visibleIn, false, remainingIn;
      if targets[t].fixedBody && !oracles.up(targets[t], clock) {
        return;
      }
      visible, done := CadenceRound(remaining, visible);
      if done {
        return;
      }
      visible := Plain(t, visible);
      if timing.obsDuration > 0.0 {
        remaining := timing.obsDuration - (clock - timing.startTime);
        var next := NextTargetAsWritten(targets, t);
        if remaining < 1.0 || LessThan(remaining, targets[next].duration) {
          done := true;
        }
      }
    }

    /** One sweep over the target list. */
    method Sweep() returns (visible: bool, done: bool)
      modifies this
      ensures SweepEnd(State(), visible, done) == SweepFrom(oracles, timing, old(State()), 0, false, timing.obsDuration)
    {
      var n := |targets|;
      var timeRemaining := timing.obsDuration;
      visible, done := false, false;
      for t := 0 to n
        invariant |targets| == n
        invariant SweepFrom(oracles, timing, old(State()), 0, false, timing.obsDuration) ==
          SweepFrom(oracles, timing, State(), t, visible, timeRemaining)
      {
        visible, done, timeRemaining := Pass(t, visible, timeRemaining);
        if done {
          return;
        }
      }
    }

    /** The sweeps of the loop, until one is the last or the sanity cap is reached; returns how many were made. */
    method Sweeps(nextLst: Option<(real, real)>) returns (count: nat)
      modifies this
      ensures SweepsEnd(State(), count) == SweepsFrom(oracles, timing, nextLst, old(State()), 0)
    {
      count := 0;
      while count < SweepCap
        invariant count <= SweepCap
        invariant SweepsFrom(oracles, timing, nextLst, old(State()), 0) == SweepsFrom(oracles, timing, nextLst, State(), count)
        decreases SweepCap - count
      {
        var visible, done := Sweep();
        count := count + 1;
        if LastSweep(oracles, timing, nextLst, SweepEnd(State(), visible, done)) {
          return;
        }
      }
    }
  }
}
