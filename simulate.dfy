// astrokat/simulate.py: the simulated telescope that stands in for a live system
// in a dry run. The session keeps its own clock, which `time.sleep` moves on, the
// target it last tracked (behind the slew rule) and whether it tracked at all;
// the telescope keeps the count of finished sessions and the LST of the current
// observation loop. Slew times between two targets (an ephemeris separation)
// and the conversion of a start time to a timestamp are oracles.
module Simulate {
  import opened Common
  import opened Utility
  import opened Numbers

  /** Seconds a first slew, or one the ephemeris cannot size, is taken to last. */
  const DefaultSlewTime: real := 45.0

  /** The observation loops of a plan. */
  function Loops(obsParams: Plan): Result<seq<Yaml>>
  {
    if "observation_loop" !in obsParams then Err(KeyError("observation_loop"))
    else if !obsParams["observation_loop"].YList? then Err(TypeError("object is not subscriptable"))
    else Ok(obsParams["observation_loop"].items)
  }

  /** The LST start of loop `i`, as `get_lst` reads its "LST" entry. */
  function LoopLst(loops: seq<Yaml>, i: nat): Result<LstBound>
    requires i < |loops|
  {
    if !loops[i].YMap? then Err(TypeError("object is not subscriptable"))
    else if "LST" !in loops[i].m then Err(KeyError("LST"))
    else
      var range :- GetLst(loops[i].m["LST"]);
      Ok(range.0)
  }

  /** `sub_<key>` names one instrument setting. */
  function SensorName(key: string): string
  {
    "sub_" + key
  }

  lemma SensorNameInjective(a: string, b: string)
    requires SensorName(a) == SensorName(b)
    ensures a == b
  {
    assert a == SensorName(a)[4..];
  }

  /** Every instrument key `k` has a sensor `sub_k` holding its value, and there are no other sensors. */
  ghost predicate SensorsOf(instrument: map<string, Yaml>, sensors: map<string, Yaml>)
  {
    (forall k :: k in instrument ==> SensorName(k) in sensors && sensors[SensorName(k)] == instrument[k]) &&
    (forall s :: s in sensors ==> exists k :: k in instrument && s == SensorName(k))
  }

  /**
   * `SimKat.fake_sensors`: no sensors without an instrument or with a None one,
   * else one sensor per instrument key; an instrument that is no dictionary has no `keys`.
   */
  method FakeSensors(obsParams: Plan) returns (r: Result<map<string, Yaml>>)
    ensures "instrument" !in obsParams || obsParams["instrument"].YNull? ==> r == Ok(map[])
    ensures "instrument" in obsParams && obsParams["instrument"].YMap? ==>
      r.Ok? && SensorsOf(obsParams["instrument"].m, r.value)
    ensures "instrument" in obsParams && !obsParams["instrument"].YNull? && !obsParams["instrument"].YMap? ==>
      r == Err(AttributeError("object has no attribute 'keys'"))
  {
    if "instrument" !in obsParams || obsParams["instrument"].YNull? {
      return Ok(map[]);
    }
    if !obsParams["instrument"].YMap? {
      return Err(AttributeError("object has no attribute 'keys'"));
    }
    var instrument := obsParams["instrument"].m;
    var keys := instrument.Keys;
    var sensors: map<string, Yaml> := map[];
    while keys != {}
      invariant keys <= instrument.Keys
      invariant forall k :: k in instrument && k !in keys ==> SensorName(k) in sensors && sensors[SensorName(k)] == instrument[k]
      invariant forall s :: s in sensors ==> exists k :: k in instrument && k !in keys && s == SensorName(k)
      decreases keys
    {
      var k :| k in keys;
      forall j | j in instrument && j !in keys
        ensures SensorName(j) != SensorName(k)
      {
        if SensorName(j) == SensorName(k) {
          SensorNameInjective(j, k);
        }
      }
      sensors := sensors[SensorName(k) := instrument[k]];
      keys := keys - {k};
    }
    r := Ok(sensors);
  }

  /** `SimKat`: the simulated telescope. */
  class SimKat {
    const obsParams: Plan
    const sensors: map<string, Yaml>
    const ants: seq<string>
    var lst: LstBound
    var sessionCnt: nat

    constructor(obsParams: Plan, lst: LstBound, sensors: map<string, Yaml>)
      ensures this.obsParams == obsParams && this.lst == lst && this.sensors == sensors
      ensures sessionCnt == 0 && ants == ["m011", "m022", "m033", "m044"]
    {
      this.obsParams := obsParams;
      this.lst := lst;
      this.sensors := sensors;
      sessionCnt := 0;
      ants := ["m011", "m022", "m033", "m044"];
    }
  }

  /** `verify_and_connect`: a telescope at the first loop's LST, with no session finished yet. */
  method VerifyAndConnect(obsParams: Plan) returns (r: Result<SimKat>)
    ensures Loops(obsParams).Err? ==> r == Err(Loops(obsParams).error)
    ensures Loops(obsParams) == Ok([]) ==> r == Err(IndexError("list index out of range"))
    ensures r.Ok? ==> var loops := Loops(obsParams).value;
      |loops| > 0 && LoopLst(loops, 0) == Ok(r.value.lst) &&
      fresh(r.value) && r.value.obsParams == obsParams && r.value.sessionCnt == 0
  {
    var loops := Loops(obsParams);
    if loops.Err? {
      return Err(loops.error);
    }
    if |loops.value| == 0 {
      return Err(IndexError("list index out of range"));
    }
    var lst := LoopLst(loops.value, 0);
    if lst.Err? {
      return Err(lst.error);
    }
    var sensors := FakeSensors(obsParams);
    if sensors.Err? {
      return Err(sensors.error);
    }
    var kat := new SimKat(obsParams, lst.value, sensors.value);
    r := Ok(kat);
  }

  // ---------------------------------------------------------------- the session clock

  /** What a session remembers between calls: its clock, the last target tracked and whether it tracked. */
  datatype State = State(time: real, current: Option<string>, tracked: bool)

  /** The session actions that take time. */
  datatype Action =
    | Track(target: string, duration: real)
    | Scan(duration: real)
    | RasterScan(numScans: real, scanDuration: real)

  /** `_fake_slew_`: no slew onto the current target, the default for a first slew, else the ephemeris' estimate. */
  function SlewFor(current: Option<string>, target: string, slew: (string, string) -> NonNeg): (t: real)
    ensures current == Some(target) ==> t == 0.0
    ensures current.None? ==> t == DefaultSlewTime
    ensures t >= 0.0
  {
    if current == Some(target) then 0.0
    else if current.None? then DefaultSlewTime
    else slew(current.value, target)
  }

  /** The state after one action. */
  function Step(s: State, a: Action, slew: (string, string) -> NonNeg): State
  {
    match a
    case Track(target, duration) => State(s.time + SlewFor(s.current, target, slew) + duration, Some(target), true)
    case Scan(duration) => s.(time := s.time + duration)
    case RasterScan(n, d) => s.(time := s.time + d * n)
  }

  /** The state after a run of actions in order. */
  function Replay(s: State, actions: seq<Action>, slew: (string, string) -> NonNeg): State
  {
    if |actions| == 0 then s
    else Step(Replay(s, actions[..|actions| - 1], slew), actions[|actions| - 1], slew)
  }

  /** An action whose durations and scan count are not negative. */
  predicate Forward(a: Action)
  {
    match a
    case Track(_, d) => d >= 0.0
    case Scan(d) => d >= 0.0
    case RasterScan(n, d) => n >= 0.0 && d >= 0.0
  }

  /** With no negative duration, the clock never runs backwards. */
  lemma {:induction false} ClockNeverDecreases(s: State, actions: seq<Action>, slew: (string, string) -> NonNeg)
    requires forall i :: 0 <= i < |actions| ==> Forward(actions[i])
    ensures Replay(s, actions, slew).time >= s.time
  {
    if |actions| > 0 {
      var prev := actions[..|actions| - 1];
      ClockNeverDecreases(s, prev, slew);
      var a := actions[|actions| - 1];
      assert Forward(a);
      if a.RasterScan? {
        NonnegProduct(a.scanDuration, a.numScans);
      }
    }
  }

  /** A session has tracked exactly when it had before or one of the actions is a track. */
  lemma {:induction false} TrackedIffTrack(s: State, actions: seq<Action>, slew: (string, string) -> NonNeg)
    ensures Replay(s, actions, slew).tracked <==> s.tracked || exists i :: 0 <= i < |actions| && actions[i].Track?
  {
    if |actions| > 0 {
      var prev := actions[..|actions| - 1];
      TrackedIffTrack(s, prev, slew);
      if exists i :: 0 <= i < |prev| && prev[i].Track? {
        var i :| 0 <= i < |prev| && prev[i].Track?;
        assert actions[i] == prev[i];
      }
      if exists i :: 0 <= i < |actions| && actions[i].Track? {
        var i :| 0 <= i < |actions| && actions[i].Track?;
        if i < |prev| {
          assert prev[i] == actions[i];
        }
      }
    }
  }

  /** After tracking a target, the session points at it: tracking it again takes no slew. */
  lemma TrackAgainNoSlew(s: State, target: string, d1: real, d2: real, slew: (string, string) -> NonNeg)
    ensures Replay(s, [Track(target, d1), Track(target, d2)], slew).time
      == s.time + SlewFor(s.current, target, slew) + d1 + d2
    ensures Replay(s, [Track(target, d1), Track(target, d2)], slew).current == Some(target)
  {
    var first, second := Action.Track(target, d1), Action.Track(target, d2);
    assert [first, second][..1] == [first];
    assert [first][..0] == [];
    var s1 := Step(s, first, slew);
    assert Replay(s, [first], slew) == s1;
    assert SlewFor(s1.current, target, slew) == 0.0;
    assert Replay(s, [first, second], slew) == Step(s1, second, slew);
  }

  /** `SimSession`: the simulated observation session. */
  class SimSession {
    const kat: SimKat
    const startTime: real
    const slew: (string, string) -> NonNeg
    var time: real
    var current: Option<string>
    var trackDone: bool
    /** The simulated observer's date, kept at the session clock after every action. */
    var observerTime: real

    /**
     * `SimSession.__init__`: the clock starts at the plan's `durations.start_time`
     * when there is one, else at the simulated observer's date.
     */
    constructor(kat: SimKat, observerDate: real, stamp: Yaml -> real, slew: (string, string) -> NonNeg)
      ensures this.kat == kat && this.slew == slew
      ensures var d := kat.obsParams;
        startTime == (if "durations" in d && d["durations"].YMap? && "start_time" in d["durations"].m
                      then stamp(d["durations"].m["start_time"]) else observerDate)
      ensures time == startTime && current == None && !trackDone && observerTime == observerDate
    {
      this.kat := kat;
      this.slew := slew;
      var d := kat.obsParams;
      var start := observerDate;
      if "durations" in d && d["durations"].YMap? && "start_time" in d["durations"].m {
        start := stamp(d["durations"].m["start_time"]);
      }
      startTime := start;
      time := start;
      current := None;
      trackDone := false;
      observerTime := observerDate;
    }

    function Now(): State
      reads this
    {
      State(time, current, trackDone)
    }

    /** `track`: slew (if needed) and track; the session then points at the target. */
    method Track(target: string, duration: real) returns (ok: bool)
      modifies this
      ensures Now() == Step(old(Now()), Action.Track(target, duration), slew)
      ensures observerTime == time && ok
    {
      trackDone := true;
      time := time + SlewFor(current, target, slew);
      observerTime := time;
      time := time + duration;
      observerTime := time;
      current := Some(target);
      ok := true;
    }

    /** `scan`: the clock moves on by the scan's duration. */
    method Scan(duration: real) returns (ok: bool)
      modifies this
      ensures Now() == Step(old(Now()), Action.Scan(duration), slew)
      ensures observerTime == time && ok
    {
      time := time + duration;
      observerTime := time;
      ok := true;
    }

    /** `raster_scan`: the clock moves on by the scan duration times the number of scans. */
    method RasterScan(numScans: real, scanDuration: real) returns (ok: bool)
      modifies this
      ensures Now() == Step(old(Now()), Action.RasterScan(numScans, scanDuration), slew)
      ensures observerTime == time && ok
    {
      time := time + scanDuration * numScans;
      observerTime := time;
      ok := true;
    }

    /**
     * `__exit__`: a session that tracked counts as finished; while loops remain, the
     * telescope moves on to the LST of the loop with that count.
     */
    method Exit() returns (r: Result<()>)
      modifies kat
      ensures kat.sessionCnt == old(kat.sessionCnt) + (if trackDone then 1 else 0)
      ensures var loops := Loops(kat.obsParams);
        loops.Err? ==> r == Err(loops.error) && kat.lst == old(kat.lst)
      ensures var loops := Loops(kat.obsParams);
        loops.Ok? && kat.sessionCnt >= |loops.value| ==> r == Ok(()) && kat.lst == old(kat.lst)
      ensures var loops := Loops(kat.obsParams);
        loops.Ok? && kat.sessionCnt < |loops.value| ==>
          var lst := LoopLst(loops.value, kat.sessionCnt);
          (lst.Ok? ==> r == Ok(()) && kat.lst == lst.value) &&
          (lst.Err? ==> r == Err(lst.error) && kat.lst == old(kat.lst))
    {
      if trackDone {
        kat.sessionCnt := kat.sessionCnt + 1;
      }
      var loops := Loops(kat.obsParams);
      if loops.Err? {
        return Err(loops.error);
      }
      if kat.sessionCnt < |loops.value| {
        var lst := LoopLst(loops.value, kat.sessionCnt);
        if lst.Err? {
          return Err(lst.error);
        }
        kat.lst := lst.value;
      }
      r := Ok(());
    }
  }
}
