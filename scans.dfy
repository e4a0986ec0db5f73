// astrokat/scans.py: the scan observations built from session calls. Every call
// to the session (a track, a scan, a raster scan, a reference pointing) and every
// noise-diode trigger is an entry of the session's log, together with the answer
// the session gave; the answers, the time each call takes and the ephemeris
// (scan-area extents, the drift transit point) are oracles. What the module
// decides is modelled: the order of the calls, the keyword arguments each scan
// gets, the swapped return pass, the corners of the scan area, the alternating
// scan lines and the results returned.
module Scans {
  import opened Common

  /** Lowest elevation, in degrees, at which a reverse scan starts. */
  const MinHorizonElForScan: real := 15.0

  /** Most corners a scan area may have. */
  const MaxPointsInScanArea: nat := 10

  /** A keyword-argument value. */
  datatype Arg = Num(x: real) | Pair(a: real, b: real) | Text(s: string) | Flag(on: bool) | Nothing

  type Kwargs = map<string, Arg>

  /** A pointing: a catalogue target by its description, or a fixed azimuth and elevation. */
  datatype Pointing = Body(description: string) | AzEl(name: string, az: real, el: real)

  /** One scan-area corner: its index and the `radec_p<i>` value. */
  datatype Corner = Corner(index: nat, radec: Arg)

  /** What the module asks of the session and of the noise diode. */
  datatype Call =
    | NdTrigger(period: Option<real>, leadTime: Option<real>)
    | SessionTrack(target: Pointing, duration: real)
    | SessionScan(target: Pointing, kwargs: Kwargs)
    | SessionRasterScan(target: Pointing, kwargs: Kwargs)
    | SessionReferencePointing(target: Pointing, kwargs: Kwargs)

  /** A call and the answer the session gave to it. */
  datatype Entry = Entry(call: Call, answer: bool)

  /** The elevation (degrees), azimuth range and time range of a scan area, as the ephemeris gives them. */
  datatype Extents = Extents(el: real, azMin: real, azMax: real, tStart: real, tEnd: real)

  /** The session: its log of calls and answers, and its clock. */
  class ScanSession {
    var log: seq<Entry>
    var clock: real
    const reply: (seq<Entry>, Call) -> bool
    const elapsed: (seq<Entry>, Call) -> NonNeg

    constructor(clock: real, reply: (seq<Entry>, Call) -> bool, elapsed: (seq<Entry>, Call) -> NonNeg)
      ensures log == [] && this.clock == clock && this.reply == reply && this.elapsed == elapsed
    {
      log := [];
      this.clock := clock;
      this.reply := reply;
      this.elapsed := elapsed;
    }

    /** Make one call: it is logged with the session's answer and takes the session's time. */
    method Do(call: Call) returns (answer: bool)
      modifies this
      ensures answer == reply(old(log), call)
      ensures log == old(log) + [Entry(call, answer)]
      ensures clock == old(clock) + elapsed(old(log), call)
    {
      answer := reply(log, call);
      clock := clock + elapsed(log, call);
      log := log + [Entry(call, answer)];
    }
  }

  /** `kwargs.get(key, default)` */
  function Get(kwargs: Kwargs, key: string, default: Arg): Arg
  {
    if key in kwargs then kwargs[key] else default
  }

  /** Python truth of a keyword value. */
  predicate Truthy(a: Arg)
  {
    match a
    case Num(x) => x != 0.0
    case Pair(_, _) => true
    case Text(s) => s != ""
    case Flag(b) => b
    case Nothing => false
  }

  /** Two log entries: the noise-diode trigger, then one session scan whose answer is `visible`. */
  ghost predicate ScannedOnce(before: seq<Entry>, after: seq<Entry>, target: Pointing,
                              period: Option<real>, leadTime: Option<real>, kwargs: Kwargs, visible: bool)
  {
    |after| == |before| + 2 && after[..|before|] == before &&
    after[|before|].call == NdTrigger(period, leadTime) &&
    after[|before| + 1] == Entry(SessionScan(target, kwargs), visible)
  }

  /** `scan`: trigger the noise diode, then one session scan with the given arguments; its answer is returned. */
  method Scan(session: ScanSession, target: Pointing, period: Option<real>, leadTime: Option<real>, kwargs: Kwargs)
    returns (visible: bool)
    modifies session
    ensures ScannedOnce(old(session.log), session.log, target, period, leadTime, kwargs, visible)
  {
    var _ := session.Do(NdTrigger(period, leadTime));
    visible := session.Do(SessionScan(target, kwargs));
  }

  /** `forwardscan`: exactly a `scan` with the same arguments. */
  method Forwardscan(session: ScanSession, target: Pointing, period: Option<real>, leadTime: Option<real>, kwargs: Kwargs)
    returns (visible: bool)
    modifies session
    ensures ScannedOnce(old(session.log), session.log, target, period, leadTime, kwargs, visible)
  {
    visible := Scan(session, target, period, leadTime, kwargs);
  }

  /** `raster_scan`: trigger the noise diode, then hand every argument to the session's raster scan. */
  method RasterScan(session: ScanSession, target: Pointing, period: Option<real>, leadTime: Option<real>, kwargs: Kwargs)
    returns (r: bool)
    modifies session
    ensures var n := |old(session.log)|;
      |session.log| == n + 2 && session.log[..n] == old(session.log) &&
      session.log[n].call == NdTrigger(period, leadTime) &&
      session.log[n + 1] == Entry(SessionRasterScan(target, kwargs), r)
  {
    var _ := session.Do(NdTrigger(period, leadTime));
    r := session.Do(SessionRasterScan(target, kwargs));
  }

  /** `reference_pointing_scan`: trigger the noise diode, then the session's reference pointing. */
  method ReferencePointingScan(session: ScanSession, target: Pointing, period: Option<real>, leadTime: Option<real>,
                               kwargs: Kwargs) returns (r: bool)
    modifies session
    ensures var n := |old(session.log)|;
      |session.log| == n + 2 && session.log[..n] == old(session.log) &&
      session.log[n].call == NdTrigger(period, leadTime) &&
      session.log[n + 1] == Entry(SessionReferencePointing(target, kwargs), r)
  {
    var _ := session.Do(NdTrigger(period, leadTime));
    r := session.Do(SessionReferencePointing(target, kwargs));
  }

  /**
   * `drift_scan`: trigger the noise diode, then track, for the whole duration, the
   * fixed azimuth and elevation where the target is half-way through it, counted
   * from the reference antenna's observer date. The new pointing carries no name.
   */
  method DriftScan(session: ScanSession, observerDate: real, target: Pointing, duration: real, period: Option<real>,
                   leadTime: Option<real>, azel: (Pointing, real) -> (real, real)) returns (r: bool)
    modifies session
    ensures var n := |old(session.log)|;
      var p := azel(target, observerDate + duration / 2.0);
      |session.log| == n + 2 && session.log[..n] == old(session.log) &&
      session.log[n].call == NdTrigger(period, leadTime) &&
      session.log[n + 1] == Entry(SessionTrack(AzEl("", p.0, p.1), duration), r)
  {
    var _ := session.Do(NdTrigger(period, leadTime));
    var p := azel(target, observerDate + duration / 2.0);
    r := session.Do(SessionTrack(AzEl("", p.0, p.1), duration));
  }

  // ---------------------------------------------------------------- return scan

  /** The arguments of the return pass: start and end swapped, everything else as it was. */
  function Swapped(kwargs: Kwargs): (r: Kwargs)
    requires "start" in kwargs && "end" in kwargs
    ensures r.Keys == kwargs.Keys
    ensures r["start"] == kwargs["end"] && r["end"] == kwargs["start"]
    ensures forall k :: k in kwargs && k != "start" && k != "end" ==> r[k] == kwargs[k]
  {
    kwargs["start" := kwargs["end"]]["end" := kwargs["start"]]
  }

  /** Swapping twice gives the arguments back. */
  lemma SwappedTwice(kwargs: Kwargs)
    requires "start" in kwargs && "end" in kwargs
    ensures Swapped(Swapped(kwargs)) == kwargs
  {
    var twice := Swapped(Swapped(kwargs));
    assert forall k :: k in kwargs ==> twice[k] == kwargs[k];
  }

  /**
   * `return_scan`: a scan with the given arguments, then a scan with start and end
   * swapped; the result is the AND of their answers. Without a start or an end the
   * second pass raises after the first one ran.
   */
  method ReturnScan(session: ScanSession, target: Pointing, period: Option<real>, leadTime: Option<real>, kwargs: Kwargs)
    returns (r: Result<bool>)
    modifies session
    ensures var n := |old(session.log)|;
      |session.log| >= n + 2 && ScannedOnce(old(session.log), session.log[..n + 2], target, period, leadTime, kwargs,
                                            session.log[n + 1].answer)
    ensures "end" !in kwargs ==> r == Err(KeyError("end")) && |session.log| == |old(session.log)| + 2
    ensures "end" in kwargs && "start" !in kwargs ==> r == Err(KeyError("start")) && |session.log| == |old(session.log)| + 2
    ensures "start" in kwargs && "end" in kwargs ==>
      var n := |old(session.log)|;
      r.Ok? && |session.log| == n + 4 &&
      ScannedOnce(session.log[..n + 2], session.log, target, period, leadTime, Swapped(kwargs), session.log[n + 3].answer) &&
      r.value == (session.log[n + 1].answer && session.log[n + 3].answer)
  {
    ghost var n := |session.log|;
    var first := Scan(session, target, period, leadTime, kwargs);
    if "end" !in kwargs {
      return Err(KeyError("end"));
    }
    if "start" !in kwargs {
      return Err(KeyError("start"));
    }
    ghost var mid := session.log;
    var second := Scan(session, target, period, leadTime, Swapped(kwargs));
    assert session.log[..n + 2] == mid;
    r := Ok(first && second);
  }

  // ---------------------------------------------------------------- reverse scan

  /** The keys of the scan-area corners, `radec_p1` to `radec_p10`. */
  const CornerKeys: seq<string> := ["radec_p1", "radec_p2", "radec_p3", "radec_p4", "radec_p5",
                                    "radec_p6", "radec_p7", "radec_p8", "radec_p9", "radec_p10"]

  /** The corners among the first `m` keys, in index order, skipping absent ones. */
  function CornersUpTo(kwargs: Kwargs, m: nat): (cs: seq<Corner>)
    requires m <= |CornerKeys|
    ensures |cs| <= m
    ensures forall c :: c in cs ==>
      1 <= c.index <= m && CornerKeys[c.index - 1] in kwargs && c.radec == kwargs[CornerKeys[c.index - 1]]
    ensures forall i :: 0 <= i < m && CornerKeys[i] in kwargs ==> Corner(i + 1, kwargs[CornerKeys[i]]) in cs
    ensures forall j, k :: 0 <= j < k < |cs| ==> cs[j].index < cs[k].index
  {
    if m == 0 then []
    else
      var prev := CornersUpTo(kwargs, m - 1);
      if CornerKeys[m - 1] in kwargs then prev + [Corner(m, kwargs[CornerKeys[m - 1]])] else prev
  }

  /** The corners of the scan area: every `radec_p<i>` present, in index order. */
  function Corners(kwargs: Kwargs): seq<Corner>
  {
    CornersUpTo(kwargs, |CornerKeys|)
  }

  /** Scan-line offsets from the middle of the azimuth range: the start is the end mirrored. */
  function ScanOffsets(azMin: real, azMax: real): (se: (real, real))
    ensures se.0 == -se.1
    ensures se.1 - se.0 == azMax - azMin
  {
    var mid := (azMin + azMax) / 2.0;
    (azMin - mid, azMax - mid)
  }

  /** The arguments of one scan line: from the start offset to the end one, or back. */
  function LineArgs(base: Kwargs, s: real, e: real, direction: bool): (r: Kwargs)
    ensures "start" in r && "end" in r
  {
    if direction then base["start" := Pair(s, 0.0)]["end" := Pair(e, 0.0)]
    else base["start" := Pair(e, 0.0)]["end" := Pair(s, 0.0)]
  }

  /** The next line runs the other way: its arguments are this line's with start and end swapped. */
  lemma LinesAlternate(base: Kwargs, s: real, e: real, direction: bool)
    ensures LineArgs(base, s, e, !direction) == Swapped(LineArgs(base, s, e, direction))
  {
    var a, b := LineArgs(base, s, e, !direction), Swapped(LineArgs(base, s, e, direction));
    assert a.Keys == b.Keys;
    assert forall k :: k in a ==> a[k] == b[k];
  }

  /** The arguments of line `j` of a run whose first line has arguments `first`: every other line is reversed. */
  function LineAt(first: Kwargs, j: nat): Kwargs
    requires "start" in first && "end" in first
  {
    if j % 2 == 0 then first else Swapped(first)
  }

  /** The entries of a run of scan lines: a trigger then a scan, line after line, each line the previous one reversed. */
  ghost predicate Lines(entries: seq<Entry>, target: Pointing, period: Option<real>, leadTime: Option<real>, first: Kwargs)
  {
    "start" in first && "end" in first && |entries| % 2 == 0 &&
    forall j :: 0 <= j < |entries| / 2 ==>
      entries[2 * j].call == NdTrigger(period, leadTime) &&
      entries[2 * j + 1].call == SessionScan(target, LineAt(first, j))
  }

  /** Some scan among the entries was answered as visible. */
  ghost predicate SawTarget(entries: seq<Entry>)
  {
    exists k :: 0 <= k < |entries| && entries[k].call.SessionScan? && entries[k].answer
  }

  /** The first scan line of a reverse scan runs between two offsets of which one is the other mirrored. */
  ghost predicate Mirrored(first: Kwargs)
  {
    "start" in first && "end" in first && first["start"].Pair? && first["end"].Pair? &&
    first["start"].a == -first["end"].a
  }

  /**
   * `reversescan`: over the area with corners `radec_p1`..`radec_p10` (at least the
   * first two), slew to the start of the scan line, give up below 15 degrees or when
   * the start is not visible, then scan line after line in alternating directions
   * until the area has crossed; true when any line saw the target. `fuel` bounds
   * the number of lines.
   */
  method Reversescan(session: ScanSession, target: Pointing, name: string, period: Option<real>, leadTime: Option<real>,
                     kwargs: Kwargs, extents: (seq<Corner>, real, real) -> Extents,
                     lineDuration: real, fuel: nat) returns (r: bool)
    modifies session
    ensures var n := |old(session.log)|;
      |session.log| > n && session.log[..n] == old(session.log) &&
      session.log[n].call == NdTrigger(period, leadTime)
    ensures !("radec_p1" in kwargs && "radec_p2" in kwargs) ==> !r && |session.log| == |old(session.log)| + 1
    ensures var n := |old(session.log)|;
      var t := old(session.clock) + old(session.elapsed(session.log, NdTrigger(period, leadTime)));
      "radec_p1" in kwargs && "radec_p2" in kwargs && extents(Corners(kwargs), t, 1.0).el < MinHorizonElForScan ==>
        !r && |session.log| == n + 1
    ensures var n := |old(session.log)|;
      |session.log| > n + 1 ==>
        session.log[n + 1].call.SessionTrack? && session.log[n + 1].call.duration == 0.0 &&
        (!session.log[n + 1].answer ==> !r && |session.log| == n + 2)
    ensures var n := |old(session.log)|;
      |session.log| > n + 3 ==>
        session.log[n + 3].call.SessionScan? && Mirrored(session.log[n + 3].call.kwargs) &&
        Lines(session.log[n + 2..], session.log[n + 3].call.target, period, leadTime, session.log[n + 3].call.kwargs)
    ensures r <==> SawTarget(session.log[|old(session.log)|..])
  {
    ghost var n := |session.log|;
    var _ := session.Do(NdTrigger(period, leadTime));
    if !("radec_p1" in kwargs && "radec_p2" in kwargs) {
      assert !SawTarget(session.log[n..]) by {
        assert session.log[n..] == [session.log[n]];
      }
      return false;
    }
    var corners := Corners(kwargs);
    var direction := Truthy(Get(kwargs, "direction", Flag(false)));
    var ex := extents(corners, session.clock, 1.0);
    if ex.el < MinHorizonElForScan {
      assert !SawTarget(session.log[n..]) by {
        assert session.log[n..] == [session.log[n]];
      }
      return false;
    }
    var visible := session.Do(SessionTrack(AzEl(name, ex.azMin, ex.el), 0.0));
    assert !SawTarget(session.log[n..]) by {
      assert session.log[n..] == [session.log[n], session.log[n + 1]];
    }
    if !visible {
      return false;
    }
    var area := extents(corners, session.clock, 0.1);
    var se := ScanOffsets(area.azMin, area.azMax);
    var scanTarget := AzEl(name, (area.azMin + area.azMax) / 2.0, area.el);
    var base: Kwargs := map["duration" := Num(lineDuration)];
    if "projection" in kwargs {
      base := base["projection" := kwargs["projection"]];
    }
    ghost var before := session.log;
    var lines := ScanLines(session, scanTarget, period, leadTime, base, se.0, se.1, direction, area.tEnd, fuel);
    r := lines > 0;
    assert session.log[n..] == session.log[n..n + 2] + session.log[n + 2..];
    SawTargetAppend(session.log[n..n + 2], session.log[n + 2..]);
    if |session.log| > n + 3 {
      ghost var first := LineArgs(base, se.0, se.1, direction);
      assert before == session.log[..n + 2];
      assert session.log[n + 2..][1] == session.log[n + 3];
      assert session.log[n + 3].call == SessionScan(scanTarget, LineAt(first, 0));
      FirstLineMirrored(base, se.0, se.1, direction);
    }
  }

  lemma FirstLineMirrored(base: Kwargs, s: real, e: real, direction: bool)
    requires s == -e
    ensures Mirrored(LineArgs(base, s, e, direction))
  {
  }

  /** Seeing the target in `a + b` when `a` never saw it is seeing it in `b`. */
  lemma SawTargetAppend(a: seq<Entry>, b: seq<Entry>)
    requires !SawTarget(a)
    ensures SawTarget(a + b) <==> SawTarget(b)
  {
    if SawTarget(b) {
      var k :| 0 <= k < |b| && b[k].call.SessionScan? && b[k].answer;
      assert (a + b)[|a| + k] == b[k];
    }
    if SawTarget(a + b) {
      var k :| 0 <= k < |a + b| && (a + b)[k].call.SessionScan? && (a + b)[k].answer;
      assert (a + b)[k] == b[k - |a|];
    }
  }

  /** The loop of `reversescan`: one line per pass, the direction flipping each time, while the clock has not passed the end. */
  method ScanLines(session: ScanSession, scanTarget: Pointing, period: Option<real>, leadTime: Option<real>,
                   base: Kwargs, s: real, e: real, direction0: bool, tEnd: real, fuel: nat) returns (count: nat)
    modifies session
    ensures var n := |old(session.log)|;
      |session.log| >= n && session.log[..n] == old(session.log) &&
      Lines(session.log[n..], scanTarget, period, leadTime, LineArgs(base, s, e, direction0))
    ensures count > 0 <==> SawTarget(session.log[|old(session.log)|..])
    ensures |session.log| < |old(session.log)| + 2 * fuel ==> session.clock > tEnd
  {
    ghost var n := |session.log|;
    ghost var first := LineArgs(base, s, e, direction0);
    var direction := direction0;
    count := 0;
    var lines: nat := 0;
    while session.clock <= tEnd && lines < fuel
      invariant |session.log| == n + 2 * lines && session.log[..n] == old(session.log)
      invariant lines <= fuel
      invariant Lines(session.log[n..], scanTarget, period, leadTime, first)
      invariant LineArgs(base, s, e, direction) == LineAt(first, lines)
      invariant count > 0 <==> SawTarget(session.log[n..])
      decreases fuel - lines
    {
      ghost var before := session.log;
      var args := LineArgs(base, s, e, direction);
      var visible := Scan(session, scanTarget, period, leadTime, args);
      LinesSnoc(before[n..], session.log[n..], scanTarget, period, leadTime, first, visible);
      LinesAlternate(base, s, e, direction);
      LineAtNext(first, lines);
      direction := !direction;
      if visible {
        count := count + 1;
      }
      lines := lines + 1;
    }
  }

  /** Line `j + 1` is line `j` reversed. */
  lemma LineAtNext(first: Kwargs, j: nat)
    requires "start" in first && "end" in first
    ensures LineAt(first, j + 1) == Swapped(LineAt(first, j))
  {
    if j % 2 == 1 {
      SwappedTwice(first);
    }
  }

  /** One more line keeps the run well formed, and the run saw the target exactly when it did before or the new line does. */
  lemma LinesSnoc(entries: seq<Entry>, more: seq<Entry>, target: Pointing, period: Option<real>, leadTime: Option<real>,
                  first: Kwargs, visible: bool)
    requires Lines(entries, target, period, leadTime, first)
    requires |more| == |entries| + 2 && more[..|entries|] == entries
    requires more[|entries|].call == NdTrigger(period, leadTime)
    requires more[|entries| + 1] == Entry(SessionScan(target, LineAt(first, |entries| / 2)), visible)
    ensures Lines(more, target, period, leadTime, first)
    ensures SawTarget(more) <==> SawTarget(entries) || visible
  {
    forall j | 0 <= j < |more| / 2
      ensures more[2 * j].call == NdTrigger(period, leadTime)
      ensures more[2 * j + 1].call == SessionScan(target, LineAt(first, j))
    {
      if j < |entries| / 2 {
        assert more[2 * j] == entries[2 * j] && more[2 * j + 1] == entries[2 * j + 1];
      }
    }
    if SawTarget(more) && !visible {
      var k :| 0 <= k < |more| && more[k].call.SessionScan? && more[k].answer;
      assert k < |entries|;
      assert entries[k] == more[k];
    }
    if SawTarget(entries) {
      var k :| 0 <= k < |entries| && entries[k].call.SessionScan? && entries[k].answer;
      assert more[k] == entries[k];
    }
    if visible {
      assert more[|more| - 1].call.SessionScan?;
    }
  }
}
