// scripts/observe.py: the telescope setup of the observation script. The katcp
// requests it sends become entries of a request log: `dig_noise_source` to the
// digitisers, and the F-engine gain and FFT-shift requests. `time.time` at the
// call is a parameter; the antennas of the subarray and the correlator inputs are
// fixed by the connection.
module ObserveScript {
  import opened Common
  import opened Utility
  import opened NoiseDiode

  /** When a digitiser applies a request: at once ('now'), or at a given time. */
  datatype When = Now | At(t: real)

  /** One request the script sends. */
  datatype Req =
    /** `dig_noise_source(when, on_fraction[, cycle_length])` */
    | NdSource(to: Recipient, when: When, onFraction: real, cycleLength: Option<real>)
    /** the F-engine `gain` of one input */
    | Gain(input: string, gain: Yaml)
    /** the F-engine `fft_shift` */
    | FftShift(shift: Yaml)

  /** The pattern names that are not antennas. */
  const AllPattern: string := "all"
  const CyclePattern: string := "cycle"

  /** `dig_noise_source('now', 0)` to every antenna: the diodes off. */
  const AllOff: Req := NdSource(AllAntennas, Now, 0.0, None)

  const UnknownPattern: Error := ValueError("Unknown ND cycle option, cannot apply requested pattern")
  const NoInputs: Error := RuntimeError("Failed to get correlator input labels, cannot set the F-engine gains")

  // ---------------------------------------------------------------- set_nd_pattern

  /** The request to antenna `ant` of a pattern. */
  function AntRequest(ant: string, when: When, cycle: real, onFrac: real): Req
  {
    NdSource(Antenna(ant), when, onFrac, Some(cycle))
  }

  /** The 'cycle' requests from time `t` on: each antenna in turn, the time moving on by `step` after each. */
  function CycleFrom(ants: seq<string>, t: real, step: real, cycle: real, onFrac: real): (r: seq<Req>)
    ensures |r| == |ants|
  {
    if |ants| == 0 then []
    else [AntRequest(ants[0], At(t), cycle, onFrac)] + CycleFrom(ants[1..], t + step, step, cycle, onFrac)
  }

  /** The request of the antenna `i` places along is timed `i` steps after the first. */
  lemma {:induction false} CycleAt(ants: seq<string>, t: real, step: real, cycle: real, onFrac: real, i: nat)
    requires i < |ants|
    ensures CycleFrom(ants, t, step, cycle, onFrac)[i] == AntRequest(ants[i], At(t + i as real * step), cycle, onFrac)
  {
    if i > 0 {
      CycleAt(ants[1..], t + step, step, cycle, onFrac, i - 1);
      assert t + step + (i - 1) as real * step == t + i as real * step;
    }
  }

  /** The time `i` steps of `step` seconds after `t`. */
  function StepTime(t: real, i: nat, step: real): real
  {
    t + i as real * step
  }

  /** One antenna more at the end of the list: one request more, timed after all the others. */
  lemma {:induction false} CycleSnoc(ants: seq<string>, ant: string, t: real, step: real, cycle: real, onFrac: real)
    ensures CycleFrom(ants + [ant], t, step, cycle, onFrac) ==
      CycleFrom(ants, t, step, cycle, onFrac) + [AntRequest(ant, At(StepTime(t, |ants|, step)), cycle, onFrac)]
  {
    if |ants| > 0 {
      assert (ants + [ant])[1..] == ants[1..] + [ant];
      CycleSnoc(ants[1..], ant, t + step, step, cycle, onFrac);
      assert StepTime(t + step, |ants| - 1, step) == StepTime(t, |ants|, step);
    }
  }

  /** The 'cycle' requests for one more antenna of the list end with that antenna's request. */
  lemma CyclePrefixStep(ants: seq<string>, i: nat, t: real, step: real, cycle: real, onFrac: real)
    requires i < |ants|
    ensures CycleFrom(ants[..i + 1], t, step, cycle, onFrac) ==
      CycleFrom(ants[..i], t, step, cycle, onFrac) + [AntRequest(ants[i], At(StepTime(t, i, step)), cycle, onFrac)]
  {
    assert ants[..i + 1] == ants[..i] + [ants[i]];
    CycleSnoc(ants[..i], ants[i], t, step, cycle, onFrac);
  }

  /**
   * `set_nd_pattern` at time `now` for the subarray antennas `ants`: 'all' triggers
   * every diode together a second from now; 'cycle' triggers them one after another
   * from two seconds from now; an antenna's name triggers that one at once; any
   * other pattern is refused.
   */
  function NdPattern(ants: seq<string>, pattern: string, cycle: real, onFrac: real, now: real): (r: Result<seq<Req>>)
    ensures r.Err? <==> pattern != AllPattern && pattern != CyclePattern && pattern !in ants
    ensures r.Err? ==> r.error == UnknownPattern
    ensures r.Ok? && pattern != CyclePattern ==> |r.value| == 1
    ensures r.Ok? && pattern == CyclePattern ==> |r.value| == |ants|
  {
    if pattern == AllPattern then Ok([NdSource(AllAntennas, At(now + 1.0), onFrac, Some(cycle))])
    else if pattern == CyclePattern then Ok(CycleFrom(ants, now + 2.0, cycle * onFrac, cycle, onFrac))
    else if pattern in ants then Ok([AntRequest(pattern, Now, cycle, onFrac)])
    else Err(UnknownPattern)
  }

  /**
   * The requests of each pattern: one to every antenna a second from now for 'all';
   * for 'cycle' one per antenna in subarray order, the first two seconds from now
   * and each later one cycle_length * on_fraction after the one before; for an
   * antenna's name one to that antenna, applied at once.
   */
  lemma NdPatternRequests(ants: seq<string>, pattern: string, cycle: real, onFrac: real, now: real)
    requires NdPattern(ants, pattern, cycle, onFrac, now).Ok?
    ensures var reqs := NdPattern(ants, pattern, cycle, onFrac, now).value;
      if pattern == AllPattern then reqs == [NdSource(AllAntennas, At(now + 1.0), onFrac, Some(cycle))]
      else if pattern == CyclePattern then
        forall i :: 0 <= i < |ants| ==> reqs[i] == NdSource(Antenna(ants[i]), At(now + 2.0 + i as real * (cycle * onFrac)), onFrac, Some(cycle))
      else reqs == [NdSource(Antenna(pattern), Now, onFrac, Some(cycle))]
  {
    if pattern != AllPattern && pattern == CyclePattern {
      forall i | 0 <= i < |ants|
        ensures CycleFrom(ants, now + 2.0, cycle * onFrac, cycle, onFrac)[i] ==
          NdSource(Antenna(ants[i]), At(now + 2.0 + i as real * (cycle * onFrac)), onFrac, Some(cycle))
      {
        CycleAt(ants, now + 2.0, cycle * onFrac, cycle, onFrac, i);
      }
    }
  }

  // ---------------------------------------------------------------- set_fengines

  /** The requests for one input: its gain when gains are given, the FFT shift when a shift is given. */
  function InputRequests(input: string, gains: Option<Yaml>, shift: Option<Yaml>): seq<Req>
  {
    (if gains.Some? then [Gain(input, gains.value)] else []) + (if shift.Some? then [FftShift(shift.value)] else [])
  }

  /** The requests for the inputs, in order. */
  function AllInputs(inputs: seq<string>, gains: Option<Yaml>, shift: Option<Yaml>): (r: seq<Req>)
  {
    if |inputs| == 0 then []
    else AllInputs(inputs[..|inputs| - 1], gains, shift) + InputRequests(inputs[|inputs| - 1], gains, shift)
  }

  /**
   * The requests for the inputs: per input, a gain request exactly when gains are
   * given and an FFT-shift request exactly when a shift is given.
   */
  lemma {:induction false} AllInputsContents(inputs: seq<string>, gains: Option<Yaml>, shift: Option<Yaml>, q: Req)
    ensures q.NdSource? ==> q !in AllInputs(inputs, gains, shift)
    ensures q.Gain? ==> (q in AllInputs(inputs, gains, shift) <==> gains == Some(q.gain) && q.input in inputs)
    ensures q.FftShift? ==> (q in AllInputs(inputs, gains, shift) <==> shift == Some(q.shift) && |inputs| > 0)
  {
    if |inputs| > 0 {
      var front := inputs[..|inputs| - 1];
      var last := inputs[|inputs| - 1];
      AllInputsContents(front, gains, shift, q);
      assert inputs == front + [last];
      assert q in AllInputs(inputs, gains, shift) <==> q in AllInputs(front, gains, shift) || q in InputRequests(last, gains, shift);
    }
  }

  /** Every input contributes one request per setting given. */
  lemma {:induction false} AllInputsLength(inputs: seq<string>, gains: Option<Yaml>, shift: Option<Yaml>)
    ensures |AllInputs(inputs, gains, shift)| == |inputs| * ((if gains.Some? then 1 else 0) + (if shift.Some? then 1 else 0))
  {
    if |inputs| > 0 {
      var front := inputs[..|inputs| - 1];
      AllInputsLength(front, gains, shift);
      var k := (if gains.Some? then 1 else 0) + (if shift.Some? then 1 else 0);
      assert |front| * k + k == |inputs| * k;
    }
  }

  /** `set_fengines`: no correlator inputs raise; otherwise the requests of every input, in order. */
  function Fengines(inputs: seq<string>, gains: Option<Yaml>, shift: Option<Yaml>): (r: Result<seq<Req>>)
    ensures r.Err? <==> |inputs| == 0
    ensures r.Err? ==> r.error == NoInputs
  {
    if |inputs| == 0 then Err(NoInputs) else Ok(AllInputs(inputs, gains, shift))
  }

  /** A YAML null is Python's None. */
  function NoneIfNull(v: Yaml): Option<Yaml>
  {
    if v == YNull then None else Some(v)
  }

  /** The F-engine settings of the correlator file: both keys must be there. */
  function FengSettings(feng: Yaml): Result<(Option<Yaml>, Option<Yaml>)>
  {
    if !feng.YMap? then Err(TypeError("'Fengine' settings are not a mapping"))
    else if "requant_gain" !in feng.m then Err(KeyError("requant_gain"))
    else if "fft_shift" !in feng.m then Err(KeyError("fft_shift"))
    else Ok((NoneIfNull(feng.m["requant_gain"]), NoneIfNull(feng.m["fft_shift"])))
  }

  // ---------------------------------------------------------------- telescope

  /** The requests entering the telescope context sends, and how entering ends. */
  datatype Entry = Entry(requests: seq<Req>, outcome: Result<()>)

  /**
   * `telescope.__enter__`: a noise source sets the pattern, else every diode is
   * switched off at once; then, with F-engine settings, the F-engines are set up.
   * A failing step ends it with the requests sent so far.
   */
  function Entered(ants: seq<string>, inputs: seq<string>, now: real,
                   noiseSource: Option<(real, real)>, pattern: string, feng: Yaml): (e: Entry)
    ensures noiseSource.None? ==> |e.requests| > 0 && e.requests[0] == AllOff
    ensures feng == YNull ==> (e.outcome.Ok? <==>
      noiseSource.None? || NdPattern(ants, pattern, noiseSource.value.0, noiseSource.value.1, now).Ok?)
  {
    var nd := if noiseSource.Some? then NdPattern(ants, pattern, noiseSource.value.0, noiseSource.value.1, now)
              else Ok([AllOff]);
    if nd.Err? then Entry([], Err(nd.error))
    else if feng == YNull then Entry(nd.value, Ok(()))
    else
      match FengSettings(feng)
      case Err(e) => Entry(nd.value, Err(e))
      case Ok(settings) =>
        match Fengines(inputs, settings.0, settings.1)
        case Err(e) => Entry(nd.value, Err(e))
        case Ok(reqs) => Entry(nd.value + reqs, Ok(()))
  }

  /** An unknown pattern sends nothing and stops the entry before the F-engines. */
  lemma UnknownPatternSendsNothing(ants: seq<string>, inputs: seq<string>, now: real,
                                   noiseSource: (real, real), pattern: string, feng: Yaml)
    requires pattern != AllPattern && pattern != CyclePattern && pattern !in ants
    ensures Entered(ants, inputs, now, Some(noiseSource), pattern, feng) == Entry([], Err(UnknownPattern))
  {
  }

  /**
   * The connection to the array: the subarray antennas, the correlator inputs, the
   * time at the call and the log of requests sent.
   */
  class Kat {
    var requests: seq<Req>
    const ants: seq<string>
    const inputs: seq<string>
    const now: real

    constructor (ants: seq<string>, inputs: seq<string>, now: real)
      ensures requests == [] && this.ants == ants && this.inputs == inputs && this.now == now
    {
      requests := [];
      this.ants := ants;
      this.inputs := inputs;
      this.now := now;
    }

    /** `set_nd_pattern`: the requests of the pattern are sent; an unknown pattern sends none. */
    method SetNdPattern(pattern: string, cycle: real, onFrac: real) returns (r: Result<()>)
      modifies this
      ensures var p := NdPattern(ants, pattern, cycle, onFrac, now);
        if p.Ok? then r == Ok(()) && requests == old(requests) + p.value
        else r == Err(p.error) && requests == old(requests)
    {
      if pattern == AllPattern {
        var timestamp := now + 1.0;
        requests := requests + [NdSource(AllAntennas, At(timestamp), onFrac, Some(cycle))];
      } else if pattern == CyclePattern {
        SendCycle(now + 2.0, cycle * onFrac, cycle, onFrac);
      } else if pattern in ants {
        requests := requests + [AntRequest(pattern, Now, cycle, onFrac)];
      } else {
        return Err(UnknownPattern);
      }
      r := Ok(());
    }

    /** The loop of the 'cycle' pattern: one request per antenna, each `step` seconds after the one before. */
    method SendCycle(start: real, step: real, cycle: real, onFrac: real)
      modifies this
      ensures requests == old(requests) + CycleFrom(ants, start, step, cycle, onFrac)
    {
      var timestamp := start;
      for i := 0 to |ants|
        invariant timestamp == StepTime(start, i, step)
        invariant requests == old(requests) + CycleFrom(ants[..i], start, step, cycle, onFrac)
      {
        CyclePrefixStep(ants, i, start, step, cycle, onFrac);
        assert StepTime(start, i + 1, step) == StepTime(start, i, step) + step;
        requests := requests + [AntRequest(ants[i], At(timestamp), cycle, onFrac)];
        timestamp := timestamp + step;
      }
      assert ants[..|ants|] == ants;
    }

    /** `set_fengines`: per correlator input, the gain and then the FFT-shift request when given. */
    method SetFengines(gains: Option<Yaml>, shift: Option<Yaml>) returns (r: Result<()>)
      modifies this
      ensures var f := Fengines(inputs, gains, shift);
        if f.Ok? then r == Ok(()) && requests == old(requests) + f.value
        else r == Err(f.error) && requests == old(requests)
    {
      if |inputs| == 0 {
        return Err(NoInputs);
      }
      for i := 0 to |inputs|
        invariant requests == old(requests) + AllInputs(inputs[..i], gains, shift)
      {
        assert inputs[..i + 1][..i] == inputs[..i];
        if gains.Some? {
          requests := requests + [Gain(inputs[i], gains.value)];
        }
        if shift.Some? {
          requests := requests + [FftShift(shift.value)];
        }
      }
      assert inputs[..|inputs|] == inputs;
      r := Ok(());
    }

    /** `telescope.__enter__` on this connection. */
    method Enter(noiseSource: Option<(real, real)>, pattern: string, feng: Yaml) returns (r: Result<()>)
      modifies this
      ensures var e := Entered(ants, inputs, now, noiseSource, pattern, feng);
        requests == old(requests) + e.requests && r == e.outcome
    {
      if noiseSource.Some? {
        r := SetNdPattern(pattern, noiseSource.value.0, noiseSource.value.1);
        if r.Err? {
          return;
        }
      } else {
        requests := requests + [AllOff];
      }
      if feng != YNull {
        var settings := FengSettings(feng);
        if settings.Err? {
          return Err(settings.error);
        }
        r := SetFengines(settings.value.0, settings.value.1);
        if r.Err? {
          return;
        }
      }
      r := Ok(());
    }

    /** `telescope.__exit__`: every diode is switched off at once, whatever happened before. */
    method Exit()
      modifies this
      ensures requests == old(requests) + [AllOff]
    {
      requests := requests + [AllOff];
    }
  }
}
