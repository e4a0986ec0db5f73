// astrokat/noisediode.py: noise-diode requests to the digitisers. The katcp
// requests become entries of a request log, `time.time` and `time.sleep` become a
// clock field, and the time each digitiser reports back for a request is an
// oracle. What the module decides is modelled: the activation time, the on
// fraction, which antennas get a request and when, the cycle-length checks and
// quantisation, and the reply whose time is returned.
module NoiseDiode {
  import opened Common
  import opened Text
  import opened Numbers
  import Package

  /** Lead time, in seconds, between a request and the activation it asks for. */
  const DefaultLeadTime: real := 5.0

  /** The module's lead time is the package default. */
  lemma LeadTimesAgree()
    ensures DefaultLeadTime == Package.DefaultLeadTime
  {
  }

  /** Who a request goes to: every antenna of the subarray at once, or one antenna. */
  datatype Recipient = AllAntennas | Antenna(name: string)

  /** One `dig_noise_source` request: activation time, on fraction and, for a pattern, the cycle length. */
  datatype Request = Request(to: Recipient, timestamp: real, onFraction: real, cycleLength: Option<real>)

  /** The noise-diode part of an observation plan. */
  datatype Setup = Setup(antennas: string, cycleLen: real, onFrac: real)

  /** `time.sleep` with a negative length. */
  const SleepError: Error := ValueError("sleep length must be non-negative")

  /** `_katcp_reply_to_log_` over no replies never assigns the timestamp it returns. */
  const UnsetTimestamp: Error := UnboundLocalError("local variable 'timestamp' referenced before assignment")

  /** `np.ceil(time.time() + lead_time)`: the first whole second at least `leadTime` from now. */
  function Activation(now: real, leadTime: real): (t: real)
    ensures now + leadTime <= t < now + leadTime + 1.0
    ensures t == t.Floor as real
  {
    Ceil(now + leadTime) as real
  }

  /** The given timestamp, or else the default activation time. */
  function SwitchTime(timestamp: Option<real>, now: real, leadTime: real): (t: real)
    ensures timestamp.Some? ==> t == timestamp.value
    ensures timestamp.None? ==> now + leadTime <= t < now + leadTime + 1.0 && t == t.Floor as real
  {
    if timestamp.Some? then timestamp.value else Activation(now, leadTime)
  }

  /** The last name in sorted order. */
  function GreatestName(names: seq<string>): (n: string)
    requires |names| > 0
    ensures n in names
    ensures forall m :: m in names ==> StrLe(m, n)
  {
    if |names| == 1 then
      StrLeTotal(names[0], names[0]);
      names[0]
    else
      var prev := GreatestName(names[..|names| - 1]);
      var last := names[|names| - 1];
      assert names == names[..|names| - 1] + [last];
      StrLeTotal(prev, last);
      StrLeTotal(last, last);
      if StrLe(prev, last) then
        forall m | m in names[..|names| - 1] ensures StrLe(m, last) {
          StrLeTrans(m, prev, last);
        }
        last
      else
        prev
  }

  /**
   * `_katcp_reply_to_log_` over the replies of the subarray antennas: the time the
   * antenna last in sorted order reports; no replies leave the timestamp unset.
   */
  function LastReply(names: seq<string>, t: real, reported: (string, real) -> real): (r: Result<real>)
    ensures r.Ok? <==> |names| > 0
    ensures r.Ok? ==> exists n :: n in names && r.value == reported(n, t) && forall m :: m in names ==> StrLe(m, n)
    ensures r.Err? ==> r.error == UnsetTimestamp
  {
    if |names| == 0 then Err(UnsetTimestamp)
    else
      var n := GreatestName(names);
      Ok(reported(n, t))
  }

  /**
   * The cycle length `pattern` requests: on a live system an L-band cycle above
   * 20 s raises, and the cycle is cut to a whole number of correlator dumps.
   */
  function CycleLength(cycle: real, live: bool, band: string, dump: real): Result<real>
  {
    if !live then Ok(cycle)
    else if band == "l" && cycle > 20.0 then Err(RuntimeError("Maximum cycle length of L-band is 20 seconds"))
    else if dump == 0.0 then Err(ZeroDivisionError)
    else Ok(Trunc(cycle / dump) as real * dump)
  }

  /** A live cycle is a whole number of dumps, at most the request and less than one dump short of it. */
  lemma CycleQuantised(cycle: real, band: string, dump: real)
    requires dump > 0.0 && cycle >= 0.0 && CycleLength(cycle, true, band, dump).Ok?
    ensures var c := CycleLength(cycle, true, band, dump).value;
      c == (c / dump).Floor as real * dump && c <= cycle < c + dump
  {
    var y := cycle / dump;
    assert y >= 0.0 by { NonnegProduct(cycle, 1.0 / dump); }
    var k := Trunc(y);
    var c := k as real * dump;
    assert k as real <= y < k as real + 1.0;
    assert y * dump == cycle;
    MulMono(k as real, y, dump);
    MulMono(y, k as real + 1.0, dump);
    assert c <= cycle;
    assert cycle < (k as real + 1.0) * dump;
    assert (k as real + 1.0) * dump == c + dump;
    assert c / dump == k as real;
    assert (k as real).Floor == k;
    assert CycleLength(cycle, true, band, dump).value == c;
  }

  /** On a live L-band system the pattern is refused above 20 s and otherwise stays within the band's buffer. */
  lemma LBandLimit(cycle: real, dump: real)
    requires dump > 0.0 && cycle >= 0.0
    ensures CycleLength(cycle, true, "l", dump).Err? <==> cycle > Package.MaxCycleLen("l")
    ensures CycleLength(cycle, true, "l", dump).Ok? ==> CycleLength(cycle, true, "l", dump).value <= Package.MaxCycleLen("l")
  {
    assert Lower("l") == "l";
    if cycle <= 20.0 {
      CycleQuantised(cycle, "l", dump);
    }
  }

  /** Every item of a list, stripped. */
  function StripAll(items: seq<string>): (r: seq<string>)
    ensures |r| == |items| && forall i :: 0 <= i < |items| ==> r[i] == Strip(items[i])
  {
    seq(|items|, i requires 0 <= i < |items| => Strip(items[i]))
  }

  /** The names of a list that are in the subarray, in list order. */
  function Present(names: seq<string>, subarray: seq<string>): (r: seq<string>)
    ensures |r| <= |names|
    ensures forall a :: a in r <==> a in subarray && a in names
  {
    if |names| == 0 then []
    else
      var rest := Present(names[1..], subarray);
      assert names == [names[0]] + names[1..];
      if names[0] in subarray then [names[0]] + rest else rest
  }

  /** The antennas `pattern` addresses one by one: the whole subarray for a "cycle" request, else the listed ones present. */
  function Selected(antennas: string, subarray: seq<string>): seq<string>
  {
    if Contains(antennas, "cycle") then subarray else Present(StripAll(Split(antennas, ',')), subarray)
  }

  /** An antenna is addressed exactly when it is in the subarray and, outside "cycle" requests, in the list. */
  lemma SelectedIff(antennas: string, subarray: seq<string>, a: string)
    ensures a in Selected(antennas, subarray) <==>
      a in subarray && (Contains(antennas, "cycle") || a in StripAll(Split(antennas, ',')))
  {
  }

  /** The state the noise-diode code reaches through `kat` and the session: a clock and the request log. */
  class Kat {
    var now: real
    var requests: seq<Request>
    const dryRun: bool
    const subBand: string
    const subarray: seq<string>
    const dumpPeriod: real
    const reported: (string, real) -> real

    constructor(now: real, dryRun: bool, subBand: string, subarray: seq<string>, dumpPeriod: real,
                reported: (string, real) -> real)
      ensures this.now == now && requests == []
      ensures this.dryRun == dryRun && this.subBand == subBand && this.subarray == subarray
      ensures this.dumpPeriod == dumpPeriod && this.reported == reported
    {
      this.now := now;
      requests := [];
      this.dryRun := dryRun;
      this.subBand := subBand;
      this.subarray := subarray;
      this.dumpPeriod := dumpPeriod;
      this.reported := reported;
    }

    /** The timestamp a request to every antenna leaves: as asked in a dry run, else the sorted-last reply. */
    function Confirmed(t: real): Result<real>
    {
      if dryRun then Ok(t) else LastReply(subarray, t, reported)
    }

    /** The timestamp a request to one antenna leaves: as asked in a dry run, else its reply. */
    function AntReply(ant: string, t: real): real
    {
      if dryRun then t else reported(ant, t)
    }

    /** `time.sleep`: the clock moves on by exactly the given length; a negative length raises. */
    method Sleep(seconds: real) returns (r: Result<()>)
      modifies this
      ensures seconds >= 0.0 ==> r == Ok(()) && now == old(now) + seconds
      ensures seconds < 0.0 ==> r == Err(SleepError) && now == old(now)
      ensures requests == old(requests)
    {
      if seconds < 0.0 {
        return Err(SleepError);
      }
      now := now + seconds;
      r := Ok(());
    }

    /** `on`: one request to every antenna to switch fully on, at the given time or the default activation. */
    method On(timestamp: Option<real>, leadTime: real) returns (r: Result<real>)
      modifies this
      ensures var t := SwitchTime(timestamp, old(now), leadTime);
        requests == old(requests) + [Request(AllAntennas, t, 1.0, None)] && r == Confirmed(t)
      ensures now == old(now)
    {
      var t := if timestamp.Some? then timestamp.value else Activation(now, leadTime);
      requests := requests + [Request(AllAntennas, t, 1.0, None)];
      r := Confirmed(t);
    }

    /** `off`: one request to every antenna to switch off, at the given time or the default activation. */
    method Off(timestamp: Option<real>, leadTime: real) returns (r: Result<real>)
      modifies this
      ensures var t := SwitchTime(timestamp, old(now), leadTime);
        requests == old(requests) + [Request(AllAntennas, t, 0.0, None)] && r == Confirmed(t)
      ensures now == old(now)
    {
      var t := if timestamp.Some? then timestamp.value else Activation(now, leadTime);
      requests := requests + [Request(AllAntennas, t, 0.0, None)];
      r := Confirmed(t);
    }

    /**
     * `trigger`: with no duration nothing happens; otherwise the diode is switched
     * on, the clock waits until `duration` past the confirmed switch-on, and the
     * diode is switched off and waited for.
     */
    method Trigger(duration: Option<real>) returns (r: Result<bool>)
      modifies this
      ensures duration.None? ==> r == Ok(true) && requests == old(requests) && now == old(now)
      ensures r.Ok? ==> r.value
      ensures r.Err? ==> r.error == SleepError || r.error == UnsetTimestamp
      ensures duration.Some? && r.Ok? ==>
        var n := |old(requests)|;
        var on := Confirmed(Activation(old(now), DefaultLeadTime));
        |requests| == n + 2 && requests[..n] == old(requests) &&
        requests[n] == Request(AllAntennas, Activation(old(now), DefaultLeadTime), 1.0, None) &&
        requests[n + 1].to == AllAntennas && requests[n + 1].onFraction == 0.0 &&
        on.Ok? && requests[n + 1].timestamp >= on.value + duration.value &&
        now >= on.value + duration.value
      ensures dryRun && duration.Some? && duration.value >= 0.0 ==> r.Ok?
    {
      if duration.None? {
        return Ok(true);
      }
      ghost var n := |requests|;
      var on := On(None, DefaultLeadTime);
      if on.Err? {
        return Err(on.error);
      }
      var slept := Sleep(on.value - now + duration.value);
      if slept.Err? {
        return Err(slept.error);
      }
      ghost var wake := now;
      var off := Off(None, DefaultLeadTime);
      if off.Err? {
        return Err(off.error);
      }
      assert requests[n + 1].timestamp >= wake;
      slept := Sleep(off.value - now);
      if slept.Err? {
        return Err(slept.error);
      }
      r := Ok(true);
    }

    /** The requests to the addressed antennas and the timestamp left after them. */
    function PerAntenna(ants: seq<string>, t: real, onFrac: real, cycle: real, stepping: bool): (p: (seq<Request>, real))
      ensures |p.0| == |ants|
    {
      if |ants| == 0 then ([], t)
      else
        var prev := PerAntenna(ants[..|ants| - 1], t, onFrac, cycle, stepping);
        var ant := ants[|ants| - 1];
        var next := AntReply(ant, prev.1) + (if stepping then cycle * onFrac else 0.0);
        (prev.0 + [Request(Antenna(ant), prev.1, onFrac, Some(cycle))], next)
    }

    /** The requests `pattern` issues from activation time `t0`, and the timestamp it then waits for. */
    function Plan(setup: Setup, t0: real, cycle: real): (p: (seq<Request>, Result<real>))
    {
      if setup.antennas == "all" then
        ([Request(AllAntennas, t0, setup.onFrac, Some(cycle))], Confirmed(t0))
      else
        var q := PerAntenna(Selected(setup.antennas, subarray), t0, setup.onFrac, cycle, setup.antennas == "cycle");
        (q.0, Ok(q.1))
    }

    /** `pattern`: check and quantise the cycle, issue the requests, then sleep until the last timestamp. */
    method Pattern(setup: Setup, leadTime: real) returns (r: Result<()>)
      modifies this
      ensures var c := CycleLength(setup.cycleLen, !dryRun, subBand, dumpPeriod);
        c.Err? ==> r == Err(c.error) && requests == old(requests) && now == old(now)
      ensures var c := CycleLength(setup.cycleLen, !dryRun, subBand, dumpPeriod);
        c.Ok? ==>
          var p := Plan(setup, Activation(old(now), leadTime), c.value);
          requests == old(requests) + p.0 &&
          (p.1.Err? ==> r == Err(p.1.error) && now == old(now)) &&
          (p.1.Ok? && p.1.value >= old(now) ==> r == Ok(()) && now == p.1.value) &&
          (p.1.Ok? && p.1.value < old(now) ==> r == Err(SleepError) && now == old(now))
    {
      var c := CycleLength(setup.cycleLen, !dryRun, subBand, dumpPeriod);
      if c.Err? {
        return Err(c.error);
      }
      var cycle := c.value;
      var t := Activation(now, leadTime);
      if setup.antennas == "all" {
        requests := requests + [Request(AllAntennas, t, setup.onFrac, Some(cycle))];
        var confirmed := Confirmed(t);
        if confirmed.Err? {
          return Err(confirmed.error);
        }
        t := confirmed.value;
      } else {
        var ants := if Contains(setup.antennas, "cycle") then subarray
                    else Present(StripAll(Split(setup.antennas, ',')), subarray);
        t := RequestEach(ants, t, setup.onFrac, cycle, setup.antennas == "cycle");
      }
      r := Sleep(t - now);
    }

    /** The loop of `pattern` over the addressed antennas, each request at the timestamp the last one left. */
    method RequestEach(ants: seq<string>, t0: real, onFrac: real, cycle: real, stepping: bool) returns (t: real)
      modifies this
      ensures var p := PerAntenna(ants, t0, onFrac, cycle, stepping);
        requests == old(requests) + p.0 && t == p.1
      ensures now == old(now)
    {
      t := t0;
      ghost var start := requests;
      for i := 0 to |ants|
        invariant var p := PerAntenna(ants[..i], t0, onFrac, cycle, stepping);
          requests == start + p.0 && t == p.1
        invariant now == old(now)
      {
        assert ants[..i + 1][..i] == ants[..i];
        requests := requests + [Request(Antenna(ants[i]), t, onFrac, Some(cycle))];
        t := AntReply(ants[i], t) + (if stepping then cycle * onFrac else 0.0);
      }
      assert ants[..|ants|] == ants;
    }

    /** Each addressed antenna gets one request, in order, with the pattern's on fraction and cycle. */
    lemma {:induction false} PerAntennaTargets(ants: seq<string>, t: real, onFrac: real, cycle: real, stepping: bool)
      ensures var p := PerAntenna(ants, t, onFrac, cycle, stepping).0;
        forall i :: 0 <= i < |ants| ==>
          p[i].to == Antenna(ants[i]) && p[i].onFraction == onFrac && p[i].cycleLength == Some(cycle)
    {
      if |ants| > 0 {
        PerAntennaTargets(ants[..|ants| - 1], t, onFrac, cycle, stepping);
      }
    }

    /** In a dry run of a "cycle" pattern, the i-th antenna is switched `i` on-times after the first. */
    lemma {:induction false} CycleSteps(ants: seq<string>, t: real, onFrac: real, cycle: real)
      requires dryRun
      ensures var p := PerAntenna(ants, t, onFrac, cycle, true);
        p.1 == t + |ants| as real * (cycle * onFrac) &&
        forall i :: 0 <= i < |ants| ==> p.0[i].timestamp == t + i as real * (cycle * onFrac)
    {
      if |ants| > 0 {
        CycleSteps(ants[..|ants| - 1], t, onFrac, cycle);
      }
    }

    /** Without stepping, a dry run issues every request at the activation time. */
    lemma {:induction false} ListedTogether(ants: seq<string>, t: real, onFrac: real, cycle: real)
      requires dryRun
      ensures var p := PerAntenna(ants, t, onFrac, cycle, false);
        p.1 == t && forall i :: 0 <= i < |ants| ==> p.0[i].timestamp == t
    {
      if |ants| > 0 {
        ListedTogether(ants[..|ants| - 1], t, onFrac, cycle);
      }
    }
  }
}
