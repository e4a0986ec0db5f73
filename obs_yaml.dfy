// astrokat/obs_yaml.py: the text serialiser of observation files. A target
// dictionary becomes one "key=value, ..." line, a dictionary becomes a YAML
// section, and the target dictionaries become the observation loop.
module ObsYaml {
  import opened Common
  import opened Text
  import opened ObsDict

  /** A Python dictionary object that `target_str` may update in place. */
  class TargetDict {
    var fields: Dict

    constructor (fields: Dict)
      ensures this.fields == fields
    {
      this.fields := fields;
    }
  }

  /** The current contents of each dictionary object. */
  function Fields(ds: seq<TargetDict>): (r: seq<Dict>)
    reads set o | o in ds
    ensures |r| == |ds| && forall k :: 0 <= k < |ds| ==> r[k] == ds[k].fields
  {
    if |ds| == 0 then [] else Fields(ds[..|ds| - 1]) + [ds[|ds| - 1].fields]
  }

  /** `"{}".format(v)`: strings print bare, a coordinate pair prints as a Python list. */
  function Show(v: Val): string
  {
    match v
    case VStr(s) => s
    case VNum(t) => t
    case VPair(a, b) => "['" + a + "', '" + b + "']"
    case VNone => "None"
  }

  /** `d[k]`, raising KeyError for a missing key. */
  function Lookup(d: Dict, k: string): Result<Val>
  {
    if k in d then Ok(d[k]) else Err(KeyError(k))
  }

  /** `coord[0]` and `coord[1]` of the coordinate entry. */
  function CoordParts(c: Val): Result<(string, string)>
  {
    match c
    case VPair(a, b) => Ok((a, b))
    case VStr(s) => if |s| < 2 then Err(IndexError("string index out of range")) else Ok(([s[0]], [s[1]]))
    case VNum(_) => Err(TypeError("object is not subscriptable"))
    case VNone => Err(TypeError("'NoneType' object is not subscriptable"))
  }

  /** `coord[0]`, which the special-coordinate test reads before anything else. */
  function CoordHead(c: Val): Result<string>
  {
    match c
    case VPair(a, _) => Ok(a)
    case VStr(s) => if |s| < 1 then Err(IndexError("string index out of range")) else Ok([s[0]])
    case VNum(_) => Err(TypeError("object is not subscriptable"))
    case VNone => Err(TypeError("'NoneType' object is not subscriptable"))
  }

  /** The dictionary after `target_str`: a coordinate type containing 'special' gets the value 'special'. */
  function Normalised(d: Dict): Dict
  {
    if "coord" in d && d["coord"].VPair? && Contains(d["coord"].first, "special")
    then d["coord" := VPair(d["coord"].first, "special")]
    else d
  }

  /** The text `target_str` returns, or the exception it raises, for the dictionary `d`. */
  function TargetText(d: Dict): Result<string>
  {
    var c :- Lookup(d, "coord");
    var _ :- CoordHead(c);
    var n := Normalised(d);
    var name :- Lookup(n, "name");
    var cp :- CoordParts(n["coord"]);
    var tags :- Lookup(n, "tags");
    var duration :- Lookup(n, "duration");
    var cadence :- Lookup(n, "cadence");
    var model :- Lookup(n, "flux_model");
    var spec := "name=" + Show(name) + ", " + cp.0 + "=" + cp.1 + ", tags=" + Show(tags)
      + ", duration=" + Show(duration);
    var withCadence := if cadence != VNone then spec + ", cadence=" + Show(cadence) else spec;
    Ok(if model != VNone then withCadence + ", model=" + Show(model) else withCadence)
  }

  /** The special-coordinate rewrite changes nothing the second time. */
  lemma NormalisedIdempotent(d: Dict)
    ensures Normalised(Normalised(d)) == Normalised(d)
  {
    if "coord" in d && d["coord"].VPair? && Contains(d["coord"].first, "special") {
      assert Normalised(d)["coord"].first == d["coord"].first;
    }
  }

  /** The rewrite is invisible in the text: a dictionary already serialised serialises the same again. */
  lemma TargetTextNormalised(d: Dict)
    ensures TargetText(Normalised(d)) == TargetText(d)
  {
    NormalisedIdempotent(d);
  }

  /** `target_str`: serialise the target dictionary `o`, rewriting its special coordinate in place. */
  method TargetStr(o: TargetDict) returns (r: Result<string>)
    modifies o
    ensures r == TargetText(old(o.fields))
    ensures o.fields == Normalised(old(o.fields))
  {
    if "coord" !in o.fields {
      return Err(KeyError("coord"));
    }
    var coord := o.fields["coord"];
    var head := CoordHead(coord);
    if head.Err? {
      return Err(head.error);
    }
    if coord.VPair? && Contains(coord.first, "special") {
      o.fields := o.fields["coord" := VPair(coord.first, "special")];
    }
    var d := o.fields;
    if "name" !in d {
      return Err(KeyError("name"));
    }
    var cp := CoordParts(d["coord"]);
    if cp.Err? {
      return Err(cp.error);
    }
    if "tags" !in d {
      return Err(KeyError("tags"));
    }
    if "duration" !in d {
      return Err(KeyError("duration"));
    }
    var spec := "name=" + Show(d["name"]) + ", " + cp.value.0 + "=" + cp.value.1
      + ", tags=" + Show(d["tags"]) + ", duration=" + Show(d["duration"]);
    if "cadence" !in d {
      return Err(KeyError("cadence"));
    }
    if d["cadence"] != VNone {
      spec := spec + ", cadence=" + Show(d["cadence"]);
    }
    if "flux_model" !in d {
      return Err(KeyError("flux_model"));
    }
    if d["flux_model"] != VNone {
      spec := spec + ", model=" + Show(d["flux_model"]);
    }
    r := Ok(spec);
  }

  // ---------------------------------------------------------------- sections

  /** The text of `lines`, each ended by a newline. */
  function Lines(lines: seq<string>): string
  {
    if |lines| == 0 then "" else Lines(lines[..|lines| - 1]) + lines[|lines| - 1] + "\n"
  }

  /** One "  key: value" line per entry whose value is not None, in order. */
  function EntryLines(e: Entries): seq<string>
  {
    if |e| == 0 then []
    else if e[|e| - 1].1 == VNone then EntryLines(e[..|e| - 1])
    else EntryLines(e[..|e| - 1]) + ["  " + e[|e| - 1].0 + ": " + Show(e[|e| - 1].1)]
  }

  /** The YAML section `dict_str(name, e)` writes. */
  function DictText(name: string, e: Entries): string
  {
    Lines([name + ":"] + EntryLines(e))
  }

  lemma LinesSnoc(lines: seq<string>, l: string)
    ensures Lines(lines + [l]) == Lines(lines) + l + "\n"
  {
    assert (lines + [l])[..|lines|] == lines;
  }

  /** `dict_str`: a header line, then one line per entry that is not None. */
  method DictStr(name: string, e: Entries) returns (s: string)
    ensures s == DictText(name, e)
  {
    s := name + ":" + "\n";
    assert s == Lines([name + ":"]);
    var i := 0;
    while i < |e|
      invariant 0 <= i <= |e|
      invariant s == Lines([name + ":"] + EntryLines(e[..i]))
    {
      assert e[..i + 1][..i] == e[..i];
      if e[i].1 != VNone {
        var line := "  " + e[i].0 + ": " + Show(e[i].1);
        LinesSnoc([name + ":"] + EntryLines(e[..i]), line);
        assert [name + ":"] + EntryLines(e[..i + 1]) == [name + ":"] + EntryLines(e[..i]) + [line];
        s := s + line + "\n";
      }
      i := i + 1;
    }
    assert e[..|e|] == e;
  }

  /** None-valued entries leave no trace: the section equals that of the cleaned dictionary. */
  lemma {:induction false} EntryLinesNonNone(e: Entries)
    ensures EntryLines(NonNone(e)) == EntryLines(e)
    decreases |e|
  {
    if |e| > 0 {
      EntryLinesNonNone(e[..|e| - 1]);
      var p := NonNone(e[..|e| - 1]);
      if e[|e| - 1].1 != VNone {
        assert (p + [e[|e| - 1]])[..|p|] == p;
      }
    }
  }

  lemma DictTextNonNone(name: string, e: Entries)
    ensures DictText(name, NonNone(e)) == DictText(name, e)
  {
    EntryLinesNonNone(e);
  }

  /** Lines free of newlines split back into the same lines, with the empty tail after the last newline. */
  lemma {:induction false} SplitLines(lines: seq<string>)
    requires forall i :: 0 <= i < |lines| ==> '\n' !in lines[i]
    ensures Split(Lines(lines), '\n') == lines + [""]
    decreases |lines|
  {
    if |lines| > 0 {
      var p := lines[..|lines| - 1];
      var l := lines[|lines| - 1];
      SplitLines(p);
      SplitAppend(Lines(p), l, p);
      assert lines == p + [l];
    }
  }

  /** Appending one newline-free line to a text whose last part is empty. */
  lemma {:induction false} SplitAppend(t: string, l: string, parts: seq<string>)
    requires '\n' !in l
    requires Split(t, '\n') == parts + [""]
    ensures Split(t + l + "\n", '\n') == parts + [l, ""]
    decreases |t|
  {
    if |t| == 0 {
      assert t + l + "\n" == l + ['\n'] + "";
      SplitAfter(l, '\n', "");
      assert |parts| == 0;
    } else {
      assert (t + l + "\n")[1..] == t[1..] + l + "\n";
      var rest := Split(t[1..], '\n');
      if t[0] == '\n' {
        assert Split(t, '\n') == [""] + rest;
        assert |parts| > 0;
        assert ([""] + rest)[1..] == rest;
        assert (parts + [""])[1..] == parts[1..] + [""];
        assert rest == parts[1..] + [""];
        SplitAppend(t[1..], l, parts[1..]);
        assert Split(t + l + "\n", '\n') == [""] + Split(t[1..] + l + "\n", '\n');
        assert parts[0] == ([""] + rest)[0] == "";
        assert parts == [""] + parts[1..];
      } else {
        assert Split(t, '\n') == [[t[0]] + rest[0]] + rest[1..];
        var whole := [[t[0]] + rest[0]] + rest[1..];
        assert |whole[0]| > 0;
        assert whole[|whole| - 1] == (parts + [""])[|parts|] == "";
        assert |parts| > 0;
        var q := [rest[0]] + parts[1..];
        assert whole[1..] == rest[1..];
        assert (parts + [""])[1..] == parts[1..] + [""];
        assert rest[1..] == parts[1..] + [""];
        assert rest == q + [""];
        SplitAppend(t[1..], l, q);
        var r2 := Split(t[1..] + l + "\n", '\n');
        assert Split(t + l + "\n", '\n') == [[t[0]] + r2[0]] + r2[1..];
        assert parts == [[t[0]] + q[0]] + q[1..];
      }
    }
  }

  /** A section splits into its header line and one line per entry that is not None. */
  lemma DictTextLines(name: string, e: Entries)
    requires '\n' !in name
    requires forall i :: 0 <= i < |e| ==> '\n' !in e[i].0 && '\n' !in Show(e[i].1)
    ensures Split(DictText(name, e), '\n') == [name + ":"] + EntryLines(e) + [""]
  {
    SectionLinesFree(name, e);
    SplitLines([name + ":"] + EntryLines(e));
  }

  lemma SectionLinesFree(name: string, e: Entries)
    requires '\n' !in name
    requires forall i :: 0 <= i < |e| ==> '\n' !in e[i].0 && '\n' !in Show(e[i].1)
    ensures forall i :: 0 <= i < |[name + ":"] + EntryLines(e)| ==> '\n' !in ([name + ":"] + EntryLines(e))[i]
  {
    var head := name + ":";
    assert '\n' !in head;
    var ls := [head] + EntryLines(e);
    EntryLinesFree(e);
    forall i | 0 <= i < |ls|
      ensures '\n' !in ls[i]
    {
      if i > 0 {
        assert ls[i] == EntryLines(e)[i - 1];
      }
    }
  }

  lemma {:induction false} EntryLinesFree(e: Entries)
    requires forall i :: 0 <= i < |e| ==> '\n' !in e[i].0 && '\n' !in Show(e[i].1)
    ensures forall i :: 0 <= i < |EntryLines(e)| ==> '\n' !in EntryLines(e)[i]
    decreases |e|
  {
    if |e| > 0 {
      EntryLinesFree(e[..|e| - 1]);
    }
  }

  // ---------------------------------------------------------------- observation loop

  /** The loop of `obs_dict_str` from the text `acc` onwards: one line per dictionary, stopping at the first that fails. */
  function Continue(acc: string, ds: seq<Dict>): Result<string>
    decreases |ds|
  {
    if |ds| == 0 then Ok(acc)
    else
      var t :- TargetText(ds[0]);
      Continue(acc + "      - " + t + "\n", ds[1..])
  }

  /** How many dictionaries `target_str` is called on: all of them, or up to and including the first that fails. */
  function Reached(ds: seq<Dict>): (n: nat)
    ensures n <= |ds|
  {
    if |ds| == 0 then 0
    else if TargetText(ds[0]).Err? then 1
    else 1 + Reached(ds[1..])
  }

  function LoopHeader(lst: string): string
  {
    "observation_loop:\n" + "  - LST: " + lst + "\n" + "    target_list:\n"
  }

  /** The text `obs_dict_str(lst, ds)` returns, or the exception it raises. */
  function ObsDictText(lst: string, ds: seq<Dict>): Result<string>
  {
    Continue(LoopHeader(lst), ds)
  }

  /** `obs_dict_str`: the loop header, then one "      - <target>" line per dictionary, in order. */
  method ObsDictStr(lst: string, dicts: seq<TargetDict>) returns (r: Result<string>)
    modifies set o | o in dicts
    ensures r == ObsDictText(lst, old(Fields(dicts)))
    ensures forall o :: o in dicts ==>
      o.fields == if o in dicts[..Reached(old(Fields(dicts)))] then Normalised(old(o.fields)) else old(o.fields)
  {
    ghost var olds := Fields(dicts);
    var s := "observation_loop" + ":\n";
    s := s + "  - LST: " + lst + "\n";
    s := s + "    target_list:\n";
    assert s == LoopHeader(lst);
    assert olds[0..] == olds;
    var i := 0;
    while i < |dicts|
      invariant 0 <= i <= |dicts|
      invariant Continue(s, olds[i..]) == ObsDictText(lst, olds)
      invariant Reached(olds) == i + Reached(olds[i..])
      invariant forall o :: o in dicts ==>
        o.fields == if o in dicts[..i] then Normalised(old(o.fields)) else old(o.fields)
    {
      ghost var cur := dicts[i].fields;
      SliceSnoc(dicts, i);
      var target := TargetStr(dicts[i]);
      LoopStep(olds, i, cur);
      TextStep(s, olds, i, cur);
      assert forall o :: o in dicts ==>
        o.fields == if o in dicts[..i + 1] then Normalised(old(o.fields)) else old(o.fields);
      if target.Err? {
        return Err(target.error);
      }
      s := s + "      - " + target.value + "\n";
      i := i + 1;
    }
    assert dicts[..|dicts|] == dicts;
    r := Ok(s);
  }

  /** One pass of the loop of `obs_dict_str`, over a dictionary an earlier pass may already have rewritten. */
  lemma LoopStep(ds: seq<Dict>, i: nat, cur: Dict)
    requires i < |ds|
    requires cur == ds[i] || cur == Normalised(ds[i])
    ensures TargetText(cur) == TargetText(ds[i]) && Normalised(cur) == Normalised(ds[i])
    ensures ds[i..][0] == ds[i] && ds[i..][1..] == ds[i + 1..]
  {
    TargetTextNormalised(ds[i]);
    NormalisedIdempotent(ds[i]);
  }

  lemma SliceSnoc<T>(s: seq<T>, i: nat)
    requires i < |s|
    ensures s[..i + 1] == s[..i] + [s[i]]
  {
  }

  /** What one pass of the loop adds to the text, and how far the loop then reaches. */
  lemma TextStep(s: string, ds: seq<Dict>, i: nat, cur: Dict)
    requires i < |ds|
    requires TargetText(cur) == TargetText(ds[i])
    ensures TargetText(cur).Err? ==>
      Continue(s, ds[i..]) == Err(TargetText(cur).error) && Reached(ds[i..]) == 1
    ensures TargetText(cur).Ok? ==>
      Continue(s, ds[i..]) == Continue(s + "      - " + TargetText(cur).value + "\n", ds[i + 1..])
      && Reached(ds[i..]) == 1 + Reached(ds[i + 1..])
  {
    assert ds[i..][0] == ds[i] && ds[i..][1..] == ds[i + 1..];
  }

  // ---------------------------------------------------------------- whole file

  /** A section of the file, present only when its dictionary is not empty. */
  function Section(name: string, e: Entries): string
  {
    if |e| > 0 then DictText(name, e) else ""
  }

  /** Everything `obs_str` writes before the observation loop. */
  function Preamble(instrument: Entries, durations: Entries, horizon: string): string
  {
    Section("instrument", instrument) + Section("durations", durations) + "horizon: " + horizon + "\n"
  }

  /** The observation file `obs_str` builds, or the exception it raises. */
  function ObsText(instrument: Entries, durations: Entries, lst: string, ds: seq<Dict>, horizon: string): Result<string>
  {
    var loop :- ObsDictText(lst, ds);
    Ok(Preamble(instrument, durations, horizon) + loop)
  }

  /** `obs_str`: the optional instrument and durations sections, the horizon line and the loop. */
  method ObsStr(instrument: Entries, durations: Entries, lst: string, dicts: seq<TargetDict>, horizon: string)
    returns (r: Result<string>)
    modifies set o | o in dicts
    ensures r == ObsText(instrument, durations, lst, old(Fields(dicts)), horizon)
    ensures forall o :: o in dicts ==>
      o.fields == if o in dicts[..Reached(old(Fields(dicts)))] then Normalised(old(o.fields)) else old(o.fields)
  {
    var plan := "";
    if |instrument| > 0 {
      var section := DictStr("instrument", instrument);
      plan := plan + section;
    }
    assert plan == Section("instrument", instrument);
    if |durations| > 0 {
      var section := DictStr("durations", durations);
      plan := plan + section;
    }
    assert plan == Section("instrument", instrument) + Section("durations", durations);
    plan := plan + "horizon: " + horizon + "\n";
    var loop := ObsDictStr(lst, dicts);
    if loop.Err? {
      return Err(loop.error);
    }
    r := Ok(plan + loop.value);
  }

  /** The default horizon of `obs_str`, 20 degrees, printed as Python prints the float. */
  const DefaultHorizon: string := "20.0"
}
