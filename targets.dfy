// astrokat/targets.py: the target-string parser that routes coordinates to
// (Ra, Dec), the katpoint description string, and the per-target record the
// observation loop works from.  The astropy conversions themselves are an
// oracle: `Converter` maps a coordinate type and its text to "ra dec" text.
module Targets {
  import opened Common
  import opened Text
  import opened Numbers
  import ObsDict

  /** A value of the target dictionary: text, the `[type, coord]` pair, or the empty tuple `()`. */
  datatype Field = FText(s: string) | FCoord(ctype: string, coord: string) | FEmpty

  type TargetMap = map<string, Field>

  /** The astropy conversion of a (type, coordinate text) pair to "ra dec" text, or the error it raises. */
  type Converter = (string, string) -> Result<string>

  /** The field names of the target record. */
  const DescNames: set<string> :=
    {"name", "tags", "target", "duration", "cadence", "flux_model", "obs_type", "noise_diode", "last_observed", "obs_cntr"}

  /** `key.strip().startswith(coord)` for one of radec, azel, gal. */
  predicate IsCoordKey(k: string)
  {
    StartsWith(k, "radec") || StartsWith(k, "azel") || StartsWith(k, "gal")
  }

  predicate Unpackable(item: string) { ObsDict.Unpackable(item) }

  function Key(item: string): string
    requires Unpackable(item)
  {
    ObsDict.Key(item)
  }

  function Value(item: string): string
    requires Unpackable(item)
  {
    ObsDict.Value(item)
  }

  // ---------------------------------------------------------------- get_radec_coords

  /** The coordinate types that are converted to (Ra, Dec): radec itself, gal, and azel for scans. */
  predicate Converted(ctype: string, convertAzel: bool)
  {
    ctype == "radec" || ctype == "gal" || (ctype == "azel" && convertAzel)
  }

  /** `get_radec_coords(item, convert_azel)`: the coordinate type and text after routing. */
  function GetRadecCoords(item: string, convertAzel: bool, toRadec: Converter): (r: Result<(string, string)>)
    requires Unpackable(item)
    ensures r.Ok? ==> (r.value.0 == "radec" <==> Converted(Key(item), convertAzel))
    ensures !Converted(Key(item), convertAzel) ==> r == Ok((Key(item), Value(item)))
    ensures Converted(Key(item), convertAzel) ==>
      r == (var c :- toRadec(Key(item), Value(item)); Ok(("radec", c)))
  {
    var ctype := Key(item);
    var coord := Value(item);
    if ctype == "radec" then
      var c :- toRadec(ctype, coord);
      Ok(("radec", c))
    else if ctype == "gal" then
      var c :- toRadec(ctype, coord);
      Ok(("radec", c))
    else if ctype == "azel" && convertAzel then
      var c :- toRadec(ctype, coord);
      Ok(("radec", c))
    else Ok((ctype, coord))
  }

  // ---------------------------------------------------------------- unpack_target

  /** Index of the first item whose text contains "type". */
  function FirstTypeItem(items: seq<string>): (r: Option<nat>)
    ensures r.Some? ==> r.value < |items| && Contains(items[r.value], "type")
    ensures r.Some? ==> forall j :: 0 <= j < r.value ==> !Contains(items[j], "type")
    ensures r.None? ==> forall j :: 0 <= j < |items| ==> !Contains(items[j], "type")
  {
    if |items| == 0 then None
    else if Contains(items[0], "type") then Some(0)
    else
      match FirstTypeItem(items[1..])
      case None => None
      case Some(i) => Some(i + 1)
  }

  /** `convert_azel`: whether the first item mentioning "type" names a scan. */
  function ConvertAzel(items: seq<string>): Result<bool>
  {
    match FirstTypeItem(items)
    case None => Ok(false)
    case Some(i) =>
      var parts := Split(items[i], '=');
      if |parts| != 2 then Err(ObsDict.UnpackError(items[i]))
      else Ok(Contains(parts[1], "scan"))
  }

  /** A coordinate key sets `coord` to the routed [type, coordinate] pair. */
  function WithCoord(t: TargetMap, item: string, convertAzel: bool, toRadec: Converter): (r: Result<TargetMap>)
    requires Unpackable(item)
    ensures r.Ok? ==> r.value.Keys == t.Keys + (if IsCoordKey(Key(item)) then {"coord"} else {})
    ensures r.Ok? ==> forall k :: k in t && k != "coord" ==> r.value[k] == t[k]
  {
    if IsCoordKey(Key(item)) then
      var c :- GetRadecCoords(item, convertAzel, toRadec);
      Ok(t["coord" := FCoord(c.0, c.1)])
    else Ok(t)
  }

  /** The plain assignments of one pass: a record field, the flux model, and the observation type. */
  function Assign(t: TargetMap, k: string, v: string): (r: TargetMap)
    ensures "coord" in r <==> "coord" in t
    ensures "flux_model" in r && r["flux_model"] == if Contains(k, "model") then FText(v) else FEmpty
  {
    var t2 := if k in DescNames then t[k := FText(v)] else t;
    var t3 := t2["flux_model" := if Contains(k, "model") then FText(v) else FEmpty];
    if Contains(k, "type") then t3["obs_type" := FText(v)] else t3
  }

  /** One pass of the loop of `unpack_target` over a target item. */
  function Step(t: TargetMap, item: string, convertAzel: bool, toRadec: Converter): (r: Result<TargetMap>)
    ensures r.Ok? ==> Unpackable(item)
    ensures r.Ok? ==> ("coord" in r.value <==> "coord" in t || IsCoordKey(Key(item)))
    ensures r.Ok? ==> ("flux_model" in r.value &&
      r.value["flux_model"] == if Contains(Key(item), "model") then FText(Value(item)) else FEmpty)
  {
    if !Unpackable(item) then Err(ObsDict.UnpackError(item))
    else
      var t1 :- WithCoord(t, item, convertAzel, toRadec);
      Ok(Assign(t1, Key(item), Value(item)))
  }

  /** One pass of the loop, as a function of the dictionary so far and the item. */
  function Pass(convertAzel: bool, toRadec: Converter): (TargetMap, string) -> Result<TargetMap>
  {
    (t: TargetMap, item: string) => Step(t, item, convertAzel, toRadec)
  }

  /** The loop of `unpack_target`, stopping at the first item that raises. */
  function Steps(t: TargetMap, items: seq<string>, convertAzel: bool, toRadec: Converter): Result<TargetMap>
  {
    Fold(t, items, Pass(convertAzel, toRadec))
  }

  function Unsupported(s: string): Error
  {
    RuntimeError("Target '" + s + "' not currently supported by default")
  }

  /** What `unpack_target(s)` returns or raises. */
  function UnpackTargetSpec(s: string, toRadec: Converter): Result<TargetMap>
  {
    var items := ObsDict.Items(s);
    var convertAzel :- ConvertAzel(items);
    var t :- Steps(map[], items, convertAzel, toRadec);
    if "coord" !in t then Err(Unsupported(s)) else Ok(t)
  }

  /** `unpack_target`: fill a fresh dictionary item by item. */
  method UnpackTarget(s: string, toRadec: Converter) returns (r: Result<TargetMap>)
    ensures r == UnpackTargetSpec(s, toRadec)
  {
    var items := ObsDict.Items(s);
    var convertAzel := ConvertAzel(items);
    if convertAzel.Err? {
      return Err(convertAzel.error);
    }
    var c := convertAzel.value;
    var target: TargetMap := map[];
    var i := 0;
    while i < |items|
      invariant 0 <= i <= |items|
      invariant Steps(map[], items[..i], c, toRadec) == Ok(target)
    {
      FoldSnoc(map[], items, i, Pass(c, toRadec));
      var step := Step(target, items[i], c, toRadec);
      if step.Err? {
        FoldErrSticks(map[], items, i + 1, Pass(c, toRadec));
        return Err(step.error);
      }
      target := step.value;
      i := i + 1;
    }
    assert items[..|items|] == items;
    if "coord" !in target {
      return Err(Unsupported(s));
    }
    return Ok(target);
  }

  /** An item with a coordinate key that `split('=')` takes apart. */
  predicate CoordItem(item: string)
  {
    Unpackable(item) && IsCoordKey(Key(item))
  }

  /** A successful loop passed every item through `split('=')` into exactly one key and one value. */
  lemma StepsUnpackable(t: TargetMap, items: seq<string>, c: bool, toRadec: Converter, i: nat)
    requires Steps(t, items, c, toRadec).Ok? && i < |items|
    ensures Unpackable(items[i])
  {
    FoldOkSteps(t, items, i, Pass(c, toRadec));
    assert Step(Steps(t, items[..i], c, toRadec).value, items[i], c, toRadec).Ok?;
  }

  /** After a successful loop over a prefix, `coord` is set exactly when it was already or some item of the prefix has a coordinate key. */
  lemma {:induction false} StepsCoordPrefix(t: TargetMap, items: seq<string>, n: nat, c: bool, toRadec: Converter)
    requires Steps(t, items, c, toRadec).Ok? && n <= |items|
    ensures Steps(t, items[..n], c, toRadec).Ok?
    ensures "coord" in Steps(t, items[..n], c, toRadec).value <==>
      "coord" in t || exists i :: 0 <= i < n && CoordItem(items[i])
  {
    if n > 0 {
      StepsCoordPrefix(t, items, n - 1, c, toRadec);
      FoldOkSteps(t, items, n - 1, Pass(c, toRadec));
      var before := Steps(t, items[..n - 1], c, toRadec).value;
      var after := Step(before, items[n - 1], c, toRadec);
      assert Steps(t, items[..n], c, toRadec) == after;
      CoordWitness(items, n);
    }
  }

  /** Some item among the first n has a coordinate key exactly when one among the first n - 1 or item n - 1 does. */
  lemma CoordWitness(items: seq<string>, n: nat)
    requires 0 < n <= |items|
    ensures (exists i :: 0 <= i < n && CoordItem(items[i])) <==>
      (exists i :: 0 <= i < n - 1 && CoordItem(items[i])) || CoordItem(items[n - 1])
  {
    if exists i :: 0 <= i < n - 1 && CoordItem(items[i]) {
      var i :| 0 <= i < n - 1 && CoordItem(items[i]);
      assert 0 <= i < n && CoordItem(items[i]);
    } else if CoordItem(items[n - 1]) {
      assert 0 <= n - 1 < n && CoordItem(items[n - 1]);
    } else {
      forall i | 0 <= i < n
        ensures !CoordItem(items[i])
      {
        if i < n - 1 {
          assert !(0 <= i < n - 1 && CoordItem(items[i]));
        }
      }
    }
  }

  /** After a successful loop, `coord` is set exactly when it was already or some item has a coordinate key. */
  lemma StepsCoord(t: TargetMap, items: seq<string>, c: bool, toRadec: Converter)
    requires Steps(t, items, c, toRadec).Ok?
    ensures "coord" in Steps(t, items, c, toRadec).value <==>
      "coord" in t || exists i :: 0 <= i < |items| && CoordItem(items[i])
  {
    StepsCoordPrefix(t, items, |items|, c, toRadec);
    assert items[..|items|] == items;
  }

  /**
   * `unpack_target` succeeds only when every item splits into one key and one
   * value and some key is a coordinate type; the result then holds `coord`.
   */
  lemma UnpackTargetNeedsCoord(s: string, toRadec: Converter)
    requires UnpackTargetSpec(s, toRadec).Ok?
    ensures "coord" in UnpackTargetSpec(s, toRadec).value
    ensures forall i :: 0 <= i < |ObsDict.Items(s)| ==> Unpackable(ObsDict.Items(s)[i])
    ensures exists i :: 0 <= i < |ObsDict.Items(s)| && IsCoordKey(Key(ObsDict.Items(s)[i]))
  {
    var items := ObsDict.Items(s);
    var c := ConvertAzel(items).value;
    forall i | 0 <= i < |items|
      ensures Unpackable(items[i])
    {
      StepsUnpackable(map[], items, c, toRadec, i);
    }
    StepsCoord(map[], items, c, toRadec);
  }

  /** Without a coordinate item, a target string whose items all unpack is refused as unsupported. */
  lemma NoCoordUnsupported(s: string, toRadec: Converter)
    requires forall i :: 0 <= i < |ObsDict.Items(s)| ==> Unpackable(ObsDict.Items(s)[i]) && !IsCoordKey(Key(ObsDict.Items(s)[i]))
    ensures UnpackTargetSpec(s, toRadec) == Err(Unsupported(s))
  {
    var items := ObsDict.Items(s);
    var f := FirstTypeItem(items);
    if f.Some? {
      assert Unpackable(items[f.value]);
    }
    var c := ConvertAzel(items).value;
    NoCoordSteps(map[], items, |items|, c, toRadec);
    assert items[..|items|] == items;
    StepsCoord(map[], items, c, toRadec);
  }

  /** Items without a coordinate key never call the converter, so the loop cannot fail. */
  lemma {:induction false} NoCoordSteps(t: TargetMap, items: seq<string>, n: nat, c: bool, toRadec: Converter)
    requires n <= |items|
    requires forall i :: 0 <= i < |items| ==> Unpackable(items[i]) && !IsCoordKey(Key(items[i]))
    ensures Steps(t, items[..n], c, toRadec).Ok?
  {
    if n > 0 {
      NoCoordSteps(t, items, n - 1, c, toRadec);
      FoldSnoc(t, items, n - 1, Pass(c, toRadec));
      assert Step(Steps(t, items[..n - 1], c, toRadec).value, items[n - 1], c, toRadec).Ok?;
    }
  }

  /** `convert_azel` holds exactly when the first item mentioning "type" has a value mentioning "scan". */
  lemma ConvertAzelFirstType(items: seq<string>, i: nat)
    requires i < |items| && Contains(items[i], "type")
    requires forall j :: 0 <= j < i ==> !Contains(items[j], "type")
    requires |Split(items[i], '=')| == 2
    ensures ConvertAzel(items) == Ok(Contains(Split(items[i], '=')[1], "scan"))
  {
    var f := FirstTypeItem(items);
    assert f.Some?;
    assert f.value == i;
  }

  /** With no item mentioning "type", azel coordinates are never converted. */
  lemma ConvertAzelNoType(items: seq<string>)
    requires forall j :: 0 <= j < |items| ==> !Contains(items[j], "type")
    ensures ConvertAzel(items) == Ok(false)
  {
    var f := FirstTypeItem(items);
    assert f == None;
  }

  /**
   * `flux_model` is decided by the last item alone: its value when the last
   * key mentions "model", the empty tuple otherwise.
   */
  lemma FluxModelLastItem(s: string, toRadec: Converter)
    requires UnpackTargetSpec(s, toRadec).Ok?
    ensures var items := ObsDict.Items(s);
      |items| > 0 && (var last := items[|items| - 1];
      Unpackable(last) && "flux_model" in UnpackTargetSpec(s, toRadec).value &&
      UnpackTargetSpec(s, toRadec).value["flux_model"] ==
        (if Contains(Key(last), "model") then FText(Value(last)) else FEmpty))
  {
    UnpackTargetNeedsCoord(s, toRadec);
    var items := ObsDict.Items(s);
    var c := ConvertAzel(items).value;
    var t := Steps(map[], items, c, toRadec);
    assert t.Ok? && UnpackTargetSpec(s, toRadec) == t;
    assert |items| > 0;
    StepsLast(map[], items, c, toRadec);
  }

  /** A successful loop over at least one item ends with the last item's pass. */
  lemma StepsLast(t: TargetMap, items: seq<string>, c: bool, toRadec: Converter)
    requires Steps(t, items, c, toRadec).Ok? && |items| > 0
    ensures var last := items[|items| - 1];
      Unpackable(last) && "flux_model" in Steps(t, items, c, toRadec).value &&
      Steps(t, items, c, toRadec).value["flux_model"] ==
        (if Contains(Key(last), "model") then FText(Value(last)) else FEmpty)
  {
    FoldOkSteps(t, items, |items| - 1, Pass(c, toRadec));
    assert items[..|items|] == items;
    var before := Steps(t, items[..|items| - 1], c, toRadec).value;
    assert Steps(t, items, c, toRadec) == Step(before, items[|items| - 1], c, toRadec);
  }

  // ---------------------------------------------------------------- katpoint_target

  /** `"{}".format(f)` for a dictionary value. */
  function FieldText(f: Field): string
  {
    match f
    case FText(s) => s
    case FCoord(a, b) => "['" + a + "', '" + b + "']"
    case FEmpty => "()"
  }

  /** A key lookup on the target dictionary, raising KeyError when absent. */
  function Lookup(d: TargetMap, k: string): (r: Result<Field>)
    ensures r.Ok? <==> k in d
    ensures r.Ok? ==> r.value == d[k]
  {
    if k in d then Ok(d[k]) else Err(KeyError(k))
  }

  /** Word `i` of a coordinate text, raising IndexError when it has fewer words. */
  function Word(c: string, i: nat): (r: Result<string>)
    ensures r.Ok? <==> i < |Words(c)|
  {
    var ws := Words(c);
    if i < |ws| then Ok(Strip(ws[i])) else Err(IndexError("list index out of range"))
  }

  /** The comma-separated fields of the katpoint description "name, ctag tags, x, y, flux_model". */
  function DescriptionParts(name: string, ctag: string, tags: string, x: string, y: string, flux: string): seq<string>
  {
    [name, " " + ctag + " " + tags, " " + x, " " + y, " " + flux]
  }

  /** The katpoint description "name, ctag tags, x, y, flux_model". */
  function Description(name: string, ctag: string, tags: string, x: string, y: string, flux: string): string
  {
    Join(DescriptionParts(name, ctag, tags, x, y, flux), ",")
  }

  /** `"{}".format(tags)` for an optional tags value. */
  function TagsText(tags: Option<Field>): string
  {
    match tags
    case None => "None"
    case Some(f) => FieldText(f)
  }

  /**
   * `katpoint_target(...)`: the name and the katpoint description, built from
   * the target string when one is given and from the separate fields otherwise.
   */
  function KatpointTarget(targetStr: Option<string>, name: string, ctag: string,
                          x: Option<string>, y: Option<string>, tags: Option<Field>,
                          fluxModel: Field, toRadec: Converter): (r: Result<(string, string)>)
    ensures targetStr.None? && (x.None? || y.None?) ==> r == Err(RuntimeError("Ill defined target, require: x and y"))
    ensures targetStr.None? && x.Some? && y.Some? ==>
      r == Ok((name, Description(name, ctag, TagsText(tags), x.value, y.value, FieldText(fluxModel))))
  {
    if targetStr.Some? then
      var d :- UnpackTargetSpec(targetStr.value, toRadec);
      var n :- Lookup(d, "name");
      var coord :- Lookup(d, "coord");
      var ct := if coord.FCoord? then coord.ctype else FieldText(coord);
      var c := if coord.FCoord? then coord.coord else FieldText(coord);
      var x' :- Word(c, 0);
      var y' :- Word(c, 1);
      var t :- Lookup(d, "tags");
      var f :- Lookup(d, "flux_model");
      Ok((FieldText(n), Description(FieldText(n), ct, FieldText(t), x', y', FieldText(f))))
    else if x.None? || y.None? then Err(RuntimeError("Ill defined target, require: x and y"))
    else Ok((name, Description(name, ctag, TagsText(tags), x.value, y.value, FieldText(fluxModel))))
  }

  /**
   * The description splits back at its commas into the name, "ctag tags", x, y
   * and the flux model, when none of the fields holds a comma.
   */
  lemma DescriptionFields(name: string, ctag: string, tags: string, x: string, y: string, flux: string)
    requires ',' !in name && ',' !in ctag && ',' !in tags && ',' !in x && ',' !in y && ',' !in flux
    ensures Split(Description(name, ctag, tags, x, y, flux), ',') ==
      [name, " " + ctag + " " + tags, " " + x, " " + y, " " + flux]
  {
    var parts := DescriptionParts(name, ctag, tags, x, y, flux);
    assert forall i :: 0 <= i < |parts| ==> ',' !in parts[i];
    SplitJoin(parts, ',');
  }

  // ---------------------------------------------------------------- build_target

  /** One row of the target record array. */
  datatype TargetRecord = TargetRecord(
    name: string,
    tags: Field,
    target: string,
    /** None stands for NaN, the "no duration given" default */
    duration: Option<real>,
    cadence: real,
    fluxModel: Field,
    obsType: Field,
    noiseDiode: Option<Field>,
    lastObserved: Option<Field>,
    /** None stands for the default count 0 */
    obsCntr: Option<Field>)

  /** Index of the first name that starts with '*'. */
  function FirstStarred(names: seq<string>): (r: Option<nat>)
    ensures r.Some? ==> r.value < |names| && StartsWith(names[r.value], "*")
    ensures r.Some? ==> forall j :: 0 <= j < r.value ==> !StartsWith(names[j], "*")
    ensures r.None? ==> forall j :: 0 <= j < |names| ==> !StartsWith(names[j], "*")
  {
    if |names| == 0 then None
    else if StartsWith(names[0], "*") then Some(0)
    else
      match FirstStarred(names[1..])
      case None => None
      case Some(i) => Some(i + 1)
  }

  /** The stripped '|'-separated aliases of a name. */
  function Aliases(name: string): (names: seq<string>)
    ensures |names| >= 1
  {
    var parts := Split(name, '|');
    seq(|parts|, i requires 0 <= i < |parts| => Strip(parts[i]))
  }

  /** katpoint's choice of name among the aliases: the first marked '*' (without the mark), else the first. */
  function PreferredName(name: string): string
  {
    var names := Aliases(name);
    match FirstStarred(names)
    case Some(i) => names[i][1..]
    case None => names[0]
  }

  /** The preferred name is the first starred alias without its star when there is one, and the first alias otherwise. */
  lemma PreferredNameIs(name: string, i: nat)
    requires i < |Aliases(name)|
    requires forall j :: 0 <= j < i ==> !StartsWith(Aliases(name)[j], "*")
    ensures StartsWith(Aliases(name)[i], "*") ==> "*" + PreferredName(name) == Aliases(name)[i]
    ensures (forall j :: 0 <= j < |Aliases(name)| ==> !StartsWith(Aliases(name)[j], "*")) ==>
      PreferredName(name) == Aliases(name)[0]
  {
    var names := Aliases(name);
    if StartsWith(names[i], "*") {
      var f := FirstStarred(names);
      assert f.Some? && f.value == i;
      assert names[i] == "*" + names[i][1..];
    }
  }

  /** `float(v)` on a dictionary value. */
  function FieldFloat(f: Field): Result<real>
  {
    match f
    case FText(s) => ToFloat(s)
    case _ => Err(TypeError("float() argument must be a string or a number"))
  }

  /** `build_target(target_dict)`: the record for one unpacked target, or the error it raises. */
  function BuildTarget(d: TargetMap, toRadec: Converter): (r: Result<TargetRecord>)
    ensures r.Ok? ==> "name" in d && r.value.name == PreferredName(FieldText(d["name"]))
    ensures r.Ok? && "duration" !in d ==> r.value.duration == None
    ensures r.Ok? && "cadence" !in d ==> r.value.cadence == -1.0
    ensures r.Ok? && "obs_type" !in d ==> r.value.obsType == FText("track")
    ensures r.Ok? && "noise_diode" !in d ==> r.value.noiseDiode == None
    ensures r.Ok? && "last_observed" !in d ==> r.value.lastObserved == None
    ensures r.Ok? && "obs_cntr" !in d ==> r.value.obsCntr == None
  {
    var coord :- Lookup(d, "coord");
    var ct := Strip(if coord.FCoord? then coord.ctype else FieldText(coord));
    var c := if coord.FCoord? then coord.coord else FieldText(coord);
    var x :- Word(c, 0);
    var y :- Word(c, 1);
    var n :- Lookup(d, "name");
    var tags :- Lookup(d, "tags");
    var flux :- Lookup(d, "flux_model");
    var kt :- KatpointTarget(None, FieldText(n), ct, Some(x), Some(y), Some(tags), flux, toRadec);
    var dc :- DurationCadence(d);
    Ok(RecordOf(d, PreferredName(kt.0), tags, kt.1, dc, flux))
  }

  /** The duration (None when absent) and the cadence (-1 when absent) of a target, each read as a float. */
  function DurationCadence(d: TargetMap): (r: Result<(Option<real>, real)>)
    ensures r.Ok? && "duration" !in d ==> r.value.0 == None
    ensures r.Ok? && "cadence" !in d ==> r.value.1 == -1.0
  {
    var duration :- if "duration" in d then (var v :- FieldFloat(d["duration"]); Ok(Some(v))) else Ok(None);
    var cadence :- if "cadence" in d then FieldFloat(d["cadence"]) else Ok(-1.0);
    Ok((duration, cadence))
  }

  /** The record of a target: the optional fields default to "track" and None when the dictionary lacks them. */
  function RecordOf(d: TargetMap, name: string, tags: Field, target: string, dc: (Option<real>, real), flux: Field): (r: TargetRecord)
    ensures r.name == name && r.duration == dc.0 && r.cadence == dc.1
    ensures "obs_type" !in d ==> r.obsType == FText("track")
    ensures "noise_diode" !in d ==> r.noiseDiode == None
    ensures "last_observed" !in d ==> r.lastObserved == None
    ensures "obs_cntr" !in d ==> r.obsCntr == None
  {
    TargetRecord(
      name, tags, target, dc.0, dc.1, flux,
      if "obs_type" in d then d["obs_type"] else FText("track"),
      if "noise_diode" in d then Some(d["noise_diode"]) else None,
      if "last_observed" in d then Some(d["last_observed"]) else None,
      if "obs_cntr" in d then Some(d["obs_cntr"]) else None)
  }

  // ---------------------------------------------------------------- read

  /** One target string unpacked and built into a record. */
  function ReadOne(item: string, toRadec: Converter): Result<TargetRecord>
  {
    var d :- UnpackTargetSpec(item, toRadec);
    BuildTarget(d, toRadec)
  }

  /** What `read(items)` returns: one record per item, in item order, or the first error. */
  function ReadSpec(items: seq<string>, toRadec: Converter): (r: Result<seq<TargetRecord>>)
    ensures r.Ok? ==> |r.value| == |items|
    ensures r.Ok? ==> forall i :: 0 <= i < |items| ==> ReadOne(items[i], toRadec) == Ok(r.value[i])
    ensures r.Ok? <==> forall i :: 0 <= i < |items| ==> ReadOne(items[i], toRadec).Ok?
  {
    Each(items, (item: string) => ReadOne(item, toRadec))
  }

  /** `read`: allocate one row per item and fill the rows in order. */
  method Read(items: seq<string>, toRadec: Converter) returns (r: Result<array<TargetRecord>>)
    ensures r.Ok? <==> ReadSpec(items, toRadec).Ok?
    ensures r.Ok? ==> r.value[..] == ReadSpec(items, toRadec).value
    ensures r.Err? ==> r.error == ReadSpec(items, toRadec).error
  {
    var one := (item: string) => ReadOne(item, toRadec);
    var rows := new TargetRecord[|items|](_ => TargetRecord("", FEmpty, "", None, -1.0, FEmpty, FText("track"), None, None, None));
    var err := FillRows(items, one, rows);
    if err.Some? {
      return Err(err.value);
    }
    return Ok(rows);
  }

  /** The rows filled in item order with each item's value; the first item that fails stops the filling. */
  method FillRows<U>(items: seq<string>, f: string -> Result<U>, rows: array<U>) returns (err: Option<Error>)
    requires rows.Length == |items|
    modifies rows
    ensures err.None? <==> Each(items, f).Ok?
    ensures err.None? ==> rows[..] == Each(items, f).value
    ensures err.Some? ==> err.value == Each(items, f).error
  {
    var cnt := 0;
    while cnt < |items|
      invariant 0 <= cnt <= |items|
      invariant Each(items[..cnt], f).Ok?
      invariant rows[..cnt] == Each(items[..cnt], f).value
    {
      var row := f(items[cnt]);
      if row.Err? {
        EachFails(items, cnt, f);
        return Some(row.error);
      }
      EachSnoc(items, cnt, f);
      rows[cnt] := row.value;
      cnt := cnt + 1;
    }
    assert items[..cnt] == items;
    return None;
  }

  /** The first item that fails stops `read` with that item's error. */
  lemma ReadFails(items: seq<string>, n: nat, toRadec: Converter)
    requires n < |items| && (forall i :: 0 <= i < n ==> ReadOne(items[i], toRadec).Ok?) && ReadOne(items[n], toRadec).Err?
    ensures ReadSpec(items, toRadec) == Err(ReadOne(items[n], toRadec).error)
  {
    var one := (item: string) => ReadOne(item, toRadec);
    assert forall i :: 0 <= i < n ==> one(items[..n][i]).Ok?;
    EachFails(items, n, one);
  }
}
