// astrokat/obs_dict.py: the default dictionaries of an observation file and
// the parser that turns a "key=value, key=value" target string into a target
// dictionary filled in over the default template.
module ObsDict {
  import opened Common
  import opened Text

  /** A value held in an observation-file dictionary. */
  datatype Val =
    | VStr(s: string)
    /** a Python number, held as the text `"{}".format` prints for it */
    | VNum(text: string)
    /** a two-element list of strings, the `coord` entry */
    | VPair(first: string, second: string)
    | VNone

  /** A dictionary whose iteration order does not matter. */
  type Dict = map<string, Val>

  /** A dictionary whose insertion order matters, as a sequence of entries. */
  type Entries = seq<(string, Val)>

  const TargetKeys: set<string> := {"name", "coord", "tags", "duration", "cadence", "flux_model"}

  /** The target template: empty name and tags, zero duration, no cadence and no flux model. */
  const TargetTemplate: Dict :=
    map["name" := VStr(""), "coord" := VPair("", ""), "tags" := VStr(""),
        "duration" := VNum("0.0"), "cadence" := VNone, "flux_model" := VNone]

  /** `get_instrument_dict()`: a copy of the instrument section template. */
  function GetInstrumentDict(): (d: Entries)
    ensures |d| == 3 && d[0].0 == "product" && d[1].0 == "band" && d[2].0 == "integration_period"
    ensures forall i :: 0 <= i < |d| ==> d[i].1 == VNone
  {
    [("product", VNone), ("band", VNone), ("integration_period", VNone)]
  }

  /** `get_durations_dict()`: a copy of the durations section template. */
  function GetDurationsDict(): (d: Entries)
    ensures |d| == 2 && d[0].0 == "obs_duration" && d[1].0 == "start_time"
    ensures forall i :: 0 <= i < |d| ==> d[i].1 == VNone
  {
    [("obs_duration", VNone), ("start_time", VNone)]
  }

  /** `get_target_dict()`: a copy of the target template. */
  function GetTargetDict(): (d: Dict)
    ensures d.Keys == TargetKeys
    ensures d["cadence"] == VNone && d["flux_model"] == VNone && d["name"] == VStr("")
  {
    TargetTemplate
  }

  // ---------------------------------------------------------------- remove_none_inputs_

  /** The entries of `e` whose value is not None, in their order. */
  function NonNone(e: Entries): Entries
  {
    if |e| == 0 then []
    else if e[|e| - 1].1 == VNone then NonNone(e[..|e| - 1])
    else NonNone(e[..|e| - 1]) + [e[|e| - 1]]
  }

  /** `remove_none_inputs_`: copy every entry whose value is not None into a fresh dictionary. */
  method RemoveNoneInputs(args: Entries) returns (clean: Entries)
    ensures clean == NonNone(args)
  {
    clean := [];
    var i := 0;
    while i < |args|
      invariant 0 <= i <= |args|
      invariant clean == NonNone(args[..i])
    {
      assert args[..i + 1][..i] == args[..i];
      if args[i].1 != VNone {
        clean := clean + [args[i]];
      }
      i := i + 1;
    }
    assert args[..|args|] == args;
  }

  /** The cleaned dictionary holds exactly the entries of the input whose value is not None. */
  lemma {:induction false} NonNoneMembers(e: Entries, x: (string, Val))
    ensures x in NonNone(e) <==> x in e && x.1 != VNone
    decreases |e|
  {
    if |e| > 0 {
      NonNoneMembers(e[..|e| - 1], x);
      assert e == e[..|e| - 1] + [e[|e| - 1]];
    }
  }

  /** Cleaning never reorders: the result is an order-preserving selection of the input. */
  lemma {:induction false} NonNoneOrder(e: Entries) returns (idx: seq<nat>)
    ensures |idx| == |NonNone(e)|
    ensures forall j :: 0 <= j < |idx| ==> idx[j] < |e| && NonNone(e)[j] == e[idx[j]]
    ensures forall j, k :: 0 <= j < k < |idx| ==> idx[j] < idx[k]
    decreases |e|
  {
    if |e| == 0 {
      idx := [];
    } else {
      var p := NonNoneOrder(e[..|e| - 1]);
      if e[|e| - 1].1 == VNone {
        idx := p;
      } else {
        idx := p + [|e| - 1];
      }
    }
  }

  // ---------------------------------------------------------------- unpack_target

  /** `key.strip().startswith(coord)` for one of the coordinate types radec, azel, gal, special. */
  predicate IsCoordKey(k: string)
  {
    StartsWith(k, "radec") || StartsWith(k, "azel") || StartsWith(k, "gal") || StartsWith(k, "special")
  }

  /** `[item.strip() for item in target_str.split(",")]` */
  function Items(s: string): (items: seq<string>)
    ensures |items| == |Split(s, ',')|
    ensures forall i :: 0 <= i < |items| ==> items[i] == Strip(Split(s, ',')[i])
  {
    var parts := Split(s, ',');
    seq(|parts|, i requires 0 <= i < |parts| => Strip(parts[i]))
  }

  /** `key, value = item.split('=')` succeeds only when the item has exactly one '='. */
  predicate Unpackable(item: string) { |Split(item, '=')| == 2 }

  function Key(item: string): string
    requires Unpackable(item)
  {
    Strip(Split(item, '=')[0])
  }

  function Value(item: string): string
    requires Unpackable(item)
  {
    Strip(Split(item, '=')[1])
  }

  /** The error Python raises when unpacking `item.split('=')` into two names fails. */
  function UnpackError(item: string): Error
    requires !Unpackable(item)
  {
    if |Split(item, '=')| < 2 then ValueError("not enough values to unpack (expected 2)")
    else ValueError("too many values to unpack (expected 2)")
  }

  /** A coordinate key sets `coord` to the stripped key and value. */
  function SetCoord(t: Dict, k: string, v: string): Dict
  {
    if IsCoordKey(k) then t["coord" := VPair(k, v)] else t
  }

  /** A key already in the dictionary takes the value. */
  function SetField(t: Dict, k: string, v: string): Dict
  {
    if k in t then t[k := VStr(v)] else t
  }

  /** A key containing "model" sets `flux_model`. */
  function SetModel(t: Dict, k: string, v: string): Dict
  {
    if Contains(k, "model") then t["flux_model" := VStr(v)] else t
  }

  /** The three assignments of one loop pass of `unpack_target`, for key `k` and value `v`. */
  function Assign(t: Dict, k: string, v: string): Dict
  {
    var t1 := if IsCoordKey(k) then t["coord" := VPair(k, v)] else t;
    var t2 := if k in t1 then t1[k := VStr(v)] else t1;
    if Contains(k, "model") then t2["flux_model" := VStr(v)] else t2
  }

  lemma AssignSteps(t: Dict, k: string, v: string)
    ensures Assign(t, k, v) == SetModel(SetField(SetCoord(t, k, v), k, v), k, v)
  {
  }

  /** One pass of the loop body of `unpack_target`. */
  function ApplyItem(t: Dict, item: string): (r: Result<Dict>)
    ensures r.Err? <==> !Unpackable(item)
  {
    if !Unpackable(item) then Err(UnpackError(item))
    else Ok(Assign(t, Key(item), Value(item)))
  }

  /** The loop of `unpack_target` over `items`, stopping at the first item that fails. */
  function ApplyItems(t: Dict, items: seq<string>): Result<Dict>
  {
    if |items| == 0 then Ok(t)
    else
      match ApplyItems(t, items[..|items| - 1])
      case Err(e) => Err(e)
      case Ok(t') => ApplyItem(t', items[|items| - 1])
  }

  /** What `unpack_target(s)` returns or raises. */
  function UnpackTargetSpec(s: string): Result<Dict>
  {
    ApplyItems(TargetTemplate, Items(s))
  }

  /** `unpack_target`: fill a copy of the target template from the items of `s`. */
  method UnpackTarget(s: string) returns (r: Result<Dict>)
    ensures r == UnpackTargetSpec(s)
  {
    var target := GetTargetDict();
    r := FillTarget(target, Items(s));
  }

  /** The loop of `unpack_target`: apply each item in turn to `target`, raising on the first that does not unpack. */
  method FillTarget(target: Dict, items: seq<string>) returns (r: Result<Dict>)
    ensures r == ApplyItems(target, items)
  {
    var t := target;
    var i := 0;
    ApplyNone(target, items[..0]);
    while i < |items|
      invariant 0 <= i <= |items|
      invariant ApplyItems(target, items[..i]) == Ok(t)
    {
      var kv := Split(items[i], '=');
      if |kv| != 2 {
        FailStep(target, items, i, t);
        ErrSticks(target, items, i + 1);
        return Err(UnpackError(items[i]));
      }
      var key := Strip(kv[0]);
      var value := Strip(kv[1]);
      ghost var before := t;
      AssignSteps(before, key, value);
      UnpackStep(target, items, i, before);
      if IsCoordKey(key) {
        t := t["coord" := VPair(key, value)];
      }
      if key in t {
        t := t[key := VStr(value)];
      }
      if Contains(key, "model") {
        t := t["flux_model" := VStr(value)];
      }
      assert t == Assign(before, key, value);
      i := i + 1;
    }
    ApplyAll(target, items, t);
    r := Ok(t);
  }

  lemma ApplyNone(t: Dict, items: seq<string>)
    requires |items| == 0
    ensures ApplyItems(t, items) == Ok(t)
  {
  }

  lemma ApplyAll(t: Dict, items: seq<string>, t': Dict)
    requires ApplyItems(t, items[..|items|]) == Ok(t')
    ensures ApplyItems(t, items) == Ok(t')
  {
    assert items[..|items|] == items;
  }

  /** One more item that unpacks moves the loop one pass on. */
  lemma UnpackStep(t0: Dict, items: seq<string>, i: nat, t: Dict)
    requires i < |items| && ApplyItems(t0, items[..i]) == Ok(t) && Unpackable(items[i])
    ensures ApplyItems(t0, items[..i + 1]) == Ok(Assign(t, Key(items[i]), Value(items[i])))
  {
    assert items[..i + 1][..i] == items[..i];
  }

  /** An item that does not unpack ends the loop with its error. */
  lemma FailStep(t0: Dict, items: seq<string>, i: nat, t: Dict)
    requires i < |items| && ApplyItems(t0, items[..i]) == Ok(t) && !Unpackable(items[i])
    ensures ApplyItems(t0, items[..i + 1]) == Err(UnpackError(items[i]))
  {
    assert items[..i + 1][..i] == items[..i];
  }

  /** Once the loop has failed, later items change nothing. */
  lemma {:induction false} ErrSticks(t: Dict, items: seq<string>, n: nat)
    requires n <= |items| && ApplyItems(t, items[..n]).Err?
    ensures ApplyItems(t, items) == ApplyItems(t, items[..n])
    decreases |items| - n
  {
    if n < |items| {
      assert items[..n + 1][..n] == items[..n];
      ErrSticks(t, items, n + 1);
    } else {
      assert items[..n] == items;
    }
  }

  /** Unpacking fails exactly when some item does not split into one key and one value. */
  lemma {:induction false} ApplyItemsFails(t: Dict, items: seq<string>)
    ensures ApplyItems(t, items).Err? <==> exists i :: 0 <= i < |items| && !Unpackable(items[i])
    decreases |items|
  {
    if |items| > 0 {
      var p := items[..|items| - 1];
      ApplyItemsFails(t, p);
      ApplyItemsErrStep(t, items);
      SomeFails(items, p);
    }
  }

  lemma ApplyItemsErrStep(t: Dict, items: seq<string>)
    requires |items| > 0
    ensures ApplyItems(t, items).Err? <==>
      ApplyItems(t, items[..|items| - 1]).Err? || !Unpackable(items[|items| - 1])
  {
  }

  /** Some item fails exactly when one before the last or the last one does. */
  lemma SomeFails(items: seq<string>, p: seq<string>)
    requires |items| > 0 && p == items[..|items| - 1]
    ensures (exists i :: 0 <= i < |items| && !Unpackable(items[i])) <==>
      (exists i :: 0 <= i < |p| && !Unpackable(p[i])) || !Unpackable(items[|items| - 1])
  {
    if exists i :: 0 <= i < |p| && !Unpackable(p[i]) {
      var i :| 0 <= i < |p| && !Unpackable(p[i]);
      assert items[i] == p[i];
    }
    if exists i :: 0 <= i < |items| && !Unpackable(items[i]) {
      var i :| 0 <= i < |items| && !Unpackable(items[i]);
      if i < |p| {
        assert p[i] == items[i];
      }
    }
  }

  lemma UnpackTargetFails(s: string)
    ensures UnpackTargetSpec(s).Err? <==> exists i :: 0 <= i < |Items(s)| && !Unpackable(Items(s)[i])
  {
    ApplyItemsFails(TargetTemplate, Items(s));
  }

  /** A key `k` writes field `f` of the target. */
  predicate Writes(k: string, f: string)
  {
    k == f || (f == "coord" && IsCoordKey(k)) || (f == "flux_model" && Contains(k, "model"))
  }

  /** The value key `k` with value `v` writes into field `f`: only a coordinate key writes a pair. */
  function Written(k: string, v: string, f: string): Val
  {
    if f == "coord" && k != "coord" then VPair(k, v) else VStr(v)
  }

  predicate Sets(item: string, f: string)
  {
    Unpackable(item) && Writes(Key(item), f)
  }

  /** One pass leaves the key set alone and writes exactly the fields its key names. */
  lemma AssignField(t: Dict, k: string, v: string, f: string)
    requires TargetKeys <= t.Keys && f in TargetKeys
    ensures Assign(t, k, v).Keys == t.Keys
    ensures Assign(t, k, v)[f] == if Writes(k, f) then Written(k, v, f) else t[f]
  {
    WrittenKeys();
    AssignSteps(t, k, v);
    var t1 := SetCoord(t, k, v);
    var t2 := SetField(t1, k, v);
    assert t1.Keys == t.Keys && t2.Keys == t.Keys;
    assert t1[f] == if f == "coord" && IsCoordKey(k) then VPair(k, v) else t[f];
    assert t2[f] == if f == k then VStr(v) else t1[f];
  }

  lemma WrittenKeys()
    ensures "coord" in TargetKeys && "flux_model" in TargetKeys && "coord" != "flux_model"
  {
  }

  /** Index of the last true flag, if any. */
  function LastTrue(bs: seq<bool>): (j: Option<nat>)
    ensures j.Some? ==> j.value < |bs| && bs[j.value] && forall i :: j.value < i < |bs| ==> !bs[i]
    ensures j.None? ==> forall i :: 0 <= i < |bs| ==> !bs[i]
  {
    if |bs| == 0 then None
    else if bs[|bs| - 1] then Some(|bs| - 1)
    else LastTrue(bs[..|bs| - 1])
  }

  /** Index of the last item that writes field `f`, if any. */
  function LastSetting(items: seq<string>, f: string): Option<nat>
  {
    LastTrue(SetsFlags(items, f))
  }

  function SetsFlags(items: seq<string>, f: string): (bs: seq<bool>)
    ensures |bs| == |items| && forall i :: 0 <= i < |items| ==> bs[i] == Sets(items[i], f)
  {
    seq(|items|, i requires 0 <= i < |items| => Sets(items[i], f))
  }

  /** Each field holds what the last item naming it wrote, or its value in `t` when no item names it. */
  lemma {:induction false} ApplyItemsField(t: Dict, items: seq<string>, f: string)
    requires TargetKeys <= t.Keys && f in TargetKeys
    requires forall i :: 0 <= i < |items| ==> Unpackable(items[i])
    ensures ApplyItems(t, items).Ok?
    ensures ApplyItems(t, items).value.Keys == t.Keys
    ensures ApplyItems(t, items).value[f] ==
      match LastSetting(items, f)
      case None => t[f]
      case Some(j) => Written(Key(items[j]), Value(items[j]), f)
    decreases |items|
  {
    if |items| > 0 {
      var p := items[..|items| - 1];
      assert forall i :: 0 <= i < |p| ==> p[i] == items[i];
      ApplyItemsField(t, p, f);
      var last := items[|items| - 1];
      var before := ApplyItems(t, p).value;
      AssignField(before, Key(last), Value(last), f);
      assert ApplyItems(t, items) == Ok(Assign(before, Key(last), Value(last)));
      LastSettingSnoc(items, p, f);
    }
  }

  /** The last item naming `f` is the new last item if it names `f`, and otherwise the one before. */
  lemma LastSettingSnoc(items: seq<string>, p: seq<string>, f: string)
    requires |items| > 0 && p == items[..|items| - 1]
    ensures LastSetting(items, f) ==
      if Sets(items[|items| - 1], f) then Some(|p|) else LastSetting(p, f)
  {
    var bs := SetsFlags(items, f);
    assert bs[..|p|] == SetsFlags(p, f);
    if !Sets(items[|items| - 1], f) {
      assert !bs[|p|];
      assert LastTrue(bs) == LastTrue(bs[..|p|]);
    }
  }

  /**
   * A target string whose items all unpack yields a dictionary with exactly the
   * template's keys, in which every field holds what the last item naming it
   * wrote, and a field no item names keeps its template default.
   */
  lemma UnpackTargetFields(s: string, f: string)
    requires f in TargetKeys
    requires forall i :: 0 <= i < |Items(s)| ==> Unpackable(Items(s)[i])
    ensures UnpackTargetSpec(s).Ok?
    ensures UnpackTargetSpec(s).value.Keys == TargetKeys
    ensures UnpackTargetSpec(s).value[f] ==
      match LastSetting(Items(s), f)
      case None => TargetTemplate[f]
      case Some(j) => Written(Key(Items(s)[j]), Value(Items(s)[j]), f)
  {
    ApplyItemsField(TargetTemplate, Items(s), f);
  }
}
