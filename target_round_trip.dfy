// The target line written by astrokat/obs_yaml.py `target_str` read back by
// astrokat/obs_dict.py `unpack_target`: every field comes back as the text it
// was printed as, provided no field text holds a ',' or an '=' or surrounding
// whitespace.
module TargetRoundTrip {
  import opened Common
  import opened Text
  import opened ObsDict
  import opened ObsYaml

  /** A field text that survives the round trip: stripped, with no ',' and no '='. */
  predicate Clean(x: string) { Stripped(x) && ',' !in x && '=' !in x }

  /** A key that survives: clean, and starting with a character that is not whitespace. */
  predicate CleanKey(k: string) { Clean(k) && |k| > 0 }

  function ItemText(p: (string, string)): string { p.0 + "=" + p.1 }

  /** The "key=value" items of a target line. */
  function ItemTexts(ps: seq<(string, string)>): (r: seq<string>)
    ensures |r| == |ps| && forall i :: 0 <= i < |ps| ==> r[i] == ItemText(ps[i])
  {
    seq(|ps|, i requires 0 <= i < |ps| => ItemText(ps[i]))
  }

  // ---------------------------------------------------------------- splitting the line

  lemma ContainsBound(s: string, sub: string)
    requires Contains(s, sub)
    ensures |sub| <= |s|
    ensures |sub| > 0 ==> sub[0] in s
  {
    var i := ContainsWitness(s, sub);
    if |sub| > 0 {
      assert s[i] == sub[0];
    }
  }

  /** Joining clean items with ", " and reading them back with `Items` gives the items. */
  lemma ItemsOfJoin(xs: seq<string>)
    requires |xs| >= 1
    requires forall i :: 0 <= i < |xs| ==> ',' !in xs[i] && Stripped(xs[i]) && |xs[i]| > 0
    ensures Items(Join(xs, ", ")) == xs
  {
    JoinPadded(xs, ",", " ");
    assert "," + " " == ", ";
    var sp := PadAfterFirst(xs, " ");
    forall i | 0 <= i < |sp|
      ensures ',' !in sp[i]
    {
      if i > 0 {
        assert sp[i] == " " + xs[i];
      }
    }
    SplitJoin(sp, ',');
    forall i | 0 <= i < |xs|
      ensures Strip(sp[i]) == xs[i]
    {
      if i > 0 {
        StripLeadingSpace(' ', xs[i]);
        assert sp[i] == [' '] + xs[i];
      }
      StrippedFixed(xs[i]);
    }
  }

  lemma SplitItem(k: string, v: string)
    requires '=' !in k && '=' !in v
    ensures Split(ItemText((k, v)), '=') == [k, v]
  {
    SplitAfter(k, '=', v);
    SplitNoSep(v, '=');
    assert k + "=" + v == k + ['='] + v;
  }

  lemma ItemShape(k: string, v: string)
    requires CleanKey(k) && Clean(v)
    ensures Stripped(ItemText((k, v))) && ',' !in ItemText((k, v)) && |ItemText((k, v))| > 0
  {
    var t := k + "=" + v;
    assert t[0] == k[0];
    if |v| > 0 {
      assert t[|t| - 1] == v[|v| - 1];
    }
    assert ',' !in t by {
      forall j | 0 <= j < |t| ensures t[j] != ',' {
        if j < |k| { assert t[j] == k[j]; }
        else if j > |k| { assert t[j] == v[j - |k| - 1]; }
      }
    }
  }

  /** One clean "key=value" item splits at its '=' into the key and the value. */
  lemma UnpackItem(k: string, v: string)
    requires CleanKey(k) && Clean(v)
    ensures Unpackable(ItemText((k, v)))
    ensures Key(ItemText((k, v))) == k && Value(ItemText((k, v))) == v
    ensures Stripped(ItemText((k, v))) && ',' !in ItemText((k, v)) && |ItemText((k, v))| > 0
  {
    SplitItem(k, v);
    StrippedFixed(k);
    StrippedFixed(v);
    ItemShape(k, v);
  }

  predicate CleanPairs(ps: seq<(string, string)>)
  {
    forall i :: 0 <= i < |ps| ==> CleanKey(ps[i].0) && Clean(ps[i].1)
  }

  /** The items of a line made of clean pairs are the "key=value" texts of the pairs. */
  lemma LineItems(ps: seq<(string, string)>)
    requires |ps| >= 1 && CleanPairs(ps)
    ensures Items(Join(ItemTexts(ps), ", ")) == ItemTexts(ps)
    ensures forall i :: 0 <= i < |ps| ==>
      Unpackable(ItemTexts(ps)[i]) && Key(ItemTexts(ps)[i]) == ps[i].0 && Value(ItemTexts(ps)[i]) == ps[i].1
  {
    var xs := ItemTexts(ps);
    forall i | 0 <= i < |ps|
      ensures Unpackable(xs[i]) && Key(xs[i]) == ps[i].0 && Value(xs[i]) == ps[i].1
      ensures ',' !in xs[i] && Stripped(xs[i]) && |xs[i]| > 0
    {
      UnpackItem(ps[i].0, ps[i].1);
    }
    ItemsOfJoin(xs);
  }

  /** A field of the parsed line holds the value of the last pair whose key writes it. */
  lemma PairsField(ps: seq<(string, string)>, f: string, j: nat)
    requires |ps| >= 1 && CleanPairs(ps) && f in TargetKeys
    requires j < |ps| && Writes(ps[j].0, f)
    requires forall i :: j < i < |ps| ==> !Writes(ps[i].0, f)
    ensures UnpackTargetSpec(Join(ItemTexts(ps), ", ")).Ok?
    ensures UnpackTargetSpec(Join(ItemTexts(ps), ", ")).value.Keys == TargetKeys
    ensures UnpackTargetSpec(Join(ItemTexts(ps), ", ")).value[f] == Written(ps[j].0, ps[j].1, f)
  {
    var s := Join(ItemTexts(ps), ", ");
    LineItems(ps);
    var items := ItemTexts(ps);
    UnpackTargetFields(s, f);
    var bs := SetsFlags(items, f);
    forall i | j <= i < |ps|
      ensures bs[i] == Writes(ps[i].0, f)
    {
      assert bs[i] == Sets(items[i], f);
    }
    LastTrueAt(bs, j);
  }

  lemma LastTrueAt(bs: seq<bool>, j: nat)
    requires j < |bs| && bs[j] && forall i :: j < i < |bs| ==> !bs[i]
    ensures LastTrue(bs) == Some(j)
  {
  }

  /** A field no pair's key writes keeps its template value. */
  lemma PairsFieldUnset(ps: seq<(string, string)>, f: string)
    requires |ps| >= 1 && CleanPairs(ps) && f in TargetKeys
    requires forall i :: 0 <= i < |ps| ==> !Writes(ps[i].0, f)
    ensures UnpackTargetSpec(Join(ItemTexts(ps), ", ")).Ok?
    ensures UnpackTargetSpec(Join(ItemTexts(ps), ", ")).value.Keys == TargetKeys
    ensures UnpackTargetSpec(Join(ItemTexts(ps), ", ")).value[f] == TargetTemplate[f]
  {
    var s := Join(ItemTexts(ps), ", ");
    LineItems(ps);
    var items := ItemTexts(ps);
    UnpackTargetFields(s, f);
    var bs := SetsFlags(items, f);
    forall i | 0 <= i < |ps|
      ensures !bs[i]
    {
      assert bs[i] == Sets(items[i], f);
    }
    NoneTrue(bs);
  }

  lemma NoneTrue(bs: seq<bool>)
    requires forall i :: 0 <= i < |bs| ==> !bs[i]
    ensures LastTrue(bs) == None
  {
  }

  // ---------------------------------------------------------------- which keys write which fields

  lemma CoordKeyHead(k: string)
    requires IsCoordKey(k)
    ensures |k| > 0 && (k[0] == 'r' || k[0] == 'a' || k[0] == 'g' || k[0] == 's')
  {
    if StartsWith(k, "radec") { assert k[0] == k[..5][0]; }
    else if StartsWith(k, "azel") { assert k[0] == k[..4][0]; }
    else if StartsWith(k, "gal") { assert k[0] == k[..3][0]; }
    else { assert k[0] == k[..7][0]; }
  }

  lemma NoCoordKey(k: string)
    requires |k| > 0 && k[0] != 'r' && k[0] != 'a' && k[0] != 'g' && k[0] != 's'
    ensures !IsCoordKey(k)
  {
    if IsCoordKey(k) {
      CoordKeyHead(k);
    }
  }

  lemma NoModel(k: string)
    requires 'm' !in k || |k| < 5
    ensures !Contains(k, "model")
  {
    if Contains(k, "model") {
      ContainsBound(k, "model");
    }
  }

  /** None of the plain keys `target_str` writes is a coordinate key or mentions "model". */
  lemma LiteralKeys()
    ensures !IsCoordKey("name") && !IsCoordKey("tags") && !IsCoordKey("duration")
    ensures !IsCoordKey("cadence") && !IsCoordKey("model")
    ensures !Contains("name", "model") && !Contains("tags", "model")
    ensures !Contains("duration", "model") && !Contains("cadence", "model")
    ensures Contains("model", "model")
  {
    LiteralNotCoord();
    LiteralNoModel();
    assert StartsWith("model", "model");
  }

  lemma LiteralNotCoord()
    ensures !IsCoordKey("name") && !IsCoordKey("tags") && !IsCoordKey("duration")
    ensures !IsCoordKey("cadence") && !IsCoordKey("model")
  {
    assert "name"[0] == 'n' && "tags"[0] == 't' && "duration"[0] == 'd' && "cadence"[0] == 'c' && "model"[0] == 'm';
    NoCoordKey("name");
    NoCoordKey("tags");
    NoCoordKey("duration");
    NoCoordKey("cadence");
    NoCoordKey("model");
  }

  lemma LiteralNoModel()
    ensures !Contains("name", "model") && !Contains("tags", "model")
    ensures !Contains("duration", "model") && !Contains("cadence", "model")
  {
    NoModel("name");
    NoModel("tags");
    NoModel("duration");
    NoModel("cadence");
  }

  /** The plain keys `target_str` writes each write the field of the same name and no other. */
  lemma PlainKeyWrites(k: string, f: string)
    requires k == "name" || k == "tags" || k == "duration" || k == "cadence"
    ensures Writes(k, f) <==> k == f
  {
    LiteralKeys();
  }

  /** The key "model" writes the flux model and no other field. */
  lemma ModelKeyWrites()
    ensures Writes("model", "flux_model")
    ensures !Writes("model", "name") && !Writes("model", "coord") && !Writes("model", "tags")
    ensures !Writes("model", "duration") && !Writes("model", "cadence")
  {
    assert !IsCoordKey("model") by { NoCoordKey("model"); }
    assert StartsWith("model", "model");
  }

  /** A coordinate key writes the coordinate and nothing else, unless it mentions "model". */
  lemma CoordWrites(k: string, f: string)
    requires f in TargetKeys && IsCoordKey(k) && !Contains(k, "model")
    ensures Writes(k, f) <==> f == "coord"
  {
    CoordKeyHead(k);
    assert "name"[0] == 'n' && "tags"[0] == 't' && "duration"[0] == 'd' && "cadence"[0] == 'c';
    assert "flux_model"[0] == 'f';
  }

  // ---------------------------------------------------------------- the line target_str writes

  lemma {:induction false} JoinSnoc(xs: seq<string>, y: string, sep: string)
    requires |xs| >= 1
    ensures Join(xs + [y], sep) == Join(xs, sep) + sep + y
    decreases |xs|
  {
    if |xs| > 1 {
      JoinSnoc(xs[1..], y, sep);
      assert (xs + [y])[1..] == xs[1..] + [y];
    } else {
      assert (xs + [y])[1..] == [y];
    }
  }

  /** The four pairs `target_str` always writes for the normalised dictionary `n`. */
  function BasePairs(n: Dict): seq<(string, string)>
    requires TargetKeys <= n.Keys && n["coord"].VPair?
  {
    [("name", Show(n["name"])), (n["coord"].first, n["coord"].second),
     ("tags", Show(n["tags"])), ("duration", Show(n["duration"]))]
  }

  /** The (key, value) pairs `target_str` writes for the normalised dictionary `n`, in order. */
  function LinePairs(n: Dict): (ps: seq<(string, string)>)
    requires TargetKeys <= n.Keys && n["coord"].VPair?
    ensures 4 <= |ps| <= 6
    ensures ps[0] == ("name", Show(n["name"])) && ps[1] == (n["coord"].first, n["coord"].second)
    ensures ps[2] == ("tags", Show(n["tags"])) && ps[3] == ("duration", Show(n["duration"]))
    ensures n["cadence"] != VNone <==> |ps| > 4 && ps[4] == ("cadence", Show(n["cadence"]))
    ensures n["flux_model"] != VNone <==> ps[|ps| - 1] == ("model", Show(n["flux_model"]))
    ensures |ps| == 4 + (if n["cadence"] != VNone then 1 else 0) + (if n["flux_model"] != VNone then 1 else 0)
    ensures |ps| == |LineFields(n)|
  {
    var withCadence := if n["cadence"] != VNone then BasePairs(n) + [("cadence", Show(n["cadence"]))] else BasePairs(n);
    if n["flux_model"] != VNone then withCadence + [("model", Show(n["flux_model"]))] else withCadence
  }

  /** Appending one pair appends ", key=value" to the line. */
  lemma SnocLine(ps: seq<(string, string)>, k: string, v: string, sep: string)
    requires |ps| >= 1 && sep == ", " + k + "="
    ensures Join(ItemTexts(ps + [(k, v)]), ", ") == Join(ItemTexts(ps), ", ") + sep + v
  {
    assert ItemTexts(ps + [(k, v)]) == ItemTexts(ps) + [ItemText((k, v))];
    JoinSnoc(ItemTexts(ps), ItemText((k, v)), ", ");
  }

  /** The four fixed items, written out as `target_str` concatenates them. */
  lemma BaseLine(n: Dict)
    requires TargetKeys <= n.Keys && n["coord"].VPair?
    ensures Join(ItemTexts(BasePairs(n)), ", ")
      == "name=" + Show(n["name"]) + ", " + n["coord"].first + "=" + n["coord"].second
        + ", tags=" + Show(n["tags"]) + ", duration=" + Show(n["duration"])
  {
    var ps := BasePairs(n);
    assert ItemTexts(ps) == [ItemText(ps[0]), ItemText(ps[1]), ItemText(ps[2]), ItemText(ps[3])];
    FourPairs(ps[0].1, ps[1].0, ps[1].1, ps[2].1, ps[3].1);
  }

  /** The line of the four fixed pairs, for any values. */
  lemma FourPairs(name: string, ck: string, cv: string, tags: string, duration: string)
    ensures Join([ItemText(("name", name)), ItemText((ck, cv)), ItemText(("tags", tags)), ItemText(("duration", duration))], ", ")
      == "name=" + name + ", " + ck + "=" + cv + ", tags=" + tags + ", duration=" + duration
  {
    var a, b, c, e := ItemText(("name", name)), ItemText((ck, cv)), ItemText(("tags", tags)), ItemText(("duration", duration));
    JoinFour(a, b, c, e);
    LiteralHeads();
  }

  lemma LiteralHeads()
    ensures "name" + "=" == "name="
    ensures ", " + ("tags" + "=") == ", tags="
    ensures ", " + ("duration" + "=") == ", duration="
  {
  }

  lemma JoinFour(a: string, b: string, c: string, e: string)
    ensures Join([a, b, c, e], ", ") == a + ", " + b + ", " + c + ", " + e
  {
    assert [c, e][1..] == [e];
    assert Join([c, e], ", ") == c + ", " + e;
    assert [b, c, e][1..] == [c, e];
    assert Join([b, c, e], ", ") == b + ", " + Join([c, e], ", ");
    assert [a, b, c, e][1..] == [b, c, e];
  }

  /** The text `target_str` concatenates for the normalised dictionary `n`. */
  function FieldsLine(n: Dict): string
    requires TargetKeys <= n.Keys && n["coord"].VPair?
  {
    var spec := "name=" + Show(n["name"]) + ", " + n["coord"].first + "=" + n["coord"].second
      + ", tags=" + Show(n["tags"]) + ", duration=" + Show(n["duration"]);
    var withCadence := if n["cadence"] != VNone then spec + ", cadence=" + Show(n["cadence"]) else spec;
    if n["flux_model"] != VNone then withCadence + ", model=" + Show(n["flux_model"]) else withCadence
  }

  /** `target_str` succeeds on a dictionary with every target key and a coordinate pair. */
  lemma TargetTextFields(d: Dict)
    requires TargetKeys <= d.Keys && d["coord"].VPair?
    ensures TargetKeys <= Normalised(d).Keys && Normalised(d)["coord"].VPair?
    ensures TargetText(d) == Ok(FieldsLine(Normalised(d)))
  {
    InTargetKeys();
  }

  /** The pairs of the line, joined by ", ", are the text `target_str` concatenates. */
  lemma PairsLine(n: Dict)
    requires TargetKeys <= n.Keys && n["coord"].VPair?
    ensures Join(ItemTexts(LinePairs(n)), ", ") == FieldsLine(n)
  {
    BaseLine(n);
    var spec := "name=" + Show(n["name"]) + ", " + n["coord"].first + "=" + n["coord"].second
      + ", tags=" + Show(n["tags"]) + ", duration=" + Show(n["duration"]);
    var withCadence := if n["cadence"] != VNone then BasePairs(n) + [("cadence", Show(n["cadence"]))] else BasePairs(n);
    var cadenceLine := if n["cadence"] != VNone then spec + ", cadence=" + Show(n["cadence"]) else spec;
    if n["cadence"] != VNone {
      SnocLine(BasePairs(n), "cadence", Show(n["cadence"]), ", cadence=");
    }
    assert Join(ItemTexts(withCadence), ", ") == cadenceLine;
    if n["flux_model"] != VNone {
      SnocLine(withCadence, "model", Show(n["flux_model"]), ", model=");
      assert LinePairs(n) == withCadence + [("model", Show(n["flux_model"]))];
    } else {
      assert LinePairs(n) == withCadence;
    }
  }

  /** `target_str` writes the pairs of the normalised dictionary joined by ", ". */
  lemma TargetTextPairs(d: Dict)
    requires TargetKeys <= d.Keys && d["coord"].VPair?
    ensures TargetKeys <= Normalised(d).Keys && Normalised(d)["coord"].VPair?
    ensures TargetText(d) == Ok(Join(ItemTexts(LinePairs(Normalised(d))), ", "))
  {
    TargetTextFields(d);
    PairsLine(Normalised(d));
  }

  // ---------------------------------------------------------------- reading the line back

  /** The field each pair of the line writes when read back. */
  function LineFields(n: Dict): seq<string>
    requires TargetKeys <= n.Keys
  {
    ["name", "coord", "tags", "duration"]
      + (if n["cadence"] != VNone then ["cadence"] else [])
      + (if n["flux_model"] != VNone then ["flux_model"] else [])
  }

  /** A target dictionary whose line reads back: every text it writes is clean, and its coordinate key names only the coordinate. */
  predicate Rereadable(d: Dict)
  {
    TargetKeys <= d.Keys && d["coord"].VPair?
    && IsCoordKey(d["coord"].first) && !Contains(d["coord"].first, "model")
    && Clean(d["coord"].first) && Clean(d["coord"].second)
    && Clean(Show(d["name"])) && Clean(Show(d["tags"])) && Clean(Show(d["duration"]))
    && Clean(Show(d["cadence"])) && Clean(Show(d["flux_model"]))
  }

  lemma LiteralClean()
    ensures CleanKey("name") && CleanKey("tags") && CleanKey("duration") && CleanKey("cadence") && CleanKey("model")
    ensures Clean("special")
  {
    assert "name"[0] == 'n' && "name"[3] == 'e';
    assert "tags"[0] == 't' && "tags"[3] == 's';
    assert "duration"[0] == 'd' && "duration"[7] == 'n';
    assert "cadence"[0] == 'c' && "cadence"[6] == 'e';
    assert "model"[0] == 'm' && "model"[4] == 'l';
    assert "special"[0] == 's' && "special"[6] == 'l';
  }

  /** Normalising keeps the dictionary rereadable and only ever touches the coordinate value. */
  lemma NormalisedRereadable(d: Dict)
    requires Rereadable(d)
    ensures var n := Normalised(d);
      TargetKeys <= n.Keys && n["coord"].VPair? && n["coord"].first == d["coord"].first
      && Clean(n["coord"].second)
      && n["name"] == d["name"] && n["tags"] == d["tags"] && n["duration"] == d["duration"]
      && n["cadence"] == d["cadence"] && n["flux_model"] == d["flux_model"]
  {
    LiteralClean();
  }

  lemma LineClean(d: Dict)
    requires Rereadable(d)
    ensures TargetKeys <= Normalised(d).Keys && Normalised(d)["coord"].VPair?
    ensures CleanPairs(LinePairs(Normalised(d)))
  {
    NormalisedRereadable(d);
    LiteralClean();
    CoordKeyHead(d["coord"].first);
    var n := Normalised(d);
    var ps := BasePairs(n);
    CleanSnoc([], ps[0]);
    assert [ps[0]] + [ps[1]] + [ps[2]] + [ps[3]] == ps;
    CleanSnoc([ps[0]], ps[1]);
    CleanSnoc([ps[0]] + [ps[1]], ps[2]);
    CleanSnoc([ps[0]] + [ps[1]] + [ps[2]], ps[3]);
    var withCadence := if n["cadence"] != VNone then ps + [("cadence", Show(n["cadence"]))] else ps;
    if n["cadence"] != VNone {
      CleanSnoc(ps, ("cadence", Show(n["cadence"])));
    }
    if n["flux_model"] != VNone {
      CleanSnoc(withCadence, ("model", Show(n["flux_model"])));
    }
  }

  lemma CleanSnoc(ps: seq<(string, string)>, p: (string, string))
    requires CleanPairs(ps) && CleanKey(p.0) && Clean(p.1)
    ensures CleanPairs(ps + [p])
  {
  }

  /** The line's coordinate key names only the coordinate. */
  predicate CoordOnly(n: Dict)
    requires "coord" in n
  {
    n["coord"].VPair? && IsCoordKey(n["coord"].first) && !Contains(n["coord"].first, "model")
  }

  /** The pair at `i` writes exactly the field `LineFields` names at `i`. */
  lemma PairWrites(n: Dict, f: string, i: nat)
    requires TargetKeys <= n.Keys && CoordOnly(n) && f in TargetKeys
    requires i < |LinePairs(n)|
    ensures Writes(LinePairs(n)[i].0, f) <==> LineFields(n)[i] == f
  {
    var ps := LinePairs(n);
    var fs := LineFields(n);
    if i == 1 {
      assert fs[1] == "coord";
      CoordWrites(ps[1].0, f);
    } else if i < 4 {
      assert fs[..4] == ["name", "coord", "tags", "duration"];
      PlainKeyWrites(ps[i].0, f);
    } else if i == 4 && n["cadence"] != VNone {
      assert fs[4] == "cadence";
      PlainKeyWrites("cadence", f);
    } else {
      assert fs[i] == "flux_model" && ps[i].0 == "model";
      ModelKeyWritesAny(f);
    }
  }

  lemma TargetKeysCases(f: string)
    requires f in TargetKeys
    ensures f == "name" || f == "coord" || f == "tags" || f == "duration" || f == "cadence" || f == "flux_model"
  {
  }

  lemma ModelKeyWritesAny(f: string)
    requires f in TargetKeys
    ensures Writes("model", f) <==> f == "flux_model"
  {
    TargetKeysCases(f);
    ModelKeyWrites();
  }

  /** Each pair of the line writes exactly the field `LineFields` names for it. */
  lemma LineWrites(n: Dict, f: string)
    requires TargetKeys <= n.Keys && CoordOnly(n) && f in TargetKeys
    ensures forall i :: 0 <= i < |LinePairs(n)| ==> (Writes(LinePairs(n)[i].0, f) <==> LineFields(n)[i] == f)
  {
    forall i | 0 <= i < |LinePairs(n)|
      ensures Writes(LinePairs(n)[i].0, f) <==> LineFields(n)[i] == f
    {
      PairWrites(n, f, i);
    }
  }

  /** A field the line names at `j` and nowhere after reads back as the pair at `j` wrote it. */
  lemma FieldAt(n: Dict, f: string, j: nat)
    requires TargetKeys <= n.Keys && CoordOnly(n) && CleanPairs(LinePairs(n)) && f in TargetKeys
    requires j < |LineFields(n)| && LineFields(n)[j] == f && f !in LineFields(n)[j + 1..]
    ensures var r := UnpackTargetSpec(Join(ItemTexts(LinePairs(n)), ", "));
      r.Ok? && r.value.Keys == TargetKeys && f in r.value
      && r.value[f] == Written(LinePairs(n)[j].0, LinePairs(n)[j].1, f)
  {
    var fs := LineFields(n);
    forall i | j < i < |fs|
      ensures fs[i] != f
    {
      assert fs[i] == fs[j + 1..][i - j - 1];
    }
    LineWrites(n, f);
    PairsField(LinePairs(n), f, j);
  }

  /** A field the line does not name reads back as the template's value. */
  lemma FieldAbsent(n: Dict, f: string)
    requires TargetKeys <= n.Keys && CoordOnly(n) && CleanPairs(LinePairs(n)) && f in TargetKeys
    requires f !in LineFields(n)
    ensures var r := UnpackTargetSpec(Join(ItemTexts(LinePairs(n)), ", "));
      r.Ok? && r.value.Keys == TargetKeys && f in r.value && r.value[f] == TargetTemplate[f]
  {
    LineWrites(n, f);
    PairsFieldUnset(LinePairs(n), f);
  }

  /** The line `target_str` writes for a dictionary with all target keys and a coordinate pair. */
  function LineText(d: Dict): string
    requires TargetKeys <= d.Keys && d["coord"].VPair?
  {
    Join(ItemTexts(LinePairs(Normalised(d))), ", ")
  }

  lemma InTargetKeys()
    ensures "name" in TargetKeys && "coord" in TargetKeys && "tags" in TargetKeys
    ensures "duration" in TargetKeys && "cadence" in TargetKeys && "flux_model" in TargetKeys
  {
  }

  lemma DistinctFields()
    ensures "name" != "coord" && "name" != "tags" && "name" != "duration" && "name" != "cadence" && "name" != "flux_model"
    ensures "coord" != "tags" && "coord" != "duration" && "coord" != "cadence" && "coord" != "flux_model"
    ensures "tags" != "duration" && "tags" != "cadence" && "tags" != "flux_model"
    ensures "duration" != "cadence" && "duration" != "flux_model" && "cadence" != "flux_model"
  {
    assert "name"[0] == 'n' && "coord"[0] == 'c' && "tags"[0] == 't' && "duration"[0] == 'd';
    assert "cadence"[1] == 'a' && "coord"[1] == 'o' && "flux_model"[0] == 'f';
  }

  /** What every field's read-back needs about the normalised dictionary of a rereadable `d`. */
  lemma LineFacts(d: Dict)
    requires Rereadable(d)
    ensures var n := Normalised(d);
      TargetKeys <= n.Keys && CoordOnly(n) && CleanPairs(LinePairs(n))
      && n["name"] == d["name"] && n["tags"] == d["tags"] && n["duration"] == d["duration"]
      && n["cadence"] == d["cadence"] && n["flux_model"] == d["flux_model"]
  {
    NormalisedRereadable(d);
    LineClean(d);
  }

  /** The fields the line names, in order: each of the four fixed ones once, then cadence and model when present. */
  lemma LineFieldsOrder(n: Dict)
    requires TargetKeys <= n.Keys
    ensures var fs := LineFields(n);
      |fs| >= 4 && fs[0] == "name" && fs[1] == "coord" && fs[2] == "tags" && fs[3] == "duration"
      && "name" !in fs[1..] && "coord" !in fs[2..] && "tags" !in fs[3..] && "duration" !in fs[4..]
      && (n["cadence"] != VNone ==> fs[4] == "cadence" && "cadence" !in fs[5..])
      && (n["flux_model"] != VNone ==> fs[|fs| - 1] == "flux_model")
      && (n["cadence"] == VNone ==> "cadence" !in fs)
      && (n["flux_model"] == VNone ==> "flux_model" !in fs)
  {
    var c := if n["cadence"] != VNone then ["cadence"] else [];
    var m := if n["flux_model"] != VNone then ["flux_model"] else [];
    TailFields(c, m);
    FixedOrder(c + m);
  }

  /** The optional tail of the line names neither a fixed field nor a field twice. */
  lemma TailFields(c: seq<string>, m: seq<string>)
    requires c == [] || c == ["cadence"]
    requires m == [] || m == ["flux_model"]
    ensures "name" !in c + m && "coord" !in c + m && "tags" !in c + m && "duration" !in c + m
    ensures c != [] ==> (c + m)[0] == "cadence" && "cadence" !in (c + m)[1..]
    ensures m != [] ==> (c + m)[|c + m| - 1] == "flux_model"
    ensures c == [] ==> "cadence" !in c + m
    ensures m == [] ==> "flux_model" !in c + m
  {
    DistinctFields();
    if c != [] {
      assert (c + m)[1..] == m;
    }
  }

  lemma FixedOrder(tail: seq<string>)
    requires "name" !in tail && "coord" !in tail && "tags" !in tail && "duration" !in tail
    ensures var fs := ["name", "coord", "tags", "duration"] + tail;
      fs[0] == "name" && fs[1] == "coord" && fs[2] == "tags" && fs[3] == "duration"
      && "name" !in fs[1..] && "coord" !in fs[2..] && "tags" !in fs[3..] && "duration" !in fs[4..]
      && fs[4..] == tail
  {
    DistinctFields();
    var fs := ["name", "coord", "tags", "duration"] + tail;
    assert fs[4..] == tail && fs[3..] == ["duration"] + tail;
    assert fs[2..] == ["tags", "duration"] + tail && fs[1..] == ["coord", "tags", "duration"] + tail;
  }

  lemma NameRead(d: Dict)
    requires Rereadable(d)
    ensures var r := UnpackTargetSpec(LineText(d));
      r.Ok? && r.value.Keys == TargetKeys && "name" in r.value && r.value["name"] == VStr(Show(d["name"]))
  {
    LineFacts(d);
    LineFieldsOrder(Normalised(d));
    InTargetKeys();
    FieldAt(Normalised(d), "name", 0);
  }

  lemma CoordRead(d: Dict)
    requires Rereadable(d)
    ensures var r := UnpackTargetSpec(LineText(d));
      r.Ok? && r.value.Keys == TargetKeys && "coord" in r.value && r.value["coord"] == Normalised(d)["coord"]
  {
    LineFacts(d);
    var n := Normalised(d);
    LineFieldsOrder(n);
    InTargetKeys();
    CoordKeyHead(n["coord"].first);
    assert n["coord"].first != "coord" by { assert "coord"[0] == 'c'; }
    FieldAt(n, "coord", 1);
    assert LinePairs(n)[1] == (n["coord"].first, n["coord"].second);
  }

  lemma TagsRead(d: Dict)
    requires Rereadable(d)
    ensures var r := UnpackTargetSpec(LineText(d));
      r.Ok? && r.value.Keys == TargetKeys && "tags" in r.value && r.value["tags"] == VStr(Show(d["tags"]))
  {
    LineFacts(d);
    LineFieldsOrder(Normalised(d));
    InTargetKeys();
    FieldAt(Normalised(d), "tags", 2);
  }

  lemma DurationRead(d: Dict)
    requires Rereadable(d)
    ensures var r := UnpackTargetSpec(LineText(d));
      r.Ok? && r.value.Keys == TargetKeys && "duration" in r.value && r.value["duration"] == VStr(Show(d["duration"]))
  {
    LineFacts(d);
    LineFieldsOrder(Normalised(d));
    InTargetKeys();
    FieldAt(Normalised(d), "duration", 3);
  }

  lemma CadenceRead(d: Dict)
    requires Rereadable(d)
    ensures var r := UnpackTargetSpec(LineText(d));
      r.Ok? && "cadence" in r.value && r.value["cadence"] == (if d["cadence"] == VNone then VNone else VStr(Show(d["cadence"])))
  {
    LineFacts(d);
    var n := Normalised(d);
    LineFieldsOrder(n);
    InTargetKeys();
    if d["cadence"] != VNone {
      FieldAt(n, "cadence", 4);
    } else {
      FieldAbsent(n, "cadence");
    }
  }

  lemma ModelRead(d: Dict)
    requires Rereadable(d)
    ensures var r := UnpackTargetSpec(LineText(d));
      r.Ok? && "flux_model" in r.value && r.value["flux_model"] == (if d["flux_model"] == VNone then VNone else VStr(Show(d["flux_model"])))
  {
    LineFacts(d);
    var n := Normalised(d);
    LineFieldsOrder(n);
    InTargetKeys();
    if d["flux_model"] != VNone {
      FieldAt(n, "flux_model", |LineFields(n)| - 1);
    } else {
      FieldAbsent(n, "flux_model");
    }
  }

  /**
   * `unpack_target(target_str(d))`: the line `target_str` writes reads back into a
   * target dictionary holding every field of `d` as the text it was written as
   * (a number comes back as its text), the normalised coordinate, and None for
   * a cadence or flux model `d` did not have.
   */
  lemma TargetStrUnpacks(d: Dict)
    requires Rereadable(d)
    ensures TargetText(d).Ok?
    ensures var r := UnpackTargetSpec(TargetText(d).value);
      r.Ok? && r.value.Keys == TargetKeys
      && "name" in r.value && r.value["name"] == VStr(Show(d["name"]))
      && "coord" in r.value && r.value["coord"] == Normalised(d)["coord"]
      && "tags" in r.value && r.value["tags"] == VStr(Show(d["tags"]))
      && "duration" in r.value && r.value["duration"] == VStr(Show(d["duration"]))
      && "cadence" in r.value && r.value["cadence"] == (if d["cadence"] == VNone then VNone else VStr(Show(d["cadence"])))
      && "flux_model" in r.value && r.value["flux_model"] == (if d["flux_model"] == VNone then VNone else VStr(Show(d["flux_model"])))
  {
    TargetTextPairs(d);
    assert TargetText(d).value == LineText(d);
    NameRead(d);
    CoordRead(d);
    TagsRead(d);
    DurationRead(d);
    CadenceRead(d);
    ModelRead(d);
  }
}
