// config/update_mkat_antennas.py: the antenna-position updater. Each antenna
// line "name=..., diameter=13.5, east=..., north=..., up=..." of the array
// configuration is read back into its fields, its east/north/up position is
// replaced by the first three fields of the antenna's delay-model file, and
// the line is written again at the same place in the list.
module UpdateAntennas {
  import opened Common
  import opened Text
  import opened Numbers
  import ObsDict

  /** The fields read from an antenna line; None where no item names the field. */
  datatype Antenna = Antenna(name: Option<string>, east: Option<string>, north: Option<string>, up: Option<string>)

  /** The keys of the field dictionary, in their insertion order. */
  const AntKeys: seq<string> := ["name", "east", "north", "up"]

  /** `item.split('=')[-1].strip()`: the stripped text after the last '='. */
  function LastValue(item: string): string
  {
    var parts := Split(item, '=');
    Strip(parts[|parts| - 1])
  }

  /** Index of the last item that starts with `prefix`. */
  function LastStarting(items: seq<string>, prefix: string): (r: Option<nat>)
    ensures r.Some? ==> r.value < |items| && StartsWith(items[r.value], prefix)
    ensures r.Some? ==> forall j :: r.value < j < |items| ==> !StartsWith(items[j], prefix)
    ensures r.None? ==> forall j :: 0 <= j < |items| ==> !StartsWith(items[j], prefix)
  {
    if |items| == 0 then None
    else if StartsWith(items[|items| - 1], prefix) then Some(|items| - 1)
    else LastStarting(items[..|items| - 1], prefix)
  }

  /** The value the extraction loop leaves for `prefix`: that of the last item starting with it. */
  function FieldOf(items: seq<string>, prefix: string): Option<string>
  {
    match LastStarting(items, prefix)
    case None => None
    case Some(i) => Some(LastValue(items[i]))
  }

  /** The four fields of an antenna line. */
  function Fields(antenna: string): Antenna
  {
    var items := ObsDict.Items(antenna);
    Antenna(FieldOf(items, "name"), FieldOf(items, "east"), FieldOf(items, "north"), FieldOf(items, "up"))
  }

  /** The inner loop: every item starting with `prefix` overwrites the value found so far. */
  method ScanPrefix(items: seq<string>, prefix: string) returns (v: Option<string>)
    ensures v == FieldOf(items, prefix)
  {
    v := None;
    var i := 0;
    while i < |items|
      invariant 0 <= i <= |items|
      invariant v == FieldOf(items[..i], prefix)
    {
      assert items[..i + 1][..i] == items[..i];
      if StartsWith(items[i], prefix) {
        v := Some(LastValue(items[i]));
      }
      i := i + 1;
    }
    assert items[..i] == items;
  }

  /** The value found for each key, in key order. */
  function FieldsOf(items: seq<string>, keys: seq<string>): (r: seq<Option<string>>)
    ensures |r| == |keys|
  {
    seq(|keys|, j requires 0 <= j < |keys| => FieldOf(items, keys[j]))
  }

  /** The outer loop: one pass of the inner loop per key, in key order. */
  method ScanKeys(items: seq<string>, keys: seq<string>) returns (vals: seq<Option<string>>)
    ensures vals == FieldsOf(items, keys)
  {
    vals := [];
    var k := 0;
    while k < |keys|
      invariant 0 <= k <= |keys|
      invariant vals == FieldsOf(items, keys)[..k]
    {
      var v := ScanPrefix(items, keys[k]);
      vals := vals + [v];
      k := k + 1;
    }
  }

  /** The extraction of the script: the stripped items of the line, scanned once per field key. */
  method ExtractFields(antenna: string) returns (a: Antenna)
    ensures a == Fields(antenna)
  {
    var items := ObsDict.Items(antenna);
    var vals := ScanKeys(items, AntKeys);
    a := Antenna(vals[0], vals[1], vals[2], vals[3]);
  }

  // ---------------------------------------------------------------- antenna_line_

  /** One `key=value` item of an antenna line. */
  function Item(key: string, v: string): string
  {
    key + "=" + v
  }

  /** The comma-separated fields of an antenna line, each after its ", " but the first. */
  function LineParts(name: string, diameter: string, east: string, north: string, up: string): seq<string>
  {
    [Item("name", name), " " + Item("diameter", diameter), " " + Item("east", east), " " + Item("north", north), " " + Item("up", up)]
  }

  /** `antenna_line_(ant_)`: "name=<name>, diameter=13.5, east=<east>, north=<north>, up=<up>". */
  function AntennaLine(name: string, east: string, north: string, up: string): string
  {
    Join(LineParts(name, "13.5", east, north, up), ",")
  }

  /** A value that survives being written into an antenna line and read back. */
  predicate Clean(v: string)
  {
    ',' !in v && '=' !in v && Stripped(v)
  }

  /** A key that can head a `key=value` item: no ',' or '=', and not starting with a blank. */
  predicate GoodKey(key: string)
  {
    ',' !in key && '=' !in key && |key| > 0 && !IsSpace(key[0])
  }

  /** The keys of an antenna line are good keys. */
  lemma KeysGood()
    ensures GoodKey("name") && GoodKey("diameter") && GoodKey("east") && GoodKey("north") && GoodKey("up")
  {
  }

  /** `key=value` with a clean value is its own stripped form. */
  lemma KeyValueStripped(key: string, v: string)
    requires GoodKey(key) && Clean(v)
    ensures Strip(Item(key, v)) == Item(key, v)
  {
    var s := Item(key, v);
    assert Stripped(s) by {
      assert s[0] == key[0];
      if |v| > 0 {
        assert s[|s| - 1] == v[|v| - 1];
      } else {
        assert s[|s| - 1] == '=';
      }
    }
    StrippedFixed(s);
  }

  /** `key=value` with a clean value reads back as that value. */
  lemma KeyValue(key: string, v: string)
    requires GoodKey(key) && Clean(v)
    ensures ',' !in Item(key, v)
    ensures Strip(Item(key, v)) == Item(key, v)
    ensures LastValue(Item(key, v)) == v
  {
    KeyValueStripped(key, v);
    assert Item(key, v) == key + ['='] + v;
    assert Split(Item(key, v), '=') == [key, v] by {
      SplitAfter(key, '=', v);
      SplitNoSep(v, '=');
    }
    StrippedFixed(v);
  }

  /** A field text preceded by one blank strips to the field text. */
  lemma LeadingBlank(t: string)
    requires |t| > 0 && !IsSpace(t[0])
    requires Stripped(t)
    ensures Strip(" " + t) == t
  {
    StripLeadingSpace(' ', t);
    StrippedFixed(t);
  }

  /** The stripped items of parts joined with commas are the stripped parts. */
  lemma ItemsOfJoin(parts: seq<string>)
    requires |parts| >= 1 && forall i :: 0 <= i < |parts| ==> ',' !in parts[i]
    ensures |ObsDict.Items(Join(parts, ","))| == |parts|
    ensures forall i :: 0 <= i < |parts| ==> ObsDict.Items(Join(parts, ","))[i] == Strip(parts[i])
  {
    SplitJoin(parts, ',');
  }

  /** A key starting with a letter, followed by '=' and a clean value, strips to itself after a blank. */
  lemma BlankItem(key: string, v: string)
    requires GoodKey(key) && Clean(v)
    ensures ',' !in " " + Item(key, v)
    ensures Strip(" " + Item(key, v)) == Item(key, v)
  {
    KeyValueStripped(key, v);
    assert Item(key, v)[0] == key[0];
    LeadingBlank(Item(key, v));
  }

  /** The items of an antenna line, as its parts are stripped. */
  function LineItemsOf(name: string, diameter: string, east: string, north: string, up: string): seq<string>
  {
    [Item("name", name), Item("diameter", diameter), Item("east", east), Item("north", north), Item("up", up)]
  }

  /** Each part of an antenna line strips to its `key=value` item. */
  lemma PartStrips(name: string, diameter: string, east: string, north: string, up: string, i: nat)
    requires Clean(name) && Clean(diameter) && Clean(east) && Clean(north) && Clean(up) && i < 5
    ensures ',' !in LineParts(name, diameter, east, north, up)[i]
    ensures Strip(LineParts(name, diameter, east, north, up)[i]) == LineItemsOf(name, diameter, east, north, up)[i]
  {
    KeysGood();
    var part := LineParts(name, diameter, east, north, up)[i];
    var item := LineItemsOf(name, diameter, east, north, up)[i];
    if i == 0 {
      assert part == Item("name", name) && item == part;
      KeyValue("name", name);
    } else {
      var key, v := if i == 1 then "diameter" else if i == 2 then "east" else if i == 3 then "north" else "up",
                    if i == 1 then diameter else if i == 2 then east else if i == 3 then north else up;
      assert part == " " + Item(key, v) && item == Item(key, v);
      BlankItem(key, v);
    }
  }

  /** The stripped items of an antenna line. */
  lemma LineItems(name: string, diameter: string, east: string, north: string, up: string)
    requires Clean(name) && Clean(diameter) && Clean(east) && Clean(north) && Clean(up)
    ensures ObsDict.Items(Join(LineParts(name, diameter, east, north, up), ",")) == LineItemsOf(name, diameter, east, north, up)
  {
    var parts := LineParts(name, diameter, east, north, up);
    forall i | 0 <= i < |parts|
      ensures ',' !in parts[i] && Strip(parts[i]) == LineItemsOf(name, diameter, east, north, up)[i]
    {
      PartStrips(name, diameter, east, north, up, i);
    }
    ItemsOfJoin(parts);
  }

  /** The field for `prefix` is the value of item i when it starts with `prefix` and no later item does. */
  lemma FieldAt(items: seq<string>, prefix: string, i: nat)
    requires i < |items| && StartsWith(items[i], prefix)
    requires forall j :: i < j < |items| ==> !StartsWith(items[j], prefix)
    ensures FieldOf(items, prefix) == Some(LastValue(items[i]))
  {
  }

  /** An item starts with its own key. */
  lemma ItemStarts(key: string, v: string)
    ensures StartsWith(Item(key, v), key)
  {
    assert Item(key, v)[..|key|] == key;
  }

  /** An item whose key differs from a prefix at some position inside both does not start with that prefix. */
  lemma KeyDiffers(key: string, v: string, prefix: string, k: nat)
    requires k < |key| && k < |prefix| && key[k] != prefix[k]
    ensures !StartsWith(Item(key, v), prefix)
  {
    assert Item(key, v)[k] == key[k];
    if |prefix| <= |Item(key, v)| {
      assert Item(key, v)[..|prefix|][k] == key[k];
    }
  }

  /** The `up` field of a line built from clean values is the `up` value. */
  lemma UpField(name: string, diameter: string, east: string, north: string, up: string)
    requires Clean(name) && Clean(diameter) && Clean(east) && Clean(north) && Clean(up)
    ensures FieldOf(LineItemsOf(name, diameter, east, north, up), "up") == Some(up)
  {
    KeysGood();
    ItemStarts("up", up);
    FieldAt(LineItemsOf(name, diameter, east, north, up), "up", 4);
    KeyValue("up", up);
  }

  /** The `north` field of a line built from clean values is the `north` value. */
  lemma NorthField(name: string, diameter: string, east: string, north: string, up: string)
    requires Clean(name) && Clean(diameter) && Clean(east) && Clean(north) && Clean(up)
    ensures FieldOf(LineItemsOf(name, diameter, east, north, up), "north") == Some(north)
  {
    KeysGood();
    ItemStarts("north", north);
    KeyDiffers("up", up, "north", 0);
    FieldAt(LineItemsOf(name, diameter, east, north, up), "north", 3);
    KeyValue("north", north);
  }

  /** The `east` field of a line built from clean values is the `east` value. */
  lemma EastField(name: string, diameter: string, east: string, north: string, up: string)
    requires Clean(name) && Clean(diameter) && Clean(east) && Clean(north) && Clean(up)
    ensures FieldOf(LineItemsOf(name, diameter, east, north, up), "east") == Some(east)
  {
    KeysGood();
    ItemStarts("east", east);
    KeyDiffers("north", north, "east", 0);
    KeyDiffers("up", up, "east", 0);
    FieldAt(LineItemsOf(name, diameter, east, north, up), "east", 2);
    KeyValue("east", east);
  }

  /** The `name` field of a line built from clean values is the `name` value. */
  lemma NameField(name: string, diameter: string, east: string, north: string, up: string)
    requires Clean(name) && Clean(diameter) && Clean(east) && Clean(north) && Clean(up)
    ensures FieldOf(LineItemsOf(name, diameter, east, north, up), "name") == Some(name)
  {
    KeysGood();
    var items := LineItemsOf(name, diameter, east, north, up);
    ItemStarts("name", name);
    forall j | 0 < j < |items|
      ensures !StartsWith(items[j], "name")
    {
      if j == 1 {
        KeyDiffers("diameter", diameter, "name", 0);
      } else if j == 2 {
        KeyDiffers("east", east, "name", 0);
      } else if j == 3 {
        KeyDiffers("north", north, "name", 1);
      } else {
        KeyDiffers("up", up, "name", 0);
      }
    }
    FieldAt(items, "name", 0);
    KeyValue("name", name);
  }

  /** The fields of a line built from clean values are those values. */
  lemma LineFields(name: string, diameter: string, east: string, north: string, up: string)
    requires Clean(name) && Clean(diameter) && Clean(east) && Clean(north) && Clean(up)
    ensures Fields(Join(LineParts(name, diameter, east, north, up), ",")) ==
      Antenna(Some(name), Some(east), Some(north), Some(up))
  {
    LineItems(name, diameter, east, north, up);
    UpField(name, diameter, east, north, up);
    NorthField(name, diameter, east, north, up);
    EastField(name, diameter, east, north, up);
    NameField(name, diameter, east, north, up);
  }

  /**
   * Round trip: reading the fields of `antenna_line_` gives back the four
   * values written, when none of them holds ',' or '=' or outer blanks.
   */
  lemma AntennaLineFields(name: string, east: string, north: string, up: string)
    requires Clean(name) && Clean(east) && Clean(north) && Clean(up)
    ensures Fields(AntennaLine(name, east, north, up)) == Antenna(Some(name), Some(east), Some(north), Some(up))
  {
    assert Clean("13.5");
    LineFields(name, "13.5", east, north, up);
  }

  // ---------------------------------------------------------------- read_delay_file

  /** `"{}".format(v)` for a field that may be None. */
  function OptText(v: Option<string>): string
  {
    match v
    case None => "None"
    case Some(s) => s
  }

  /**
   * `read_delay_file(filename)`, given the files the pattern matches and the
   * first line of each file: the first three of the six fields of that line.
   */
  function ReadDelayFile(files: seq<string>, firstLine: string -> string, antName: Option<string>,
                         pattern: string): (r: Result<(string, string, string)>)
    ensures r.Ok? <==> |files| == 1 && |Words(Strip(firstLine(files[0])))| == 6
    ensures |files| < 1 ==> r == Err(RuntimeError("No delay models for antenna " + OptText(antName)))
    ensures |files| > 1 ==> r == Err(RuntimeError("Multiple files named " + pattern))
    ensures r.Ok? ==> var ws := Words(Strip(firstLine(files[0])));
      r.value == (ws[0], ws[1], ws[2])
  {
    if |files| < 1 then Err(RuntimeError("No delay models for antenna " + OptText(antName)))
    else if |files| > 1 then Err(RuntimeError("Multiple files named " + pattern))
    else
      var ws := Words(Strip(firstLine(files[0])));
      if |ws| < 6 then Err(ValueError("not enough values to unpack (expected 6, got " + NatToString(|ws|) + ")"))
      else if |ws| > 6 then Err(ValueError("too many values to unpack (expected 6)"))
      else Ok((ws[0], ws[1], ws[2]))
  }

  /** `os.path.join(dir, name)`: an absolute name replaces the directory. */
  function PathJoin(dir: string, name: string): (p: string)
    ensures StartsWith(name, "/") ==> p == name
    ensures |p| >= |name| && (!StartsWith(name, "/") ==> p[|p| - |name|..] == name)
  {
    if StartsWith(name, "/") then name
    else if |dir| == 0 || dir[|dir| - 1] == '/' then dir + name
    else dir + "/" + name
  }

  // ---------------------------------------------------------------- the update

  /** The delay-model file pattern of an antenna: "<config>/<name>_<band>.txt". */
  function DelayFile(antenna: string, config: string, band: string): string
  {
    PathJoin(config, OptText(Fields(antenna).name) + "_" + band + ".txt")
  }

  /** The east, north and up fields read for an antenna, or the error raised. */
  function Position(antenna: string, config: string, band: string,
                    glob: string -> seq<string>, firstLine: string -> string): Result<(string, string, string)>
  {
    var filename := DelayFile(antenna, config, band);
    ReadDelayFile(glob(filename), firstLine, Fields(antenna).name, filename)
  }

  /** One antenna line rewritten with the position from its delay-model file, or the error raised. */
  function UpdateOne(antenna: string, config: string, band: string,
                     glob: string -> seq<string>, firstLine: string -> string): Result<string>
  {
    var enu :- Position(antenna, config, band, glob, firstLine);
    Ok(AntennaLine(OptText(Fields(antenna).name), enu.0, enu.1, enu.2))
  }

  /** The rewrite of one line, as a function of the line. */
  function UpdateWith(config: string, band: string, glob: string -> seq<string>,
                      firstLine: string -> string): string -> Result<string>
  {
    (antenna: string) => UpdateOne(antenna, config, band, glob, firstLine)
  }

  /** The whole list rewritten in order, or the first error raised. */
  function UpdateSpec(antennas: seq<string>, config: string, band: string,
                      glob: string -> seq<string>, firstLine: string -> string): Result<seq<string>>
  {
    Each(antennas, UpdateWith(config, band, glob, firstLine))
  }

  /** The loop of the script: each entry of the antenna list is replaced in place. */
  method UpdateAll(antennas: array<string>, config: string, band: string,
                   glob: string -> seq<string>, firstLine: string -> string) returns (r: Result<()>)
    modifies antennas
    ensures r.Ok? <==> UpdateSpec(old(antennas[..]), config, band, glob, firstLine).Ok?
    ensures r.Ok? ==> antennas[..] == UpdateSpec(old(antennas[..]), config, band, glob, firstLine).value
    ensures r.Err? ==> r.error == UpdateSpec(old(antennas[..]), config, band, glob, firstLine).error
  {
    r := EachInPlace(antennas, UpdateWith(config, band, glob, firstLine));
  }

  // ---------------------------------------------------------------- properties of the update

  /** A character absent from a text is absent from its stripped form. */
  lemma StripKeepsOut(c: char, s: string)
    requires c !in s
    ensures c !in Strip(s)
  {
    var i := StripIsSlice(s);
  }

  /** An item of a line holds no ','. */
  lemma ItemNoComma(s: string, i: nat)
    requires i < |ObsDict.Items(s)|
    ensures ',' !in ObsDict.Items(s)[i]
  {
    StripKeepsOut(',', Split(s, ',')[i]);
  }

  /** The value after the last '=' of an item without ',' is clean. */
  lemma LastValueClean(item: string)
    requires ',' !in item
    ensures Clean(LastValue(item))
  {
    var parts := Split(item, '=');
    var last := parts[|parts| - 1];
    assert ',' !in last by {
      if ',' in last {
        JoinSplit(item, '=');
        PartInJoin(parts, |parts| - 1, ',');
      }
    }
    StripKeepsOut(',', last);
    StripKeepsOut('=', last);
    var k := StripIsSlice(last);
  }

  /** A field read from a line holds neither ',' nor '=' nor outer blanks. */
  lemma FieldClean(s: string, prefix: string)
    requires FieldOf(ObsDict.Items(s), prefix).Some?
    ensures Clean(FieldOf(ObsDict.Items(s), prefix).value)
  {
    var i := LastStarting(ObsDict.Items(s), prefix).value;
    ItemNoComma(s, i);
    LastValueClean(ObsDict.Items(s)[i]);
  }

  /** A character of one part occurs in the parts joined with a one-character separator. */
  lemma {:induction false} PartInJoin(parts: seq<string>, k: nat, c: char)
    requires k < |parts| && c in parts[k]
    ensures c in Join(parts, "=")
  {
    if |parts| == 1 {
    } else if k == 0 {
      assert Join(parts, "=") == parts[0] + "=" + Join(parts[1..], "=");
    } else {
      PartInJoin(parts[1..], k - 1, c);
      assert Join(parts, "=") == parts[0] + "=" + Join(parts[1..], "=");
    }
  }

  /** A word of a line holds no blank, and so is its own stripped form. */
  lemma WordStripped(w: string)
    requires |w| > 0 && NoSpace(w)
    ensures Stripped(w)
  {
  }

  /** The name written back is clean: a field read from the line, or "None". */
  lemma NameClean(antenna: string)
    ensures Clean(OptText(Fields(antenna).name))
  {
    assert Fields(antenna).name == FieldOf(ObsDict.Items(antenna), "name");
    OptFieldClean(antenna, "name");
  }

  /** A field read from a line, or "None" in its absence, is clean. */
  lemma OptFieldClean(s: string, prefix: string)
    ensures Clean(OptText(FieldOf(ObsDict.Items(s), prefix)))
  {
    if FieldOf(ObsDict.Items(s), prefix).Some? {
      FieldClean(s, prefix);
    } else {
      NoneClean();
    }
  }

  lemma NoneClean()
    ensures Clean("None")
  {
    assert Stripped("None");
  }

  /** The fields read from a delay-model file are blank-free words. */
  lemma PositionWords(antenna: string, config: string, band: string,
                      glob: string -> seq<string>, firstLine: string -> string)
    requires Position(antenna, config, band, glob, firstLine).Ok?
    ensures var enu := Position(antenna, config, band, glob, firstLine).value;
      Stripped(enu.0) && Stripped(enu.1) && Stripped(enu.2)
  {
    var filename := DelayFile(antenna, config, band);
    var ws := Words(Strip(firstLine(glob(filename)[0])));
    WordStripped(ws[0]);
    WordStripped(ws[1]);
    WordStripped(ws[2]);
  }

  /**
   * An updated line keeps the antenna's name (None written as "None") and
   * carries the first three fields of its delay-model file as east, north
   * and up, when those fields hold neither ',' nor '='.
   */
  lemma UpdateOneFields(antenna: string, config: string, band: string,
                        glob: string -> seq<string>, firstLine: string -> string)
    requires Position(antenna, config, band, glob, firstLine).Ok?
    requires var enu := Position(antenna, config, band, glob, firstLine).value;
      ',' !in enu.0 && '=' !in enu.0 && ',' !in enu.1 && '=' !in enu.1 && ',' !in enu.2 && '=' !in enu.2
    ensures UpdateOne(antenna, config, band, glob, firstLine).Ok?
    ensures var enu := Position(antenna, config, band, glob, firstLine).value;
      Fields(UpdateOne(antenna, config, band, glob, firstLine).value) ==
        Antenna(Some(OptText(Fields(antenna).name)), Some(enu.0), Some(enu.1), Some(enu.2))
  {
    var enu := Position(antenna, config, band, glob, firstLine).value;
    var name := OptText(Fields(antenna).name);
    UpdateOneLine(antenna, config, band, glob, firstLine);
    NameClean(antenna);
    PositionWords(antenna, config, band, glob, firstLine);
    assert Clean(enu.0) && Clean(enu.1) && Clean(enu.2);
    AntennaLineFields(name, enu.0, enu.1, enu.2);
  }

  /** A successful position gives the line with the antenna's name and that position. */
  lemma UpdateOneLine(antenna: string, config: string, band: string,
                      glob: string -> seq<string>, firstLine: string -> string)
    requires Position(antenna, config, band, glob, firstLine).Ok?
    ensures var enu := Position(antenna, config, band, glob, firstLine).value;
      UpdateOne(antenna, config, band, glob, firstLine) == Ok(AntennaLine(OptText(Fields(antenna).name), enu.0, enu.1, enu.2))
  {
  }

  /** A successful update keeps the number and the order of the antenna lines, rewriting line i from line i alone. */
  lemma UpdateKeepsPositions(antennas: seq<string>, config: string, band: string,
                             glob: string -> seq<string>, firstLine: string -> string)
    requires UpdateSpec(antennas, config, band, glob, firstLine).Ok?
    ensures |UpdateSpec(antennas, config, band, glob, firstLine).value| == |antennas|
    ensures forall i :: 0 <= i < |antennas| ==>
      Ok(UpdateSpec(antennas, config, band, glob, firstLine).value[i]) == UpdateOne(antennas[i], config, band, glob, firstLine)
  {
    var one := UpdateWith(config, band, glob, firstLine);
    assert forall i :: 0 <= i < |antennas| ==> one(antennas[i]) == UpdateOne(antennas[i], config, band, glob, firstLine);
  }
}
