// The older calibrator-selection script scripts/astrokat-cals.py: the same catalogue
// assembly as scripts/astrokat-targets.py, with its own header, table note, target
// handling and tagging.
module Cals {
  import opened Common
  import opened Text
  import opened Numbers
  import CalTargets

  /** `write_header`: the proposal lines are always written, whatever the arguments hold. */
  function WriteHeader(info: CalTargets.HeaderInfo, userheader: string): (r: string)
    ensures r == CalTargets.WriteHeader(Some(info), userheader)
  {
    var lines := CalTargets.HeaderLines(info);
    assert lines == [lines[0], lines[1], lines[2]];
    CalTargets.Concat3(lines[0], lines[1], lines[2]);
    userheader + lines[0] + lines[1] + lines[2]
  }

  /**
   * The separation note with Python 2 comparisons, in which a missing angle is smaller than
   * every limit: the limits are checked even when there is no angle.
   */
  function SepNote(sep: Option<real>, calLimit: Option<real>, solLimit: Option<real>): (n: CalTargets.Note)
    ensures sep.Some? ==> n == CalTargets.SepNote(sep, calLimit, solLimit)
    ensures sep.None? ==> n == if solLimit.Some? then CalTargets.Note(CalTargets.Fail, CalTargets.Marker)
                               else CalTargets.Note(CalTargets.Endc, "")
  {
    var text := if sep.Some? then FormatFixed(sep.value, 2) else "";
    var warn := calLimit.Some? && sep.Some? && sep.value > calLimit.value;
    var fail := solLimit.Some? && (sep.None? || sep.value < solLimit.value);
    var colour := if fail then CalTargets.Fail else if warn then CalTargets.Warning else CalTargets.Endc;
    CalTargets.Note(colour, text + (if warn then CalTargets.Marker else "") + (if fail then CalTargets.Marker else ""))
  }

  /** One row of the table: six left-justified columns, the tags after the first joined by commas. */
  function TableLine(note: CalTargets.Note, name: string, tags: seq<string>, riseTime: string, setTime: string,
                     notes: string): (line: string)
    ensures StartsWith(line, note.colour + name)
    ensures |line| >= |CalTargets.Endc| && line[|line| - |CalTargets.Endc|..] == CalTargets.Endc
  {
    var rest := if |tags| == 0 then [] else tags[1..];
    var first := PadRight(name, 16);
    var others := PadRight(Join(rest, ","), 16) + PadRight(riseTime, 16)
                  + PadRight(setTime, 16) + PadRight(note.text, 16) + PadRight(notes, 16) + "\n";
    assert (first + others)[..|name|] == first[..|name|];
    Framed(note.colour, first + others, CalTargets.Endc, |name|);
    note.colour + (first + others) + CalTargets.Endc
  }

  /** A text put between a head and a tail starts with the head and its own prefix, and ends with the tail. */
  lemma Framed(head: string, body: string, tail: string, n: nat)
    requires n <= |body|
    ensures StartsWith(head + body + tail, head + body[..n])
    ensures |head + body + tail| >= |tail| && (head + body + tail)[|head + body + tail| - |tail|..] == tail
  {
    assert (head + body + tail)[..|head| + n] == head + body[..n];
  }

  /**
   * The reference target: without `--target` the script stops, so the branch that reads
   * an input catalogue is never taken; a target needs a name and both coordinates.
   */
  function ReferenceTarget(target: Option<seq<string>>): (r: Result<string>)
    ensures r.Err? <==> target.None? || |target.value| < 3
    ensures target.None? || |target.value| == 0 ==> r == Err(RuntimeError("No targets provided, exiting"))
    ensures r.Ok? ==> r == CalTargets.CommandLineTarget(target.value)
  {
    if target.None? || |target.value| == 0 then Err(RuntimeError("No targets provided, exiting"))
    else if |target.value| < 3 then Err(IndexError("list index out of range"))
    else Ok(CalTargets.Description(target.value[0], "radec target", target.value[1..3]))
  }

  /** The `--cat-path` folder when it is a folder, otherwise the default one; nothing is checked yet. */
  function CatalogueLocation(catPath: Option<string>, isDir: string -> bool): (r: CalTargets.Location)
    ensures r.configFileAvailable <==> catPath.Some? && |catPath.value| > 0 && isDir(catPath.value)
    ensures r.configFileAvailable ==> Some(r.path) == catPath
    ensures !r.configFileAvailable ==> r.path == CalTargets.DefaultCataloguePath
  {
    if catPath.Some? && |catPath.value| > 0 && isDir(catPath.value) then CalTargets.Location(catPath.value, true)
    else CalTargets.Location(CalTargets.DefaultCataloguePath, false)
  }

  /**
   * The calibrator file of a kind: a configured folder must hold it, the node
   * configuration may serve it, and without either the script stops.
   */
  function CalibratorFile(loc: CalTargets.Location, nodeConfigAvailable: bool, isFile: string -> bool,
                          calTag: string): (r: Result<string>)
    ensures calTag !in CalTargets.CalTagNames ==> r == Err(KeyError(calTag))
    ensures r.Ok? ==> r == CalTargets.CalCatalogueFile(loc.path, calTag)
    ensures r.Ok? ==> (loc.configFileAvailable && isFile(r.value)) || (!loc.configFileAvailable && nodeConfigAvailable)
    ensures calTag in CalTargets.CalTagNames && loc.configFileAvailable && !isFile(CalTargets.CalCatalogueFile(loc.path, calTag).value) ==>
      r == Err(AssertionError("Catalogue file does not exist"))
    ensures calTag in CalTargets.CalTagNames && !loc.configFileAvailable && !nodeConfigAvailable ==> r.Err? && r.error.RuntimeError?
  {
    var file :- CalTargets.CalCatalogueFile(loc.path, calTag);
    if loc.configFileAvailable then
      if isFile(file) then Ok(file) else Err(AssertionError("Catalogue file does not exist"))
    else if nodeConfigAvailable then Ok(file)
    else Err(RuntimeError("Loading calibrator catalogue " + file + " failed!\n"
                          + "Add explicit location of catalogue folder using --cat-path <dirname>"))
  }

  // ---------------------------------------------------------------- tagging

  /**
   * A calibrator already in the catalogue gets the tag appended without a check for a
   * copy; one that is not is added with the tag.
   */
  function CalibratorAdded(es: seq<CalTargets.Entry>, cal: CalTargets.Entry, tag: string): (r: seq<CalTargets.Entry>)
    ensures CalTargets.Grown(es, r) && |r| <= |es| + 1
    ensures CalTargets.DistinctNames(es) ==> CalTargets.DistinctNames(r)
    ensures CalTargets.IndexOf(r, cal.name).Some?
  {
    match CalTargets.IndexOf(es, cal.name)
    case Some(i) =>
      var r := es[i := CalTargets.Entry(es[i].name, es[i].tags + [tag])];
      assert r[i].tags[..|es[i].tags|] == es[i].tags;
      assert CalTargets.IndexOf(r, cal.name).Some? by {
        assert r[i].name == cal.name;
      }
      r
    case None => CalTargets.Added(es, cal, Words(tag))
  }

  /** After the step the calibrator carries the tag. */
  lemma CalibratorTagged(es: seq<CalTargets.Entry>, cal: CalTargets.Entry, tag: string)
    requires CalTargets.IsWord(tag)
    ensures CalTargets.Has(CalibratorAdded(es, cal, tag), cal.name, tag)
  {
    var r := CalibratorAdded(es, cal, tag);
    match CalTargets.IndexOf(es, cal.name)
    case Some(i) =>
      assert r[i].name == cal.name && r[i].tags[|r[i].tags| - 1] == tag;
    case None =>
      CalTargets.WordsOfWord(tag);
      assert tag in Words(tag);
      assert r[|es|].name == cal.name && tag in r[|es|].tags;
  }

  /**
   * Unlike `add_target` in scripts/astrokat-targets.py, picking a calibrator that already
   * carries the tag repeats the tag; `add_target` leaves the catalogue as it is.
   */
  lemma TagRepeated(es: seq<CalTargets.Entry>, cal: CalTargets.Entry, tag: string)
    requires CalTargets.IndexOf(es, cal.name).Some? && tag in es[CalTargets.IndexOf(es, cal.name).value].tags
    ensures var i := CalTargets.IndexOf(es, cal.name).value;
      && !CalTargets.NoDuplicates(CalibratorAdded(es, cal, tag)[i].tags)
      && CalTargets.WithTarget(es, cal, tag) == es
  {
    var i := CalTargets.IndexOf(es, cal.name).value;
    var tags := CalibratorAdded(es, cal, tag)[i].tags;
    var k :| 0 <= k < |es[i].tags| && es[i].tags[k] == tag;
    assert tags[k] == tag && tags[|tags| - 1] == tag;
  }

  /** What the calibrator search gave for one calibrator kind: its tag and the calibrator, if the file opened. */
  datatype Pick = Pick(calTag: string, calibrator: Option<CalTargets.Entry>)

  /** The tagging steps for the kinds in order; a kind whose file did not open is skipped. */
  function Picked(es: seq<CalTargets.Entry>, picks: seq<Pick>): seq<CalTargets.Entry>
  {
    if |picks| == 0 then es
    else
      var before := Picked(es, picks[..|picks| - 1]);
      var p := picks[|picks| - 1];
      if p.calibrator.None? then before else CalibratorAdded(before, p.calibrator.value, p.calTag + "cal")
  }

  /** Tagging for one reference target, which is added last. */
  function Tagging(es: seq<CalTargets.Entry>, reference: CalTargets.Entry, picks: seq<Pick>): seq<CalTargets.Entry>
  {
    CalTargets.Added(Picked(es, picks), reference, [])
  }

  lemma {:induction false} PickedGrown(es: seq<CalTargets.Entry>, picks: seq<Pick>)
    ensures CalTargets.Grown(es, Picked(es, picks))
    ensures CalTargets.DistinctNames(es) ==> CalTargets.DistinctNames(Picked(es, picks))
  {
    if |picks| > 0 {
      var n := |picks| - 1;
      PickedGrown(es, picks[..n]);
      GrownTrans(es, Picked(es, picks[..n]), Picked(es, picks));
    }
  }

  lemma GrownTrans(a: seq<CalTargets.Entry>, b: seq<CalTargets.Entry>, c: seq<CalTargets.Entry>)
    requires CalTargets.Grown(a, b) && CalTargets.Grown(b, c)
    ensures CalTargets.Grown(a, c)
  {
    forall j | 0 <= j < |a|
      ensures c[j].name == a[j].name && |a[j].tags| <= |c[j].tags| && c[j].tags[..|a[j].tags|] == a[j].tags
    {
      assert c[j].tags[..|b[j].tags|][..|a[j].tags|] == c[j].tags[..|a[j].tags|];
    }
  }

  /**
   * After tagging, every calibrator that was found carries the tag of its kind, and the
   * reference target is in the catalogue.
   */
  lemma {:induction false} TaggingComplete(es: seq<CalTargets.Entry>, reference: CalTargets.Entry, picks: seq<Pick>, k: nat)
    requires k < |picks| && picks[k].calibrator.Some? && CalTargets.IsWord(picks[k].calTag)
    ensures CalTargets.Has(Tagging(es, reference, picks), picks[k].calibrator.value.name, picks[k].calTag + "cal")
    ensures CalTargets.IndexOf(Tagging(es, reference, picks), reference.name).Some?
  {
    PickedTagged(es, picks, k);
    var before := Picked(es, picks);
    CalTargets.GrownHas(before, Tagging(es, reference, picks), picks[k].calibrator.value.name, picks[k].calTag + "cal");
  }

  lemma {:induction false} PickedTagged(es: seq<CalTargets.Entry>, picks: seq<Pick>, k: nat)
    requires k < |picks| && picks[k].calibrator.Some? && CalTargets.IsWord(picks[k].calTag)
    ensures CalTargets.Has(Picked(es, picks), picks[k].calibrator.value.name, picks[k].calTag + "cal")
  {
    var n := |picks| - 1;
    var tag := picks[k].calTag + "cal";
    CalTagWord(picks[k].calTag);
    var before := Picked(es, picks[..n]);
    if k == n {
      CalibratorTagged(before, picks[n].calibrator.value, tag);
    } else {
      assert picks[..n][k] == picks[k];
      PickedTagged(es, picks[..n], k);
      assert CalTargets.Grown(before, Picked(es, picks));
      CalTargets.GrownHas(before, Picked(es, picks), picks[k].calibrator.value.name, tag);
    }
  }

  lemma CalTagWord(calTag: string)
    requires CalTargets.IsWord(calTag)
    ensures CalTargets.IsWord(calTag + "cal")
  {
  }

  /** The loop over the calibrator kinds of one reference target, then the target itself. */
  method TagCalibrators(c: CalTargets.Catalogue, reference: CalTargets.Entry, picks: seq<Pick>)
    modifies c
    ensures c.entries == Tagging(old(c.entries), reference, picks)
  {
    ghost var start := c.entries;
    for i := 0 to |picks|
      invariant c.entries == Picked(start, picks[..i])
    {
      assert picks[..i + 1][..i] == picks[..i];
      var calibrator := picks[i].calibrator;
      if calibrator.None? {
        continue;
      }
      var tag := picks[i].calTag + "cal";
      var k := CalTargets.IndexOf(c.entries, calibrator.value.name);
      if k.Some? {
        var j := k.value;
        c.entries := c.entries[j := CalTargets.Entry(c.entries[j].name, c.entries[j].tags + [tag])];
      }
      c.Add(calibrator.value, tag);
    }
    assert picks[..|picks|] == picks;
    c.Add(reference, "");
  }
  // ---------------------------------------------------------------- negative arguments

  /** An argument the shielding loop cannot index: an empty one, or a lone "-". */
  predicate Unindexable(arg: string) { |arg| == 0 || (arg[0] == '-' && |arg| == 1) }

  /** The loop's test of one argument, without the length check of the newer script. */
  function ShieldArg(arg: string): (r: Result<string>)
    ensures r.Err? <==> Unindexable(arg)
    ensures r.Err? ==> r.error == IndexError("string index out of range")
  {
    if |arg| == 0 then Err(IndexError("string index out of range"))
    else if arg[0] != '-' then Ok(arg)
    else if |arg| < 2 then Err(IndexError("string index out of range"))
    else if IsDigit(arg[1]) then Ok(" " + arg)
    else Ok(arg)
  }

  /** Where it does not raise, the test shields exactly as scripts/astrokat-targets.py does. */
  lemma ShieldArgAgrees(arg: string)
    requires !Unindexable(arg)
    ensures ShieldArg(arg) == Ok(CalTargets.Shielded(arg))
  {
  }

  /** The first argument the loop cannot index, if any. */
  function FirstUnindexable(args: seq<string>): (r: Option<nat>)
    ensures r.Some? ==> r.value < |args| && Unindexable(args[r.value])
    ensures r.Some? ==> forall j :: 0 <= j < r.value ==> !Unindexable(args[j])
    ensures r.None? <==> forall j :: 0 <= j < |args| ==> !Unindexable(args[j])
  {
    if |args| == 0 then None
    else if Unindexable(args[0]) then Some(0)
    else
      match FirstUnindexable(args[1..])
      case None => None
      case Some(k) => Some(k + 1)
  }

  /**
   * The loop over `sys.argv` that shields negative values in place: it raises IndexError
   * at the first empty argument or lone "-", after shielding every argument before it.
   */
  method ShieldNegatives(argv: array<string>) returns (e: Option<Error>)
    modifies argv
    ensures e.Some? <==> FirstUnindexable(old(argv[..])).Some?
    ensures e.Some? ==> e.value == IndexError("string index out of range")
    ensures var stop := match FirstUnindexable(old(argv[..])) case None => argv.Length case Some(k) => k;
      forall i :: 0 <= i < argv.Length ==> argv[i] == if i < stop then CalTargets.Shielded(old(argv[i])) else old(argv[i])
  {
    ghost var args := argv[..];
    for i := 0 to argv.Length
      invariant forall k :: 0 <= k < i ==> !Unindexable(args[k]) && argv[k] == CalTargets.Shielded(args[k])
      invariant forall k :: i <= k < argv.Length ==> argv[k] == args[k]
    {
      var arg := argv[i];
      var r := ShieldArg(arg);
      if r.Err? {
        assert FirstUnindexable(args).Some? && FirstUnindexable(args).value == i;
        return Some(r.error);
      }
      ShieldArgAgrees(arg);
      argv[i] := r.value;
    }
    assert FirstUnindexable(args).None?;
    e := None;
  }
}
