// scripts/astrokat-catalogue2obsfile.py (and its older twin scripts/catalogue2obsfile.py):
// a catalogue of "name, tags, ra, dec[, flux]" lines becomes an observation file.
// Comment lines are kept as a header, every other line becomes a target string
// "name=.., radec=.., tags=.., duration=..[, cadence=..][, model=..]", and the
// observation file lists the instrument and duration sections, one LST loop and
// the targets.
module Catalogue2ObsFile {
  import opened Common
  import opened Text
  import opened Numbers
  import Catalogue2Config

  // ---------------------------------------------------------------- tags

  /**
   * The tag list of `tidy_tags`: the whitespace-separated tags, with 'target' added
   * when no tag mentions 'cal' and 'target' is not already a tag.
   */
  function TidyList(tags: string): (r: seq<string>)
    ensures Catalogue2Config.AnyCal(r) || "target" in r
    ensures Words(tags) <= r && |r| <= |Words(tags)| + 1
    ensures |r| == |Words(tags)| + 1 <==> !Catalogue2Config.AnyCal(Words(tags)) && "target" !in Words(tags)
  {
    var ws := Words(tags);
    if !Catalogue2Config.AnyCal(ws) && "target" !in ws then
      var r := ws + ["target"];
      assert r[|ws|] == "target";
      r
    else ws
  }

  /** `tidy_tags`: the tidied tags joined by single spaces. */
  function TidyTags(tags: string): string
  {
    Join(TidyList(tags), " ")
  }

  /** The tags `tidy_tags` writes read back, split on whitespace, as the tidied list. */
  lemma TidyTagsWords(tags: string)
    ensures Words(TidyTags(tags)) == TidyList(tags)
  {
    var ws := Words(tags);
    var r := TidyList(tags);
    Catalogue2Config.TargetWord();
    assert forall i :: 0 <= i < |ws| ==> r[i] == ws[i];
    WordsJoin(r);
  }

  /** Tidying tidied tags changes nothing: a tidied list is always marked as a target or a calibrator. */
  lemma TidyTagsIdempotent(tags: string)
    ensures TidyTags(TidyTags(tags)) == TidyTags(tags)
  {
    TidyTagsWords(tags);
  }

  // ---------------------------------------------------------------- one catalogue line

  /**
   * The printed durations the command line supplies: on target, on a gain calibrator,
   * on a bandpass calibrator, and the optional bandpass calibrator cadence.
   */
  datatype Durations = Durations(target: string, gaincal: string, bpcal: string, bpcalInterval: Option<string>)

  /** The stripped comma-separated columns of a stripped line. */
  function Columns(line: string): (cols: seq<string>)
    ensures |cols| == |Split(Strip(line), ',')| >= 1
    ensures forall i :: 0 <= i < |cols| ==> cols[i] == Strip(Split(Strip(line), ',')[i])
  {
    var parts := Split(Strip(line), ',');
    seq(|parts|, i requires 0 <= i < |parts| => Strip(parts[i]))
  }

  /** The flux model: the columns after the fourth joined by spaces, absent when nothing lies between its brackets. */
  function Flux(cols: seq<string>): (r: Option<string>)
    ensures r.Some? ==> |cols| > 4 && r.value == Join(cols[4..], " ")
    ensures r.Some? <==> |cols| > 4 && |Join(cols[4..], " ")| > 2
  {
    if |cols| > 4 then
      var flux := Join(cols[4..], " ");
      if |flux| < 3 then None else Some(flux)
    else None
  }

  /** The coordinate type: 'azel' or 'gal' when the tags start with it, 'radec' otherwise. */
  function Prefix(tags: string): (p: string)
    ensures p == "azel" || p == "gal" || p == "radec"
    ensures p != "radec" ==> StartsWith(tags, p)
    ensures p == "radec" ==> !StartsWith(tags, "azel") && !StartsWith(tags, "gal")
  {
    if StartsWith(tags, "azel") then "azel"
    else if StartsWith(tags, "gal") then "gal"
    else "radec"
  }

  /** The default name of an unnamed target: its line number and coordinate type. */
  function TargetName(name: string, idx: nat, prefix: string): (r: string)
    ensures |name| > 0 ==> r == name
    ensures |name| == 0 ==> StartsWith(r, "target") && |r| > 0
  {
    if |name| < 1 then "target" + NatToString(idx) + "_" + prefix else name
  }

  /**
   * `tags[len(prefix):].strip()` as written: the first `len(prefix)` characters go
   * whether or not the tags start with the prefix.
   */
  function TagsAfterPrefixAsWritten(tags: string, prefix: string): string
  {
    if |prefix| <= |tags| then Strip(tags[|prefix|..]) else ""
  }

  /** The tags without the coordinate type: the prefix goes only when the tags start with it. */
  function TagsAfterPrefix(tags: string, prefix: string): (r: string)
    ensures !StartsWith(tags, prefix) ==> r == tags
  {
    if StartsWith(tags, prefix) then Strip(tags[|prefix|..]) else tags
  }

  /** Tags given without a coordinate type lose their first five characters as written, and none when corrected. */
  lemma TagsAfterPrefixCounterexample()
    ensures TagsAfterPrefixAsWritten("target", "radec") == "t"
    ensures TagsAfterPrefix("target", "radec") == "target"
  {
    var tags, prefix := "target", "radec";
    assert tags[|prefix|..] == "t";
    assert tags[..|prefix|][0] != prefix[0];
    PrefixNotThere(tags, prefix);
  }

  /** Tags that do not start with the prefix lose their first `len(prefix)` characters as written, and none when corrected. */
  lemma PrefixNotThere(tags: string, prefix: string)
    requires |prefix| <= |tags| && !StartsWith(tags, prefix) && Stripped(tags[|prefix|..])
    ensures TagsAfterPrefixAsWritten(tags, prefix) == tags[|prefix|..]
    ensures TagsAfterPrefix(tags, prefix) == tags
  {
    StrippedFixed(tags[|prefix|..]);
  }

  /** A text joined from words by single spaces has no whitespace at either end. */
  lemma {:induction false} JoinWordsStripped(ws: seq<string>)
    requires forall i :: 0 <= i < |ws| ==> |ws[i]| > 0 && NoSpace(ws[i])
    ensures Stripped(Join(ws, " "))
    ensures |ws| > 0 ==> |Join(ws, " ")| > 0 && Join(ws, " ")[0] == ws[0][0]
    ensures |ws| > 0 ==> Join(ws, " ")[|Join(ws, " ")| - 1] == ws[|ws| - 1][|ws[|ws| - 1]| - 1]
    decreases |ws|
  {
    if |ws| > 1 {
      JoinWordsStripped(ws[1..]);
      var rest := Join(ws[1..], " ");
      assert Join(ws, " ") == ws[0] + " " + rest;
      assert ws[1..][|ws[1..]| - 1] == ws[|ws| - 1];
      assert (ws[0] + " " + rest)[|ws[0] + " " + rest| - 1] == rest[|rest| - 1];
    }
  }

  /**
   * Corrected, the tags field is the tidied tags without their coordinate-type word:
   * when the first word is the prefix, exactly the remaining words are kept.
   */
  lemma TagsAfterPrefixWords(ws: seq<string>, prefix: string)
    requires forall i :: 0 <= i < |ws| ==> |ws[i]| > 0 && NoSpace(ws[i])
    requires |ws| > 0 && ws[0] == prefix
    ensures TagsAfterPrefix(Join(ws, " "), prefix) == Join(ws[1..], " ")
    ensures TagsAfterPrefixAsWritten(Join(ws, " "), prefix) == Join(ws[1..], " ")
  {
    var tags := Join(ws, " ");
    if |ws| == 1 {
      assert tags == prefix;
      assert tags[..|prefix|] == prefix;
      assert tags[|prefix|..] == [];
    } else {
      var rest := Join(ws[1..], " ");
      assert tags == prefix + " " + rest;
      JoinWordsStripped(ws[1..]);
      StripAfterWord(prefix, rest);
    }
  }

  /** A word followed by a space and a stripped text leaves that text once the word is taken off. */
  lemma StripAfterWord(w: string, rest: string)
    requires Stripped(rest)
    ensures TagsAfterPrefix(w + " " + rest, w) == rest
    ensures TagsAfterPrefixAsWritten(w + " " + rest, w) == rest
  {
    var tags := w + " " + rest;
    assert tags[..|w|] == w;
    assert tags[|w|..] == [' '] + rest;
    StripLeadingSpace(' ', rest);
    StrippedFixed(rest);
  }

  /**
   * How long to observe and how often: the target duration when the tags mention
   * 'target', else the gain calibrator duration when they mention 'gaincal', else the
   * bandpass calibrator duration with its cadence.
   */
  function Schedule(tags: string, d: Durations): (r: (string, Option<string>))
    ensures r.1.Some? ==> !Contains(tags, "target") && !Contains(tags, "gaincal") && r.1 == d.bpcalInterval
    ensures Contains(tags, "target") ==> r == (d.target, None)
    ensures !Contains(tags, "target") && Contains(tags, "gaincal") ==> r == (d.gaincal, None)
  {
    if Contains(tags, "target") then (d.target, None)
    else if Contains(tags, "gaincal") then (d.gaincal, None)
    else (d.bpcal, d.bpcalInterval)
  }

  /** The target string with its optional cadence and model. */
  function TargetSpec(name: string, prefix: string, ra: string, dec: string, tags: string,
                      duration: string, cadence: Option<string>, flux: Option<string>): string
  {
    TargetHead(name, prefix, ra, dec, tags) + (duration +
    (if cadence.Some? then ", cadence=" + cadence.value else "") +
    (if flux.Some? then ", model=" + flux.value else ""))
  }

  /** The error of unpacking fewer than four columns into four names. */
  function UnpackError(n: nat): Error
  {
    ValueError("not enough values to unpack (expected 4, got " + NatToString(n) + ")")
  }

  /** The target string of data line number `idx`; fewer than four columns raise. */
  function Target(idx: nat, line: string, d: Durations): (r: Result<string>)
    ensures r.Ok? <==> |Split(Strip(line), ',')| >= 4
    ensures r.Err? ==> r.error == UnpackError(|Split(Strip(line), ',')|)
  {
    var cols := Columns(line);
    if |cols| < 4 then Err(UnpackError(|cols|))
    else Ok(ColumnsTarget(idx, cols, d))
  }

  /**
   * The target string of the columns of a line that has at least four: it names the
   * target, gives its coordinates under the coordinate type, and its tags field is
   * the tidied tags less their first `len(prefix)` characters; when the first tidied
   * tag is the coordinate type, that field is exactly the remaining tags.
   */
  function ColumnsTarget(idx: nat, cols: seq<string>, d: Durations): (r: string)
    requires |cols| >= 4
    ensures var tags := TidyTags(Strip(cols[1])); var prefix := Prefix(tags);
      StartsWith(r, TargetHead(TargetName(cols[0], idx, prefix), prefix, cols[2], cols[3], TagsAfterPrefixAsWritten(tags, prefix)))
  {
    var tags := TidyTags(Strip(cols[1]));
    var prefix := Prefix(tags);
    var schedule := Schedule(tags, d);
    var field := TagsAfterPrefixAsWritten(tags, prefix);
    var r := TargetSpec(TargetName(cols[0], idx, prefix), prefix, cols[2], cols[3], field, schedule.0, schedule.1, Flux(cols));
    HeadStarts(TargetName(cols[0], idx, prefix), prefix, cols[2], cols[3], field, schedule.0, schedule.1, Flux(cols));
    r
  }

  /** When the first tidied tag is the coordinate type, the tags field of the target string is exactly the remaining tags. */
  lemma ColumnsTargetTags(idx: nat, cols: seq<string>, d: Durations)
    requires |cols| >= 4
    requires var ws := TidyList(Strip(cols[1])); |ws| > 0 && ws[0] == Prefix(Join(ws, " "))
    ensures var ws := TidyList(Strip(cols[1]));
      StartsWith(ColumnsTarget(idx, cols, d), TargetHead(TargetName(cols[0], idx, ws[0]), ws[0], cols[2], cols[3], Join(ws[1..], " ")))
  {
    var ws := TidyList(Strip(cols[1]));
    TidyListWords(Strip(cols[1]));
    TagsAfterPrefixWords(ws, ws[0]);
  }

  /** The tidied tags are non-empty words without whitespace. */
  lemma TidyListWords(tags: string)
    ensures forall i :: 0 <= i < |TidyList(tags)| ==> |TidyList(tags)[i]| > 0 && NoSpace(TidyList(tags)[i])
  {
    var ws := Words(tags);
    var r := TidyList(tags);
    Catalogue2Config.TargetWord();
    assert forall i :: 0 <= i < |r| ==> (i < |ws| && r[i] == ws[i]) || r[i] == "target";
  }

  /** A target string starts with its head. */
  lemma HeadStarts(name: string, prefix: string, ra: string, dec: string, tags: string,
                   duration: string, cadence: Option<string>, flux: Option<string>)
    ensures StartsWith(TargetSpec(name, prefix, ra, dec, tags, duration, cadence, flux), TargetHead(name, prefix, ra, dec, tags))
  {
    var head := TargetHead(name, prefix, ra, dec, tags);
    var r := TargetSpec(name, prefix, ra, dec, tags, duration, cadence, flux);
    assert r[..|head|] == head;
  }

  /** The start of a target string, up to its duration: the name, the coordinates and the tags. */
  function TargetHead(name: string, prefix: string, ra: string, dec: string, tags: string): string
  {
    "name=" + name + ", " + prefix + "=" + ra + " " + dec + ", tags=" + tags + ", duration="
  }

  // ---------------------------------------------------------------- the catalogue file

  /** What `read_catalogue` returns: the comment lines and the target strings. */
  datatype Catalogue = Catalogue(header: string, targets: seq<string>)

  /** A line that goes into the header. */
  predicate IsComment(line: string) { |line| > 0 && line[0] == '#' }

  /** A line that becomes a target: neither a comment nor shorter than two characters. */
  predicate IsData(line: string) { |line| >= 2 && line[0] != '#' }

  /** One line of the file with its number. */
  function Step(c: Catalogue, entry: (nat, string), d: Durations): (r: Result<Catalogue>)
  {
    var line := entry.1;
    if |line| == 0 then Err(IndexError("string index out of range"))
    else if line[0] == '#' then Ok(c.(header := c.header + line))
    else if |line| < 2 then Ok(c)
    else
      var t :- Target(entry.0, line, d);
      Ok(c.(targets := c.targets + [t]))
  }

  /** `Step` as a value to fold over the numbered lines. */
  function StepOf(d: Durations): (Catalogue, (nat, string)) -> Result<Catalogue>
  {
    (c: Catalogue, entry: (nat, string)) => Step(c, entry, d)
  }

  /** `enumerate(lines)` */
  function Enumerate(lines: seq<string>): (r: seq<(nat, string)>)
    ensures |r| == |lines|
    ensures forall i :: 0 <= i < |lines| ==> r[i] == (i, lines[i])
  {
    seq(|lines|, i requires 0 <= i < |lines| => (i, lines[i]))
  }

  /** `read_catalogue` over the lines of the file. */
  function ReadSpec(lines: seq<string>, d: Durations): Result<Catalogue>
  {
    Fold(Catalogue("", []), Enumerate(lines), StepOf(d))
  }

  /** A line the loop gets past: not empty, and a data line has at least four columns. */
  predicate LineOk(line: string)
  {
    |line| > 0 && (IsData(line) ==> |Split(Strip(line), ',')| >= 4)
  }

  /**
   * `read_catalogue`: comment lines are appended to the header, lines shorter than
   * two characters are skipped, and every other line becomes a target string, in
   * file order; the first line that cannot be unpacked raises.
   */
  method ReadCatalogue(lines: seq<string>, d: Durations) returns (r: Result<Catalogue>)
    ensures r == ReadSpec(lines, d)
  {
    var items := Enumerate(lines);
    var f := StepOf(d);
    var header := "";
    var targetList: seq<string> := [];
    for idx := 0 to |lines|
      invariant Fold(Catalogue("", []), items[..idx], f) == Ok(Catalogue(header, targetList))
    {
      var line := lines[idx];
      FoldSnoc(Catalogue("", []), items, idx, f);
      assert f(Catalogue(header, targetList), items[idx]) == Step(Catalogue(header, targetList), (idx, line), d);
      if |line| == 0 {
        FoldErrSticks(Catalogue("", []), items, idx + 1, f);
        return Err(IndexError("string index out of range"));
      }
      if line[0] == '#' {
        header := header + line;
      } else if |line| >= 2 {
        var target := Target(idx, line, d);
        if target.Err? {
          FoldErrSticks(Catalogue("", []), items, idx + 1, f);
          return Err(target.error);
        }
        targetList := targetList + [target.value];
      }
    }
    assert items[..|lines|] == items;
    return Ok(Catalogue(header, targetList));
  }

  /** The catalogue is read exactly when no line is empty and every data line has four columns. */
  lemma ReadSpecOk(lines: seq<string>, d: Durations)
    ensures ReadSpec(lines, d).Ok? <==> forall i :: 0 <= i < |lines| ==> LineOk(lines[i])
  {
    var items := Enumerate(lines);
    forall c: Catalogue, entry: (nat, string)
      ensures StepOf(d)(c, entry).Ok? <==> EntryOk(entry)
    {
      StepOk(c, entry, d);
    }
    FoldOkIff(Catalogue("", []), items, StepOf(d), EntryOk);
    assert forall i :: 0 <= i < |items| ==> (EntryOk(items[i]) <==> LineOk(lines[i]));
  }

  /** A numbered line the loop gets past. */
  predicate EntryOk(entry: (nat, string))
  {
    LineOk(entry.1)
  }

  /** One line is read exactly when it is not empty and, when it is a data line, has four columns. */
  lemma StepOk(c: Catalogue, entry: (nat, string), d: Durations)
    ensures Step(c, entry, d).Ok? <==> LineOk(entry.1)
  {
    var t := Target(entry.0, entry.1, d);
  }

  /** The comment lines of a file, concatenated in order. */
  function Comments(lines: seq<string>): string
  {
    if |lines| == 0 then ""
    else Comments(lines[..|lines| - 1]) + (if IsComment(lines[|lines| - 1]) then lines[|lines| - 1] else "")
  }

  /** The number of data lines of a file. */
  function DataCount(lines: seq<string>): nat
  {
    if |lines| == 0 then 0
    else DataCount(lines[..|lines| - 1]) + (if IsData(lines[|lines| - 1]) then 1 else 0)
  }

  /** Reading a prefix of the file: the header is its comment lines and there is one target per data line. */
  lemma {:induction false} ReadPrefix(lines: seq<string>, n: nat, d: Durations)
    requires n <= |lines|
    requires Fold(Catalogue("", []), Enumerate(lines)[..n], StepOf(d)).Ok?
    ensures var c := Fold(Catalogue("", []), Enumerate(lines)[..n], StepOf(d)).value;
      c.header == Comments(lines[..n]) && |c.targets| == DataCount(lines[..n])
  {
    var items := Enumerate(lines);
    if n > 0 {
      var m := n - 1;
      FoldSnoc(Catalogue("", []), items, m, StepOf(d));
      var prev := Fold(Catalogue("", []), items[..m], StepOf(d));
      assert prev.Ok?;
      ReadPrefix(lines, m, d);
      assert lines[..n][..m] == lines[..m];
      assert lines[..n][m] == lines[m];
    }
  }

  /** A file that is read gives its comment lines as the header and one target per data line. */
  lemma ReadSpecParts(lines: seq<string>, d: Durations)
    requires ReadSpec(lines, d).Ok?
    ensures ReadSpec(lines, d).value.header == Comments(lines)
    ensures |ReadSpec(lines, d).value.targets| == DataCount(lines)
  {
    assert Enumerate(lines)[..|lines|] == Enumerate(lines);
    assert lines[..|lines|] == lines;
    ReadPrefix(lines, |lines|, d);
  }

  // ---------------------------------------------------------------- the observation file

  /** A section of the configuration: its key and its values, `None` for a value never printed. */
  datatype Section = Section(name: string, values: seq<(string, Option<string>)>)

  /** The configuration `configure` builds: the sections, the LST range and the targets of the one loop. */
  datatype Plan = Plan(sections: seq<Section>, lst: string, targets: seq<string>)

  /** `":".join(t.split(":")[:-1])`: the time without its last component. */
  function DropSeconds(t: string): string
  {
    var parts := Split(t, ':');
    Join(parts[..|parts| - 1], ":")
  }

  /** "HH:MM:SS" loses its seconds. */
  lemma DropSecondsOfTime(h: string, m: string, s: string)
    requires ':' !in h && ':' !in m && ':' !in s
    ensures DropSeconds(h + ":" + m + ":" + s) == h + ":" + m
  {
    SplitNoSep(s, ':');
    SplitAfter(m, ':', s);
    assert h + ":" + m + ":" + s == h + [':'] + (m + [':'] + s);
    SplitAfter(h, ':', m + [':'] + s);
    var parts := Split(h + ":" + m + ":" + s, ':');
    assert parts == [h, m, s];
    assert parts[..|parts| - 1] == [h, m];
    assert Join([h, m], ":") == h + ":" + Join([m], ":");
  }

  /** The default LST range "start-end" of the observation, both times in hours and minutes. */
  function DefaultLst(startObs: string, endObs: string): string
  {
    DropSeconds(startObs) + "-" + DropSeconds(endObs)
  }

  /** The sections `configure` sets: the instrument when it has any entry, the duration when one is given. */
  function PlanSections(instrument: seq<(string, Option<string>)>, obsDuration: Option<string>): (r: seq<Section>)
    ensures |r| <= 2
    ensures Section("instrument", instrument) in r <==> |instrument| > 0
    ensures obsDuration.Some? <==> Section("durations", [("obs_duration", obsDuration)]) in r
  {
    (if |instrument| > 0 then [Section("instrument", instrument)] else []) +
    (if obsDuration.Some? then [Section("durations", [("obs_duration", obsDuration)])] else [])
  }

  /** The printed values of a section: one "  key: value" line per value that is not `None`. */
  function ValuesText(vs: seq<(string, Option<string>)>): string
  {
    if |vs| == 0 then ""
    else
      var (k, v) := vs[|vs| - 1];
      ValuesText(vs[..|vs| - 1]) + (if v.Some? then "  " + k + ": " + v.value + "\n" else "")
  }

  /** The printed sections: each but the observation loop as its key line and its values. */
  function SectionsText(ss: seq<Section>): string
  {
    if |ss| == 0 then ""
    else
      var s := ss[|ss| - 1];
      SectionsText(ss[..|ss| - 1]) + (if s.name == "observation_loop" then "" else s.name + ":\n" + ValuesText(s.values))
  }

  /** The observation file: header, sections, the loop with its LST and, when there are any, the targets. */
  function YamlText(header: Option<string>, p: Plan): string
  {
    (if header.Some? then header.value else "") + SectionsText(p.sections) +
    "observation_loop:\n" + "  - LST: " + p.lst + "\n" +
    (if |p.targets| > 0 then "    target_list:\n" + Catalogue2Config.Listing(p.targets) else "")
  }

  /** The listing is empty exactly when there are no targets. */
  lemma ListingEmpty(ts: seq<string>)
    ensures |Catalogue2Config.Listing(ts)| == 0 <==> |ts| == 0
  {
  }

  /** Every target has its own line in the listing. */
  lemma {:induction false} ListingHolds(ts: seq<string>, i: nat)
    requires i < |ts|
    ensures Contains(Catalogue2Config.Listing(ts), "      - " + ts[i] + "\n")
  {
    var n := |ts| - 1;
    var line := "      - " + ts[n] + "\n";
    var prev := Catalogue2Config.Listing(ts[..n]);
    assert Catalogue2Config.Listing(ts) == prev + line;
    if i == n {
      ContainsAt(prev + line, line, |prev|);
    } else {
      ListingHolds(ts[..n], i);
      ContainsPrefix(prev, line, "      - " + ts[i] + "\n");
    }
  }

  /** Every value that is not `None` is printed on its own line. */
  lemma {:induction false} ValuesHold(vs: seq<(string, Option<string>)>, i: nat)
    requires i < |vs| && vs[i].1.Some?
    ensures Contains(ValuesText(vs), "  " + vs[i].0 + ": " + vs[i].1.value + "\n")
  {
    var n := |vs| - 1;
    var prev := ValuesText(vs[..n]);
    var last := if vs[n].1.Some? then "  " + vs[n].0 + ": " + vs[n].1.value + "\n" else "";
    assert ValuesText(vs) == prev + last;
    if i == n {
      ContainsAt(prev + last, last, |prev|);
    } else {
      ValuesHold(vs[..n], i);
      ContainsPrefix(prev, last, "  " + vs[i].0 + ": " + vs[i].1.value + "\n");
    }
  }

  /** The observation file names the LST range and lists every target on a line of its own. */
  lemma YamlTextHolds(header: Option<string>, p: Plan)
    ensures Contains(YamlText(header, p), "  - LST: " + p.lst + "\n")
    ensures forall i :: 0 <= i < |p.targets| ==> Contains(YamlText(header, p), "      - " + p.targets[i] + "\n")
  {
    var head := (if header.Some? then header.value else "") + SectionsText(p.sections) + "observation_loop:\n";
    var lstLine := "  - LST: " + p.lst + "\n";
    var tail := if |p.targets| > 0 then "    target_list:\n" + Catalogue2Config.Listing(p.targets) else "";
    assert YamlText(header, p) == head + lstLine + tail;
    ContainsAt(head + lstLine, lstLine, |head|);
    ContainsPrefix(head + lstLine, tail, lstLine);
    forall i | 0 <= i < |p.targets|
      ensures Contains(YamlText(header, p), "      - " + p.targets[i] + "\n")
    {
      ListingHolds(p.targets, i);
      ContainsSuffix("    target_list:\n", Catalogue2Config.Listing(p.targets), "      - " + p.targets[i] + "\n");
      ContainsSuffix(head + lstLine, tail, "      - " + p.targets[i] + "\n");
    }
  }

  /** The observation builder of both scripts: the target strings and the configuration made from them. */
  class BuildObservation {
    var targetList: seq<string>
    var configuration: Option<Plan>

    constructor(targetList: seq<string>)
      ensures this.targetList == targetList && configuration == None
    {
      this.targetList := targetList;
      configuration := None;
    }

    /**
     * `configure`: the instrument and duration sections and one observation loop over
     * all targets, its LST range `lst` or, when none is given, the default range
     * the script works out from the targets' rise and set times.
     */
    method Configure(instrument: seq<(string, Option<string>)>, obsDuration: Option<string>,
                     lst: Option<string>, defaultLst: string) returns (plan: Plan)
      modifies this
      ensures targetList == old(targetList) && configuration == Some(plan)
      ensures plan.sections == PlanSections(instrument, obsDuration)
      ensures plan.lst == (if lst.Some? then lst.value else defaultLst)
      ensures plan.targets == targetList
    {
      var sections: seq<Section> := [];
      if |instrument| > 0 {
        sections := sections + [Section("instrument", instrument)];
      }
      if obsDuration.Some? {
        sections := sections + [Section("durations", [("obs_duration", obsDuration)])];
      }
      var range := if lst.Some? then lst.value else defaultLst;
      plan := Plan(sections, range, targetList);
      configuration := Some(plan);
    }

    /**
     * `write_yaml`: a configuration passed in replaces the stored one; with none at all
     * it raises, otherwise it returns the text of the observation file.
     */
    method WriteYaml(header: Option<string>, configuration: Option<Plan>) returns (r: Result<string>)
      modifies this
      ensures targetList == old(targetList)
      ensures this.configuration == (if configuration.Some? then configuration else old(this.configuration))
      ensures r.Err? <==> this.configuration.None?
      ensures r.Err? ==> r.error == RuntimeError("No observation configuration to output")
      ensures r.Ok? ==> r.value == YamlText(header, this.configuration.value)
    {
      if configuration.Some? {
        this.configuration := configuration;
      }
      if this.configuration.None? {
        return Err(RuntimeError("No observation configuration to output"));
      }
      var plan := this.configuration.value;
      var text := if header.Some? then header.value else "";
      text := AppendSections(text, plan.sections);
      text := text + "observation_loop:\n";
      text := text + "  - LST: " + plan.lst + "\n";
      var targets := ListTargets(plan.targets);
      ListingEmpty(plan.targets);
      if |targets| > 0 {
        text := text + "    target_list:\n" + targets;
      }
      return Ok(text);
    }
  }

  /** The section loop of `write_yaml`: every section but the observation loop appended to `text`. */
  method AppendSections(text: string, sections: seq<Section>) returns (r: string)
    ensures r == text + SectionsText(sections)
  {
    r := text;
    for i := 0 to |sections|
      invariant r == text + SectionsText(sections[..i])
    {
      var section := sections[i];
      assert sections[..i + 1][..i] == sections[..i];
      if section.name != "observation_loop" {
        r := r + section.name + ":\n";
        r := AppendValues(r, section.values);
      }
    }
    assert sections[..|sections|] == sections;
  }

  /** The target loop of `write_yaml`: one "      - <target>" line per target. */
  method ListTargets(targets: seq<string>) returns (listing: string)
    ensures listing == Catalogue2Config.Listing(targets)
  {
    listing := "";
    for i := 0 to |targets|
      invariant listing == Catalogue2Config.Listing(targets[..i])
    {
      Catalogue2Config.ListingSnoc(targets[..i], targets[i]);
      assert targets[..i + 1] == targets[..i] + [targets[i]];
      listing := listing + "      - " + targets[i] + "\n";
    }
    assert targets[..|targets|] == targets;
  }

  /** The inner loop of `write_yaml`: the values of one section appended to `text`. */
  method AppendValues(text: string, values: seq<(string, Option<string>)>) returns (r: string)
    ensures r == text + ValuesText(values)
  {
    r := text;
    for j := 0 to |values|
      invariant r == text + ValuesText(values[..j])
    {
      assert values[..j + 1][..j] == values[..j];
      if values[j].1.Some? {
        r := r + "  " + values[j].0 + ": " + values[j].1.value + "\n";
      }
    }
    assert values[..|values|] == values;
  }
}
