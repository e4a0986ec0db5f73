// scripts/catalogue2config.py: a catalogue of "name, tags, ra, dec" lines
// becomes a basic observation configuration. Each line is turned into a
// target string with tidied tags and a default duration; the strings are
// then split between `target_list` and `calibration_standards`.
module Catalogue2Config {
  import opened Common
  import opened Text
  import opened Numbers

  // ---------------------------------------------------------------- tags

  /** `tags.remove(w)` when `w` is present: the first occurrence goes, the rest stays in order. */
  function RemoveFirst(ws: seq<string>, w: string): (r: seq<string>)
    ensures w !in ws ==> r == ws
    ensures w in ws ==> |r| == |ws| - 1
    ensures multiset(r) == multiset(ws) - multiset{w}
    ensures forall x :: x in r ==> x in ws
  {
    if |ws| == 0 then []
    else
      assert ws == [ws[0]] + ws[1..];
      if ws[0] == w then ws[1..] else [ws[0]] + RemoveFirst(ws[1..], w)
  }

  /** `any('cal' in tag for tag in tags)` */
  predicate AnyCal(ws: seq<string>)
  {
    exists i :: 0 <= i < |ws| && Contains(ws[i], "cal")
  }

  /** The tag list of `tidy_tags`: the first 'radec' removed, 'target' added when no tag mentions 'cal'. */
  function TidyList(tags: string): seq<string>
  {
    var ws := RemoveFirst(Words(tags), "radec");
    if AnyCal(ws) then ws else ws + ["target"]
  }

  /** `tidy_tags`: the tidied tags joined by single spaces. */
  function TidyTags(tags: string): string
  {
    Join(TidyList(tags), " ")
  }

  /** A string that holds a non-empty pattern holds its first character. */
  lemma ContainsFirst(s: string, sub: string)
    requires |sub| > 0 && Contains(s, sub)
    ensures sub[0] in s
  {
    var i := ContainsWitness(s, sub);
    assert s[i] == s[i..i + |sub|][0];
  }

  /** The word "target" does not mention "cal". */
  lemma TargetIsNotCal()
    ensures !Contains("target", "cal")
  {
    if Contains("target", "cal") {
      ContainsFirst("target", "cal");
      assert false;
    }
  }

  /** Every tag of the tidied list is a non-empty word. */
  lemma TidyListWords(tags: string)
    ensures forall i :: 0 <= i < |TidyList(tags)| ==> |TidyList(tags)[i]| > 0 && NoSpace(TidyList(tags)[i])
  {
    var ws := Words(tags);
    var r := RemoveFirst(ws, "radec");
    forall i | 0 <= i < |r|
      ensures |r[i]| > 0 && NoSpace(r[i])
    {
      assert r[i] in ws;
      var j :| 0 <= j < |ws| && ws[j] == r[i];
    }
    TargetWord();
    var t := TidyList(tags);
    assert t == r || t == r + ["target"];
    assert forall i :: 0 <= i < |r| ==> t[i] == r[i];
  }

  /** "target" is one word. */
  lemma TargetWord()
    ensures |"target"| > 0 && NoSpace("target")
  {
  }

  /** The tags `tidy_tags` writes read back, split on whitespace, as the tidied list. */
  lemma TidyTagsWords(tags: string)
    ensures Words(TidyTags(tags)) == TidyList(tags)
  {
    TidyListWords(tags);
    WordsJoin(TidyList(tags));
  }

  /** 'target' is appended exactly when no remaining tag mentions 'cal'; 'radec' loses one occurrence. */
  lemma TidyListShape(tags: string)
    ensures var r := RemoveFirst(Words(tags), "radec");
      (TidyList(tags) == r + ["target"] <==> !AnyCal(r)) &&
      multiset(r) == multiset(Words(tags)) - multiset{"radec"}
  {
    var r := RemoveFirst(Words(tags), "radec");
    if AnyCal(r) {
      assert |TidyList(tags)| == |r|;
    }
  }

  /** Adding a tag that does not mention 'cal' to a list without one gives a list without one. */
  lemma NoCalSnoc(ws: seq<string>, w: string)
    requires !AnyCal(ws) && !Contains(w, "cal")
    ensures !AnyCal(ws + [w])
  {
    var r := ws + [w];
    assert forall i :: 0 <= i < |ws| ==> r[i] == ws[i];
    assert r[|ws|] == w;
  }

  /**
   * `tidy_tags` is not idempotent: tags without 'radec' and without a 'cal' tag gain a
   * second 'target' when tidied twice.
   */
  lemma TidyTagsTwice(tags: string)
    requires "radec" !in Words(tags) && !AnyCal(Words(tags))
    ensures TidyList(TidyTags(tags)) == TidyList(tags) + ["target"]
  {
    var ws := Words(tags);
    var once := ws + ["target"];
    assert TidyList(tags) == once;
    TidyTagsWords(tags);
    assert "radec" != "target";
    assert "radec" !in once;
    TargetIsNotCal();
    NoCalSnoc(ws, "target");
  }

  // ---------------------------------------------------------------- one catalogue line

  /** A default duration in seconds, as the command line gives it. */
  type Seconds = int

  /** The error of unpacking `n` comma fields into four names. */
  function UnpackError(n: nat): Error
  {
    if n < 4 then ValueError("not enough values to unpack (expected 4, got " + NatToString(n) + ")")
    else ValueError("too many values to unpack (expected 4)")
  }

  /** The duration given a line: the target duration when the tidied tags mention 'target', else the calibrator duration. */
  function DurationFor(tags: string, targetDuration: Seconds, calDuration: Seconds): (d: Seconds)
    ensures d == targetDuration || d == calDuration
    ensures Contains(tags, "target") ==> d == targetDuration
    ensures !Contains(tags, "target") ==> d == calDuration
  {
    if Contains(tags, "target") then targetDuration else calDuration
  }

  /** The four stripped fields of a line, or the unpacking error. */
  function Fields(line: string): (r: Result<seq<string>>)
    ensures r.Ok? <==> |Split(Strip(line), ',')| == 4
    ensures r.Ok? ==> |r.value| == 4
    ensures r.Err? ==> r.error == UnpackError(|Split(Strip(line), ',')|)
  {
    var parts := Split(Strip(line), ',');
    if |parts| != 4 then Err(UnpackError(|parts|))
    else Ok(parts)
  }

  /** The target string of one catalogue line. */
  function Entry(line: string, targetDuration: Seconds, calDuration: Seconds): Result<string>
  {
    var f :- Fields(line);
    var tags := TidyTags(Strip(f[1]));
    Ok("name=" + Strip(f[0]) + ", radec=" + Join([Strip(f[2]), Strip(f[3])], ",") +
       ", tags=" + tags + ", duration=" + IntToString(DurationFor(tags, targetDuration, calDuration)))
  }

  /** `Entry` as a value to map over the lines. */
  function EntryOf(targetDuration: Seconds, calDuration: Seconds): string -> Result<string>
  {
    (line: string) => Entry(line, targetDuration, calDuration)
  }

  /** Five comma-free texts joined by commas split back into the five texts. */
  lemma SplitFive(a: string, b: string, c: string, d: string, e: string)
    requires ',' !in a && ',' !in b && ',' !in c && ',' !in d && ',' !in e
    ensures Split(a + "," + b + "," + c + "," + d + "," + e, ',') == [a, b, c, d, e]
  {
    var t3 := d + [','] + e;
    var t2 := c + [','] + t3;
    var t1 := b + [','] + t2;
    SplitNoSep(e, ',');
    SplitAfter(d, ',', e);
    SplitAfter(c, ',', t3);
    SplitAfter(b, ',', t2);
    SplitAfter(a, ',', t1);
    Append5(a, b, c, d, e);
  }

  /** Joining five texts by commas from the left gives the same text as from the right. */
  lemma Append5(a: string, b: string, c: string, d: string, e: string)
    ensures a + "," + b + "," + c + "," + d + "," + e == a + [','] + (b + [','] + (c + [','] + (d + [','] + e)))
  {
    var l := a + "," + b + "," + c + "," + d + "," + e;
    var r := a + [','] + (b + [','] + (c + [','] + (d + [','] + e)));
    assert |l| == |r|;
    forall i | 0 <= i < |l|
      ensures l[i] == r[i]
    {
    }
  }

  /** A text with a literal head holds a comma only where its tail does. */
  lemma NoCommaAfter(head: string, tail: string)
    requires ',' !in head && ',' !in tail
    ensures ',' !in head + tail
  {
  }

  /**
   * A target string carries five comma fields: the name, the right ascension,
   * the declination, the tags and the duration, provided no field holds a comma.
   */
  lemma EntryFields(name: string, ra: string, dec: string, tags: string, duration: string)
    requires ',' !in name && ',' !in ra && ',' !in dec && ',' !in tags && ',' !in duration
    ensures Split("name=" + name + ", radec=" + Join([ra, dec], ",") + ", tags=" + tags + ", duration=" + duration, ',') ==
      ["name=" + name, " radec=" + ra, dec, " tags=" + tags, " duration=" + duration]
  {
    var p0, p1, p3, p4 := "name=" + name, " radec=" + ra, " tags=" + tags, " duration=" + duration;
    NoCommaAfter("name=", name);
    NoCommaAfter(" radec=", ra);
    NoCommaAfter(" tags=", tags);
    NoCommaAfter(" duration=", duration);
    SplitFive(p0, p1, dec, p3, p4);
    assert Join([ra, dec], ",") == ra + "," + dec;
    assert ", radec=" == "," + " radec=";
    assert ", tags=" == "," + " tags=";
    assert ", duration=" == "," + " duration=";
    Regroup("name=", name, " radec=", ra, dec, " tags=", tags, " duration=", duration);
  }

  /** Moving the commas of the format from the head of each key to the end of the field before. */
  lemma Regroup(h0: string, x0: string, h1: string, x1: string, x2: string, h3: string, x3: string, h4: string, x4: string)
    ensures h0 + x0 + ("," + h1) + (x1 + "," + x2) + ("," + h3) + x3 + ("," + h4) + x4 ==
            (h0 + x0) + "," + (h1 + x1) + "," + x2 + "," + (h3 + x3) + "," + (h4 + x4)
  {
  }

  /** `read_catalogue` over the lines of the file: one target string per line, in order; the first malformed line raises. */
  method ReadCatalogue(lines: seq<string>, targetDuration: Seconds, calDuration: Seconds) returns (r: Result<seq<string>>)
    ensures r == Each(lines, EntryOf(targetDuration, calDuration))
  {
    var entry := EntryOf(targetDuration, calDuration);
    var targetList: seq<string> := [];
    for i := 0 to |lines|
      invariant Each(lines[..i], entry) == Ok(targetList)
    {
      var item := entry(lines[i]);
      if item.Err? {
        EachFails(lines, i, entry);
        return Err(item.error);
      }
      EachSnoc(lines, i, entry);
      targetList := targetList + [item.value];
    }
    assert lines[..|lines|] == lines;
    return Ok(targetList);
  }

  /** The catalogue is read exactly when every line has four comma fields. */
  lemma ReadCatalogueOk(lines: seq<string>, targetDuration: Seconds, calDuration: Seconds)
    ensures Each(lines, EntryOf(targetDuration, calDuration)).Ok? <==>
      forall i :: 0 <= i < |lines| ==> |Split(Strip(lines[i]), ',')| == 4
  {
    var entry := EntryOf(targetDuration, calDuration);
    forall i | 0 <= i < |lines|
      ensures entry(lines[i]).Ok? <==> |Split(Strip(lines[i]), ',')| == 4
    {
      var f := Fields(lines[i]);
    }
  }

  // ---------------------------------------------------------------- the configuration text

  /** An entry destined for `calibration_standards`: no 'target', but 'flux', 'bp' or 'pol'. */
  predicate IsStandard(t: string)
  {
    !Contains(t, "target") && (Contains(t, "flux") || Contains(t, "bp") || Contains(t, "pol"))
  }

  /** The entries with `IsStandard(t) == standard`, in their original order. */
  function Keep(ts: seq<string>, standard: bool): seq<string>
  {
    if |ts| == 0 then []
    else Keep(ts[..|ts| - 1], standard) + (if IsStandard(ts[|ts| - 1]) == standard then [ts[|ts| - 1]] else [])
  }

  /** The two lists split the entries: together they hold each entry exactly as often as the input. */
  lemma {:induction false} KeepPartition(ts: seq<string>)
    ensures multiset(Keep(ts, false)) + multiset(Keep(ts, true)) == multiset(ts)
  {
    if |ts| > 0 {
      var n := |ts| - 1;
      KeepPartition(ts[..n]);
      assert ts == ts[..n] + [ts[n]];
    }
  }

  /** An entry is in a list exactly when it is an entry of the input of that kind. */
  lemma {:induction false} KeepMembers(ts: seq<string>, standard: bool)
    ensures forall t :: t in Keep(ts, standard) <==> t in ts && IsStandard(t) == standard
  {
    if |ts| > 0 {
      var n := |ts| - 1;
      KeepMembers(ts[..n], standard);
      assert ts == ts[..n] + [ts[n]];
    }
  }

  /** One "      - <target>" line per entry. */
  function Listing(ts: seq<string>): string
  {
    if |ts| == 0 then "" else Listing(ts[..|ts| - 1]) + "      - " + ts[|ts| - 1] + "\n"
  }

  /** The listing has exactly one line per entry. */
  lemma {:induction false} ListingLines(ts: seq<string>)
    requires forall i :: 0 <= i < |ts| ==> '\n' !in ts[i]
    ensures multiset(Listing(ts))['\n'] == |ts|
  {
    if |ts| > 0 {
      var n := |ts| - 1;
      ListingLines(ts[..n]);
      assert multiset(Listing(ts)) == multiset(Listing(ts[..n])) + multiset("      - ") + multiset(ts[n]) + multiset("\n");
      assert multiset(ts[n])['\n'] == 0;
    }
  }

  /** One more entry adds one line to the listing. */
  lemma ListingSnoc(ts: seq<string>, t: string)
    ensures Listing(ts + [t]) == Listing(ts) + "      - " + t + "\n"
  {
    assert (ts + [t])[..|ts|] == ts;
  }

  /** The lists over one more entry. */
  lemma KeepSnoc(ts: seq<string>, i: nat, standard: bool)
    requires i < |ts|
    ensures IsStandard(ts[i]) == standard ==> Keep(ts[..i + 1], standard) == Keep(ts[..i], standard) + [ts[i]]
    ensures IsStandard(ts[i]) != standard ==> Keep(ts[..i + 1], standard) == Keep(ts[..i], standard)
  {
    assert ts[..i + 1][..i] == ts[..i];
    assert Keep(ts[..i], standard) + [] == Keep(ts[..i], standard);
  }

  /** The fixed head: the instrument (Python prints a missing one as None), the loop and its LST range. */
  function Preamble(instrument: Option<string>): string
  {
    "instrument: " + (if instrument.Some? then instrument.value else "None") + "\n" +
    "observation_loop:\n" + "  - LST: 0-23\n"
  }

  /**
   * `write_yaml`: the text of the configuration file, the preamble written first and
   * the two lists appended after the loop that sorts the entries.
   */
  method WriteYaml(targets: seq<string>, instrument: Option<string>) returns (text: string)
    ensures text == Preamble(instrument) + "    target_list:\n" + Listing(Keep(targets, false)) +
                    "    calibration_standards:\n" + Listing(Keep(targets, true))
  {
    text := Preamble(instrument);
    var targetList := "";
    var calibratorList := "";
    for i := 0 to |targets|
      invariant targetList == Listing(Keep(targets[..i], false))
      invariant calibratorList == Listing(Keep(targets[..i], true))
    {
      var t := targets[i];
      KeepSnoc(targets, i, false);
      KeepSnoc(targets, i, true);
      ListingSnoc(Keep(targets[..i], false), t);
      ListingSnoc(Keep(targets[..i], true), t);
      if Contains(t, "target") {
        targetList := targetList + "      - " + t + "\n";
      } else if Contains(t, "flux") || Contains(t, "bp") || Contains(t, "pol") {
        calibratorList := calibratorList + "      - " + t + "\n";
      } else {
        targetList := targetList + "      - " + t + "\n";
      }
    }
    assert targets[..|targets|] == targets;
    text := text + "    target_list:\n" + targetList;
    text := text + "    calibration_standards:\n" + calibratorList;
  }
}
