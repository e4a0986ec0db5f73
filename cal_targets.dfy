// The calibrator-selection script scripts/astrokat-targets.py: the tag filters it
// builds for the observation table, the observation catalogue it assembles, the
// header it writes, the input catalogue it reads and the command-line clean-up.
module CalTargets {
  import opened Common
  import opened Text
  import opened Numbers
  import UpdateAntennas

  // ---------------------------------------------------------------- calibrator tags

  /** The calibrator kinds and the name each has in its calibrator file. */
  const CalTagNames: map<string, string> :=
    map["bp" := "bandpass", "delay" := "delay", "flux" := "flux", "gain" := "gain", "pol" := "polarisation"]

  /** The keys of `CalTagNames`, in the order they are written down. */
  const DefaultCalTags: seq<string> := ["bp", "delay", "flux", "gain", "pol"]

  /** `tag[-3:]`: the last three characters, or the whole tag when it is shorter. */
  function LastThree(tag: string): string
  {
    if |tag| < 3 then tag else tag[|tag| - 3..]
  }

  /** A tag that marks a calibrator ends in "cal". */
  predicate IsCalTag(tag: string) { LastThree(tag) == "cal" }

  /** A catalogue target as far as this script looks at it: its name and its tags. */
  datatype Entry = Entry(name: string, tags: seq<string>)

  predicate NoDuplicates(s: seq<string>)
  {
    forall i, j :: 0 <= i < j < |s| ==> s[i] != s[j]
  }

  /** Some target of the catalogue carries `tag`. */
  predicate Tagged(cat: seq<Entry>, tag: string)
  {
    exists i :: 0 <= i < |cat| && tag in cat[i].tags
  }

  /** Some target of the catalogue carries a calibrator tag. */
  predicate AnyCalTag(cat: seq<Entry>)
  {
    exists i, t :: 0 <= i < |cat| && t in cat[i].tags && IsCalTag(t)
  }

  /** Every tag of every target, in catalogue order. */
  function AllTags(cat: seq<Entry>): seq<string>
  {
    if |cat| == 0 then [] else AllTags(cat[..|cat| - 1]) + cat[|cat| - 1].tags
  }

  lemma {:induction false} AllTagsMembers(cat: seq<Entry>, t: string)
    ensures t in AllTags(cat) <==> Tagged(cat, t)
  {
    if |cat| > 0 {
      var n := |cat| - 1;
      AllTagsMembers(cat[..n], t);
      if t in AllTags(cat) && t !in cat[n].tags {
        var i :| 0 <= i < n && t in cat[..n][i].tags;
        assert cat[i] == cat[..n][i];
      }
      if Tagged(cat, t) {
        var i :| 0 <= i < |cat| && t in cat[i].tags;
        if i < n {
          assert cat[..n][i] == cat[i];
        }
      }
    }
  }

  /** `list(set(tags))`, each tag kept where it first occurs. */
  function Distinct(tags: seq<string>): (r: seq<string>)
    ensures NoDuplicates(r)
    ensures forall t :: t in r <==> t in tags
  {
    if |tags| == 0 then []
    else
      var d := Distinct(tags[..|tags| - 1]);
      var last := tags[|tags| - 1];
      assert tags == tags[..|tags| - 1] + [last];
      if last in d then d else d + [last]
  }

  /** The tags that mark calibrators, in order. */
  function CalTagsOf(tags: seq<string>): (r: seq<string>)
    ensures forall t :: t in r <==> t in tags && IsCalTag(t)
    ensures NoDuplicates(tags) ==> NoDuplicates(r)
  {
    if |tags| == 0 then []
    else
      var rest := CalTagsOf(tags[..|tags| - 1]);
      var last := tags[|tags| - 1];
      assert tags == tags[..|tags| - 1] + [last];
      if IsCalTag(last) then rest + [last] else rest
  }

  /** Each tag with a "~" in front: the filter that excludes it. */
  function Negated(tags: seq<string>): (r: seq<string>)
    ensures |r| == |tags|
    ensures forall i :: 0 <= i < |r| ==> StartsWith(r[i], "~") && r[i][1..] == tags[i]
  {
    seq(|tags|, i requires 0 <= i < |tags| => "~" + tags[i])
  }

  lemma NegatedMembers(tags: seq<string>, t: string)
    ensures "~" + t in Negated(tags) <==> t in tags
  {
    var r := Negated(tags);
    assert ("~" + t)[1..] == t;
    if t in tags {
      var i :| 0 <= i < |tags| && tags[i] == t;
      assert r[i] == "~" + t;
    }
  }

  /** What `get_filter_tags` returns: one list, or the calibrator and the target filters. */
  datatype Filters = Filters(tags: seq<string>) | CalibratorsAndTargets(calibrators: seq<string>, targets: seq<string>)

  /** The filters built from the distinct tags of a catalogue. */
  function FilterTagsOf(tags: seq<string>, targets: bool, calibrators: bool): Filters
  {
    if targets then Filters(Negated(CalTagsOf(tags)))
    else if calibrators then Filters(CalTagsOf(tags))
    else
      var cal := CalTagsOf(tags);
      var chosen := if |cal| == 0 then DefaultCalTags else cal;
      CalibratorsAndTargets(chosen, Negated(chosen))
  }

  /** The calibrator tags found exist exactly when some target carries one. */
  lemma CalTagsFound(cat: seq<Entry>)
    ensures |CalTagsOf(Distinct(AllTags(cat)))| > 0 <==> AnyCalTag(cat)
  {
    var cal := CalTagsOf(Distinct(AllTags(cat)));
    if |cal| > 0 {
      var t := cal[0];
      assert t in cal;
      AllTagsMembers(cat, t);
      var i :| 0 <= i < |cat| && t in cat[i].tags;
    }
    if AnyCalTag(cat) {
      var i, t :| 0 <= i < |cat| && t in cat[i].tags && IsCalTag(t);
      AllTagsMembers(cat, t);
      assert t in cal;
    }
  }

  /**
   * The filters say, tag by tag, what the catalogue holds: with `targets` they exclude
   * every calibrator tag in use, with `calibrators` they are those tags, and otherwise the
   * calibrator filters are those tags, or the default kinds when there are none, and the
   * target filters exclude exactly the calibrator filters.
   */
  lemma FilterTagsMembers(cat: seq<Entry>, targets: bool, calibrators: bool, t: string)
    ensures var f := FilterTagsOf(Distinct(AllTags(cat)), targets, calibrators);
      && (targets ==> f.Filters? && ("~" + t in f.tags <==> Tagged(cat, t) && IsCalTag(t)))
      && (!targets && calibrators ==> f.Filters? && (t in f.tags <==> Tagged(cat, t) && IsCalTag(t)))
      && (!targets && !calibrators ==>
            && f.CalibratorsAndTargets?
            && (t in f.calibrators <==> if AnyCalTag(cat) then Tagged(cat, t) && IsCalTag(t) else t in DefaultCalTags)
            && ("~" + t in f.targets <==> t in f.calibrators))
  {
    var cal := CalTagsOf(Distinct(AllTags(cat)));
    AllTagsMembers(cat, t);
    NegatedMembers(cal, t);
    CalTagsFound(cat);
    NegatedMembers(DefaultCalTags, t);
  }

  /** `get_filter_tags`: collect the tags, drop repeats and build the filters. */
  method GetFilterTags(catalogue: seq<Entry>, targets: bool, calibrators: bool) returns (r: Filters)
    ensures r == FilterTagsOf(Distinct(AllTags(catalogue)), targets, calibrators)
  {
    var observed: seq<string> := [];
    for i := 0 to |catalogue|
      invariant observed == AllTags(catalogue[..i])
    {
      assert catalogue[..i + 1][..i] == catalogue[..i];
      observed := observed + catalogue[i].tags;
    }
    assert catalogue[..|catalogue|] == catalogue;
    var tags := Distinct(observed);
    if targets {
      return Filters(Negated(CalTagsOf(tags)));
    }
    if calibrators {
      return Filters(CalTagsOf(tags));
    }
    var cal: seq<string> := [];
    for i := 0 to |tags|
      invariant cal == CalTagsOf(tags[..i])
    {
      assert tags[..i + 1][..i] == tags[..i];
      if IsCalTag(tags[i]) {
        cal := cal + [tags[i]];
      }
    }
    assert tags[..|tags|] == tags;
    if |cal| == 0 {
      cal := DefaultCalTags;
    }
    r := CalibratorsAndTargets(cal, Negated(cal));
  }

  // ---------------------------------------------------------------- the observation catalogue

  /** No two targets of the catalogue share a name. */
  predicate DistinctNames(es: seq<Entry>)
  {
    forall i, j :: 0 <= i < j < |es| ==> es[i].name != es[j].name
  }

  /** Some target named `name` carries `tag`. */
  predicate Has(es: seq<Entry>, name: string, tag: string)
  {
    exists i :: 0 <= i < |es| && es[i].name == name && tag in es[i].tags
  }

  /** Each target of `es` is still in `r`, at its place, under its name and with at least its tags. */
  predicate Grown(es: seq<Entry>, r: seq<Entry>)
  {
    && |es| <= |r|
    && forall j :: 0 <= j < |es| ==>
         r[j].name == es[j].name && |es[j].tags| <= |r[j].tags| && r[j].tags[..|es[j].tags|] == es[j].tags
  }

  /** The place of the first target named `name`. */
  function IndexOf(es: seq<Entry>, name: string): (r: Option<nat>)
    ensures r.Some? ==> r.value < |es| && es[r.value].name == name
    ensures r.Some? ==> forall j :: 0 <= j < r.value ==> es[j].name != name
    ensures r.None? <==> forall j :: 0 <= j < |es| ==> es[j].name != name
  {
    if |es| == 0 then None
    else if es[0].name == name then Some(0)
    else
      match IndexOf(es[1..], name)
      case None => None
      case Some(k) => Some(k + 1)
  }

  /** A target's tags with the new ones that it lacks appended in order: katpoint's `add_tags`. */
  function MergeTags(tags: seq<string>, extra: seq<string>): (r: seq<string>)
    ensures |tags| <= |r| && r[..|tags|] == tags
    ensures forall t :: t in r <==> t in tags || t in extra
    ensures NoDuplicates(tags) ==> NoDuplicates(r)
  {
    if |extra| == 0 then tags
    else
      var m := MergeTags(tags, extra[..|extra| - 1]);
      var last := extra[|extra| - 1];
      assert extra == extra[..|extra| - 1] + [last];
      if last in m then m else m + [last]
  }

  /**
   * katpoint's `Catalogue.add`, simplified: a target whose name is already present is skipped.
   * katpoint's own matching of names and aliases is not modelled.
   */
  function Added(es: seq<Entry>, e: Entry, extra: seq<string>): (r: seq<Entry>)
    ensures Grown(es, r) && |r| <= |es| + 1
    ensures IndexOf(es, e.name).Some? ==> r == es
    ensures IndexOf(r, e.name).Some?
    ensures DistinctNames(es) ==> DistinctNames(r)
    ensures IndexOf(es, e.name).None? ==> forall t :: t in extra ==> Has(r, e.name, t)
  {
    if IndexOf(es, e.name).Some? then es
    else
      var r := es + [Entry(e.name, MergeTags(e.tags, extra))];
      assert r[|es|].name == e.name;
      r
  }

  /**
   * `add_target`: a target already present gets `tag` appended when it lacks it, even an
   * empty one; a new target is added with the words of `tag` as extra tags.
   */
  function WithTarget(es: seq<Entry>, e: Entry, tag: string): (r: seq<Entry>)
    ensures Grown(es, r) && |r| <= |es| + 1
    ensures DistinctNames(es) ==> DistinctNames(r)
    ensures IndexOf(r, e.name).Some?
  {
    match IndexOf(es, e.name)
    case Some(i) =>
      if tag in es[i].tags then es
      else
        var r := es[i := Entry(es[i].name, es[i].tags + [tag])];
        assert r[i].tags[..|es[i].tags|] == es[i].tags;
        r
    case None => Added(es, e, Words(tag))
  }

  /** A tag is a single word: no whitespace, not empty. */
  predicate IsWord(tag: string) { |tag| > 0 && NoSpace(tag) }

  lemma WordsOfWord(tag: string)
    requires IsWord(tag)
    ensures Words(tag) == [tag]
  {
    WordsJoin([tag]);
    assert Join([tag], " ") == tag;
  }

  /** After `add_target` the target is in the catalogue carrying the tag. */
  lemma WithTargetTagged(es: seq<Entry>, e: Entry, tag: string)
    requires IsWord(tag)
    ensures Has(WithTarget(es, e, tag), e.name, tag)
  {
    var r := WithTarget(es, e, tag);
    match IndexOf(es, e.name)
    case Some(i) =>
      assert r[i].name == e.name && tag in r[i].tags;
    case None =>
      WordsOfWord(tag);
      assert tag in Words(tag);
      assert r[|es|].name == e.name && tag in r[|es|].tags;
  }

  /** Adding the same target with the same one-word tag again changes nothing. */
  lemma WithTargetIdempotent(es: seq<Entry>, e: Entry, tag: string)
    requires IsWord(tag)
    ensures WithTarget(WithTarget(es, e, tag), e, tag) == WithTarget(es, e, tag)
  {
    var r := WithTarget(es, e, tag);
    match IndexOf(es, e.name)
    case Some(j) =>
      assert r[j].name == e.name && tag in r[j].tags;
      assert forall m :: 0 <= m < j ==> r[m].name == es[m].name;
      assert IndexOf(r, e.name) == Some(j);
    case None =>
      WordsOfWord(tag);
      assert tag in Words(tag);
      assert r[|es|].name == e.name && tag in r[|es|].tags;
      assert forall m :: 0 <= m < |es| ==> r[m].name == es[m].name;
      assert IndexOf(r, e.name) == Some(|es|);
  }

  /** An empty tag given for a target already present is appended to its tags as a tag of its own. */
  lemma EmptyTagAppended(es: seq<Entry>, e: Entry)
    requires IndexOf(es, e.name).Some? && "" !in es[IndexOf(es, e.name).value].tags
    ensures var i := IndexOf(es, e.name).value;
      WithTarget(es, e, "") == es[i := Entry(e.name, es[i].tags + [""])]
  {
  }

  /** Tagging does not lose a tag another call put there. */
  lemma {:induction false} GrownHas(es: seq<Entry>, r: seq<Entry>, name: string, tag: string)
    requires Grown(es, r) && Has(es, name, tag)
    ensures Has(r, name, tag)
  {
    var i :| 0 <= i < |es| && es[i].name == name && tag in es[i].tags;
    var k :| 0 <= k < |es[i].tags| && es[i].tags[k] == tag;
    assert r[i].tags[..|es[i].tags|][k] == tag;
  }

  /** `add_target` for each calibrator in turn, as the all-calibrators view does. */
  function WithAll(es: seq<Entry>, cals: seq<Entry>, tag: string): seq<Entry>
  {
    if |cals| == 0 then es else WithTarget(WithAll(es, cals[..|cals| - 1], tag), cals[|cals| - 1], tag)
  }

  lemma {:induction false} WithAllTagged(es: seq<Entry>, cals: seq<Entry>, tag: string, k: nat)
    requires IsWord(tag) && k < |cals|
    ensures Has(WithAll(es, cals, tag), cals[k].name, tag)
  {
    var n := |cals| - 1;
    var before := WithAll(es, cals[..n], tag);
    if k == n {
      WithTargetTagged(before, cals[n], tag);
    } else {
      WithAllTagged(es, cals[..n], tag, k);
      assert cals[..n][k] == cals[k];
      GrownHas(before, WithAll(es, cals, tag), cals[k].name, tag);
    }
  }

  lemma {:induction false} WithAllDistinct(es: seq<Entry>, cals: seq<Entry>, tag: string)
    requires DistinctNames(es)
    ensures DistinctNames(WithAll(es, cals, tag))
  {
    if |cals| > 0 {
      WithAllDistinct(es, cals[..|cals| - 1], tag);
    }
  }

  /** The observation catalogue the script fills in. */
  class Catalogue {
    var entries: seq<Entry>

    constructor ()
      ensures entries == []
    {
      entries := [];
    }

    /** `Catalogue.add(target, tags=tags)` */
    method Add(e: Entry, tags: string)
      modifies this
      ensures entries == Added(old(entries), e, Words(tags))
    {
      var k := IndexOf(entries, e.name);
      if k.None? {
        entries := entries + [Entry(e.name, MergeTags(e.tags, Words(tags)))];
      }
    }

    /** `add_target(target, catalogue, tag)` */
    method AddTarget(e: Entry, tag: string)
      modifies this
      ensures entries == WithTarget(old(entries), e, tag)
    {
      var k := IndexOf(entries, e.name);
      if k.Some? {
        var i := k.value;
        if tag !in entries[i].tags {
          entries := entries[i := Entry(entries[i].name, entries[i].tags + [tag])];
        }
      } else {
        Add(e, tag);
      }
    }

    /** Every calibrator of a calibrator catalogue added with the same tag. */
    method AddAll(cals: seq<Entry>, tag: string)
      modifies this
      ensures entries == WithAll(old(entries), cals, tag)
    {
      ghost var start := entries;
      for i := 0 to |cals|
        invariant entries == WithAll(start, cals[..i], tag)
      {
        assert cals[..i + 1][..i] == cals[..i];
        AddTarget(cals[i], tag);
      }
      assert cals[..|cals|] == cals;
    }
  }

  // ---------------------------------------------------------------- header

  /** The proposal details a catalogue header names. */
  datatype HeaderInfo = HeaderInfo(proposalId: string, piName: string, piContact: string)

  function HeaderLines(info: HeaderInfo): seq<string>
  {
    [ "# Observation catalogue for proposal ID " + info.proposalId + "\n",
      "# PI: " + info.piName + "\n",
      "# Contact details: " + info.piContact + "\n" ]
  }

  function Concat(lines: seq<string>): string
  {
    if |lines| == 0 then "" else Concat(lines[..|lines| - 1]) + lines[|lines| - 1]
  }

  /** `write_header`: the user's header, then the proposal lines when there are details. */
  function WriteHeader(info: Option<HeaderInfo>, userheader: string): (r: string)
    ensures StartsWith(r, userheader)
    ensures info.None? <==> r == userheader
  {
    if info.None? then userheader
    else
      var lines := HeaderLines(info.value);
      assert |Concat(lines)| > 0;
      userheader + Concat(lines)
  }

  // ---------------------------------------------------------------- the input catalogue

  /** What reading the input catalogue gathers: header lines, calibrator references, other targets. */
  datatype Infile = Infile(header: string, calRefs: seq<string>, targets: seq<string>)

  const EmptyInfile := Infile("", [], [])

  /** One line of the input catalogue: a comment joins the header, a "calref" line is a reference. */
  function InfileStep(acc: Infile, line: string): Result<Infile>
  {
    if |line| == 0 then Err(IndexError("string index out of range"))
    else if line[0] == '#' then Ok(acc.(header := acc.header + line))
    else if Contains(line, "calref") then Ok(acc.(calRefs := acc.calRefs + [Replace(Strip(line), "calref", "target")]))
    else Ok(acc.(targets := acc.targets + [Replace(Strip(line), "radec", "radec target")]))
  }

  /** The loop over `fin.readlines()`. */
  method ReadInfile(lines: seq<string>) returns (r: Result<Infile>)
    ensures r == Fold(EmptyInfile, lines, InfileStep)
  {
    var acc := EmptyInfile;
    for i := 0 to |lines|
      invariant Fold(EmptyInfile, lines[..i], InfileStep) == Ok(acc)
    {
      FoldSnoc(EmptyInfile, lines, i, InfileStep);
      var next := InfileStep(acc, lines[i]);
      if next.Err? {
        FoldErrSticks(EmptyInfile, lines, i + 1, InfileStep);
        return next;
      }
      acc := next.value;
    }
    assert lines[..|lines|] == lines;
    r := Ok(acc);
  }

  /** Header lines are gathered as they are, in order. */
  lemma {:induction false} ReadHeaderLines(acc: Infile, lines: seq<string>)
    requires forall k :: 0 <= k < |lines| ==> |lines[k]| > 0 && lines[k][0] == '#'
    ensures Fold(acc, lines, InfileStep) == Ok(acc.(header := acc.header + Concat(lines)))
  {
    if |lines| > 0 {
      var n := |lines| - 1;
      assert forall k :: 0 <= k < n ==> lines[..n][k] == lines[k];
      ReadHeaderLines(acc, lines[..n]);
      assert Concat(lines) == Concat(lines[..n]) + lines[n];
      assert acc.header + Concat(lines) == acc.header + Concat(lines[..n]) + lines[n];
    } else {
      assert acc.header + Concat(lines) == acc.header;
    }
  }

  /**
   * A written header followed by target lines reads back as the same header, and every
   * target line becomes a reference or a target.
   */
  lemma HeaderReadsBack(userheader: string, info: HeaderInfo, body: seq<string>)
    requires forall k :: 0 <= k < |userheader| ==> userheader[k] != '\n'
    requires |userheader| > 0 ==> userheader[0] == '#'
    requires forall k :: 0 <= k < |body| ==> |body[k]| > 0 && body[k][0] != '#'
    ensures var lines := (if |userheader| > 0 then [userheader] else []) + HeaderLines(info) + body;
      && Fold(EmptyInfile, lines, InfileStep).Ok?
      && Fold(EmptyInfile, lines, InfileStep).value.header == WriteHeader(Some(info), userheader)
      && |Fold(EmptyInfile, lines, InfileStep).value.calRefs| + |Fold(EmptyInfile, lines, InfileStep).value.targets| == |body|
  {
    var head := (if |userheader| > 0 then [userheader] else []) + HeaderLines(info);
    ReadHeaderLines(EmptyInfile, head);
    HeaderConcat(userheader, info);
    FoldAppend(EmptyInfile, head, body, InfileStep);
    forall acc: Infile, line: string | |line| > 0 && line[0] != '#'
      ensures BodyLineRead(acc, InfileStep(acc, line))
    {
      BodyLineStep(acc, line);
    }
    var start := Fold(EmptyInfile, head, InfileStep).value;
    assert start.header == Concat(head) by {
      assert EmptyInfile.header + Concat(head) == Concat(head);
    }
    BodyLinesRead(start, body, InfileStep);
  }

  /** One line that is not a comment was read: the header is kept and one reference or target added. */
  predicate BodyLineRead(acc: Infile, r: Result<Infile>)
  {
    r.Ok? && r.value.header == acc.header && |r.value.calRefs| + |r.value.targets| == |acc.calRefs| + |acc.targets| + 1
  }

  /** A line that is not a comment keeps the header and adds one reference or target. */
  lemma BodyLineStep(acc: Infile, line: string)
    requires |line| > 0 && line[0] != '#'
    ensures BodyLineRead(acc, InfileStep(acc, line))
  {
  }

  /** Lines that are not comments, read by a step that treats each as `InfileStep` does. */
  lemma {:induction false} BodyLinesRead(acc: Infile, body: seq<string>, step: (Infile, string) -> Result<Infile>)
    requires forall k :: 0 <= k < |body| ==> |body[k]| > 0 && body[k][0] != '#'
    requires forall a: Infile, line: string :: |line| > 0 && line[0] != '#' ==> BodyLineRead(a, step(a, line))
    ensures Fold(acc, body, step).Ok?
    ensures Fold(acc, body, step).value.header == acc.header
    ensures |Fold(acc, body, step).value.calRefs| + |Fold(acc, body, step).value.targets| == |acc.calRefs| + |acc.targets| + |body|
  {
    if |body| > 0 {
      var n := |body| - 1;
      assert forall k :: 0 <= k < n ==> body[..n][k] == body[k];
      BodyLinesRead(acc, body[..n], step);
      var mid := Fold(acc, body[..n], step).value;
      assert BodyLineRead(mid, step(mid, body[n]));
    }
  }

  /** A fold over two runs of items is the fold over the second from where the first left off. */
  lemma {:induction false} FoldAppend<S, T>(s: S, xs: seq<T>, ys: seq<T>, f: (S, T) -> Result<S>)
    requires Fold(s, xs, f).Ok?
    ensures Fold(s, xs + ys, f) == Fold(Fold(s, xs, f).value, ys, f)
    decreases |ys|
  {
    if |ys| == 0 {
      assert xs + ys == xs;
    } else {
      var n := |ys| - 1;
      FoldAppend(s, xs, ys[..n], f);
      assert (xs + ys)[..|xs + ys| - 1] == xs + ys[..n];
      assert (xs + ys)[|xs + ys| - 1] == ys[n];
    }
  }

  lemma {:induction false} ConcatAppend(xs: seq<string>, ys: seq<string>)
    ensures Concat(xs + ys) == Concat(xs) + Concat(ys)
    decreases |ys|
  {
    if |ys| > 0 {
      var n := |ys| - 1;
      ConcatAppend(xs, ys[..n]);
      assert (xs + ys)[..|xs + ys| - 1] == xs + ys[..n];
      assert Concat(ys) == Concat(ys[..n]) + ys[n];
      assert Concat(xs + ys) == Concat(xs + ys[..n]) + ys[n];
    } else {
      assert xs + ys == xs;
      assert Concat(xs) + "" == Concat(xs);
    }
  }

  lemma Concat3(a: string, b: string, c: string)
    ensures Concat([a, b, c]) == a + b + c
  {
    assert [a][..0] == [] && "" + a == a;
    assert Concat([a]) == a;
    assert [a, b][..1] == [a];
    assert Concat([a, b]) == a + b;
    assert [a, b, c][..2] == [a, b];
  }

  lemma HeaderConcat(userheader: string, info: HeaderInfo)
    ensures Concat((if |userheader| > 0 then [userheader] else []) + HeaderLines(info)) == WriteHeader(Some(info), userheader)
  {
    var first: seq<string> := if |userheader| > 0 then [userheader] else [];
    ConcatAppend(first, HeaderLines(info));
    assert Concat(first) == userheader by {
      if |userheader| > 0 {
        assert first[..0] == [];
      }
    }
  }

  /** With no calibrator reference the first target listed is the reference. */
  function CalReferences(inf: Infile): (r: Result<seq<string>>)
    ensures r.Err? <==> |inf.calRefs| == 0 && |inf.targets| == 0
    ensures r.Ok? ==> |r.value| >= 1
    ensures r.Ok? ==> forall d :: d in r.value ==> d in inf.calRefs || d in inf.targets
  {
    if |inf.calRefs| < 1 then
      if |inf.targets| == 0 then Err(IndexError("list index out of range")) else Ok([inf.targets[0]])
    else Ok(inf.calRefs)
  }

  // ---------------------------------------------------------------- the command line

  /** The `--target`, `--solar-body` and `--xephem` options, the first one given winning. */
  function ChosenTarget(target: Option<seq<string>>, body: Option<string>, xephem: Option<seq<string>>): (r: Option<seq<string>>)
    ensures r.None? <==> target.None? && body.None? && xephem.None?
    ensures target.Some? ==> r == target
    ensures target.None? && body.Some? ==> r == Some([body.value])
  {
    if target.Some? then target
    else if body.Some? then Some([body.value])
    else xephem
  }

  /** "name, tags, field, ...": a katpoint description from stripped command-line values. */
  function Description(name: string, tags: string, fields: seq<string>): string
  {
    Join([Strip(name), tags] + StripAll(fields), ", ")
  }

  function StripAll(fields: seq<string>): (r: seq<string>)
    ensures |r| == |fields| && forall i :: 0 <= i < |r| ==> r[i] == Strip(fields[i])
  {
    seq(|fields|, i requires 0 <= i < |fields| => Strip(fields[i]))
  }

  /**
   * The description of a target named on the command line: three or more values are a
   * name and equatorial coordinates, one is a solar-system body, two are a name and an
   * XEphem line.
   */
  function CommandLineTarget(target: seq<string>): (r: Result<string>)
    ensures r.Err? <==> |target| == 0
    ensures |target| == 1 ==> r == Ok(Capitalize(target[0]) + ", special")
  {
    if |target| > 2 then Ok(Description(target[0], "radec target", target[1..3]))
    else if |target| < 2 then
      if |target| == 0 then Err(IndexError("list index out of range"))
      else Ok(Capitalize(target[0]) + ", special")
    else Ok(Description(target[0], "xephem target", target[1..]))
  }

  /** Each string with a space in front. */
  function Spaced(parts: seq<string>): (r: seq<string>)
    ensures |r| == |parts| && forall i :: 0 <= i < |r| ==> r[i] == " " + parts[i]
  {
    seq(|parts|, i requires 0 <= i < |parts| => " " + parts[i])
  }

  lemma JoinCommaSpace(first: string, rest: seq<string>)
    ensures Join([first] + rest, ", ") == Join([first] + Spaced(rest), ",")
  {
    JoinPadded([first] + rest, ",", " ");
    assert "," + " " == ", ";
    assert PadAfterFirst([first] + rest, " ") == [first] + Spaced(rest);
  }

  lemma NoCommaSpaced(s: string)
    requires ',' !in s
    ensures ',' !in " " + s
  {
  }

  lemma NoCommaStripped(s: string)
    requires ',' !in s
    ensures ',' !in Strip(s) && Strip(Strip(s)) == Strip(s) && Strip(" " + Strip(s)) == Strip(s)
  {
    var i := StripIsSlice(s);
    StripIdempotent(s);
    StripLeadingSpace(' ', Strip(s));
  }

  /**
   * katpoint reads a description by splitting it at commas and stripping each field: a
   * description built from comma-free values reads back as the name, the tags and each
   * of the values.
   */
  lemma DescriptionFields(name: string, tags: string, values: seq<string>)
    requires ',' !in name && ',' !in tags && forall k :: 0 <= k < |values| ==> ',' !in values[k]
    ensures var fields := Split(Description(name, tags, values), ',');
      && |fields| == |values| + 2
      && Strip(fields[0]) == Strip(name)
      && fields[1] == " " + tags
      && forall k :: 0 <= k < |values| ==> Strip(fields[k + 2]) == Strip(values[k])
  {
    NoCommaStripped(name);
    StripAllNoComma(values);
    DescriptionSplit(name, tags, values);
    SpacedStripped(values);
  }

  /** A stripped value behind a space strips back to the value's own stripped form. */
  lemma SpacedStripped(values: seq<string>)
    ensures forall k :: 0 <= k < |values| ==> Strip(Spaced(StripAll(values))[k]) == Strip(values[k])
  {
    forall k | 0 <= k < |values|
      ensures Strip(Spaced(StripAll(values))[k]) == Strip(values[k])
    {
      StripIdempotent(values[k]);
      StripLeadingSpace(' ', Strip(values[k]));
    }
  }

  lemma StripAllNoComma(values: seq<string>)
    requires forall k :: 0 <= k < |values| ==> ',' !in values[k]
    ensures forall k :: 0 <= k < |values| ==> ',' !in StripAll(values)[k]
  {
    forall k | 0 <= k < |values|
      ensures ',' !in StripAll(values)[k]
    {
      NoCommaStripped(values[k]);
    }
  }

  lemma SpacedNoComma(parts: seq<string>)
    requires forall k :: 0 <= k < |parts| ==> ',' !in parts[k]
    ensures forall k :: 0 <= k < |parts| ==> ',' !in Spaced(parts)[k]
  {
    forall k | 0 <= k < |parts|
      ensures ',' !in Spaced(parts)[k]
    {
      NoCommaSpaced(parts[k]);
    }
  }

  /** A description splits at its commas into the name and the other fields behind a space. */
  lemma DescriptionSplit(name: string, tags: string, values: seq<string>)
    requires ',' !in Strip(name) && ',' !in tags && forall k :: 0 <= k < |values| ==> ',' !in StripAll(values)[k]
    ensures Split(Description(name, tags, values), ',') == [Strip(name), " " + tags] + Spaced(StripAll(values))
  {
    assert Spaced([tags] + StripAll(values)) == [" " + tags] + Spaced(StripAll(values));
    ConsNoComma(tags, StripAll(values));
    JoinedSplit(Strip(name), [tags] + StripAll(values));
    assert [Strip(name), tags] + StripAll(values) == [Strip(name)] + ([tags] + StripAll(values));
  }

  lemma ConsNoComma(x: string, xs: seq<string>)
    requires ',' !in x && forall k :: 0 <= k < |xs| ==> ',' !in xs[k]
    ensures forall k :: 0 <= k < |[x] + xs| ==> ',' !in ([x] + xs)[k]
  {
    forall k | 0 <= k < |[x] + xs|
      ensures ',' !in ([x] + xs)[k]
    {
      if k > 0 {
        assert ([x] + xs)[k] == xs[k - 1];
      }
    }
  }

  /** Comma-free fields joined by ", " split at the commas into the fields, all but the first behind a space. */
  lemma JoinedSplit(first: string, rest: seq<string>)
    requires ',' !in first && forall k :: 0 <= k < |rest| ==> ',' !in rest[k]
    ensures Split(Join([first] + rest, ", "), ',') == [first] + Spaced(rest)
  {
    JoinCommaSpace(first, rest);
    SpacedNoComma(rest);
    ConsNoComma(first, Spaced(rest));
    SplitJoin([first] + Spaced(rest), ',');
  }

  /** The tags a command-line target is given hold no comma. */
  lemma CommandTagsNoComma()
    ensures ',' !in "radec target" && ',' !in "xephem target"
  {
  }

  // ---------------------------------------------------------------- catalogue locations

  const DefaultCataloguePath := "katconfig/user/catalogues"

  /** Where the calibrator catalogues are read from, and whether that is a configured folder. */
  datatype Location = Location(path: string, configFileAvailable: bool)

  /**
   * The `--cat-path` folder when it is set and is a folder, otherwise the default one; a
   * default that is no folder fails unless the node configuration can serve the files.
   */
  function CataloguePath(mkatCatalogues: Option<string>, isDir: string -> bool, nodeConfigAvailable: bool): (r: Result<Location>)
    ensures r.Err? <==> !nodeConfigAvailable && !isDir(DefaultCataloguePath)
                        && !(mkatCatalogues.Some? && |mkatCatalogues.value| > 0 && isDir(mkatCatalogues.value))
    ensures r.Ok? && r.value.configFileAvailable ==> isDir(r.value.path) && Some(r.value.path) == mkatCatalogues
    ensures r.Ok? && !r.value.configFileAvailable ==> r.value.path == DefaultCataloguePath
  {
    var loc :=
      if mkatCatalogues.Some? && |mkatCatalogues.value| > 0 && isDir(mkatCatalogues.value)
      then Location(mkatCatalogues.value, true)
      else Location(DefaultCataloguePath, false);
    if !isDir(loc.path) && !nodeConfigAvailable then
      Err(RuntimeError("Could not access calibrator catalogue default location\n"
                       + "add explicit location of catalogue folder using --cat-path <dirname>"))
    else Ok(loc)
  }

  /** The calibrator file of one calibrator kind: "<folder>/Lband-<kind>-calibrators.csv". */
  function CalCatalogueFile(path: string, calTag: string): (r: Result<string>)
    ensures r.Err? <==> calTag !in CalTagNames
    ensures r.Ok? ==> StartsWith(r.value, path)
  {
    if calTag !in CalTagNames then Err(KeyError(calTag))
    else
      var name := "Lband-" + CalTagNames[calTag] + "-calibrators.csv";
      var p := UpdateAntennas.PathJoin(path, name);
      assert name[0] == 'L' && !StartsWith(name, "/");
      assert p == path + name || p == path + "/" + name;
      assert p[..|path|] == path;
      Ok(p)
  }

  // ---------------------------------------------------------------- the observation table

  /** Terminal colour codes of the table. */
  const Warning := "\U{1B}[93m"
  const Fail := "\U{1B}[91m"
  const Endc := "\U{1B}[0m"

  /** The colour of a table row and the note in its separation column. */
  datatype Note = Note(colour: string, text: string)

  const Marker := " ***"

  /**
   * A separation angle is written with two decimals and marked once when it is beyond
   * the calibrator limit and once more when it is inside the solar limit; the row turns
   * red inside the solar limit, yellow beyond the calibrator limit and stays plain otherwise.
   */
  function SepNote(sep: Option<real>, calLimit: Option<real>, solLimit: Option<real>): (n: Note)
    ensures sep.None? ==> n == Note(Endc, "")
    ensures n.colour == Fail <==> sep.Some? && solLimit.Some? && sep.value < solLimit.value
    ensures n.colour == Warning <==>
      sep.Some? && calLimit.Some? && sep.value > calLimit.value && !(solLimit.Some? && sep.value < solLimit.value)
    ensures sep.Some? ==> StartsWith(n.text, FormatFixed(sep.value, 2))
  {
    if sep.None? then Note(Endc, "")
    else
      var angle := sep.value;
      var warn := calLimit.Some? && angle > calLimit.value;
      var fail := solLimit.Some? && angle < solLimit.value;
      var text := FormatFixed(angle, 2) + (if warn then Marker else "") + (if fail then Marker else "");
      assert Warning != Fail && Warning != Endc && Fail != Endc by { ColoursDiffer(); }
      Note(if fail then Fail else if warn then Warning else Endc, text)
  }

  lemma ColoursDiffer()
    ensures Warning != Fail && Warning != Endc && Fail != Endc
  {
    assert Warning[3] != Fail[3];
    assert |Endc| != |Warning| && |Endc| != |Fail|;
  }

  /** The note reads back as the angle to two decimals, followed by one marker per limit crossed. */
  lemma SepNoteReads(angle: real, calLimit: Option<real>, solLimit: Option<real>)
    ensures var n := SepNote(Some(angle), calLimit, solLimit);
      var markers := (if calLimit.Some? && angle > calLimit.value then 1 else 0)
                   + (if solLimit.Some? && angle < solLimit.value then 1 else 0);
      && |n.text| == |FormatFixed(angle, 2)| + 4 * markers
      && ParseDecimal(n.text[..|FormatFixed(angle, 2)|]) == Some(Rounded(angle, 2))
  {
    var n := SepNote(Some(angle), calLimit, solLimit);
    var number := FormatFixed(angle, 2);
    assert n.text[..|number|] == number;
    FormatFixedReads(angle, 2);
  }

  /** One row of the observation table: eight left-justified columns between colour codes. */
  function TableLine(note: Note, name: string, tags: seq<string>, ra: string, dec: string,
                     riseTime: string, setTime: string, notes: string): (line: string)
    ensures StartsWith(line, note.colour + name)
    ensures |line| >= |Endc| && line[|line| - |Endc|..] == Endc
  {
    var row := PadRight(name, 16) + PadRight(Join(tags, " "), 32) + PadRight(ra, 16) + PadRight(dec, 16)
               + PadRight(riseTime, 16) + PadRight(setTime, 16) + PadRight(note.text, 16) + PadRight(notes, 16) + "\n";
    assert (note.colour + row)[..|note.colour + name|] == note.colour + name;
    note.colour + row + Endc
  }

  // ---------------------------------------------------------------- negative arguments

  /** An argument such as "-30:00:00" that the option parser would take for an option. */
  predicate LooksLikeOption(arg: string) { |arg| >= 2 && arg[0] == '-' && IsDigit(arg[1]) }

  /** A leading space hides the minus sign of a negative value from the option parser. */
  function Shielded(arg: string): string
  {
    if LooksLikeOption(arg) then " " + arg else arg
  }

  /** Shielding leaves nothing that looks like an option, is idempotent and is undone by stripping. */
  lemma ShieldedProperties(arg: string)
    ensures !LooksLikeOption(Shielded(arg))
    ensures Shielded(Shielded(arg)) == Shielded(arg)
    ensures Strip(Shielded(arg)) == Strip(arg)
  {
    if LooksLikeOption(arg) {
      StripLeadingSpace(' ', arg);
    }
  }

  /** The loop over `sys.argv` that shields negative values in place. */
  method ShieldNegatives(argv: array<string>)
    modifies argv
    ensures forall i :: 0 <= i < argv.Length ==> argv[i] == Shielded(old(argv[i]))
    ensures forall i :: 0 <= i < argv.Length ==> !LooksLikeOption(argv[i])
  {
    for i := 0 to argv.Length
      invariant forall k :: 0 <= k < i ==> argv[k] == Shielded(old(argv[k])) && !LooksLikeOption(argv[k])
      invariant forall k :: i <= k < argv.Length ==> argv[k] == old(argv[k])
    {
      var arg := argv[i];
      ShieldedProperties(arg);
      if |arg| < 2 {
        continue;
      }
      if arg[0] == '-' && IsDigit(arg[1]) {
        argv[i] := " " + arg;
      }
    }
  }
}
