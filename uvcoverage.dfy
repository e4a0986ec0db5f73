// scripts/astrokat-uvcoverage.py: theoretical UV coverage from antenna
// positions. The `Interferometer` reads its antenna table from the array
// configuration (one "name=..., east=..., north=..., up=..." line per
// antenna), optionally keeps only a sub-array, and enumerates the baselines;
// `UVplot.uvMask` marks the UV samples of one baseline on a square grid.
module UvCoverage {
  import opened Common
  import opened Text
  import opened Numbers
  import ObsDict
  import UpdateAntennas

  // ---------------------------------------------------------------- the antenna table

  /** One row of the antenna record array; the `location` column is not part of this model. */
  datatype Row = Row(name: string, east: real, north: real, up: real)

  /** A row as `resize` leaves it: an empty name and zero coordinates. */
  const EmptyRow := Row("", 0.0, 0.0, 0.0)

  /** The name column is a five-byte string. */
  const NameWidth: nat := 5

  /** The field indices 0..3 of the prefixes `name`, `east`, `north`, `up`. */
  const FieldIndices: seq<nat> := [0, 1, 2, 3]

  /** `__return_value__(prefix, item)`: the stripped text after the last '=' of an item that starts with the prefix. */
  function ReturnValue(prefix: string, item: string): (r: Option<string>)
    ensures r.Some? <==> StartsWith(item, prefix)
  {
    if StartsWith(item, prefix) then Some(UpdateAntennas.LastValue(item)) else None
  }

  /** A value returned from an item of a configuration line holds neither ',' nor '=' nor outer blanks. */
  lemma ReturnValueClean(prefix: string, s: string, i: nat)
    requires i < |ObsDict.Items(s)| && ReturnValue(prefix, ObsDict.Items(s)[i]).Some?
    ensures UpdateAntennas.Clean(ReturnValue(prefix, ObsDict.Items(s)[i]).value)
  {
    UpdateAntennas.ItemNoComma(s, i);
    UpdateAntennas.LastValueClean(ObsDict.Items(s)[i]);
  }

  /** The name column keeps the first five characters of a longer name. */
  function Truncated(v: string): (r: string)
    ensures |r| <= NameWidth && r <= v
    ensures |v| <= NameWidth ==> r == v
  {
    if |v| <= NameWidth then v else v[..NameWidth]
  }

  /** Storing a text in column k of a row: the name column keeps it, the others convert it to a float. */
  function Store(row: Row, k: nat, v: string): Result<Row>
  {
    if k == 0 then Ok(row.(name := Truncated(v)))
    else
      var x :- ToFloat(v);
      if k == 1 then Ok(row.(east := x)) else if k == 2 then Ok(row.(north := x)) else Ok(row.(up := x))
  }

  /** Storing the value returned for prefix k, when there is one. */
  function StoreValue(row: Row, k: nat, v: Option<string>): Result<Row>
  {
    match v
    case None => Ok(row)
    case Some(s) => Store(row, k, s)
  }

  /** The value of an item for prefix k. */
  function ValueFor(item: string, k: nat): Option<string>
    requires k < 4
  {
    ReturnValue(UpdateAntennas.AntKeys[k], item)
  }

  /** The innermost step: the value of the item for prefix k, stored when the item starts with it. */
  function StoreFrom(item: string): (Row, nat) -> Result<Row>
  {
    (row: Row, k: nat) => if k < 4 then StoreValue(row, k, ValueFor(item, k)) else Ok(row)
  }

  /** The loop over the four prefixes for one item. */
  function ApplyItem(row: Row, item: string): Result<Row>
  {
    Fold(row, FieldIndices, StoreFrom(item))
  }

  /** The row built from the stripped items of one antenna line. */
  function RowOf(items: seq<string>): Result<Row>
  {
    Fold(EmptyRow, items, ApplyItem)
  }

  /** The row built from one antenna line. */
  function RowOfLine(antenna: string): Result<Row>
  {
    RowOf(ObsDict.Items(antenna))
  }

  /** The numeric column k (1 east, 2 north, 3 up). */
  function Num(row: Row, k: nat): real
  {
    if k == 1 then row.east else if k == 2 then row.north else row.up
  }

  /** A value that is absent or reads as a float. */
  predicate Parses(v: Option<string>) { v.None? || ToFloat(v.value).Ok? }

  /** A numeric column after a value is offered: that value read as a float, or the column unchanged. */
  predicate NumStep(v: Option<string>, before: real, after: real)
  {
    match v
    case None => after == before
    case Some(s) => ToFloat(s) == Ok(after)
  }

  /** Storing a value changes its own column only, and fails only on a numeric column given a non-number. */
  lemma StoreValueEffect(row: Row, k: nat, v: Option<string>)
    requires k < 4
    ensures StoreValue(row, k, v).Ok? <==> k == 0 || Parses(v)
    ensures StoreValue(row, k, v).Ok? ==>
      var r := StoreValue(row, k, v).value;
      r.name == (if k == 0 && v.Some? then Truncated(v.value) else row.name) &&
      (forall j :: 1 <= j < 4 && j != k ==> Num(r, j) == Num(row, j)) &&
      (1 <= k ==> NumStep(v, Num(row, k), Num(r, k)))
  {
    if v.Some? && k > 0 {
      var x := ToFloat(v.value);
      assert StoreValue(row, k, v) == (if x.Err? then Err(x.error)
        else if k == 1 then Ok(row.(east := x.value)) else if k == 2 then Ok(row.(north := x.value)) else Ok(row.(up := x.value)));
    }
  }

  /** The four prefix steps of one item, written out. */
  lemma ApplyItemSteps(row: Row, item: string)
    ensures ApplyItem(row, item) ==
      var r0 :- StoreValue(row, 0, ValueFor(item, 0));
      var r1 :- StoreValue(r0, 1, ValueFor(item, 1));
      var r2 :- StoreValue(r1, 2, ValueFor(item, 2));
      StoreValue(r2, 3, ValueFor(item, 3))
  {
    var f := StoreFrom(item);
    FoldSnoc(row, FieldIndices, 0, f);
    FoldSnoc(row, FieldIndices, 1, f);
    FoldSnoc(row, FieldIndices, 2, f);
    FoldSnoc(row, FieldIndices, 3, f);
    assert FieldIndices[..0] == [] && FieldIndices[..4] == FieldIndices;
  }

  /** An item holds a number for every numeric prefix it starts with. */
  predicate ItemParses(item: string)
  {
    Parses(ValueFor(item, 1)) && Parses(ValueFor(item, 2)) && Parses(ValueFor(item, 3))
  }

  /**
   * One item sets every column whose prefix it starts with, and only those;
   * it fails exactly when a numeric prefix's value is not a number.
   */
  lemma ApplyItemEffect(row: Row, item: string)
    ensures ApplyItem(row, item).Ok? <==> ItemParses(item)
    ensures ApplyItem(row, item).Ok? ==>
      var r := ApplyItem(row, item).value;
      r.name == (if ValueFor(item, 0).Some? then Truncated(ValueFor(item, 0).value) else row.name) &&
      forall j :: 1 <= j < 4 ==> NumStep(ValueFor(item, j), Num(row, j), Num(r, j))
  {
    ApplyItemSteps(row, item);
    StoreValueEffect(row, 0, ValueFor(item, 0));
    var r0 := StoreValue(row, 0, ValueFor(item, 0)).value;
    StoreValueEffect(r0, 1, ValueFor(item, 1));
    if StoreValue(r0, 1, ValueFor(item, 1)).Ok? {
      var r1 := StoreValue(r0, 1, ValueFor(item, 1)).value;
      StoreValueEffect(r1, 2, ValueFor(item, 2));
      if StoreValue(r1, 2, ValueFor(item, 2)).Ok? {
        var r2 := StoreValue(r1, 2, ValueFor(item, 2)).value;
        StoreValueEffect(r2, 3, ValueFor(item, 3));
      }
    }
  }

  /** The name column after the items: the last `name` value, truncated, or empty. */
  function NameOf(v: Option<string>): string
  {
    match v
    case None => ""
    case Some(s) => Truncated(s)
  }

  /** A numeric column after the items: the last value read as a float, or zero. */
  predicate NumOf(v: Option<string>, x: real)
  {
    match v
    case None => x == 0.0
    case Some(s) => ToFloat(s) == Ok(x)
  }

  /** The field the extraction of a line yields for a prefix: the last item's value if it has one, else the earlier items'. */
  lemma FieldOfSnoc(items: seq<string>, key: string)
    requires |items| > 0
    ensures UpdateAntennas.FieldOf(items, key) ==
      match ReturnValue(key, items[|items| - 1])
      case Some(v) => Some(v)
      case None => UpdateAntennas.FieldOf(items[..|items| - 1], key)
  {
  }

  /** The last step of building a row. */
  lemma RowOfSnoc(items: seq<string>)
    requires |items| > 0
    ensures RowOf(items) == (var p :- RowOf(items[..|items| - 1]); ApplyItem(p, items[|items| - 1]))
  {
  }

  /** Building a row fails exactly when some item's numeric value is not a number. */
  lemma RowOfOk(items: seq<string>)
    ensures RowOf(items).Ok? <==> forall i :: 0 <= i < |items| ==> ItemParses(items[i])
  {
    forall row: Row, item: string
      ensures ApplyItem(row, item).Ok? <==> ItemParses(item)
    {
      ApplyItemEffect(row, item);
    }
    FoldOkIff(EmptyRow, items, ApplyItem, ItemParses);
  }

  /** The name column holds the last `name` value the antenna updater reads from the same items, truncated. */
  lemma {:induction false} RowOfName(items: seq<string>)
    requires RowOf(items).Ok?
    ensures RowOf(items).value.name == NameOf(UpdateAntennas.FieldOf(items, UpdateAntennas.AntKeys[0]))
  {
    if |items| > 0 {
      var n := |items| - 1;
      RowOfSnoc(items);
      RowOfName(items[..n]);
      ApplyItemEffect(RowOf(items[..n]).value, items[n]);
      FieldOfSnoc(items, UpdateAntennas.AntKeys[0]);
    }
  }

  /** Each numeric column holds the last value for its prefix read as a float, or zero when no item gives one. */
  lemma {:induction false} RowOfNum(items: seq<string>, k: nat)
    requires RowOf(items).Ok? && 1 <= k < 4
    ensures NumOf(UpdateAntennas.FieldOf(items, UpdateAntennas.AntKeys[k]), Num(RowOf(items).value, k))
  {
    if |items| > 0 {
      var n := |items| - 1;
      RowOfSnoc(items);
      RowOfNum(items[..n], k);
      ApplyItemEffect(RowOf(items[..n]).value, items[n]);
      FieldOfSnoc(items, UpdateAntennas.AntKeys[k]);
    }
  }

  /** One row per antenna line, in order. */
  function BuildSpec(antennas: seq<string>): Result<seq<Row>>
  {
    Each(antennas, LineParser())
  }

  /** `RowOfLine` as a value to map over the lines. */
  function LineParser(): string -> Result<Row>
  {
    (a: string) => RowOfLine(a)
  }

  /** The loop over the prefixes for one item: each value found is stored in its column. */
  method ApplyPrefixes(row: Row, item: string) returns (r: Result<Row>)
    ensures r == ApplyItem(row, item)
  {
    var f := StoreFrom(item);
    var cur := row;
    for k := 0 to 4
      invariant Fold(row, FieldIndices[..k], f) == Ok(cur)
    {
      FoldSnoc(row, FieldIndices, k, f);
      var stored := StoreValue(cur, k, ValueFor(item, k));
      assert stored == f(cur, FieldIndices[k]);
      if stored.Err? {
        FoldErrSticks(row, FieldIndices, k + 1, f);
        assert FieldIndices[..4] == FieldIndices;
        return Err(stored.error);
      }
      cur := stored.value;
    }
    assert FieldIndices[..4] == FieldIndices;
    return Ok(cur);
  }

  /** `_build_array_` for one antenna: every stripped item is offered to every prefix, in order. */
  method BuildRow(items: seq<string>) returns (r: Result<Row>)
    ensures r == RowOf(items)
  {
    var row := EmptyRow;
    for i := 0 to |items|
      invariant RowOf(items[..i]) == Ok(row)
    {
      FoldSnoc(EmptyRow, items, i, ApplyItem);
      var next := ApplyPrefixes(row, items[i]);
      if next.Err? {
        FoldErrSticks(EmptyRow, items, i + 1, ApplyItem);
        return Err(next.error);
      }
      row := next.value;
    }
    assert items[..|items|] == items;
    return Ok(row);
  }

  /** `_build_array_`: the record array resized to one row per line and filled row by row. */
  method BuildArray(antennas: seq<string>) returns (r: Result<array<Row>>)
    ensures r.Ok? <==> BuildSpec(antennas).Ok?
    ensures r.Ok? ==> fresh(r.value) && r.value[..] == BuildSpec(antennas).value
    ensures r.Err? ==> r.error == BuildSpec(antennas).error
  {
    var rows := new Row[|antennas|](_ => EmptyRow);
    var failed := FillRows(antennas, rows, LineParser());
    if failed.Some? {
      return Err(failed.value);
    }
    return Ok(rows);
  }

  /** The loop of `_build_array_`: row `cnt` of the array is the parse of line `cnt`, up to the first line that fails. */
  method FillRows(antennas: seq<string>, rows: array<Row>, ghost one: string -> Result<Row>) returns (failed: Option<Error>)
    requires rows.Length == |antennas| && one == LineParser()
    modifies rows
    ensures failed.None? ==> Each(antennas, one) == Ok(rows[..])
    ensures failed.Some? ==> Each(antennas, one) == Err(failed.value)
  {
    var cnt := 0;
    while cnt < |antennas|
      invariant 0 <= cnt <= |antennas|
      invariant Each(antennas[..cnt], one) == Ok(rows[..cnt])
    {
      var row := ParseLine(antennas[cnt]);
      ghost var done := rows[..cnt];
      EachStep(antennas, cnt, one, done, row);
      if row.Err? {
        return Some(row.error);
      }
      rows[cnt] := row.value;
      assert rows[..cnt + 1] == done + [row.value];
      cnt := cnt + 1;
    }
    assert antennas[..cnt] == antennas;
    assert rows[..cnt] == rows[..];
    return None;
  }

  /** One line parsed into its row. */
  method ParseLine(antenna: string) returns (r: Result<Row>)
    ensures r == LineParser()(antenna)
  {
    r := BuildRow(ObsDict.Items(antenna));
  }

  /** One more item mapped: its result is appended, or its error is the error of the whole map. */
  lemma EachStep<T, U>(items: seq<T>, n: nat, f: T -> Result<U>, done: seq<U>, v: Result<U>)
    requires n < |items| && Each(items[..n], f) == Ok(done) && f(items[n]) == v
    ensures v.Ok? ==> Each(items[..n + 1], f) == Ok(done + [v.value])
    ensures v.Err? ==> Each(items, f) == Err(v.error)
  {
    if v.Ok? {
      EachSnoc(items, n, f);
    } else {
      EachFails(items, n, f);
    }
  }

  // ---------------------------------------------------------------- the sub-array

  /** The rows whose name is in the sub-array, in their original order. */
  function KeepNames(rows: seq<Row>, subarray: seq<string>): seq<Row>
  {
    if |rows| == 0 then []
    else KeepNames(rows[..|rows| - 1], subarray) + (if rows[|rows| - 1].name in subarray then [rows[|rows| - 1]] else [])
  }

  /** A row is kept exactly when it is a row of the table whose name is in the sub-array. */
  lemma {:induction false} KeepNamesMembers(rows: seq<Row>, subarray: seq<string>)
    ensures forall r :: r in KeepNames(rows, subarray) <==> r in rows && r.name in subarray
  {
    if |rows| > 0 {
      KeepNamesMembers(rows[..|rows| - 1], subarray);
      assert rows == rows[..|rows| - 1] + [rows[|rows| - 1]];
    }
  }

  /** Keeping the sub-array twice keeps the same rows as keeping it once. */
  lemma KeepNamesIdempotent(rows: seq<Row>, subarray: seq<string>)
    ensures KeepNames(KeepNames(rows, subarray), subarray) == KeepNames(rows, subarray)
  {
    var kept := KeepNames(rows, subarray);
    KeepNamesMembers(rows, subarray);
    assert forall i :: 0 <= i < |kept| ==> kept[i] in kept;
    KeepNamesAll(kept, subarray);
  }

  /** A table whose every name is in the sub-array is kept whole. */
  lemma {:induction false} KeepNamesAll(rows: seq<Row>, subarray: seq<string>)
    requires forall i :: 0 <= i < |rows| ==> rows[i].name in subarray
    ensures KeepNames(rows, subarray) == rows
  {
    if |rows| > 0 {
      KeepNamesAll(rows[..|rows| - 1], subarray);
      assert rows == rows[..|rows| - 1] + [rows[|rows| - 1]];
    }
  }

  /** The pair count of `n` antennas, `n * (n - 1) // 2`. */
  function PairCount(n: nat): nat
  {
    NonnegHalfProduct(n);
    n * (n - 1) / 2
  }

  lemma NonnegHalfProduct(n: nat)
    ensures n * (n - 1) >= 0
  {
    if n > 0 {
      assert n - 1 >= 0;
    }
  }

  // ---------------------------------------------------------------- the baseline pairs

  /** The pairs `(i, j)` with `i < j < n` of one outer pass, `i` fixed, in increasing `j`. */
  function RowPairs(i: nat, n: nat): (r: seq<(nat, nat)>)
    ensures |r| == if i < n then n - 1 - i else 0
    ensures forall t :: 0 <= t < |r| ==> r[t] == (i, i + 1 + t)
  {
    if i < n then seq(n - 1 - i, t => (i, i + 1 + t)) else []
  }

  /** The pairs visited by the first `k` outer passes of the nested loop over `n` antennas. */
  function PairsPrefix(k: nat, n: nat): seq<(nat, nat)>
  {
    if k == 0 then [] else PairsPrefix(k - 1, n) + RowPairs(k - 1, n)
  }

  /** The first `k` passes visit pairs `(i, j)` with `i < j < n` and `i < k`. */
  lemma {:induction false} PairsPrefixBounds(k: nat, n: nat)
    ensures forall c :: 0 <= c < |PairsPrefix(k, n)| ==>
      PairsPrefix(k, n)[c].0 < PairsPrefix(k, n)[c].1 < n && PairsPrefix(k, n)[c].0 < k
  {
    if k > 0 {
      PairsPrefixBounds(k - 1, n);
    }
  }

  /** The pairs `baselines` visits, in visiting order. */
  function Pairs(n: nat): (r: seq<(nat, nat)>)
    ensures forall c :: 0 <= c < |r| ==> r[c].0 < r[c].1 < n
  {
    PairsPrefixBounds(n, n);
    PairsPrefix(n, n)
  }

  /** The first `k` passes visit `k * (2n - k - 1) / 2` pairs. */
  lemma {:induction false} PairsPrefixCount(k: nat, n: nat)
    requires k <= n
    ensures 2 * |PairsPrefix(k, n)| == k * (2 * n - k - 1)
  {
    if k > 0 {
      PairsPrefixCount(k - 1, n);
      assert |PairsPrefix(k, n)| == |PairsPrefix(k - 1, n)| + (n - k);
      assert (k - 1) * (2 * n - k) + 2 * (n - k) == k * (2 * n - k - 1);
    }
  }

  /** Exactly `nr_baselines` pairs are visited. */
  lemma PairsCount(n: nat)
    ensures |Pairs(n)| == PairCount(n)
  {
    PairsPrefixCount(n, n);
  }

  /** More passes visit at least as many pairs. */
  lemma {:induction false} PairsPrefixLonger(k: nat, k': nat, n: nat)
    requires k <= k'
    ensures |PairsPrefix(k, n)| <= |PairsPrefix(k', n)|
  {
    if k < k' {
      PairsPrefixLonger(k, k' - 1, n);
    }
  }

  /** A slot filled by fewer passes keeps its pair in more passes. */
  lemma {:induction false} PairsPrefixKeeps(k: nat, k': nat, n: nat, c: nat)
    requires k <= k' && c < |PairsPrefix(k, n)|
    ensures c < |PairsPrefix(k', n)| && PairsPrefix(k', n)[c] == PairsPrefix(k, n)[c]
  {
    if k < k' {
      PairsPrefixKeeps(k, k' - 1, n, c);
      var front := PairsPrefix(k' - 1, n);
      assert PairsPrefix(k', n) == front + RowPairs(k' - 1, n);
      assert (front + RowPairs(k' - 1, n))[c] == front[c];
    }
  }

  /** The pair `(i, j)` is visited at slot `|PairsPrefix(i, n)| + (j - i - 1)`. */
  lemma PairAt(i: nat, j: nat, n: nat)
    requires i < j < n
    ensures |PairsPrefix(i, n)| + (j - i - 1) < |Pairs(n)|
    ensures Pairs(n)[|PairsPrefix(i, n)| + (j - i - 1)] == (i, j)
  {
    var front, row := PairsPrefix(i, n), RowPairs(i, n);
    var c := |front| + (j - i - 1);
    assert PairsPrefix(i + 1, n) == front + row;
    assert (front + row)[c] == row[j - i - 1] == (i, j);
    PairsPrefixKeeps(i + 1, n, n, c);
  }

  /** Every pair `i < j < n` is visited, and nothing else is. */
  lemma PairsMembers(n: nat)
    ensures forall i: nat, j: nat :: (i, j) in Pairs(n) <==> i < j < n
  {
    forall i: nat, j: nat | i < j < n
      ensures (i, j) in Pairs(n)
    {
      PairAt(i, j, n);
    }
  }

  /** Strict lexicographic order on pairs. */
  predicate Before(p: (nat, nat), q: (nat, nat))
  {
    p.0 < q.0 || (p.0 == q.0 && p.1 < q.1)
  }

  /** The pairs come in strictly increasing lexicographic order, so none is visited twice. */
  lemma {:induction false} PairsPrefixOrdered(k: nat, n: nat)
    ensures forall a, b :: 0 <= a < b < |PairsPrefix(k, n)| ==> Before(PairsPrefix(k, n)[a], PairsPrefix(k, n)[b])
  {
    if k > 0 {
      PairsPrefixOrdered(k - 1, n);
      PairsPrefixBounds(k - 1, n);
      var front := PairsPrefix(k - 1, n);
      var r := PairsPrefix(k, n);
      assert r == front + RowPairs(k - 1, n);
      forall a, b | 0 <= a < b < |r|
        ensures Before(r[a], r[b])
      {
        if b >= |front| {
          assert r[b] == RowPairs(k - 1, n)[b - |front|];
          if a >= |front| {
            assert r[a] == RowPairs(k - 1, n)[a - |front|];
          } else {
            assert r[a] == front[a];
          }
        } else {
          assert r[a] == front[a] && r[b] == front[b];
        }
      }
    }
  }

  /** The visiting order is strictly lexicographic. */
  lemma PairsOrdered(n: nat)
    ensures forall a, b :: 0 <= a < b < |Pairs(n)| ==> Before(Pairs(n)[a], Pairs(n)[b])
  {
    PairsPrefixOrdered(n, n);
  }

  /** The observing wavelength in metres: the speed of light over the 1420 MHz centre frequency. */
  const Wavelength: real := 299792458.0 / 1420000000.0

  /** A coordinate in wavelength units. */
  function InWavelengths(x: real): real { x / Wavelength }

  /** The north and east separations of a pair, in wavelengths. */
  function NorthSep(rows: seq<Row>, p: (nat, nat)): real
    requires p.0 < |rows| && p.1 < |rows|
  {
    InWavelengths(rows[p.0].north) - InWavelengths(rows[p.1].north)
  }

  function EastSep(rows: seq<Row>, p: (nat, nat)): real
    requires p.0 < |rows| && p.1 < |rows|
  {
    InWavelengths(rows[p.0].east) - InWavelengths(rows[p.1].east)
  }

  /** The baseline length, the square root of the summed squared separations. */
  function BaselineLength(rows: seq<Row>, p: (nat, nat), sqrt: real -> real): real
    requires p.0 < |rows| && p.1 < |rows|
  {
    sqrt(NorthSep(rows, p) * NorthSep(rows, p) + EastSep(rows, p) * EastSep(rows, p))
  }

  /** The baseline azimuth, `arctan2` of the east over the north separation. */
  function BaselineAzimuth(rows: seq<Row>, p: (nat, nat), arctan2: (real, real) -> real): real
    requires p.0 < |rows| && p.1 < |rows|
  {
    arctan2(EastSep(rows, p), NorthSep(rows, p))
  }

  // ---------------------------------------------------------------- the interferometer

  class Interferometer {
    var antennas: array<Row>
    var nrAntennas: nat
    var nrBaselines: nat

    /** The counts describe the table. */
    predicate Valid()
      reads this
    {
      nrAntennas == antennas.Length && nrBaselines == PairCount(nrAntennas)
    }

    /** The table is built, the sub-array (when given) extracted, then the antennas and baselines counted. */
    constructor (rows: array<Row>, subArray: Option<seq<string>>)
      ensures Valid()
      ensures antennas[..] == if subArray.Some? then KeepNames(old(rows[..]), subArray.value) else old(rows[..])
    {
      antennas := rows;
      nrAntennas := 0;
      nrBaselines := 0;
      new;
      if subArray.Some? {
        ExtractSubarray(subArray.value);
      }
      nrAntennas := antennas.Length;
      nrBaselines := PairCount(nrAntennas);
    }

    /** `_extract_subarray_`: collect the indices of the rows whose name is in the sub-array, then keep those rows. */
    method ExtractSubarray(subarray: seq<string>)
      modifies this
      ensures fresh(antennas)
      ensures antennas[..] == KeepNames(old(antennas[..]), subarray)
      ensures nrAntennas == old(nrAntennas) && nrBaselines == old(nrBaselines)
    {
      var rows := antennas[..];
      var rowIndices: seq<nat> := [];
      for rowCnt := 0 to |rows|
        invariant forall j :: 0 <= j < |rowIndices| ==> rowIndices[j] < |rows|
        invariant seq(|rowIndices|, j requires 0 <= j < |rowIndices| => rows[rowIndices[j]]) == KeepNames(rows[..rowCnt], subarray)
      {
        assert rows[..rowCnt + 1][..rowCnt] == rows[..rowCnt];
        if rows[rowCnt].name in subarray {
          rowIndices := rowIndices + [rowCnt];
        }
      }
      assert rows[..|rows|] == rows;
      antennas := new Row[|rowIndices|](j requires 0 <= j < |rowIndices| => rows[rowIndices[j]]);
    }

    /**
     * `baselines`: one slot per pair, filled in the nested loop's order with the pair's
     * length and azimuth. `sqrt` and `arctan2` are numpy's, given as parameters.
     */
    method Baselines(sqrt: real -> real, arctan2: (real, real) -> real) returns (lengths: array<real>, azimuths: array<real>)
      requires Valid()
      ensures fresh(lengths) && fresh(azimuths)
      ensures nrBaselines == |Pairs(nrAntennas)|
      ensures lengths[..] == PairValues(nrAntennas, LengthOf(antennas[..], sqrt))
      ensures azimuths[..] == PairValues(nrAntennas, AzimuthOf(antennas[..], arctan2))
    {
      var n := nrAntennas;
      var rows := antennas[..];
      PairsCount(n);
      lengths := new real[nrBaselines];
      azimuths := new real[nrBaselines];
      var length, azimuth := LengthOf(rows, sqrt), AzimuthOf(rows, arctan2);
      AllRowsStored(n, length);
      AllRowsStored(n, azimuth);
      FillPairs(n, lengths, azimuths, length, azimuth, PairValues(n, length), PairValues(n, azimuth), RowStarts(n));
    }
  }

  /**
   * The nested loop over the pairs of `n` antennas, storing each pair's values in visiting
   * order: `ls` and `zs` hold every slot's length and azimuth, and row i's pairs start at
   * slot `starts[i]`.
   */
  method FillPairs(n: nat, lengths: array<real>, azimuths: array<real>,
                   length: ((nat, nat)) -> real, azimuth: ((nat, nat)) -> real,
                   ghost ls: seq<real>, ghost zs: seq<real>, ghost starts: seq<nat>)
    requires lengths != azimuths && lengths.Length == |ls| == |zs| == azimuths.Length
    requires RowsLaidOut(starts, n, |ls|)
    requires forall i :: 0 <= i < n ==> RowStored(ls, starts[i], i, n, length) && RowStored(zs, starts[i], i, n, azimuth)
    modifies lengths, azimuths
    ensures lengths[..] == ls && azimuths[..] == zs
  {
    var cnt := 0;
    for idx0 := 0 to n
      invariant cnt == starts[idx0] <= |ls|
      invariant lengths[..cnt] == ls[..cnt] && azimuths[..cnt] == zs[..cnt]
    {
      FillRow(n, idx0, cnt, lengths, azimuths, length, azimuth, ls, zs);
      cnt := cnt + (n - 1 - idx0);
    }
    assert lengths[..] == lengths[..cnt] && azimuths[..] == azimuths[..cnt];
  }

  /** Row i's pairs take the `n - 1 - i` slots from `starts[i]` on, from slot 0 up to `total`. */
  predicate RowsLaidOut(starts: seq<nat>, n: nat, total: nat)
  {
    |starts| == n + 1 && starts[0] == 0 && starts[n] == total &&
    forall i :: 0 <= i < n ==> starts[i + 1] == starts[i] + (n - 1 - i) <= total
  }

  /** The first slot of every row's pairs. */
  ghost function RowStarts(n: nat): seq<nat>
  {
    seq(n + 1, i requires 0 <= i <= n => |PairsPrefix(i, n)|)
  }

  /** Every row's pairs fill its slots of `PairValues`. */
  lemma AllRowsStored(n: nat, value: ((nat, nat)) -> real)
    ensures RowsLaidOut(RowStarts(n), n, |PairValues(n, value)|)
    ensures forall i :: 0 <= i < n ==> RowStored(PairValues(n, value), RowStarts(n)[i], i, n, value)
  {
    var starts, vs := RowStarts(n), PairValues(n, value);
    forall i | 0 <= i < n
      ensures starts[i + 1] == starts[i] + (n - 1 - i) <= |vs|
      ensures RowStored(vs, starts[i], i, n, value)
    {
      RowSlots(n, value, i);
      assert starts[i] == |PairsPrefix(i, n)| && starts[i + 1] == |PairsPrefix(i + 1, n)|;
    }
    assert starts[0] == |PairsPrefix(0, n)| == 0;
    assert starts[n] == |Pairs(n)|;
  }

  /** The baseline length of a pair of rows of the table (0 for a pair outside it). */
  function LengthOf(rows: seq<Row>, sqrt: real -> real): ((nat, nat)) -> real
  {
    (p: (nat, nat)) => if p.0 < |rows| && p.1 < |rows| then BaselineLength(rows, p, sqrt) else 0.0
  }

  /** The baseline azimuth of a pair of rows of the table (0 for a pair outside it). */
  function AzimuthOf(rows: seq<Row>, arctan2: (real, real) -> real): ((nat, nat)) -> real
  {
    (p: (nat, nat)) => if p.0 < |rows| && p.1 < |rows| then BaselineAzimuth(rows, p, arctan2) else 0.0
  }

  /** A value for every pair, in visiting order. */
  function PairValues(n: nat, value: ((nat, nat)) -> real): (r: seq<real>)
    ensures |r| == |Pairs(n)|
  {
    seq(|Pairs(n)|, c requires 0 <= c < |Pairs(n)| => value(Pairs(n)[c]))
  }

  /**
   * The inner loop: the pairs (i, j) for every j above i, stored from slot `start` on,
   * where `ls` and `zs` hold every slot's length and azimuth.
   */
  method FillRow(n: nat, i: nat, start: nat, lengths: array<real>, azimuths: array<real>,
                 length: ((nat, nat)) -> real, azimuth: ((nat, nat)) -> real, ghost ls: seq<real>, ghost zs: seq<real>)
    requires i < n && lengths != azimuths
    requires lengths.Length == |ls| == |zs| == azimuths.Length && start + (n - 1 - i) <= |ls|
    requires RowStored(ls, start, i, n, length) && RowStored(zs, start, i, n, azimuth)
    requires lengths[..start] == ls[..start] && azimuths[..start] == zs[..start]
    modifies lengths, azimuths
    ensures lengths[..start + (n - 1 - i)] == ls[..start + (n - 1 - i)]
    ensures azimuths[..start + (n - 1 - i)] == zs[..start + (n - 1 - i)]
  {
    var cnt := start;
    for idx1 := i + 1 to n
      invariant cnt == start + (idx1 - i - 1)
      invariant lengths[..cnt] == ls[..cnt] && azimuths[..cnt] == zs[..cnt]
    {
      lengths[cnt] := length((i, idx1));
      azimuths[cnt] := azimuth((i, idx1));
      assert lengths[..cnt + 1] == ls[..cnt + 1];
      assert azimuths[..cnt + 1] == zs[..cnt + 1];
      cnt := cnt + 1;
    }
  }

  /** The slots from `start` on hold the values of the pairs (i, j) for every j above i, in order. */
  predicate RowStored(vs: seq<real>, start: nat, i: nat, n: nat, value: ((nat, nat)) -> real)
  {
    forall j :: i < j < n ==> start + (j - i - 1) < |vs| && vs[start + (j - i - 1)] == value((i, j))
  }

  /** The pairs of row i fill the slots after those of the rows before it. */
  lemma RowSlots(n: nat, value: ((nat, nat)) -> real, i: nat)
    requires i < n
    ensures |PairsPrefix(i + 1, n)| == |PairsPrefix(i, n)| + (n - 1 - i) <= |Pairs(n)|
    ensures RowStored(PairValues(n, value), |PairsPrefix(i, n)|, i, n, value)
  {
    assert PairsPrefix(i + 1, n) == PairsPrefix(i, n) + RowPairs(i, n);
    PairsPrefixLonger(i + 1, n, n);
    forall j | i < j < n
      ensures |PairsPrefix(i, n)| + (j - i - 1) < |PairValues(n, value)|
      ensures PairValues(n, value)[|PairsPrefix(i, n)| + (j - i - 1)] == value((i, j))
    {
      SlotValue(n, value, i, j);
    }
  }

  /** The slot of pair (i, j) holds that pair's value. */
  lemma SlotValue(n: nat, value: ((nat, nat)) -> real, i: nat, j: nat)
    requires i < j < n
    ensures |PairsPrefix(i, n)| + (j - i - 1) < |PairValues(n, value)|
    ensures PairValues(n, value)[|PairsPrefix(i, n)| + (j - i - 1)] == value((i, j))
  {
    PairAt(i, j, n);
  }


  /** The interferometer built from the configuration's antenna lines, with an optional sub-array. */
  method NewInterferometer(lines: seq<string>, subArray: Option<seq<string>>) returns (r: Result<Interferometer>)
    ensures r.Ok? <==> BuildSpec(lines).Ok?
    ensures r.Ok? ==> fresh(r.value) && r.value.Valid()
    ensures r.Ok? ==> r.value.antennas[..] ==
                        if subArray.Some? then KeepNames(BuildSpec(lines).value, subArray.value) else BuildSpec(lines).value
  {
    var rows := BuildArray(lines);
    if rows.Err? {
      return Err(rows.error);
    }
    var t := new Interferometer(rows.value, subArray);
    return Ok(t);
  }

  // ---------------------------------------------------------------- the UV mask

  /** numpy indexing along one axis of length `n`: a negative index counts from the end; anything else outside is an IndexError. */
  function PyIndex(i: int, n: nat): (r: Option<nat>)
    ensures r.Some? <==> -(n as int) <= i < n
    ensures r.Some? ==> r.value < n && (if i < 0 then r.value == i + n else r.value == i)
  {
    if 0 <= i < n then Some(i) else if -(n as int) <= i < 0 then Some(i + n) else None
  }

  /** `sctrl = maxsize // 2 + 1`, the grid cell the track is centred on. */
  function Centre(maxsize: nat): nat { maxsize / 2 + 1 }

  /** The grid offset of one coordinate, `int(np.ceil(x * uvscaling))`. */
  function Offset(x: real, scale: real): int { Ceil(x * scale) }

  /** The two cells one UV sample marks: the sample, then its reflection through the centre. */
  function SampleCells(uv: (real, real), ctrl: int, scale: real): (r: seq<(int, int)>)
    ensures |r| == 2
    ensures r[0].0 + r[1].0 == 2 * ctrl && r[0].1 + r[1].1 == 2 * ctrl
  {
    var du, dv := Offset(uv.0, scale), Offset(uv.1, scale);
    [(ctrl + du, ctrl + dv), (ctrl - du, ctrl - dv)]
  }

  /** The cells the first `k` samples mark, in writing order. */
  function Cells(uv: seq<(real, real)>, k: nat, ctrl: int, scale: real): (r: seq<(int, int)>)
    requires k <= |uv|
    ensures |r| == 2 * k
  {
    if k == 0 then [] else Cells(uv, k - 1, ctrl, scale) + SampleCells(uv[k - 1], ctrl, scale)
  }

  /** A written cell lands on grid cell `(a, b)`. */
  predicate Hits(c: (int, int), n: nat, a: int, b: int)
  {
    PyIndex(c.0, n) == Some(a) && PyIndex(c.1, n) == Some(b)
  }

  /** Some cell of the list lands on `(a, b)`. */
  predicate Marked(cells: seq<(int, int)>, n: nat, a: int, b: int)
  {
    |cells| > 0 && (Hits(cells[|cells| - 1], n, a, b) || Marked(cells[..|cells| - 1], n, a, b))
  }

  /** Every cell of the list is a valid index pair of an `n` by `n` grid. */
  predicate InGrid(cells: seq<(int, int)>, n: nat)
  {
    forall k :: 0 <= k < |cells| ==> PyIndex(cells[k].0, n).Some? && PyIndex(cells[k].1, n).Some?
  }

  /** Appending cells marks what they hit, besides what was marked. */
  lemma {:induction false} MarkedAppend(cells: seq<(int, int)>, more: seq<(int, int)>, n: nat, a: int, b: int)
    ensures Marked(cells + more, n, a, b) <==> Marked(cells, n, a, b) || Marked(more, n, a, b)
    decreases |more|
  {
    if |more| > 0 {
      var m := |more| - 1;
      assert (cells + more)[..|cells + more| - 1] == cells + more[..m];
      MarkedAppend(cells, more[..m], n, a, b);
    } else {
      assert cells + more == cells;
    }
  }

  /** The cells of the first `k` samples are a prefix of the cells of the first `j`. */
  lemma {:induction false} CellsGrow(uv: seq<(real, real)>, k: nat, j: nat, ctrl: int, scale: real)
    requires k <= j <= |uv|
    ensures Cells(uv, k, ctrl, scale) <= Cells(uv, j, ctrl, scale)
    decreases j
  {
    if k < j {
      CellsGrow(uv, k, j - 1, ctrl, scale);
    }
  }

  /** A list of two cells marks `(a, b)` when either hits it. */
  lemma MarkedTwo(two: seq<(int, int)>, n: nat, a: int, b: int)
    requires |two| == 2
    ensures Marked(two, n, a, b) <==> Hits(two[0], n, a, b) || Hits(two[1], n, a, b)
  {
    var one := two[..1];
    assert one[..0] == [];
    assert Marked(one, n, a, b) <==> Hits(two[0], n, a, b);
    assert Marked(two, n, a, b) <==> Hits(two[1], n, a, b) || Marked(one, n, a, b);
  }

  /** Every cell of the list lies inside an `n` by `n` grid without wrapping. */
  predicate NoWrap(cells: seq<(int, int)>, n: nat)
  {
    forall c :: 0 <= c < |cells| ==> 0 <= cells[c].0 < n && 0 <= cells[c].1 < n
  }

  /** The two cells of one sample, both inside the grid, are each other's reflection. */
  lemma SampleReflection(two: seq<(int, int)>, ctrl: int, n: nat, a: int, b: int)
    requires |two| == 2 && two[0].0 + two[1].0 == 2 * ctrl && two[0].1 + two[1].1 == 2 * ctrl
    requires NoWrap(two, n)
    ensures Marked(two, n, a, b) <==> Marked(two, n, 2 * ctrl - a, 2 * ctrl - b)
  {
    MarkedTwo(two, n, a, b);
    MarkedTwo(two, n, 2 * ctrl - a, 2 * ctrl - b);
  }

  /** Both parts of a list inside the grid are inside the grid. */
  lemma NoWrapSplit(front: seq<(int, int)>, two: seq<(int, int)>, n: nat)
    requires NoWrap(front + two, n)
    ensures NoWrap(front, n) && NoWrap(two, n)
  {
    assert forall c :: 0 <= c < |front| ==> front[c] == (front + two)[c];
    assert forall c :: 0 <= c < |two| ==> two[c] == (front + two)[|front| + c];
  }

  /**
   * When no index wraps, the marked cells are symmetric under the point reflection
   * through `(sctrl, sctrl)`: `(a, b)` is marked exactly when `(2 sctrl - a, 2 sctrl - b)` is.
   */
  lemma {:induction false} MaskReflection(uv: seq<(real, real)>, k: nat, ctrl: int, scale: real, n: nat, a: int, b: int)
    requires k <= |uv| && NoWrap(Cells(uv, k, ctrl, scale), n)
    ensures Marked(Cells(uv, k, ctrl, scale), n, a, b) <==> Marked(Cells(uv, k, ctrl, scale), n, 2 * ctrl - a, 2 * ctrl - b)
  {
    if k > 0 {
      var front := Cells(uv, k - 1, ctrl, scale);
      var two := SampleCells(uv[k - 1], ctrl, scale);
      assert Cells(uv, k, ctrl, scale) == front + two;
      NoWrapSplit(front, two, n);
      MaskReflection(uv, k - 1, ctrl, scale, n, a, b);
      SampleReflection(two, ctrl, n, a, b);
      MarkedAppend(front, two, n, a, b);
      MarkedAppend(front, two, n, 2 * ctrl - a, 2 * ctrl - b);
    }
  }

  /** A list is inside the grid exactly when both its parts are. */
  lemma InGridAppend(front: seq<(int, int)>, more: seq<(int, int)>, n: nat)
    ensures InGrid(front + more, n) <==> InGrid(front, n) && InGrid(more, n)
  {
    assert forall c :: 0 <= c < |front| ==> front[c] == (front + more)[c];
    assert forall c :: 0 <= c < |more| ==> more[c] == (front + more)[|front| + c];
  }

  /** A prefix of a list inside the grid is inside the grid. */
  lemma InGridPrefix(front: seq<(int, int)>, all: seq<(int, int)>, n: nat)
    requires front <= all && InGrid(all, n)
    ensures InGrid(front, n)
  {
    assert forall c :: 0 <= c < |front| ==> front[c] == all[c];
  }

  /** One assignment `maskmat[x, y] = 1.`: IndexError (nothing written) unless both indices are valid. */
  method MarkCell(mask: array2<real>, c: (int, int)) returns (ok: bool)
    requires mask.Length0 == mask.Length1
    modifies mask
    ensures ok <==> InGrid([c], mask.Length0)
    ensures !ok ==> unchanged(mask)
    ensures ok ==> forall a, b :: 0 <= a < mask.Length0 && 0 <= b < mask.Length1 ==>
                     mask[a, b] == if Hits(c, mask.Length0, a, b) then 1.0 else old(mask[a, b])
  {
    var n := mask.Length0;
    var p, q := PyIndex(c.0, n), PyIndex(c.1, n);
    if p.None? || q.None? {
      assert [c][0] == c;
      return false;
    }
    mask[p.value, q.value] := 1.0;
    return true;
  }

  /**
   * `uvMask`: a `maxsize` by `maxsize` grid of zeros with a one written at each sample's
   * cell and at its reflection; an index outside the grid raises IndexError. The UV track
   * itself (`track_uv`, trigonometry) is given as the samples `uv`.
   */
  method UvMask(uv: seq<(real, real)>, maxsize: nat, scale: real) returns (r: Result<array2<real>>)
    ensures r.Ok? <==> InGrid(Cells(uv, |uv|, Centre(maxsize), scale), maxsize)
    ensures r.Err? ==> r.error.IndexError?
    ensures r.Ok? ==> fresh(r.value) && r.value.Length0 == maxsize && r.value.Length1 == maxsize
    ensures r.Ok? ==> forall a, b :: 0 <= a < maxsize && 0 <= b < maxsize ==>
                        r.value[a, b] == if Marked(Cells(uv, |uv|, Centre(maxsize), scale), maxsize, a, b) then 1.0 else 0.0
  {
    var ctrl := Centre(maxsize);
    var mask := new real[maxsize, maxsize]((a, b) => 0.0);
    for i := 0 to |uv|
      invariant InGrid(Cells(uv, i, ctrl, scale), maxsize)
      invariant forall a, b :: 0 <= a < maxsize && 0 <= b < maxsize ==>
                  mask[a, b] == if Marked(Cells(uv, i, ctrl, scale), maxsize, a, b) then 1.0 else 0.0
    {
      var before := Cells(uv, i, ctrl, scale);
      var two := SampleCells(uv[i], ctrl, scale);
      assert Cells(uv, i + 1, ctrl, scale) == before + two;
      InGridAppend(before, two, maxsize);
      InGridAppend([two[0]], [two[1]], maxsize);
      assert [two[0]] + [two[1]] == two;
      var ok := MarkCell(mask, two[0]);
      if ok {
        ok := MarkCell(mask, two[1]);
      }
      if !ok {
        CellsGrow(uv, i + 1, |uv|, ctrl, scale);
        if InGrid(Cells(uv, |uv|, ctrl, scale), maxsize) {
          InGridPrefix(before + two, Cells(uv, |uv|, ctrl, scale), maxsize);
        }
        return Err(IndexError("index is out of bounds"));
      }
      forall a, b | 0 <= a < maxsize && 0 <= b < maxsize
        ensures Marked(before + two, maxsize, a, b) <==> Marked(before, maxsize, a, b) || Hits(two[0], maxsize, a, b) || Hits(two[1], maxsize, a, b)
      {
        MarkedAppend(before, two, maxsize, a, b);
        MarkedTwo(two, maxsize, a, b);
      }
    }
    return Ok(mask);
  }
}
