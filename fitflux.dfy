// scripts/astrokat-fitflux.py: scaling the polynomial flux models of the
// calibrators from frequencies in GHz to frequencies in MHz. A model gives
// log10 S as a polynomial in x = log10 f; with f in MHz x grows by 3.
module FitFlux {
  import opened Common
  import opened Numbers

  /** x to the power k. */
  function Pow(x: real, k: nat): real
  {
    if k == 0 then 1.0 else Pow(x, k - 1) * x
  }

  /** The term c * x^k of a polynomial. */
  function Term(c: real, x: real, k: nat): real { c * Pow(x, k) }

  /** The polynomial with coefficients `cs` (lowest power first) at x. */
  function Poly(cs: seq<real>, x: real): real
  {
    if |cs| == 0 then 0.0 else Poly(cs[..|cs| - 1], x) + Term(cs[|cs| - 1], x, |cs| - 1)
  }

  // ---------------------------------------------------------------- the calibrator table

  /** One entry of `flux_cals`: the valid frequency range in MHz and the GHz model coefficients. */
  datatype FluxModel = FluxModel(name: string, minMhz: real, maxMhz: real, coeffs: seq<real>)

  const FluxCals: seq<FluxModel> := [
    FluxModel("J0437+2940", 50.0, 50000.0, [1.8017, -0.7884, -0.1035, -0.0248]),
    FluxModel("J0519-4546", 200.0, 4000.0, [1.9380, -0.7470, -0.074]),
    FluxModel("J0534+2200", 50.0, 4000.0, [2.9516, -0.217, -0.047, -0.067]),
    FluxModel("J0918-1205", 50.0, 12000.0, [1.7795, -0.9176, -0.084, -0.0139]),
    FluxModel("J1230+1223", 50.0, 3000.0, [2.4466, -0.8116, -0.048]),
    FluxModel("J1331+3030", 50.0, 50000.0, [1.2481, -0.4507, -0.1798, 0.0357]),
    FluxModel("J1651+0459", 200.0, 12000.0, [1.8298, -1.0247, -0.0951]),
    FluxModel("J1720-0058", 200.0, 4000.0, [1.8627, -0.6938, -0.1, -0.032]),
    FluxModel("J0137+3309", 50.0, 50000.0, [1.3253, -0.7553, -0.1914, 0.0498]),
    FluxModel("J0521+1638", 200.0, 50000.0, [1.0088, -0.4981, -0.155, -0.0100])
  ]

  predicate WellFormed(m: FluxModel) { m.minMhz < m.maxMhz && 3 <= |m.coeffs| <= 4 }

  /** Every calibrator model has a proper frequency range and three or four coefficients. */
  lemma FluxCalsWellFormed()
    ensures forall i :: 0 <= i < |FluxCals| ==> WellFormed(FluxCals[i])
  {
    forall i | 0 <= i < |FluxCals|
      ensures WellFormed(FluxCals[i])
    {
      if i < 5 {
        if i == 0 {} else if i == 1 {} else if i == 2 {} else if i == 3 {} else {}
      } else {
        if i == 5 {} else if i == 6 {} else if i == 7 {} else if i == 8 {} else {}
      }
    }
  }

  // ---------------------------------------------------------------- the coefficient shift

  /** The coefficient at `k`, 0 when the model has fewer. */
  function CoeffOr0(cs: seq<real>, k: nat): real { if k < |cs| then cs[k] else 0.0 }

  /**
   * The shift used without --refit: `[A, B] = coeffs[:2]` (which fails on
   * fewer than two coefficients), C and D default to 0, and the MHz
   * coefficients are a = A-3B+9C-27D, b = B-6C+27D, c = C-9D, d = D.
   */
  function ShiftToMhz(coeffs: seq<real>): (r: Result<seq<real>>)
    ensures r.Ok? <==> |coeffs| >= 2
    ensures r.Ok? ==> |r.value| == 4 && r.value[3] == CoeffOr0(coeffs, 3)
    ensures r.Err? ==> r.error.ValueError?
  {
    if |coeffs| < 2 then
      Err(ValueError("need more than " + NatToString(|coeffs|) + (if |coeffs| == 1 then " value" else " values") + " to unpack"))
    else
      var A, B, C, D := coeffs[0], coeffs[1], CoeffOr0(coeffs, 2), CoeffOr0(coeffs, 3);
      Ok([A - 3.0 * B + 9.0 * C - 27.0 * D, B - 6.0 * C + 27.0 * D, C - 9.0 * D, D])
  }

  /** A four-coefficient polynomial written out. */
  lemma PolyOf4(a: real, b: real, c: real, d: real, x: real)
    ensures Poly([a, b, c, d], x) == a + b * x + c * (x * x) + d * (x * x * x)
  {
    var cs := [a, b, c, d];
    assert cs[..3] == [a, b, c] && [a, b, c][..2] == [a, b] && [a, b][..1] == [a] && [a][..0] == [];
    assert Pow(x, 1) == x;
    assert Pow(x, 2) == x * x;
    assert Pow(x, 3) == x * x * x;
    assert Poly([a], x) == a;
    assert Poly([a, b], x) == a + b * x;
    assert Poly([a, b, c], x) == a + b * x + c * (x * x);
  }

  /** A zero coefficient appended to a model changes nothing. */
  lemma PolyPadded(cs: seq<real>, x: real)
    ensures Poly(cs + [0.0], x) == Poly(cs, x)
  {
    assert (cs + [0.0])[..|cs|] == cs;
  }

  /** A model of two to four coefficients is the four-coefficient model with zeros appended. */
  lemma PolyAsFour(cs: seq<real>, x: real)
    requires 2 <= |cs| <= 4
    ensures Poly(cs, x) == Poly([cs[0], cs[1], CoeffOr0(cs, 2), CoeffOr0(cs, 3)], x)
  {
    if |cs| == 2 {
      PolyPadded(cs, x);
      PolyPadded(cs + [0.0], x);
      assert cs + [0.0] + [0.0] == [cs[0], cs[1], 0.0, 0.0];
    } else if |cs| == 3 {
      PolyPadded(cs, x);
      assert cs + [0.0] == [cs[0], cs[1], cs[2], 0.0];
    } else {
      assert cs == [cs[0], cs[1], cs[2], cs[3]];
    }
  }

  /** The cubic identity behind the shift: the MHz polynomial at x is the GHz polynomial at x - 3. */
  lemma ShiftIdentity(A: real, B: real, C: real, D: real, x: real)
    ensures var y := x - 3.0;
      (A - 3.0 * B + 9.0 * C - 27.0 * D) + (B - 6.0 * C + 27.0 * D) * x + (C - 9.0 * D) * (x * x) + D * (x * x * x)
      == A + B * y + C * (y * y) + D * (y * y * y)
  {
    var y := x - 3.0;
    assert y * y == x * x - 6.0 * x + 9.0;
    assert y * y * y == x * x * x - 9.0 * (x * x) + 27.0 * x - 27.0;
  }

  /**
   * For a model of two to four coefficients the shifted model gives, at
   * x = log10(f in MHz), the flux the original gives at log10(f in GHz) = x - 3.
   */
  lemma ShiftPreservesFlux(coeffs: seq<real>, x: real)
    requires 2 <= |coeffs| <= 4
    ensures Poly(ShiftToMhz(coeffs).value, x) == Poly(coeffs, x - 3.0)
  {
    var A, B, C, D := coeffs[0], coeffs[1], CoeffOr0(coeffs, 2), CoeffOr0(coeffs, 3);
    PolyAsFour(coeffs, x - 3.0);
    PolyOf4(A, B, C, D, x - 3.0);
    PolyOf4(A - 3.0 * B + 9.0 * C - 27.0 * D, B - 6.0 * C + 27.0 * D, C - 9.0 * D, D, x);
    ShiftIdentity(A, B, C, D, x);
  }

  /** The table printed without --refit: each calibrator's model shifted to MHz. */
  function ScaledTable(cals: seq<FluxModel>): Result<seq<seq<real>>>
  {
    Each(cals, (m: FluxModel) => ShiftToMhz(m.coeffs))
  }

  /** Every model of the calibrator table shifts to four MHz coefficients keeping its leading one. */
  lemma ScaledTableOk()
    ensures ScaledTable(FluxCals).Ok?
    ensures |ScaledTable(FluxCals).value| == |FluxCals|
    ensures forall i :: 0 <= i < |FluxCals| ==>
      |ScaledTable(FluxCals).value[i]| == 4 && ScaledTable(FluxCals).value[i][3] == CoeffOr0(FluxCals[i].coeffs, 3)
  {
    FluxCalsWellFormed();
    var f := (m: FluxModel) => ShiftToMhz(m.coeffs);
    assert forall i :: 0 <= i < |FluxCals| ==> f(FluxCals[i]).Ok?;
  }

  // ---------------------------------------------------------------- find_nearest

  /** The first index of a non-empty array whose value is nearest to `value`. */
  function NearestIndex(arr: seq<real>, value: real): (idx: nat)
    requires |arr| > 0
    ensures idx < |arr|
    ensures forall j :: 0 <= j < |arr| ==> Abs(arr[idx] - value) <= Abs(arr[j] - value)
    ensures forall j :: 0 <= j < idx ==> Abs(arr[idx] - value) < Abs(arr[j] - value)
  {
    if |arr| == 1 then 0
    else
      var k := NearestIndex(arr[..|arr| - 1], value);
      if Abs(arr[|arr| - 1] - value) < Abs(arr[k] - value) then |arr| - 1 else k
  }

  /**
   * `find_nearest(array, value)`: the index of the nearest value (the first
   * one on a tie) and that value; numpy refuses an empty array.
   */
  function FindNearest(arr: seq<real>, value: real): (r: Result<(nat, real)>)
    ensures r.Ok? <==> |arr| > 0
    ensures r.Ok? ==> r.value.0 < |arr| && r.value.1 == arr[r.value.0]
    ensures r.Ok? ==> forall j :: 0 <= j < |arr| ==> Abs(r.value.1 - value) <= Abs(arr[j] - value)
    ensures r.Ok? ==> forall j :: 0 <= j < r.value.0 ==> Abs(r.value.1 - value) < Abs(arr[j] - value)
  {
    if |arr| == 0 then Err(ValueError("attempt to get argmin of an empty sequence"))
    else
      var idx := NearestIndex(arr, value);
      Ok((idx, arr[idx]))
  }

  // ---------------------------------------------------------------- calc_flux_density

  /** `coeff * log10(freqs)**k`: one block of values, one per frequency. */
  function Block(c: real, logf: seq<real>, k: nat): (r: seq<real>)
    ensures |r| == |logf| && forall i :: 0 <= i < |logf| ==> r[i] == Term(c, logf[i], k)
  {
    seq(|logf|, i requires 0 <= i < |logf| => Term(c, logf[i], k))
  }

  /**
   * The list `calc_flux_density` builds from the first m coefficients:
   * `[coeffs[0]] * n`, then each `+=` of an array onto a list extends the list
   * by one block.
   */
  function FluxBlocks(coeffs: seq<real>, logf: seq<real>, m: nat): seq<real>
    requires 1 <= m <= |coeffs|
  {
    if m == 1 then seq(|logf|, i => coeffs[0])
    else FluxBlocks(coeffs, logf, m - 1) + Block(coeffs[m - 1], logf, m - 1)
  }

  /** `calc_flux_density(coeffs, freqs)` as written, with `logf` the base-10 logarithms of the frequencies. */
  function FluxList(coeffs: seq<real>, logf: seq<real>): Result<seq<real>>
  {
    if |coeffs| == 0 then Err(IndexError("index 0 is out of bounds for axis 0 with size 0"))
    else Ok(FluxBlocks(coeffs, logf, |coeffs|))
  }

  /** Offset of entry i of block k, for blocks of n values. */
  function At(k: nat, n: nat, i: nat): nat { if k == 0 then i else At(k - 1, n, i) + n }

  /** Length of m blocks of n values. */
  function Len(m: nat, n: nat): nat { if m == 0 then 0 else Len(m - 1, n) + n }

  lemma {:induction false} LenIsProduct(m: nat, n: nat)
    ensures Len(m, n) == m * n
  {
    if m > 0 {
      LenIsProduct(m - 1, n);
      assert (m - 1) * n + n == m * n;
    }
  }

  lemma {:induction false} AtBelow(k: nat, m: nat, n: nat, i: nat)
    requires k < m && i < n
    ensures Len(k, n) <= At(k, n, i) < Len(k + 1, n) <= Len(m, n)
  {
    if k > 0 {
      AtBelow(k - 1, k, n, i);
    }
    if k + 1 < m {
      AtBelow(k, m - 1, n, i);
    }
  }

  /** As written, m coefficients give m blocks of n values. */
  lemma {:induction false} FluxBlocksLen(coeffs: seq<real>, logf: seq<real>, m: nat)
    requires 1 <= m <= |coeffs|
    ensures |FluxBlocks(coeffs, logf, m)| == Len(m, |logf|)
  {
    if m > 1 {
      FluxBlocksLen(coeffs, logf, m - 1);
    }
  }

  /** As written, entry i of block k is coeffs[k] * log10(f_i)^k. */
  lemma {:induction false} FluxBlocksEntry(coeffs: seq<real>, logf: seq<real>, m: nat, k: nat, i: nat)
    requires 1 <= m <= |coeffs| && k < m && i < |logf|
    ensures At(k, |logf|, i) < |FluxBlocks(coeffs, logf, m)|
    ensures FluxBlocks(coeffs, logf, m)[At(k, |logf|, i)] == Term(coeffs[k], logf[i], k)
  {
    var n := |logf|;
    FluxBlocksLen(coeffs, logf, m);
    AtBelow(k, m, n, i);
    if m == 1 {
      assert At(0, n, i) == i;
      assert Term(coeffs[0], logf[i], 0) == coeffs[0];
    } else {
      var prev := FluxBlocks(coeffs, logf, m - 1);
      FluxBlocksLen(coeffs, logf, m - 1);
      if k < m - 1 {
        FluxBlocksEntry(coeffs, logf, m - 1, k, i);
      } else {
        AtOffset(k, n, i);
        assert FluxBlocks(coeffs, logf, m)[Len(m - 1, n) + i] == Block(coeffs[k], logf, k)[i];
      }
    }
  }

  /**
   * As written, the list holds one block of n values per coefficient: entry
   * i of block k is coeffs[k] * log10(f_i)^k.
   */
  lemma FluxBlocksLayout(coeffs: seq<real>, logf: seq<real>, m: nat)
    requires 1 <= m <= |coeffs|
    ensures |FluxBlocks(coeffs, logf, m)| == Len(m, |logf|)
    ensures forall k, i :: 0 <= k < m && 0 <= i < |logf| ==>
      At(k, |logf|, i) < Len(m, |logf|) && FluxBlocks(coeffs, logf, m)[At(k, |logf|, i)] == Term(coeffs[k], logf[i], k)
  {
    FluxBlocksLen(coeffs, logf, m);
    forall k, i | 0 <= k < m && 0 <= i < |logf|
      ensures At(k, |logf|, i) < Len(m, |logf|) && FluxBlocks(coeffs, logf, m)[At(k, |logf|, i)] == Term(coeffs[k], logf[i], k)
    {
      FluxBlocksEntry(coeffs, logf, m, k, i);
    }
  }

  /** Entry i of block k sits i places into the block. */
  lemma {:induction false} AtOffset(k: nat, n: nat, i: nat)
    ensures At(k, n, i) == Len(k, n) + i
  {
    if k > 0 {
      AtOffset(k - 1, n, i);
    }
  }

  /** The list as written has n values per coefficient rather than one value per frequency. */
  lemma FluxListLength(coeffs: seq<real>, logf: seq<real>)
    requires |coeffs| > 0
    ensures FluxList(coeffs, logf).Ok? && |FluxList(coeffs, logf).value| == |coeffs| * |logf|
  {
    FluxBlocksLayout(coeffs, logf, |coeffs|);
    LenIsProduct(|coeffs|, |logf|);
  }

  /** The sum of entry i over the first m blocks. */
  function ColumnSum(r: seq<real>, n: nat, i: nat, m: nat): real
    requires i < n && Len(m, n) <= |r|
  {
    if m == 0 then 0.0
    else
      AtBelow(m - 1, m, n, i);
      ColumnSum(r, n, i, m - 1) + r[At(m - 1, n, i)]
  }

  /**
   * `calc_flux_density` as evidently intended: log10 S at each frequency is
   * the model polynomial, the sum of the n-th entries of the blocks. The loop
   * adds one coefficient's term to every frequency at a time.
   */
  method CalcFluxDensity(coeffs: seq<real>, logf: seq<real>) returns (r: Result<seq<real>>)
    ensures r.Ok? <==> |coeffs| > 0
    ensures r.Ok? ==> |r.value| == |logf| && forall i :: 0 <= i < |logf| ==> r.value[i] == Poly(coeffs, logf[i])
  {
    if |coeffs| == 0 {
      return Err(IndexError("index 0 is out of bounds for axis 0 with size 0"));
    }
    var log10S := seq(|logf|, i => coeffs[0]);
    assert forall i :: 0 <= i < |logf| ==> log10S[i] == Poly(coeffs[..1], logf[i]) by {
      assert coeffs[..1][..0] == [];
    }
    var k := 1;
    while k < |coeffs|
      invariant 1 <= k <= |coeffs|
      invariant |log10S| == |logf|
      invariant forall i :: 0 <= i < |logf| ==> log10S[i] == Poly(coeffs[..k], logf[i])
    {
      var term := Block(coeffs[k], logf, k);
      assert coeffs[..k + 1][..k] == coeffs[..k];
      log10S := seq(|logf|, i requires 0 <= i < |logf| => log10S[i] + term[i]);
      k := k + 1;
    }
    assert coeffs[..k] == coeffs;
    return Ok(log10S);
  }

  /**
   * The intended value at each frequency is the sum, over the blocks of the
   * list as written, of that frequency's entry.
   */
  lemma {:induction false} ColumnSumIsPoly(coeffs: seq<real>, logf: seq<real>, i: nat, m: nat)
    requires 1 <= m <= |coeffs| && i < |logf|
    ensures |FluxBlocks(coeffs, logf, |coeffs|)| == Len(|coeffs|, |logf|) && Len(m, |logf|) <= Len(|coeffs|, |logf|)
    ensures ColumnSum(FluxBlocks(coeffs, logf, |coeffs|), |logf|, i, m) == Poly(coeffs[..m], logf[i])
  {
    var n := |logf|;
    var r := FluxBlocks(coeffs, logf, |coeffs|);
    FluxBlocksLen(coeffs, logf, |coeffs|);
    FluxBlocksEntry(coeffs, logf, |coeffs|, m - 1, i);
    AtBelow(m - 1, |coeffs|, n, i);
    assert coeffs[..m][..m - 1] == coeffs[..m - 1];
    if m == 1 {
      assert coeffs[..1][..0] == [];
    } else {
      ColumnSumIsPoly(coeffs, logf, i, m - 1);
    }
  }

  /** The as-written list and the intended values: each intended value is its column's sum. */
  lemma FluxListColumns(coeffs: seq<real>, logf: seq<real>, i: nat)
    requires |coeffs| > 0 && i < |logf|
    ensures FluxList(coeffs, logf).Ok? && |FluxList(coeffs, logf).value| == Len(|coeffs|, |logf|)
    ensures ColumnSum(FluxList(coeffs, logf).value, |logf|, i, |coeffs|) == Poly(coeffs, logf[i])
  {
    ColumnSumIsPoly(coeffs, logf, i, |coeffs|);
    assert coeffs[..|coeffs|] == coeffs;
  }

  /**
   * The discrepancy: for a model [c0, c1] and one frequency with log10 f = x
   * the list as written has two values, [c0, c1 * x], where log10 S at that
   * frequency is the single value c0 + c1 * x.
   */
  lemma FluxListCounterexample(c0: real, c1: real, x: real)
    ensures FluxList([c0, c1], [x]) == Ok([c0, c1 * x])
    ensures Poly([c0, c1], x) == c0 + c1 * x
  {
    assert [c0, c1][..1] == [c0] && [c0][..0] == [];
    assert FluxBlocks([c0, c1], [x], 1) == [c0];
    assert Pow(x, 1) == x;
    assert Block(c1, [x], 1)[0] == c1 * x;
    assert Block(c1, [x], 1) == [c1 * x];
    assert FluxBlocks([c0, c1], [x], 2) == [c0] + [c1 * x] == [c0, c1 * x];
    assert FluxList([c0, c1], [x]) == Ok(FluxBlocks([c0, c1], [x], 2));
    assert Term(c1, x, 1) == c1 * x;
    assert Poly([c0], x) == c0;
  }
}
