// scripts/catalogue2obsfile.py, the older converter from a catalogue to an
// observation file. It reads the catalogue and writes the file exactly as
// `Catalogue2ObsFile` does; only the default LST range differs: the start and
// end hours come as "%.3f" text and are clamped so that the range never reaches
// 24 hours and never runs backwards.
module LegacyCatalogue2ObsFile {
  import opened Common
  import opened Numbers
  import opened Text

  /** A literal "<digits>.<digits>" reads as its whole part plus its fraction. */
  lemma DecimalLiteral(text: string, ip: string, fp: string)
    requires |ip| > 0 && AllDigits(ip) && AllDigits(fp) && text == ip + "." + fp
    ensures ToFloat(text) == Ok(DigitsValue(ip) as real + FracValue(fp))
  {
    PointedParse(ip, fp);
    LiteralStripped(ip, fp);
    assert ip + "." + fp == ip + ['.'] + fp;
    assert (ip + "." + fp)[0] == ip[0];
  }

  /** Such a literal has no whitespace to strip. */
  lemma LiteralStripped(ip: string, fp: string)
    requires |ip| > 0 && AllDigits(ip) && AllDigits(fp)
    ensures Strip(ip + "." + fp) == ip + "." + fp
  {
    var t := ip + "." + fp;
    assert t[0] == ip[0];
    assert IsDigit(ip[0]);
    if |fp| > 0 {
      assert t[|t| - 1] == fp[|fp| - 1];
      assert IsDigit(fp[|fp| - 1]);
    } else {
      assert t[|t| - 1] == '.';
    }
    StrippedFixed(t);
  }

  /** The end hour the clamped range falls back on. */
  lemma LastHour()
    ensures ToFloat("23.9") == Ok(23.9)
  {
    var ip, fp := ['2', '3'], ['9'];
    OneDigit('2');
    OneDigit('9');
    assert ip[..1] == ['2'];
    assert DigitsValue(ip) as real + FracValue(fp) == 23.9;
    assert ip + "." + fp == "23.9";
    DecimalLiteral("23.9", ip, fp);
  }

  /** The start hour the clamped range falls back on. */
  lemma FirstHour()
    ensures ToFloat("0.0") == Ok(0.0)
  {
    var z := ['0'];
    OneDigit('0');
    assert DigitsValue(z) as real + FracValue(z) == 0.0;
    assert z + "." + z == "0.0";
    DecimalLiteral("0.0", z, z);
  }

  /** A single digit reads as its value before the point and as its tenth after it. */
  lemma OneDigit(c: char)
    requires IsDigit(c)
    ensures AllDigits([c]) && DigitsValue([c]) == DigitValue(c)
    ensures FracValue([c]) == DigitValue(c) as real / 10.0
  {
    assert [c][..0] == [] && [c][1..] == [];
  }

  /**
   * `configure`'s LST bounds: an end at or past 24 hours becomes 23.9, and an end
   * before the start (targets that cover the whole day) makes the range 0.0 to 23.9.
   * Bounds that are kept stay in the text they came in.
   */
  function ClampedLst(startObs: string, endObs: string): (r: Result<(string, string)>)
    ensures r.Ok? <==> ToFloat(startObs).Ok? && ToFloat(endObs).Ok?
    ensures r.Ok? ==> ToFloat(r.value.0).Ok? && ToFloat(r.value.1).Ok?
    ensures r.Ok? ==> ToFloat(r.value.0).value <= ToFloat(r.value.1).value < 24.0
    ensures r.Ok? && ToFloat(startObs).value <= ToFloat(endObs).value < 24.0 ==> r.value == (startObs, endObs)
  {
    LastHour();
    FirstHour();
    var s :- ToFloat(startObs);
    var e :- ToFloat(endObs);
    var (endText, endHours) := if e >= 24.0 then ("23.9", 23.9) else (endObs, e);
    if endHours - s < 0.0 then Ok(("0.0", "23.9")) else Ok((startObs, endText))
  }

  /** The default LST range "start-end" of the older script. */
  function DefaultLst(startObs: string, endObs: string): Result<string>
  {
    var (a, b) :- ClampedLst(startObs, endObs);
    Ok(a + "-" + b)
  }
}
