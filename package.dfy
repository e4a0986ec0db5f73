// Package-level constants of astrokat: the noise-diode lead time and the
// correlator buffer length that bounds a noise-diode cycle, per band.
module Package {
  import opened Text

  /** Lead time, in seconds, between issuing a noise-diode request and its activation. */
  const DefaultLeadTime: real := 5.0

  /** Longest noise-diode cycle, in seconds, the correlator buffer of `band` holds. */
  function MaxCycleLen(band: string): (r: real)
    ensures r == 31.0 <==> Lower(band) == "u"
    ensures r == 20.0 <==> Lower(band) != "u"
  {
    if Lower(band) == "u" then 31.0 else 20.0
  }

  /** UHF is named by `u` in either case and by nothing else. */
  lemma UhfBands(band: string)
    ensures MaxCycleLen(band) == 31.0 <==> band == "u" || band == "U"
  {
    if Lower(band) == "u" {
      assert |band| == 1 && LowerChar(band[0]) == 'u';
      assert band == [band[0]];
    }
  }
}
