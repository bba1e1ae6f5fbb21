/** The change report's arithmetic: green scores for the two yearly means,
    the percent change between them, and the label the report shows. NDVI
    values and scores are exact reals. */
module Change {

  function Abs(x: real): real {
    if x < 0.0 then -x else x
  }

  /** The NDVI a green score stands for; the inverse of the green-score rescaling. */
  function NdviOfGreenScore(g: real): real {
    g / 50.0 - 1.0
  }

  /** The green score: NDVI rescaled affinely so that [-1, 1] maps onto [0, 100]. */
  function GreenScore(ndvi: real): (g: real)
    ensures NdviOfGreenScore(g) == ndvi
    ensures -1.0 <= ndvi <= 1.0 ==> 0.0 <= g <= 100.0
    ensures ndvi == -1.0 ==> g == 0.0
    ensures ndvi == 1.0 ==> g == 100.0
  {
    (ndvi + 1.0) / 2.0 * 100.0
  }

  /** A higher NDVI always gives a higher green score. */
  lemma GreenScoreStrictlyMonotonic(a: real, b: real)
    requires a < b
    ensures GreenScore(a) < GreenScore(b)
  {
  }

  /** The percent change from the baseline mean `a` to the later mean `b`,
      relative to |a|; a zero baseline gives 0 instead of dividing by zero. */
  function PercentChange(a: real, b: real): (pct: real)
    ensures a == 0.0 ==> pct == 0.0
    ensures a != 0.0 ==> pct * Abs(a) == (b - a) * 100.0
    ensures a != 0.0 ==> (pct < 0.0 <==> b < a)
    ensures a != 0.0 ==> (pct > 0.0 <==> b > a)
    ensures a != 0.0 ==> (pct == 0.0 <==> b == a)
  {
    if a != 0.0 then (b - a) / Abs(a) * 100.0 else 0.0
  }

  /** With a non-zero baseline the later mean can be read back from the
      baseline and the percent change. */
  lemma RecoverLaterMean(a: real, b: real)
    requires a != 0.0
    ensures b == a + PercentChange(a, b) * Abs(a) / 100.0
  {
  }

  /** A zero baseline hides every change: the later mean does not matter. */
  lemma ZeroBaselineMasksChange(b: real)
    ensures PercentChange(0.0, b) == 0.0
    ensures ChangeLabelOf(PercentChange(0.0, b)) == NoSignificantChange
  {
  }

  /** The report's change label: a loss or a gain with its unsigned magnitude,
      or no significant change. */
  datatype ChangeLabel = Loss(magnitude: real) | Gain(magnitude: real) | NoSignificantChange

  /** The signed percent change a label stands for. */
  function SignedChange(change: ChangeLabel): real {
    match change
    case Loss(m) => -m
    case Gain(m) => m
    case NoSignificantChange => 0.0
  }

  /** The label for a percent change: negative is a loss of |pct|, positive a
      gain of pct, zero is no significant change; the label loses nothing. */
  function ChangeLabelOf(pct: real): (change: ChangeLabel)
    ensures change.Loss? <==> pct < 0.0
    ensures change.Gain? <==> pct > 0.0
    ensures change.NoSignificantChange? <==> pct == 0.0
    ensures !change.NoSignificantChange? ==> change.magnitude == Abs(pct) && change.magnitude > 0.0
    ensures SignedChange(change) == pct
  {
    if pct < 0.0 then Loss(Abs(pct))
    else if pct > 0.0 then Gain(pct)
    else NoSignificantChange
  }

  /** With a non-zero baseline the label agrees with the green scores: a loss
      exactly when the later score is lower, a gain exactly when it is higher. */
  lemma LabelAgreesWithGreenScores(a: real, b: real)
    requires a != 0.0
    ensures ChangeLabelOf(PercentChange(a, b)).Loss? <==> GreenScore(b) < GreenScore(a)
    ensures ChangeLabelOf(PercentChange(a, b)).Gain? <==> GreenScore(b) > GreenScore(a)
    ensures ChangeLabelOf(PercentChange(a, b)).NoSignificantChange? <==> GreenScore(b) == GreenScore(a)
  {
  }

  /** The green scores move by fifty points per unit of NDVI. */
  lemma GreenScoreDifference(a: real, b: real)
    ensures GreenScore(b) - GreenScore(a) == (b - a) * 50.0
  {
  }
}
