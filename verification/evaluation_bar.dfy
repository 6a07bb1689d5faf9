/** The vertical evaluation bar beside the board: how much of it is white, which side the
    score label sits on, and what the label says. Evaluations are exact reals (pawns). */
module EvaluationBar {
  import opened Types

  /** `Math.max(-10, Math.min(10, e))`. */
  function Clamp(e: real): (c: real)
    ensures -10.0 <= c <= 10.0
    ensures -10.0 <= e <= 10.0 ==> c == e
    ensures e < -10.0 ==> c == -10.0
    ensures e > 10.0 ==> c == 10.0
  {
    if e < -10.0 then -10.0 else if e > 10.0 then 10.0 else e
  }

  /** Reference scale: the bar is empty at ten pawns down or worse, full at ten pawns up or
      better, and linear in between, centred on 50. */
  function LinearScale(e: real): real
  {
    if e <= -10.0 then 0.0
    else if e >= 10.0 then 100.0
    else 50.0 + 5.0 * e
  }

  /** The mate branch applies only when the result is a mate AND carries a distance. */
  predicate ShowsMate(isMate: bool, mateIn: Option<int>)
  {
    isMate && mateIn.Some?
  }

  /** `getWhitePercentage`: share of the bar painted white. */
  function WhitePercentage(evaluation: Option<real>, isMate: bool, mateIn: Option<int>): (p: real)
    ensures 0.0 <= p <= 100.0
    ensures ShowsMate(isMate, mateIn) ==> p == (if mateIn.value > 0 then 100.0 else 0.0)
    ensures !ShowsMate(isMate, mateIn) && evaluation.None? ==> p == 50.0
    ensures !ShowsMate(isMate, mateIn) && evaluation.Some? ==> p == LinearScale(evaluation.value)
  {
    if ShowsMate(isMate, mateIn) then
      (if mateIn.value > 0 then 100.0 else 0.0)
    else if evaluation.None? then 50.0
    else 50.0 + Clamp(evaluation.value) * 5.0
  }

  /** Without a mate, a better evaluation never paints less of the bar white. */
  lemma WhitePercentageMonotone(e1: real, e2: real, isMate: bool, mateIn: Option<int>)
    requires !ShowsMate(isMate, mateIn)
    requires e1 <= e2
    ensures WhitePercentage(Some(e1), isMate, mateIn) <= WhitePercentage(Some(e2), isMate, mateIn)
  {
  }

  /** The label shown on the bar; `Score` keeps the number symbolic (its `toFixed(1)` text is
      not modelled), `plus` is whether a `+` sign is prefixed. */
  datatype BarText = Mate(distance: nat) | Unknown | Score(plus: bool, pawns: real)

  /** `getDisplayText`. */
  function DisplayText(evaluation: Option<real>, isMate: bool, mateIn: Option<int>): (t: BarText)
    ensures ShowsMate(isMate, mateIn) ==> t == Mate(if mateIn.value < 0 then -mateIn.value else mateIn.value)
    ensures !ShowsMate(isMate, mateIn) && evaluation.None? ==> t == Unknown
    ensures !ShowsMate(isMate, mateIn) && evaluation.Some? ==>
      t.Score? && t.pawns == evaluation.value && (t.plus <==> evaluation.value > 0.0)
  {
    if ShowsMate(isMate, mateIn) then
      Mate(if mateIn.value < 0 then -mateIn.value else mateIn.value)
    else if evaluation.None? then Unknown
    else Score(evaluation.value > 0.0, evaluation.value)
  }

  /** Everything the component renders: the heights (in percent) of the black section on top
      and the white section below, the label, and whether the label sits at the bottom on a
      white background (white advantage) or at the top on a black one. */
  datatype BarView = BarView(blackHeight: real, whiteHeight: real, caption: BarText, whiteAdvantage: bool)

  function View(evaluation: Option<real>, isMate: bool, mateIn: Option<int>): (v: BarView)
    ensures v.blackHeight + v.whiteHeight == 100.0
    ensures 0.0 <= v.blackHeight <= 100.0 && 0.0 <= v.whiteHeight <= 100.0
    ensures v.whiteHeight == WhitePercentage(evaluation, isMate, mateIn)
    ensures v.whiteAdvantage <==> v.whiteHeight >= 50.0
    ensures v.caption == DisplayText(evaluation, isMate, mateIn)
  {
    var p := WhitePercentage(evaluation, isMate, mateIn);
    BarView(100.0 - p, p, DisplayText(evaluation, isMate, mateIn), p >= 50.0)
  }

  /** The orientation in the source's own terms: a mate favours White exactly when the distance
      is positive, an unknown evaluation counts as White's, and otherwise White is favoured
      exactly when the evaluation is not negative. */
  lemma WhiteAdvantageCases(evaluation: Option<real>, isMate: bool, mateIn: Option<int>)
    ensures View(evaluation, isMate, mateIn).whiteAdvantage <==>
      if ShowsMate(isMate, mateIn) then mateIn.value > 0
      else evaluation.None? || evaluation.value >= 0.0
  {
  }

  /** A 1.5 pawn edge gives 57.5 percent; ten or more pawns down gives 0. */
  lemma ScoreExamples()
    ensures WhitePercentage(Some(1.5), false, None) == 57.5
    ensures WhitePercentage(Some(-10.0), false, None) == 0.0
    ensures WhitePercentage(Some(-25.0), false, None) == 0.0
    ensures WhitePercentage(Some(12.0), false, None) == 100.0
    ensures WhitePercentage(None, true, Some(0)) == 0.0
    ensures WhitePercentage(Some(3.0), true, None) == 65.0
  {
  }
}
