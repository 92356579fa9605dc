/** The article card: the bias badge chosen from the article's score and the
    label of its analysis button. */
module ArticleCard {
  import opened Models

  /** JavaScript `x < bound` for a number read from the article: `null` is
      compared as 0, while `undefined` and `NaN` compare false. */
  predicate LessThan(x: JsNumber, bound: real)
    ensures x.Num? ==> (LessThan(x, bound) <==> x.value < bound)
    ensures x.Null? ==> (LessThan(x, bound) <==> 0.0 < bound)
    ensures x.NaN? || x.Undefined? ==> !LessThan(x, bound)
  {
    match x
    case Num(v) => v < bound
    case Null => 0.0 < bound
    case NaN => false
    case Undefined => false
  }

  const Neutral: BiasInfo := BiasInfo("Neutral", "bg-green-100 text-green-800")
  const Moderate: BiasInfo := BiasInfo("Moderate", "bg-yellow-100 text-yellow-800")
  const HighBias: BiasInfo := BiasInfo("High Bias", "bg-red-100 text-red-800")

  /** `getBiasLabel(score)`: below 30 is neutral, below 60 moderate, anything
      else, including a missing score, high bias. */
  function GetBiasLabel(score: JsNumber): (b: BiasInfo)
    ensures b == Neutral || b == Moderate || b == HighBias
    ensures b == Neutral <==> LessThan(score, 30.0)
    ensures b == Moderate <==> !LessThan(score, 30.0) && LessThan(score, 60.0)
    ensures b == HighBias <==> !LessThan(score, 60.0)
  {
    if LessThan(score, 30.0) then Neutral
    else if LessThan(score, 60.0) then Moderate
    else HighBias
  }

  /** How severe a badge is: 0 neutral, 1 moderate, 2 high. */
  function Severity(b: BiasInfo): nat {
    if b == Neutral then 0 else if b == Moderate then 1 else 2
  }

  /** The three bands split the numbers at 30 and 60. */
  lemma BandsOfNumbers(v: real)
    ensures GetBiasLabel(Num(v)) == Neutral <==> v < 30.0
    ensures GetBiasLabel(Num(v)) == Moderate <==> 30.0 <= v < 60.0
    ensures GetBiasLabel(Num(v)) == HighBias <==> 60.0 <= v
  {
  }

  /** A higher score never gets a less severe badge. */
  lemma SeverityMonotone(v: real, w: real)
    requires v <= w
    ensures Severity(GetBiasLabel(Num(v))) <= Severity(GetBiasLabel(Num(w)))
  {
  }

  /** An article without a score (or with `NaN`) falls through both tests to
      high bias; a `null` score counts as 0 and is neutral. */
  lemma MissingScores()
    ensures GetBiasLabel(Undefined) == HighBias && GetBiasLabel(NaN) == HighBias
    ensures GetBiasLabel(Null) == Neutral
  {
  }

  /** The analysis button of the card. */
  function AnalysisButtonLabel(hasAnalysis: bool): (s: string)
    ensures s == "View Analysis" <==> hasAnalysis
    ensures s == "Create Analysis" <==> !hasAnalysis
  {
    if hasAnalysis then "View Analysis" else "Create Analysis"
  }
}
