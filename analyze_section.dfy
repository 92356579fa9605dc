/** The home page's analyzer: the text box, the in-progress flag, the
    normalised result, and the rules for the button and the result badge. */
module AnalyzeSection {
  import opened Common
  import opened Strings
  import opened Models
  import Api
  import ArticleCard

  /** What the result panel shows. */
  datatype Results = Results(
    biasScore: int,
    biasDirection: string,
    summary: string,
    credibilityScore: Option<real>,
    keyPoints: Option<seq<string>>,
    sources: string)

  /** `Math.round`: the nearest integer, halves rounded up. */
  function Round(x: real): (n: int)
    ensures n as real - 0.5 <= x < n as real + 0.5
  {
    (x + 0.5).Floor
  }

  /** The result panel for a successful response: the confidence as a whole
      percentage, the verdict as the direction, summary and key points passed
      through, and placeholders for the scores the service does not give. */
  function Normalize(resp: AnalysisResponse): (r: Results)
    ensures 0 <= r.biasScore <= 100
    ensures r.biasScore as real - 0.5 <= resp.biasConfidence * 100.0 < r.biasScore as real + 0.5
    ensures r.biasDirection == resp.bias && r.summary == resp.summary && r.keyPoints == resp.keyPoints
    ensures r.credibilityScore.None? && r.sources == "N/A"
  {
    var score := Round(resp.biasConfidence * 100.0);
    assert score <= 100 by {
      assert score as real - 0.5 <= 100.0;
    }
    Results(score, resp.bias, resp.summary, None, resp.keyPoints, "N/A")
  }

  const AlertPrefix: string := "Analysis failed: "

  /** `err.response?.data?.detail || err.message`. */
  function ErrorText(err: ApiError): (t: string)
    ensures err.detail.Some? && err.detail.value != "" ==> t == err.detail.value
    ensures err.detail.None? || err.detail.value == "" ==> t == err.message
  {
    if err.detail.Some? && err.detail.value != "" then err.detail.value else err.message
  }

  /** The alert shown for a failed request; the error text follows the prefix
      unchanged, so the server's detail can be read back from it. */
  function AlertMessage(err: ApiError): (m: string)
    ensures |m| == |AlertPrefix| + |ErrorText(err)|
    ensures m[..|AlertPrefix|] == AlertPrefix
    ensures m[|AlertPrefix|..] == ErrorText(err)
  {
    AlertPrefix + ErrorText(err)
  }

  datatype BadgeVariant = Destructive | Secondary

  /** The result badge is destructive strictly above 60. */
  function ResultBadge(r: Results): (v: BadgeVariant)
    ensures v == Destructive <==> r.biasScore > 60
  {
    if r.biasScore > 60 then Destructive else Secondary
  }

  /** At exactly 60 the two pages disagree: the card already says "High Bias",
      while the analyzer's badge is not yet destructive. */
  lemma BadgeThresholdDiffersFromCard(r: Results)
    requires r.biasScore == 60
    ensures ResultBadge(r) == Secondary
    ensures ArticleCard.GetBiasLabel(Num(60.0)) == ArticleCard.HighBias
  {
  }

  /** The analyzer posts exactly what the client's `analyze({ text })` would. */
  lemma DirectPostMatchesClient(text: string)
    ensures Api.Analyze(Some(text), None) == Api.Request(Api.Post, Api.AnalyzeRoute, map[], Some(Api.TextBody(Some(text))))
  {
    assert !Api.IsTruthyId(None);
  }

  /** The state of the analyzer. */
  class Analyzer {
    var inputText: string
    var isAnalyzing: bool
    var results: Option<Results>

    constructor ()
      ensures inputText == "" && !isAnalyzing && results.None?
    {
      inputText := "";
      isAnalyzing := false;
      results := None;
    }

    method SetInputText(text: string)
      modifies this`inputText
      ensures inputText == text
    {
      inputText := text;
    }

    /** The Analyze button is disabled while the text is only whitespace or a
        request is running. */
    function AnalyzeDisabled(): (d: bool)
      reads this
      ensures d <==> (forall i :: 0 <= i < |inputText| ==> IsJsSpace(inputText[i])) || isAnalyzing
    {
      IsBlank(inputText) || isAnalyzing
    }

    function ButtonText(): (s: string)
      reads this
      ensures s == "Analyzing..." <==> isAnalyzing
    {
      if isAnalyzing then "Analyzing..." else "Analyze Article"
    }

    /** The `try`/`catch` of `handleAnalyze`: a success replaces the
        results, a failure keeps them and yields the alert. */
    method SettleOutcome(outcome: Result<AnalysisResponse, ApiError>) returns (alert: Option<string>)
      modifies this`results
      ensures outcome.Ok? ==> results == Some(Normalize(outcome.value)) && alert.None?
      ensures outcome.Err? ==> results == old(results) && alert == Some(AlertMessage(outcome.error))
    {
      match outcome {
        case Ok(data) =>
          results := Some(Normalize(data));
          alert := None;
        case Err(err) =>
          alert := Some(AlertMessage(err));
      }
    }

    /** `handleAnalyze`: a blank text sends nothing and changes nothing;
        otherwise the untrimmed text is posted to `/analyze`, a success
        replaces the results, a failure leaves them and alerts, and the
        in-progress flag is cleared in every case. Returns the request sent
        and the alert shown, if any. */
    method HandleAnalyze(outcome: Result<AnalysisResponse, ApiError>)
      returns (request: Option<Api.Request>, alert: Option<string>)
      modifies this`isAnalyzing, this`results
      ensures IsBlank(inputText) ==>
        request.None? && alert.None? && isAnalyzing == old(isAnalyzing) && results == old(results)
      ensures !IsBlank(inputText) ==> !isAnalyzing
      ensures !IsBlank(inputText) ==>
        request == Some(Api.Request(Api.Post, Api.AnalyzeRoute, map[], Some(Api.TextBody(Some(inputText)))))
      ensures !IsBlank(inputText) && outcome.Ok? ==> results == Some(Normalize(outcome.value)) && alert.None?
      ensures !IsBlank(inputText) && outcome.Err? ==>
        results == old(results) && alert == Some(AlertMessage(outcome.error))
    {
      request, alert := None, None;
      if IsBlank(inputText) {
        return;
      }
      isAnalyzing := true;
      request := Some(Api.Request(Api.Post, Api.AnalyzeRoute, map[], Some(Api.TextBody(Some(inputText)))));
      alert := SettleOutcome(outcome);
      isAnalyzing := false;
      assert !IsBlank(inputText);
    }
  }
}
