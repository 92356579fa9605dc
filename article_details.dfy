/** The article detail page: the verdict badge, the article loaded together
    with its latest stored analysis, and the on-demand creation of an analysis
    merged into the page's article. */
module ArticleDetails {
  import opened Common
  import opened Strings
  import opened Models
  import Api

  // ---------------------------------------------------------------------
  // The verdict badge
  // ---------------------------------------------------------------------

  const Factual: BiasInfo := BiasInfo("Factual", "bg-green-100 text-green-800")
  const Misleading: BiasInfo := BiasInfo("Misleading", "bg-yellow-100 text-yellow-800")
  const FalseInformation: BiasInfo := BiasInfo("False Information", "bg-red-100 text-red-800")
  const Unknown: BiasInfo := BiasInfo("Unknown", "bg-gray-100 text-gray-800")

  /** `getBiasLabel(bias)`: the lower-cased verdict picks the badge; a missing
      or empty verdict and any other text give "Unknown". */
  function GetBiasLabel(bias: Option<string>): (b: BiasInfo)
    ensures b == Factual || b == Misleading || b == FalseInformation || b == Unknown
    ensures b == Factual <==> bias.Some? && Lower(bias.value) == "true"
    ensures b == Misleading <==> bias.Some? && Lower(bias.value) == "misleading"
    ensures b == FalseInformation <==> bias.Some? && Lower(bias.value) == "false"
    ensures b == Unknown <==>
      bias.None? || (Lower(bias.value) != "true" && Lower(bias.value) != "misleading" && Lower(bias.value) != "false")
  {
    if bias.None? || bias.value == "" then Unknown
    else
      var v := Lower(bias.value);
      if v == "true" then Factual
      else if v == "misleading" then Misleading
      else if v == "false" then FalseInformation
      else Unknown
  }

  /** The verdict is matched without regard to case. */
  lemma VerdictIgnoresCase(s: string)
    ensures GetBiasLabel(Some(s)) == GetBiasLabel(Some(Lower(s)))
  {
    LowerIdempotent(s);
  }

  /** Each label the backend's classifier chooses from gets a known badge. */
  lemma ClassifierVerdictsAreKnown()
    ensures GetBiasLabel(Some("True")) == Factual
    ensures GetBiasLabel(Some("Misleading")) == Misleading
    ensures GetBiasLabel(Some("False")) == FalseInformation
  {
    ClassifierLabelsLowered();
  }

  lemma ClassifierLabelsLowered()
    ensures Lower("True") == "true" && Lower("Misleading") == "misleading" && Lower("False") == "false"
  {
    var t, m, f := Lower("True"), Lower("Misleading"), Lower("False");
    assert forall i :: 0 <= i < |t| ==> t[i] == "true"[i];
    assert forall i :: 0 <= i < |m| ==> m[i] == "misleading"[i];
    assert forall i :: 0 <= i < |f| ==> f[i] == "false"[i];
  }

  // ---------------------------------------------------------------------
  // The page's article
  // ---------------------------------------------------------------------

  /** The analysis panel of the page. */
  datatype AnalysisView = AnalysisView(
    summary: string,
    keyPoints: Option<seq<string>>,
    credibilityScore: real,
    sourceVerification: string,
    bias: string,
    biasScore: real)

  /** The page's article: the fetched fields, the fields an analysis response
      spread into it (after a creation), and the analysis panel. The article's
      own `hasAnalysis` field is the page's flag. */
  datatype DetailArticle = DetailArticle(
    fields: Article,
    response: Option<AnalysisResponse>,
    analysis: Option<AnalysisView>)

  /** The flag and the panel agree. */
  predicate Consistent(d: DetailArticle) {
    d.fields.hasAnalysis <==> d.analysis.Some?
  }

  /** `analyses[0] || null`: the first analysis the service lists. */
  function LatestAnalysis(analyses: seq<AnalysisResponse>): (latest: Option<AnalysisResponse>)
    ensures latest.None? <==> analyses == []
    ensures latest.Some? ==> latest.value == analyses[0]
  {
    if analyses == [] then None else Some(analyses[0])
  }

  /** The panel built from a stored analysis. */
  function StoredView(latest: AnalysisResponse): (v: AnalysisView)
    ensures v.summary == latest.summary && v.keyPoints == latest.keyPoints && v.bias == latest.bias
    ensures v.sourceVerification == "Stored Analysis"
    ensures v.credibilityScore == latest.biasConfidence * 100.0
    ensures v.biasScore == v.credibilityScore - 10.0
    ensures 0.0 <= v.credibilityScore <= 100.0 && -10.0 <= v.biasScore <= 90.0
  {
    var score := latest.biasConfidence * 100.0;
    AnalysisView(latest.summary, latest.keyPoints, score, "Stored Analysis", latest.bias, score - 10.0)
  }

  /** The panel built from a freshly created analysis. */
  function CreatedView(data: AnalysisResponse): (v: AnalysisView)
    ensures v.summary == data.summary && v.keyPoints == data.keyPoints && v.bias == data.bias
    ensures v.sourceVerification == "Auto-generated"
    ensures v.credibilityScore == data.biasConfidence * 100.0
    ensures v.biasScore == v.credibilityScore
    ensures 0.0 <= v.biasScore <= 100.0
  {
    var score := data.biasConfidence * 100.0;
    AnalysisView(data.summary, data.keyPoints, score, "Auto-generated", data.bias, score)
  }

  /** `{...data, analysis, hasAnalysis: !!latest}`: the fetched article with the
      panel of its latest analysis, flagged iff an analysis exists. */
  function LoadedArticle(data: Article, analyses: seq<AnalysisResponse>): (d: DetailArticle)
    ensures Consistent(d)
    ensures d.fields.hasAnalysis <==> analyses != []
    ensures d.fields == data.(hasAnalysis := analyses != [])
    ensures d.response.None?
    ensures d.analysis.None? <==> LatestAnalysis(analyses).None?
    ensures analyses != [] ==> d.analysis == Some(StoredView(analyses[0]))
  {
    var latest := LatestAnalysis(analyses);
    DetailArticle(
      data.(hasAnalysis := latest.Some?),
      None,
      if latest.Some? then Some(StoredView(latest.value)) else None)
  }

  /** `{...prev, ...data, analysis, hasAnalysis: true}`: the response's fields
      overwrite the same-named article field (`id`) and are added beside the
      others, which keep their values. */
  function MergeCreated(prev: DetailArticle, data: AnalysisResponse): (d: DetailArticle)
    ensures Consistent(d) && d.fields.hasAnalysis
    ensures d.fields.id == data.id
    ensures d.fields == prev.fields.(id := data.id, hasAnalysis := true)
    ensures d.response == Some(data)
    ensures d.analysis == Some(CreatedView(data))
  {
    DetailArticle(prev.fields.(id := data.id, hasAnalysis := true), Some(data), Some(CreatedView(data)))
  }

  /** The two panels differ by the offset of 10 between bias and credibility:
      a stored analysis shows 10 points less bias than a fresh one with the same confidence. */
  lemma StoredAndCreatedScores(r: AnalysisResponse)
    ensures StoredView(r).credibilityScore == CreatedView(r).credibilityScore
    ensures StoredView(r).biasScore == CreatedView(r).biasScore - 10.0
  {
  }

  // ---------------------------------------------------------------------
  // The page state
  // ---------------------------------------------------------------------

  class ArticleDetailPage {
    var article: Option<DetailArticle>
    var isCreatingAnalysis: bool

    ghost predicate Valid()
      reads this
    {
      article.Some? ==> Consistent(article.value)
    }

    /** Mounting: nothing loaded yet ("Article not found" is shown), no creation running. */
    constructor ()
      ensures Valid() && article.None? && !isCreatingAnalysis
    {
      article := None;
      isCreatingAnalysis := false;
    }

    /** `fetchData`: fetch the article, then its analyses; only when both
        succeed is the page's article replaced. */
    method FetchData(articleOutcome: Result<Article, ApiError>, analysesOutcome: Result<seq<AnalysisResponse>, ApiError>)
      requires Valid()
      modifies this`article
      ensures Valid()
      ensures articleOutcome.Ok? && analysesOutcome.Ok? ==>
        article == Some(LoadedArticle(articleOutcome.value, analysesOutcome.value))
      ensures articleOutcome.Err? || analysesOutcome.Err? ==> article == old(article)
    {
      if articleOutcome.Ok? && analysesOutcome.Ok? {
        var data := articleOutcome.value;
        var analyses := analysesOutcome.value;
        var latest := if analyses == [] then None else Some(analyses[0]);
        var analysis := if latest.Some? then Some(StoredView(latest.value)) else None;
        article := Some(DetailArticle(data.(hasAnalysis := latest.Some?), None, analysis));
      }
    }

    /** `handleCreateAnalysis`: raise the flag, request an analysis of the page's
        article, merge a successful response, and lower the flag whatever
        happened. Without an article (`article.id` on null throws inside the
        `try`) no request is made. Returns the request sent, if any. */
    method HandleCreateAnalysis(outcome: Result<AnalysisResponse, ApiError>) returns (request: Option<Api.Request>)
      requires Valid()
      modifies this
      ensures Valid() && !isCreatingAnalysis
      ensures old(article).None? ==> request.None? && article == old(article)
      ensures old(article).Some? ==> request == Some(Api.Analyze(None, Some(old(article).value.fields.id)))
      ensures old(article).Some? && outcome.Ok? ==> article == Some(MergeCreated(old(article).value, outcome.value))
      ensures outcome.Err? ==> article == old(article)
    {
      isCreatingAnalysis := true;
      request := None;
      if article.Some? {
        request := Some(Api.Analyze(None, Some(article.value.fields.id)));
        if outcome.Ok? {
          var prev := article.value;
          var data := outcome.value;
          article := Some(DetailArticle(prev.fields.(id := data.id, hasAnalysis := true), Some(data), Some(CreatedView(data))));
        }
      }
      isCreatingAnalysis := false;
    }
  }
}
