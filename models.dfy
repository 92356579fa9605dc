/** The records exchanged between the pages, the HTTP client and the backend:
    the backend's Pydantic models and the frontend's `Article` interface. */
module Models {
  import opened Common

  /** A JavaScript number as a page reads it from a JSON object: a finite value,
      `NaN`, a missing property (`undefined`) or `null`. */
  datatype JsNumber = Num(value: real) | NaN | Undefined | Null

  /** The classifier's confidence, a fraction in [0, 1]. */
  type Confidence = r: real | 0.0 <= r <= 1.0

  /** The frontend's view of an article (the `Article` interface of the cards). */
  datatype Article = Article(
    id: int,
    sourceId: Option<string>,
    sourceName: string,
    author: Option<string>,
    title: string,
    description: Option<string>,
    url: string,
    urlToImage: Option<string>,
    publishedAt: string,
    content: string,
    biasScore: JsNumber,
    topic: Option<string>,
    hasAnalysis: bool)

  /** A stored or ephemeral analysis as the backend returns it (`AnalysisResponse`). */
  datatype AnalysisResponse = AnalysisResponse(
    id: int,
    articleId: int,
    bias: string,
    biasConfidence: Confidence,
    summary: string,
    analyzedAt: string,
    keyPoints: Option<seq<string>>)

  /** A rejected HTTP call: the server's `detail` when the response carried one,
      and the transport error's own message. */
  datatype ApiError = ApiError(detail: Option<string>, message: string)

  /** A FastAPI `HTTPException`: status code and detail message. */
  datatype HttpError = HttpError(status: int, detail: string)

  /** A badge: its text and its colour classes. */
  datatype BiasInfo = BiasInfo(text: string, color: string)

  /** A Python `datetime`, known here only by the text of its `isoformat()`. */
  datatype DateTime = DateTime(isoFormat: string)

  /** An article row of the backend (`ArticleInDB`). */
  datatype ArticleInDB = ArticleInDB(
    id: Option<int>,
    sourceId: Option<string>,
    sourceName: string,
    author: Option<string>,
    title: string,
    description: Option<string>,
    url: string,
    urlToImage: Option<string>,
    publishedAt: DateTime,
    content: Option<string>,
    hasAnalysis: Option<bool>)
}
