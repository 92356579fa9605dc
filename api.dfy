/** The frontend's HTTP client: the base URL and the requests built by
    `listArticles`, `getArticle` and `analyze`. A request is described by
    value; sending it is left to the transport. */
module Api {
  import opened Common
  import opened Strings

  /** The base URL used when the environment does not configure one. */
  const DefaultBaseUrl: string := "http://localhost:8000/api"

  const ArticlesRoute: string := "/articles"
  const AnalyzeRoute: string := "/analyze"
  const ArticleIdQuery: string := "?article_id="

  datatype Verb = Get | Post

  /** The JSON body `{ text }`; `None` stands for an undefined `text`,
      which JSON serialisation leaves out. */
  datatype TextBody = TextBody(text: Option<string>)

  /** One request relative to the base URL: verb, path, query parameters, body. */
  datatype Request = Request(verb: Verb, path: string, params: map<string, string>, body: Option<TextBody>)

  /** `VITE_API_BASE_URL || DefaultBaseUrl`: an unset or empty variable falls back. */
  function BaseUrl(env: Option<string>): (url: string)
    ensures url != ""
    ensures env.Some? && env.value != "" ==> url == env.value
    ensures env.None? || env.value == "" ==> url == DefaultBaseUrl
  {
    match env
    case Some(v) => if v != "" then v else DefaultBaseUrl
    case None => DefaultBaseUrl
  }

  /** `listArticles(filters = {})`: the filters travel as query parameters. */
  function ListArticles(filters: Option<map<string, string>>): (r: Request)
    ensures r.verb == Get && r.path == ArticlesRoute && r.body.None?
    ensures filters.None? ==> r.params == map[]
    ensures filters.Some? ==> r.params == filters.value
  {
    Request(Get, ArticlesRoute, if filters.Some? then filters.value else map[], None)
  }

  /** `getArticle(id)`: the id is placed verbatim after `/articles/`. */
  function GetArticle(id: string): (r: Request)
    ensures r.verb == Get && r.params == map[] && r.body.None?
    ensures |r.path| == |ArticlesRoute| + 1 + |id|
    ensures r.path[..|ArticlesRoute| + 1] == ArticlesRoute + "/"
    ensures r.path[|ArticlesRoute| + 1..] == id
  {
    Request(Get, ArticlesRoute + "/" + id, map[], None)
  }

  /** JavaScript truthiness of a numeric `article_id`: present and not 0
      (Python's `if article_id:` on an optional int agrees). */
  predicate IsTruthyId(articleId: Option<int>)
    ensures articleId.None? || articleId == Some(0) ==> !IsTruthyId(articleId)
    ensures articleId.Some? && articleId.value != 0 ==> IsTruthyId(articleId)
  {
    articleId.Some? && articleId.value != 0
  }

  /** The path `analyze` posts to. */
  function AnalyzePath(articleId: Option<int>): (path: string)
    ensures IsTruthyId(articleId) <==> path != AnalyzeRoute
  {
    if IsTruthyId(articleId) then AnalyzeRoute + ArticleIdQuery + IntToDecimal(articleId.value)
    else AnalyzeRoute
  }

  /** `analyze({ text, article_id })`: the body is `{ text }` whatever the id,
      and the id, when truthy, travels only in the query string. */
  function Analyze(text: Option<string>, articleId: Option<int>): (r: Request)
    ensures r.verb == Post && r.params == map[]
    ensures r.body == Some(TextBody(text))
    ensures r.path == AnalyzePath(articleId)
  {
    Request(Post, AnalyzePath(articleId), map[], Some(TextBody(text)))
  }

  /** How the backend's `/analyze` route reads a path: `Some(None)` for the bare
      route, `Some(Some(id))` for a decimal `article_id` query, `None` otherwise. */
  function ReadAnalyzePath(path: string): Option<Option<int>> {
    var prefix := AnalyzeRoute + ArticleIdQuery;
    if path == AnalyzeRoute then Some(None)
    else if |prefix| <= |path| && path[..|prefix|] == prefix then
      match ParseInt(path[|prefix|..])
      case Some(n) => Some(Some(n))
      case None => None
    else None
  }

  /** The backend reads back exactly the id the client meant to send: a truthy
      id arrives unchanged, and a missing or zero id arrives as no id at all. */
  lemma AnalyzePathRoundTrip(articleId: Option<int>)
    ensures ReadAnalyzePath(AnalyzePath(articleId)) == Some(if IsTruthyId(articleId) then articleId else None)
  {
    if IsTruthyId(articleId) {
      var prefix := AnalyzeRoute + ArticleIdQuery;
      var path := AnalyzePath(articleId);
      assert path[..|prefix|] == prefix;
      assert path[|prefix|..] == IntToDecimal(articleId.value);
      IntToDecimalRoundTrip(articleId.value);
    }
  }
}
