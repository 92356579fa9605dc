# FaseLens-AI: a verified model of the article and analysis logic

FaseLens-AI is a news-bias service. A FastAPI backend stores NewsAPI articles
in Supabase and analyses text with a zero-shot classifier and a summarizer.
A React frontend lists the articles, shows one article with its analysis, and
offers a free-text analyzer.

This Dafny project models the parts of both halves that carry logic:

- the article page's filters and its topic and source choices (`Articles`);
- the card's bias badge and analysis button (`ArticleCard`);
- the detail page's verdict badge, the load of an article with its latest
  analysis, and the creation of an analysis (`ArticleDetails`);
- the home-page analyzer's guard, normalisation, alert and badge
  (`AnalyzeSection`);
- the HTTP client's requests (`Api`);
- the backend routes' error branches, input selection and key-point
  splitting, and the stored-versus-unsaved analysis (`Routes`);
- the NewsAPI record transform and the upsert record loop (`DbUtils`).

The JavaScript and Python string primitives the code relies on are in
`Strings`: `trim` and `strip` with their own whitespace sets, ASCII
`toLowerCase`, `includes`, `split`/`join`, and decimal numbers. The shared
records are in `Models`.

Component state is a class per component. React setters are methods with
`modifies` clauses. Every awaited call is an outcome parameter, either a
success value or an error value. The classifier and summarizer are an opaque
function `infer` from text to verdict, confidence, summary and raw key-point
text. The database is the `Routes.Store` class (articles by id, and the
analyses table as a sequence) plus flags for failed queries.

Two quirks of the code are kept:

- `list_articles` ignores its `topic` and `date_from` query.
- The detail page calls a `getAnalyses` client function that `api.js` does
  not define.

## Model

| member | source | states |
|---|---|---|
| Articles.MatchesSearch | frontend/src/pages/Articles.tsx:39-40 | with no description, an article matches iff its lower-cased title contains the lower-cased term |
| Articles.MatchesTopic | frontend/src/pages/Articles.tsx:41 | "all" matches every article; an article without a topic matches only "all"; any other selection matches only articles with exactly that topic |
| Articles.MatchesSource | frontend/src/pages/Articles.tsx:42 | "all" matches every article; any other selection matches iff it equals the article's source name |
| Articles.Keep | frontend/src/pages/Articles.tsx:44 | a kept article matches the search; with both selections "all", the search alone decides |
| Articles.SearchIgnoresCase | frontend/src/pages/Articles.tsx:39-40 | the match is the same for a term and its lower-cased form |
| Articles.FilterArticles | frontend/src/pages/Articles.tsx:38-45 | the visible list is never longer than the loaded list |
| Articles.FilterIsSubsequence | frontend/src/pages/Articles.tsx:38-45 | the visible list is the loaded list with some articles deleted and the order kept |
| Articles.FilterCount | frontend/src/pages/Articles.tsx:38-44 | each article that passes search, topic and source is kept as often as it is loaded; one that fails is never kept |
| Articles.FilterMembership | frontend/src/pages/Articles.tsx:38-44 | an article is visible iff it is loaded and passes all three filters |
| Articles.FilterIdempotent | frontend/src/pages/Articles.tsx:38-45 | filtering the visible list again with the same filters returns it unchanged |
| Articles.InitialFiltersKeepAll | frontend/src/pages/Articles.tsx:10-12 | with empty search and topic and source "all", every loaded article is visible |
| Articles.DistinctTruthy | frontend/src/pages/Articles.tsx:25-26 | the listed values are non-empty, occur among the inputs, are pairwise different, and are no more than the inputs |
| Articles.FirstIndex | frontend/src/pages/Articles.tsx:25-26 | the position of a value's first occurrence: it holds the value, and no earlier position does |
| Articles.DistinctMembership | frontend/src/pages/Articles.tsx:25-26 | a value is listed iff it is non-empty and occurs among the inputs |
| Articles.DistinctFirstSeenOrder | frontend/src/pages/Articles.tsx:25-26 | no value is listed twice, and values are listed in the order of their first occurrence |
| Articles.DistinctIdempotent | frontend/src/pages/Articles.tsx:25-26 | listing the distinct values of a listing changes nothing |
| Articles.DistinctOfDistinct | frontend/src/pages/Articles.tsx:25-26 | distinct non-empty values are listed as they are |
| Articles.TopicValues | frontend/src/pages/Articles.tsx:25 | one topic per article, in order, with a missing topic read as empty |
| Articles.SourceValues | frontend/src/pages/Articles.tsx:26 | one source name per article, in order |
| Articles.TopicOptions | frontend/src/pages/Articles.tsx:28 | the topic choices start with "all" |
| Articles.SourceOptions | frontend/src/pages/Articles.tsx:29 | the source choices start with "all" |
| Articles.TopicOptionsMembership | frontend/src/pages/Articles.tsx:25-28 | after "all", a topic is in the derived topic list iff it is non-empty and some loaded article has it |
| Articles.SelectedTopicIsOffered | frontend/src/pages/Articles.tsx:25-41 | a concrete topic that leaves an article visible is in the derived topic list |
| Articles.ArticlesPage.CurrentFilters | frontend/src/pages/Articles.tsx:10-12 | the filters are the page's search term and its two selections |
| Articles.ArticlesPage.FilteredArticles | frontend/src/pages/Articles.tsx:38-45 | the listed articles are exactly the loaded ones that pass the page's current filters, in load order |
| Articles.ArticlesPage.constructor | frontend/src/pages/Articles.tsx:10-15 | empty search, "all" selected twice, no articles, and both choice lists equal to ["all"] |
| Articles.ArticlesPage.SetSearchTerm | frontend/src/pages/Articles.tsx:10 | sets the search term alone and keeps the choice lists derived from the articles |
| Articles.ArticlesPage.SetSelectedTopic | frontend/src/pages/Articles.tsx:11 | sets the topic selection alone and keeps the choice lists derived |
| Articles.ArticlesPage.SetSelectedSource | frontend/src/pages/Articles.tsx:12 | sets the source selection alone and keeps the choice lists derived |
| Articles.ArticlesPage.FetchArticles | frontend/src/pages/Articles.tsx:19-33 | a successful load replaces the articles and derives both choice lists from them; a failed one changes nothing |
| Articles.MountWithFailedLoad | frontend/src/pages/Articles.tsx:13-32 | after a failed first load, the articles are [], the choice lists are ["all"], and nothing is visible |
| ArticleCard.LessThan | frontend/src/components/ArticleCard.tsx:28-29 | a number compares as itself, null compares as 0, and undefined or NaN is never below the bound |
| ArticleCard.GetBiasLabel | frontend/src/components/ArticleCard.tsx:27-31 | "Neutral" iff the score is below 30; "Moderate" iff it is not below 30 but below 60; "High Bias" otherwise, including for a missing score; these three are the only outcomes |
| ArticleCard.BandsOfNumbers | frontend/src/components/ArticleCard.tsx:28-30 | the bands split the numbers at 30 and 60 |
| ArticleCard.SeverityMonotone | frontend/src/components/ArticleCard.tsx:27-31 | a higher score never gets a less severe badge |
| ArticleCard.MissingScores | frontend/src/components/ArticleCard.tsx:30 | an undefined or NaN score gets "High Bias", and a null score counts as 0 |
| ArticleCard.AnalysisButtonLabel | frontend/src/components/ArticleCard.tsx:79 | "View Analysis" iff the article has an analysis, otherwise "Create Analysis" |
| ArticleDetails.GetBiasLabel | frontend/src/pages/ArticleDetails.tsx:73-86 | the lower-cased verdict "true", "misleading" or "false" gives "Factual", "Misleading" or "False Information"; a missing, empty or other verdict gives "Unknown" |
| ArticleDetails.VerdictIgnoresCase | frontend/src/pages/ArticleDetails.tsx:76 | a verdict and its lower-cased form get the same badge |
| ArticleDetails.ClassifierVerdictsAreKnown | backend/api/routes.py:60 | the classifier's three labels "True", "Misleading" and "False" get the three known badges |
| ArticleDetails.LatestAnalysis | frontend/src/pages/ArticleDetails.tsx:26 | the latest analysis is absent iff the list is empty, and is otherwise its first element |
| ArticleDetails.StoredView | frontend/src/pages/ArticleDetails.tsx:31-38 | the stored panel copies summary, key points and verdict, says "Stored Analysis", shows credibility as confidence times 100, and shows bias as credibility minus 10 |
| ArticleDetails.CreatedView | frontend/src/pages/ArticleDetails.tsx:57-64 | the created panel copies the same fields, says "Auto-generated", and shows equal bias and credibility within 0..100 |
| ArticleDetails.LoadedArticle | frontend/src/pages/ArticleDetails.tsx:26-41 | the loaded article keeps the fetched fields, and hasAnalysis holds iff analyses exist iff a panel is shown |
| ArticleDetails.MergeCreated | frontend/src/pages/ArticleDetails.tsx:54-66 | the response's id overwrites the article's, the other article fields are kept, and hasAnalysis becomes true with the created panel |
| ArticleDetails.StoredAndCreatedScores | frontend/src/pages/ArticleDetails.tsx:34-63 | for the same analysis both panels show the same credibility, and the stored panel shows 10 points less bias |
| ArticleDetails.ArticleDetailPage.constructor | frontend/src/pages/ArticleDetails.tsx:18-19 | no article yet and no creation running |
| ArticleDetails.ArticleDetailPage.FetchData | frontend/src/pages/ArticleDetails.tsx:22-45 | the article is replaced by the loaded article only when both fetches succeed |
| ArticleDetails.ArticleDetailPage.HandleCreateAnalysis | frontend/src/pages/ArticleDetails.tsx:50-71 | analyses the page's article by id with no text, merges a success, leaves the article unchanged on failure, and always clears the flag |
| AnalyzeSection.Round | frontend/src/components/AnalyzeSection.tsx:25 | the rounded value lies within one half of its argument |
| AnalyzeSection.Normalize | frontend/src/components/AnalyzeSection.tsx:24-31 | the bias score is the confidence percentage rounded to an integer in 0..100; verdict, summary and key points pass through; credibility is null and sources "N/A" |
| AnalyzeSection.ErrorText | frontend/src/components/AnalyzeSection.tsx:34 | the server's detail when it is non-empty, else the error message |
| AnalyzeSection.AlertMessage | frontend/src/components/AnalyzeSection.tsx:34 | "Analysis failed: " followed by the error text, unchanged |
| AnalyzeSection.ResultBadge | frontend/src/components/AnalyzeSection.tsx:84 | the badge is destructive iff the bias score is strictly above 60 |
| AnalyzeSection.BadgeThresholdDiffersFromCard | frontend/src/components/AnalyzeSection.tsx:84 | at exactly 60 the analyzer's badge is not destructive while the card says "High Bias" |
| AnalyzeSection.DirectPostMatchesClient | frontend/src/components/AnalyzeSection.tsx:21 | the analyzer's direct post equals the client's `analyze` with text and no id |
| AnalyzeSection.Analyzer.constructor | frontend/src/components/AnalyzeSection.tsx:11-13 | empty text, not analysing, and no results |
| AnalyzeSection.Analyzer.SetInputText | frontend/src/components/AnalyzeSection.tsx:63 | sets the text alone |
| AnalyzeSection.Analyzer.AnalyzeDisabled | frontend/src/components/AnalyzeSection.tsx:69 | the button is disabled iff the text is all whitespace or a request is running |
| AnalyzeSection.Analyzer.ButtonText | frontend/src/components/AnalyzeSection.tsx:73 | "Analyzing..." iff a request is running |
| AnalyzeSection.Analyzer.SettleOutcome | frontend/src/components/AnalyzeSection.tsx:20-34 | a success replaces the results with the normalised response and shows no alert; a failure keeps the results and returns the alert |
| AnalyzeSection.Analyzer.HandleAnalyze | frontend/src/components/AnalyzeSection.tsx:15-38 | blank text sends nothing and changes nothing. Otherwise it posts the untrimmed text to /analyze; a success replaces the results; a failure keeps them and alerts; the flag ends cleared |
| Api.BaseUrl | frontend/src/api.js:4 | the environment's URL when it is set and non-empty, else "http://localhost:8000/api" |
| Api.ListArticles | frontend/src/api.js:14-15 | a GET of /articles with the filters as query parameters, {} by default |
| Api.GetArticle | frontend/src/api.js:18-19 | a GET of "/articles/" followed by the id unchanged |
| Api.IsTruthyId | frontend/src/api.js:26 | a missing id and the id 0 are falsy; every other id is truthy |
| Api.AnalyzePath | frontend/src/api.js:26 | the path differs from the bare /analyze iff the id is truthy |
| Api.Analyze | frontend/src/api.js:24-27 | a POST to that path with no query parameters and the body { text }, whether or not an id is given |
| Api.AnalyzePathRoundTrip | frontend/src/api.js:26 | reading the path back yields the id when it is truthy, and no id when it is missing or 0 |
| Routes.ListArticles | backend/api/routes.py:22-29 | an empty result is a 500 "Failed to fetch articles"; otherwise the rows |
| Routes.ListArticlesIgnoresQuery | backend/api/routes.py:23-25 | the query does not change the listing |
| Routes.GetArticle | backend/api/routes.py:32-37 | a failed query or a missing row is a 404 "Article not found"; otherwise the row |
| Routes.TruthyParts | backend/api/routes.py:51 | only non-empty parts are kept, none are kept iff no part is truthy, and a single part is kept as its text iff it is present and non-empty |
| Routes.TruthyPartsAppend | backend/api/routes.py:51 | filtering a concatenation filters each part and concatenates, so with the single-part case the kept parts are exactly the truthy ones in order |
| Routes.ArticleText | backend/api/routes.py:51 | the joined text is empty iff title, description and content are all empty or missing |
| Routes.ArticleTextParts | backend/api/routes.py:51 | the text joins by spaces, in order, title, description and content, each kept iff present and non-empty |
| Routes.ArticleTextAllParts | backend/api/routes.py:51 | title, description and content are joined in order by single spaces |
| Routes.ArticleTextWithoutDescription | backend/api/routes.py:51 | a missing description leaves a single space between title and content |
| Routes.SelectInput | backend/api/routes.py:45-56 | a truthy id selects the stored article and its text, or is a 404 "Article not found"; with no truthy id, a truthy body text is used as is; otherwise a 400 "Provide article_id or raw text" |
| Routes.ArticleIdTakesPrecedence | backend/api/routes.py:46-52 | with a truthy id, the body text does not matter |
| Routes.ClientRequestSelectsSameInput | backend/api/routes.py:43-56 | the id and text the client's `analyze` sends lead the handler to the same input as the client's own arguments |
| Routes.StripPieces | backend/api/routes.py:88 | there are no more kept texts than pieces, and each kept text is non-empty and is the stripped form of one of the pieces |
| Routes.StripPiecesAppend | backend/api/routes.py:88 | stripping concatenated pieces concatenates the kept texts |
| Routes.StripPiecesAddNoDot | backend/api/routes.py:88 | with `str.strip`, every kept text has no surrounding whitespace, and pieces without "." give kept texts without "." |
| Routes.KeyPoints | backend/api/routes.py:88 | no key point is empty, contains ".", or starts or ends with whitespace |
| Routes.KeyPointsOfSentence | backend/api/routes.py:88 | text without "." gives its stripped form, or nothing when blank |
| Routes.KeyPointsAppend | backend/api/routes.py:88 | the key points of "a.b" are those of a followed by those of b |
| Routes.Store.constructor | backend/db/models.py:5-16 | the article rows are keyed by their own ids, and the analyses table starts empty |
| Routes.Store.Insert | backend/api/routes.py:100-103 | a failed insert changes nothing; otherwise the row is appended under the next id and returned, with ids kept increasing |
| Routes.EphemeralResponse | backend/api/routes.py:106-114 | the unsaved response has id and article id -1 and carries the inference and its key points |
| Routes.StoredPayload | backend/api/routes.py:92-99 | the stored payload names the article and carries the inference and its key points |
| Routes.AnalyzeArticle | backend/api/routes.py:39-114 | selection errors are returned unchanged. A named article's analysis is stored under the next id, with its article_id equal to the article's id; an insert error is a 500 with its message. Text alone gives the unsaved response. The table and the next id change only on a stored analysis, and the next id then grows by one |
| DbUtils.Get | backend/db/utils.py:23-31 | the value under the key, or null when it is missing |
| DbUtils.TransformArticle | backend/db/utils.py:21-33 | a record without "source" fails with KeyError and a non-object source with AttributeError. Otherwise the result has exactly ten keys, every article field except id: source id and name from the source, the seven copied keys (null when missing), and hasAnalysis false |
| DbUtils.TransformIgnoresOtherKeys | backend/db/utils.py:21-33 | keys other than "source" and the copied ones do not affect the result |
| DbUtils.TransformIgnoresOtherSourceKeys | backend/db/utils.py:23-24 | only the id and the name of the source object are read |
| DbUtils.FieldValue | backend/db/models.py:5-16 | only publishedAt holds a datetime |
| DbUtils.ExcludeNone | backend/db/utils.py:13 | exactly the given fields whose value is not None, with their values |
| DbUtils.ArticleDict | backend/db/utils.py:13 | exactly the article's fields whose value is not None, with their values |
| DbUtils.ToRecord | backend/db/utils.py:13-15 | the same keys as the dict, publishedAt as its ISO string, the other values unchanged, and no None or datetime value |
| DbUtils.BuildUpsertRecords | backend/db/utils.py:11-16 | one record per article, in input order, each the article's record |
| DbUtils.UpsertArticles | backend/db/utils.py:10-20 | sends one record per article in order; an empty response is a 500 "Failed to upsert articles" |
| Strings.Lower | frontend/src/pages/Articles.tsx:39-40 | lower-casing keeps the length and lower-cases each character |
| Strings.Contains | frontend/src/pages/Articles.tsx:39-40 | `includes` holds iff the needle occurs at some position |
| Strings.EmptyOccursEverywhere | frontend/src/pages/Articles.tsx:39 | the empty term occurs in every text |
| Strings.Trim | frontend/src/components/AnalyzeSection.tsx:16 | the result is the input with a run of whitespace removed at each end, neither starts nor ends with whitespace, and is empty iff the input is all whitespace |
| Strings.TrimOfUnique | frontend/src/components/AnalyzeSection.tsx:16 | only one text is the input with its surrounding whitespace removed, so the contract of `Trim` fixes its result |
| Strings.JsTrim | frontend/src/components/AnalyzeSection.tsx:16 | `trim()` removes exactly the surrounding JavaScript whitespace |
| Strings.IsBlank | frontend/src/components/AnalyzeSection.tsx:16 | a text trims to empty iff every character is JavaScript whitespace |
| Strings.PyStrip | backend/api/routes.py:88 | `strip()` removes exactly the surrounding Python whitespace and adds no character |
| Strings.Split | backend/api/routes.py:88 | at least one piece, and no piece contains the separator |
| Strings.SplitWithoutSeparator | backend/api/routes.py:88 | text without the separator is one piece |
| Strings.JoinSplit | backend/api/routes.py:88 | joining the pieces with the separator restores the text |
| Strings.SplitAppend | backend/api/routes.py:88 | splitting "a", the separator, and "b" gives the pieces of a followed by those of b |
| Strings.Join | backend/api/routes.py:51 | no parts join to ""; otherwise the result starts with the first part |
| Strings.JoinOfNonEmpty | backend/api/routes.py:51 | joining non-empty parts gives "" iff there are no parts |
| Strings.IntToDecimal | frontend/src/api.js:26 | a non-empty text of digits, after a "-" for a negative number |
| Strings.IntToDecimalRoundTrip | frontend/src/api.js:26 | the decimal text of an id reads back as that id |

## Left out

- JSX markup, styling, icons and routing are not modelled. `Header`,
  `Footer` and `NotFound` render static content, and `Index` renders static
  content around the analyzer (`AnalyzeSection`). `ArticleList`
  renders the filtered articles, which `FilteredArticles` models.
- `ArticleFilters` is not modelled. It renders the topic and source lists of
  the mock data module, so the lists derived at `Articles.tsx` lines 28-29
  (`TopicOptions`, `SourceOptions`) are computed but never shown.
- `getAnalyses` is not part of this model. `ArticleDetails.tsx` imports it,
  but `api.js` does not export it and no backend route lists analyses. Its
  result is an outcome parameter of `FetchData`.
- The classifier, the summarizer and the LangChain prompts are not modelled.
  They become the opaque `infer` function. Its confidence is a real in
  [0, 1], and its verdict is any string.
- The Supabase client, the NewsAPI fetch and the axios transport are not
  modelled. Query results, insert errors and upsert responses are
  parameters. The `on_conflict` upsert semantics are not modelled.
- Routes.AnalyzeArticle: the response of a stored analysis is the inserted
  payload with its new id, so database defaults and triggers are not
  modelled.
- `datetime.now` and ISO formatting are not modelled. A timestamp is an
  opaque ISO string.
- Floating point is not modelled. Confidence is a real number,
  `bias_confidence * 100` is exact, and `Math.round` is the exact "round
  half up".
- Strings.Lower: lower-cases ASCII letters only. JavaScript's
  `toLowerCase` also maps non-ASCII letters.
- Strings.ParseInt: reads only an optional "-" followed by decimal digits.
  FastAPI's integer parser also accepts forms such as "+5" or surrounding
  whitespace, which the client never sends.
- Api.GetArticle: the id is the route parameter's text, and axios's joining
  with the base URL is not modelled.
- Async interleavings are not modelled, such as a response arriving after
  unmount or a second click before the flag is set. Each handler runs to
  completion in the model.
- The card's score is modelled as a JavaScript value: a number, null,
  undefined or NaN. `Article` has no other untyped field.
- The cron scheduler and the application lifespan are not modelled.
