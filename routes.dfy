/** The backend's HTTP routes: listing and fetching articles, and the
    `/analyze` handler that picks its input text, runs the (opaque) models,
    splits the key points, and either stores the analysis or returns it
    unsaved. */
module Routes {
  import opened Common
  import opened Strings
  import opened Models
  import Api

  /** The query of `GET /articles`. */
  datatype ArticleQuery = ArticleQuery(topic: Option<string>, dateFrom: Option<DateTime>)

  /** What the classifier and the summarizer produce for a text: the top
      label, its confidence, the summary and the raw key-point text. */
  datatype Inference = Inference(verdict: string, confidence: Confidence, summary: string, rawPoints: string)

  /** The handler's chosen input: the stored article, if one was named, and the text to analyse. */
  datatype AnalysisInput = AnalysisInput(article: Option<ArticleInDB>, text: string)

  /** Python truthiness of an optional string. */
  predicate IsTruthyText(s: Option<string>) {
    s.Some? && s.value != ""
  }

  // ---------------------------------------------------------------------
  // Listing and fetching articles
  // ---------------------------------------------------------------------

  /** `list_articles`: the query is not used; an empty result, even of an
      empty table, is reported as a failure. */
  function ListArticles(rows: seq<ArticleInDB>, query: ArticleQuery): (r: Result<seq<ArticleInDB>, HttpError>)
    ensures rows == [] ==> r == Err(HttpError(500, "Failed to fetch articles"))
    ensures rows != [] ==> r == Ok(rows)
  {
    if rows == [] then Err(HttpError(500, "Failed to fetch articles")) else Ok(rows)
  }

  /** The article filters of the query have no effect on the listing. */
  lemma ListArticlesIgnoresQuery(rows: seq<ArticleInDB>, q1: ArticleQuery, q2: ArticleQuery)
    ensures ListArticles(rows, q1) == ListArticles(rows, q2)
  {
  }

  /** `get_article`: a failed query or a missing row is a 404. */
  function GetArticle(articles: map<int, ArticleInDB>, queryFailed: bool, articleId: int): (r: Result<ArticleInDB, HttpError>)
    ensures r.Ok? <==> !queryFailed && articleId in articles
    ensures r.Ok? ==> r.value == articles[articleId]
    ensures r.Err? ==> r.error == HttpError(404, "Article not found")
  {
    if queryFailed || articleId !in articles then Err(HttpError(404, "Article not found"))
    else Ok(articles[articleId])
  }

  // ---------------------------------------------------------------------
  // Input selection
  // ---------------------------------------------------------------------

  /** `filter(None, parts)`: the present, non-empty parts in order. */
  function TruthyParts(parts: seq<Option<string>>): (r: seq<string>)
    ensures forall i :: 0 <= i < |r| ==> r[i] != ""
    ensures r == [] <==> forall i :: 0 <= i < |parts| ==> !IsTruthyText(parts[i])
    ensures |parts| == 1 ==> r == if IsTruthyText(parts[0]) then [parts[0].value] else []
    decreases |parts|
  {
    if parts == [] then []
    else
      var rest := TruthyParts(parts[1..]);
      assert forall i :: 1 <= i < |parts| ==> parts[i] == parts[1..][i - 1];
      if IsTruthyText(parts[0]) then [parts[0].value] + rest else rest
  }

  /** Filtering a concatenation filters each part: together with the single
      part case this fixes the result on every input. */
  lemma {:induction false} TruthyPartsAppend(p: seq<Option<string>>, q: seq<Option<string>>)
    ensures TruthyParts(p + q) == TruthyParts(p) + TruthyParts(q)
    decreases |p|
  {
    if p == [] {
      assert p + q == q;
    } else {
      assert (p + q)[0] == p[0] && (p + q)[1..] == p[1..] + q;
      TruthyPartsAppend(p[1..], q);
    }
  }

  /** The text of a stored article: title, description and content, those
      that are non-empty, joined by single spaces. */
  function ArticleText(a: ArticleInDB): (t: string)
    ensures t == "" <==> a.title == "" && !IsTruthyText(a.description) && !IsTruthyText(a.content)
  {
    var parts := [Some(a.title), a.description, a.content];
    JoinOfNonEmpty(TruthyParts(parts), " ");
    assert (forall i :: 0 <= i < |parts| ==> !IsTruthyText(parts[i])) <==>
      !IsTruthyText(parts[0]) && !IsTruthyText(parts[1]) && !IsTruthyText(parts[2]);
    Join(TruthyParts(parts), " ")
  }

  /** Each of title, description and content is kept or dropped on its own,
      and the kept ones are joined in that order. */
  lemma ArticleTextParts(a: ArticleInDB)
    ensures ArticleText(a) == Join(TruthyParts([Some(a.title)]) + TruthyParts([a.description]) + TruthyParts([a.content]), " ")
  {
    var parts := [Some(a.title), a.description, a.content];
    assert parts == [Some(a.title)] + [a.description] + [a.content];
    TruthyPartsAppend([Some(a.title)] + [a.description], [a.content]);
    TruthyPartsAppend([Some(a.title)], [a.description]);
  }

  /** With all three parts present they appear in order, one space apart. */
  lemma ArticleTextAllParts(a: ArticleInDB)
    requires a.title != "" && IsTruthyText(a.description) && IsTruthyText(a.content)
    ensures ArticleText(a) == a.title + " " + a.description.value + " " + a.content.value
  {
    var parts := [Some(a.title), a.description, a.content];
    assert parts[1..] == [a.description, a.content] && parts[1..][1..] == [a.content];
    assert TruthyParts([a.content]) == [a.content.value] by {
      assert [a.content][1..] == [];
    }
    var ps := [a.title, a.description.value, a.content.value];
    assert TruthyParts(parts) == ps;
    assert ps[1..] == [a.description.value, a.content.value] && ps[1..][1..] == [a.content.value];
    assert Join(ps[1..], " ") == a.description.value + " " + a.content.value;
  }

  /** A missing description leaves no double space between title and content. */
  lemma ArticleTextWithoutDescription(a: ArticleInDB)
    requires a.title != "" && !IsTruthyText(a.description) && IsTruthyText(a.content)
    ensures ArticleText(a) == a.title + " " + a.content.value
  {
    var parts := [Some(a.title), a.description, a.content];
    assert parts[1..] == [a.description, a.content] && parts[1..][1..] == [a.content];
    assert TruthyParts([a.content]) == [a.content.value] by {
      assert [a.content][1..] == [];
    }
    var ps := [a.title, a.content.value];
    assert TruthyParts(parts[1..]) == [a.content.value];
    assert TruthyParts(parts) == ps;
    assert ps[1..] == [a.content.value];
    assert Join(ps[1..], " ") == a.content.value;
    assert ArticleText(a) == Join(ps, " ");
  }

  /** The handler's choice of input: a truthy `article_id` names a stored
      article (404 when it cannot be read); otherwise a truthy body text is
      used verbatim; otherwise the request is rejected with 400. */
  function SelectInput(articles: map<int, ArticleInDB>, lookupFailed: bool, articleId: Option<int>, bodyText: Option<string>)
    : (r: Result<AnalysisInput, HttpError>)
    ensures Api.IsTruthyId(articleId) && (lookupFailed || articleId.value !in articles) ==>
      r == Err(HttpError(404, "Article not found"))
    ensures Api.IsTruthyId(articleId) && !lookupFailed && articleId.value in articles ==>
      r == Ok(AnalysisInput(Some(articles[articleId.value]), ArticleText(articles[articleId.value])))
    ensures !Api.IsTruthyId(articleId) && IsTruthyText(bodyText) ==>
      r == Ok(AnalysisInput(None, bodyText.value))
    ensures !Api.IsTruthyId(articleId) && !IsTruthyText(bodyText) ==>
      r == Err(HttpError(400, "Provide article_id or raw text"))
  {
    if Api.IsTruthyId(articleId) then
      if lookupFailed || articleId.value !in articles then Err(HttpError(404, "Article not found"))
      else
        var article := articles[articleId.value];
        Ok(AnalysisInput(Some(article), ArticleText(article)))
    else if IsTruthyText(bodyText) then Ok(AnalysisInput(None, bodyText.value))
    else Err(HttpError(400, "Provide article_id or raw text"))
  }

  /** A truthy article id takes precedence: the body text is then ignored. */
  lemma ArticleIdTakesPrecedence(articles: map<int, ArticleInDB>, lookupFailed: bool, articleId: Option<int>, t1: Option<string>, t2: Option<string>)
    requires Api.IsTruthyId(articleId)
    ensures SelectInput(articles, lookupFailed, articleId, t1) == SelectInput(articles, lookupFailed, articleId, t2)
  {
  }

  /** What the frontend's `analyze` sends is what the handler selects on: the
      id read back from the path and the text of the body lead to the same
      input as the arguments the client was called with. */
  lemma ClientRequestSelectsSameInput(articles: map<int, ArticleInDB>, lookupFailed: bool, text: Option<string>, articleId: Option<int>)
    ensures var req := Api.Analyze(text, articleId);
            var read := Api.ReadAnalyzePath(req.path);
            read.Some? && req.body.Some? &&
            SelectInput(articles, lookupFailed, read.value, req.body.value.text) == SelectInput(articles, lookupFailed, articleId, text)
  {
    Api.AnalyzePathRoundTrip(articleId);
  }

  // ---------------------------------------------------------------------
  // Key points
  // ---------------------------------------------------------------------

  /** A key point as the handler keeps it: non-empty, with no whitespace at either end. */
  predicate IsStripped(p: string) {
    p != "" && !IsPySpace(p[0]) && !IsPySpace(p[|p| - 1])
  }

  /** `[strip(p) for p in pieces if strip(p)]`: each kept text is the
      non-empty result of stripping one of the pieces, in piece order. */
  function StripPieces(pieces: seq<string>, strip: string -> string): (r: seq<string>)
    ensures |r| <= |pieces|
    ensures forall p :: p in r ==> p != "" && exists j :: 0 <= j < |pieces| && p == strip(pieces[j])
    decreases |pieces|
  {
    if pieces == [] then []
    else
      var p := strip(pieces[0]);
      var rest := StripPieces(pieces[1..], strip);
      assert forall q :: q in rest ==> exists j :: 0 <= j < |pieces| && q == strip(pieces[j]) by {
        forall q | q in rest
          ensures exists j :: 0 <= j < |pieces| && q == strip(pieces[j])
        {
          var j :| 0 <= j < |pieces| - 1 && q == strip(pieces[1..][j]);
          assert pieces[1..][j] == pieces[j + 1];
        }
      }
      if p == "" then rest else [p] + rest
  }

  /** Stripping concatenated pieces concatenates the kept texts. */
  lemma {:induction false} StripPiecesAppend(a: seq<string>, b: seq<string>, strip: string -> string)
    ensures StripPieces(a + b, strip) == StripPieces(a, strip) + StripPieces(b, strip)
    decreases |a|
  {
    if a == [] {
      assert a + b == b;
    } else {
      assert (a + b)[0] == a[0] && (a + b)[1..] == a[1..] + b;
      StripPiecesAppend(a[1..], b, strip);
    }
  }

  /** With `str.strip`, every kept text has no whitespace at either end, and
      stripping adds no character: pieces without a `.` give texts without one. */
  lemma StripPiecesAddNoDot(pieces: seq<string>)
    requires forall j :: 0 <= j < |pieces| ==> '.' !in pieces[j]
    ensures forall p :: p in StripPieces(pieces, PyStrip) ==> IsStripped(p) && '.' !in p
  {
    forall p | p in StripPieces(pieces, PyStrip)
      ensures IsStripped(p) && '.' !in p
    {
      var j :| 0 <= j < |pieces| && p == PyStrip(pieces[j]);
    }
  }

  /** The key points of the raw model output: its `.`-separated sentences,
      stripped, with the empty ones dropped. None is empty, none contains a
      `.`, and none starts or ends with whitespace. */
  function KeyPoints(raw: string): (ps: seq<string>)
    ensures forall i :: 0 <= i < |ps| ==> IsStripped(ps[i]) && '.' !in ps[i]
  {
    var pieces := Split(raw, '.');
    StripPiecesAddNoDot(pieces);
    StripPieces(pieces, PyStrip)
  }

  /** A single sentence gives its stripped text, or nothing when it is blank. */
  lemma KeyPointsOfSentence(s: string)
    requires '.' !in s
    ensures KeyPoints(s) == if PyStrip(s) == "" then [] else [PyStrip(s)]
  {
    SplitWithoutSeparator(s, '.');
    assert StripPieces([s], PyStrip) == if PyStrip(s) == "" then [] else [PyStrip(s)] by {
      assert [s][1..] == [];
    }
  }

  /** The key points keep the order of the text: those before a `.` come
      before those after it. */
  lemma KeyPointsAppend(a: string, b: string)
    ensures KeyPoints(a + "." + b) == KeyPoints(a) + KeyPoints(b)
  {
    SplitAppend(a, b, '.');
    StripPiecesAppend(Split(a, '.'), Split(b, '.'), PyStrip);
  }

  // ---------------------------------------------------------------------
  // The analyses table and the handler
  // ---------------------------------------------------------------------

  /** The article and analysis tables the handler reads and writes. */
  class Store {
    var articles: map<int, ArticleInDB>
    var analyses: seq<AnalysisResponse>
    var nextAnalysisId: int

    /** Each article row carries its own key, and analysis ids increase in
        insertion order, below the next id to assign. */
    ghost predicate Valid()
      reads this
    {
      && (forall k :: k in articles ==> articles[k].id == Some(k))
      && (forall i :: 0 <= i < |analyses| ==> analyses[i].id < nextAnalysisId)
      && (forall i, j :: 0 <= i < j < |analyses| ==> analyses[i].id < analyses[j].id)
    }

    constructor (articles: map<int, ArticleInDB>)
      requires forall k :: k in articles ==> articles[k].id == Some(k)
      ensures Valid() && this.articles == articles && analyses == [] && nextAnalysisId == 1
    {
      this.articles := articles;
      analyses := [];
      nextAnalysisId := 1;
    }

    /** Inserting a row: unless the insert fails, the row is appended under
        the next id and returned. */
    method Insert(payload: AnalysisResponse, insertError: Option<string>) returns (r: Result<AnalysisResponse, string>)
      requires Valid()
      modifies this`analyses, this`nextAnalysisId
      ensures Valid()
      ensures insertError.Some? ==> r == Err(insertError.value) && analyses == old(analyses) && nextAnalysisId == old(nextAnalysisId)
      ensures insertError.None? ==>
        r == Ok(payload.(id := old(nextAnalysisId))) && analyses == old(analyses) + [r.value] && nextAnalysisId == old(nextAnalysisId) + 1
    {
      if insertError.Some? {
        return Err(insertError.value);
      }
      var row := payload.(id := nextAnalysisId);
      analyses := analyses + [row];
      nextAnalysisId := nextAnalysisId + 1;
      r := Ok(row);
    }
  }

  /** The response for text that names no article: ids -1, not stored. */
  function EphemeralResponse(inference: Inference, now: string): (r: AnalysisResponse)
    ensures r.id == -1 && r.articleId == -1
    ensures r.bias == inference.verdict && r.biasConfidence == inference.confidence && r.summary == inference.summary
    ensures r.keyPoints == Some(KeyPoints(inference.rawPoints)) && r.analyzedAt == now
  {
    AnalysisResponse(-1, -1, inference.verdict, inference.confidence, inference.summary, now, Some(KeyPoints(inference.rawPoints)))
  }

  /** The row stored for an analysis of article `articleId` (its id is given by the table). */
  function StoredPayload(articleId: int, inference: Inference, now: string): (r: AnalysisResponse)
    ensures r.articleId == articleId
    ensures r.bias == inference.verdict && r.biasConfidence == inference.confidence && r.summary == inference.summary
    ensures r.keyPoints == Some(KeyPoints(inference.rawPoints)) && r.analyzedAt == now
  {
    AnalysisResponse(0, articleId, inference.verdict, inference.confidence, inference.summary, now, Some(KeyPoints(inference.rawPoints)))
  }

  /** `analyze_article`: select the input, run the models on its text
      (`infer`), and either store the analysis of a named article or return
      an unsaved one. An insert error is a 500 carrying its message. */
  method AnalyzeArticle(db: Store, lookupFailed: bool, articleId: Option<int>, bodyText: Option<string>,
                        infer: string -> Inference, insertError: Option<string>, now: string)
    returns (r: Result<AnalysisResponse, HttpError>)
    requires db.Valid()
    modifies db
    ensures db.Valid() && db.articles == old(db.articles)
    ensures var input := SelectInput(old(db.articles), lookupFailed, articleId, bodyText);
      input.Err? ==> r == Err(input.error) && db.analyses == old(db.analyses) && db.nextAnalysisId == old(db.nextAnalysisId)
    ensures var input := SelectInput(old(db.articles), lookupFailed, articleId, bodyText);
      input.Ok? && input.value.article.None? ==>
        && r == Ok(EphemeralResponse(infer(input.value.text), now))
        && db.analyses == old(db.analyses) && db.nextAnalysisId == old(db.nextAnalysisId)
    ensures var input := SelectInput(old(db.articles), lookupFailed, articleId, bodyText);
      input.Ok? && input.value.article.Some? && insertError.Some? ==>
        && r == Err(HttpError(500, insertError.value))
        && db.analyses == old(db.analyses) && db.nextAnalysisId == old(db.nextAnalysisId)
    ensures var input := SelectInput(old(db.articles), lookupFailed, articleId, bodyText);
      input.Ok? && input.value.article.Some? && insertError.None? ==>
        && r.Ok?
        && input.value.article.value.id == Some(r.value.articleId)
        && r.value == StoredPayload(articleId.value, infer(input.value.text), now).(id := old(db.nextAnalysisId))
        && db.analyses == old(db.analyses) + [r.value]
        && db.nextAnalysisId == old(db.nextAnalysisId) + 1
  {
    var input := SelectInput(db.articles, lookupFailed, articleId, bodyText);
    if input.Err? {
      return Err(input.error);
    }
    var text := input.value.text;
    var inference := infer(text);
    var keyPoints := KeyPoints(inference.rawPoints);
    if input.value.article.Some? {
      var article := input.value.article.value;
      var payload := AnalysisResponse(0, article.id.value, inference.verdict, inference.confidence,
                                      inference.summary, now, Some(keyPoints));
      var inserted := db.Insert(payload, insertError);
      if inserted.Err? {
        return Err(HttpError(500, inserted.error));
      }
      return Ok(inserted.value);
    }
    r := Ok(AnalysisResponse(-1, -1, inference.verdict, inference.confidence, inference.summary, now, Some(keyPoints)));
  }
}
