/** The backend's database helpers: turning a NewsAPI record into an article
    record, and building the records of an article upsert. */
module DbUtils {
  import opened Common
  import opened Models

  // ---------------------------------------------------------------------
  // transform_article
  // ---------------------------------------------------------------------

  /** A JSON value as NewsAPI delivers it. */
  datatype Json = JNull | JBool(b: bool) | JNum(n: real) | JStr(s: string) | JArr(items: seq<Json>) | JObj(fields: map<string, Json>)

  /** How `transform_article` fails: `raw["source"]` raises `KeyError` when
      the key is missing, and `.get` on a source that is not an object raises
      `AttributeError`. */
  datatype TransformError = KeyError(key: string) | AttributeError

  /** `d.get(k)`: the value under `k`, or null when there is none. */
  function Get(d: map<string, Json>, k: string): (v: Json)
    ensures k in d ==> v == d[k]
    ensures k !in d ==> v == JNull
  {
    if k in d then d[k] else JNull
  }

  /** The fields of an article record; `Key` gives each one's name as a dictionary key. */
  datatype Field = Id | SourceId | SourceName | Author | Title | Description
                 | Url | UrlToImage | PublishedAt | Content | HasAnalysis

  function Key(f: Field): string {
    match f
    case Id => "id"
    case SourceId => "source_id"
    case SourceName => "source_name"
    case Author => "author"
    case Title => "title"
    case Description => "description"
    case Url => "url"
    case UrlToImage => "urlToImage"
    case PublishedAt => "publishedAt"
    case Content => "content"
    case HasAnalysis => "hasAnalysis"
  }

  /** The fields copied unchanged from the raw record, under the same key. */
  const CopiedFields: set<Field> := {Author, Title, Description, Url, UrlToImage, PublishedAt, Content}

  /** `transform_article(raw)`: the source's id and name, the copied fields
      (null where the raw record has none), and `hasAnalysis` false; every
      article field but the database id. */
  function TransformArticle(raw: map<string, Json>): (r: Result<map<Field, Json>, TransformError>)
    ensures "source" !in raw ==> r == Err(KeyError("source"))
    ensures "source" in raw && !raw["source"].JObj? ==> r == Err(AttributeError)
    ensures "source" in raw && raw["source"].JObj? ==>
      && r.Ok?
      && r.value.Keys == {SourceId, SourceName, Author, Title, Description, Url, UrlToImage, PublishedAt, Content, HasAnalysis}
      && r.value[HasAnalysis] == JBool(false)
      && r.value[SourceId] == Get(raw["source"].fields, "id")
      && r.value[SourceName] == Get(raw["source"].fields, "name")
      && (forall f :: f in CopiedFields ==> r.value[f] == Get(raw, Key(f)))
  {
    if "source" !in raw then Err(KeyError("source"))
    else if !raw["source"].JObj? then Err(AttributeError)
    else
      var source := raw["source"].fields;
      Ok(map[
        SourceId := Get(source, "id"),
        SourceName := Get(source, "name"),
        Author := Get(raw, Key(Author)),
        Title := Get(raw, Key(Title)),
        Description := Get(raw, Key(Description)),
        Url := Get(raw, Key(Url)),
        UrlToImage := Get(raw, Key(UrlToImage)),
        PublishedAt := Get(raw, Key(PublishedAt)),
        Content := Get(raw, Key(Content)),
        HasAnalysis := JBool(false)])
  }

  /** Keys of the raw record other than the source and the copied ones do
      not reach the article record. */
  lemma TransformIgnoresOtherKeys(raw: map<string, Json>, k: string, v: Json)
    requires k != "source" && forall f :: f in CopiedFields ==> k != Key(f)
    ensures TransformArticle(raw[k := v]) == TransformArticle(raw)
  {
    var raw' := raw[k := v];
    assert "source" in raw' <==> "source" in raw;
    if "source" in raw {
      assert raw'["source"] == raw["source"];
      assert forall f :: f in CopiedFields ==> Get(raw', Key(f)) == Get(raw, Key(f));
    }
  }

  /** Of the source object only its id and name are read. */
  lemma TransformIgnoresOtherSourceKeys(raw: map<string, Json>, k: string, v: Json)
    requires "source" in raw && raw["source"].JObj?
    requires k != "id" && k != "name"
    ensures TransformArticle(raw["source" := JObj(raw["source"].fields[k := v])]) == TransformArticle(raw)
  {
    var source := raw["source"].fields;
    var raw' := raw["source" := JObj(source[k := v])];
    assert Get(source[k := v], "id") == Get(source, "id");
    assert Get(source[k := v], "name") == Get(source, "name");
    assert forall f :: f in CopiedFields ==> Get(raw', Key(f)) == Get(raw, Key(f));
  }

  // ---------------------------------------------------------------------
  // upsert_articles
  // ---------------------------------------------------------------------

  /** A Python value of an article's fields. */
  datatype PyValue = PNone | PBool(b: bool) | PInt(i: int) | PStr(s: string) | PTime(time: DateTime)

  /** A record, keyed by field. */
  type Record = map<Field, PyValue>

  /** The fields in declaration order. */
  const FieldOrder: seq<Field> := [Id, SourceId, SourceName, Author, Title, Description,
                                   Url, UrlToImage, PublishedAt, Content, HasAnalysis]

  function OptInt(o: Option<int>): PyValue { if o.Some? then PInt(o.value) else PNone }
  function OptStr(o: Option<string>): PyValue { if o.Some? then PStr(o.value) else PNone }
  function OptBool(o: Option<bool>): PyValue { if o.Some? then PBool(o.value) else PNone }

  /** The value of a field of an article, `PNone` for a missing optional one. */
  function FieldValue(a: ArticleInDB, f: Field): (v: PyValue)
    ensures v.PTime? <==> f == PublishedAt
  {
    match f
    case Id => OptInt(a.id)
    case SourceId => OptStr(a.sourceId)
    case SourceName => PStr(a.sourceName)
    case Author => OptStr(a.author)
    case Title => PStr(a.title)
    case Description => OptStr(a.description)
    case Url => PStr(a.url)
    case UrlToImage => OptStr(a.urlToImage)
    case PublishedAt => PTime(a.publishedAt)
    case Content => OptStr(a.content)
    case HasAnalysis => OptBool(a.hasAnalysis)
  }

  /** The given fields of an article whose value is not None. */
  function ExcludeNone(a: ArticleInDB, fields: seq<Field>): (d: Record)
    ensures forall f :: f in d <==> f in fields && FieldValue(a, f) != PNone
    ensures forall f :: f in d ==> d[f] == FieldValue(a, f)
    decreases |fields|
  {
    if fields == [] then map[]
    else
      var d := ExcludeNone(a, fields[..|fields| - 1]);
      var f := fields[|fields| - 1];
      assert fields == fields[..|fields| - 1] + [f];
      if FieldValue(a, f) == PNone then d else d[f := FieldValue(a, f)]
  }

  /** Every field appears in the declaration order. */
  lemma FieldListed(f: Field)
    ensures f in FieldOrder
  {
    match f
    case Id => assert FieldOrder[0] == f;
    case SourceId => assert FieldOrder[1] == f;
    case SourceName => assert FieldOrder[2] == f;
    case Author => assert FieldOrder[3] == f;
    case Title => assert FieldOrder[4] == f;
    case Description => assert FieldOrder[5] == f;
    case Url => assert FieldOrder[6] == f;
    case UrlToImage => assert FieldOrder[7] == f;
    case PublishedAt => assert FieldOrder[8] == f;
    case Content => assert FieldOrder[9] == f;
    case HasAnalysis => assert FieldOrder[10] == f;
  }

  /** `article.dict(exclude_none=True)`: every field whose value is not None. */
  function ArticleDict(a: ArticleInDB): (d: Record)
    ensures forall f :: f in d <==> FieldValue(a, f) != PNone
    ensures forall f :: f in d ==> d[f] == FieldValue(a, f) && d[f] != PNone
  {
    forall f: Field ensures f in FieldOrder {
      FieldListed(f);
    }
    ExcludeNone(a, FieldOrder)
  }

  /** The record sent for one article: its non-None fields, with the
      publication time as an ISO string. No value is None or a datetime. */
  function ToRecord(a: ArticleInDB): (rec: Record)
    ensures forall f :: f in rec <==> FieldValue(a, f) != PNone
    ensures Url in rec && rec[Url] == PStr(a.url)
    ensures PublishedAt in rec && rec[PublishedAt] == PStr(a.publishedAt.isoFormat)
    ensures forall f :: f in rec && f != PublishedAt ==> rec[f] == FieldValue(a, f)
    ensures forall f :: f in rec ==> rec[f] != PNone && !rec[f].PTime?
  {
    var d := ArticleDict(a);
    if PublishedAt in d && d[PublishedAt].PTime? then d[PublishedAt := PStr(d[PublishedAt].time.isoFormat)]
    else d
  }

  /** The record-building loop of `upsert_articles`: one record per article,
      in input order. */
  method BuildUpsertRecords(articles: seq<ArticleInDB>) returns (records: seq<Record>)
    ensures |records| == |articles|
    ensures forall i :: 0 <= i < |articles| ==> records[i] == ToRecord(articles[i])
  {
    records := [];
    for n := 0 to |articles|
      invariant |records| == n
      invariant forall i :: 0 <= i < n ==> records[i] == ToRecord(articles[i])
    {
      var record := ArticleDict(articles[n]);
      if PublishedAt in record && record[PublishedAt].PTime? {
        record := record[PublishedAt := PStr(record[PublishedAt].time.isoFormat)];
      }
      assert record == ToRecord(articles[n]);
      records := records + [record];
    }
  }

  /** `upsert_articles`: build the records and send them (`upsert` stands for
      the database, returning the rows it reports); an empty report is a 500. */
  method UpsertArticles(articles: seq<ArticleInDB>, upsert: seq<Record> -> seq<Record>)
    returns (sent: seq<Record>, error: Option<HttpError>)
    ensures |sent| == |articles| && forall i :: 0 <= i < |articles| ==> sent[i] == ToRecord(articles[i])
    ensures error.Some? <==> upsert(sent) == []
    ensures error.Some? ==> error.value == HttpError(500, "Failed to upsert articles")
  {
    sent := BuildUpsertRecords(articles);
    var data := upsert(sent);
    error := if data == [] then Some(HttpError(500, "Failed to upsert articles")) else None;
  }
}
