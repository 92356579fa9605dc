/** The article collection page: the loaded articles, the topic and source
    choices derived from them, and the three filters that select the visible
    articles. */
module Articles {
  import opened Common
  import opened Strings
  import opened Models

  /** The sentinel choice meaning "do not filter on this field". */
  const All: string := "all"

  /** The three filter fields of the page. */
  datatype Filters = Filters(searchTerm: string, topic: string, source: string)

  /** The filters the page starts with. */
  const InitialFilters: Filters := Filters("", All, All)

  // ---------------------------------------------------------------------
  // Filtering
  // ---------------------------------------------------------------------

  /** The search term occurs, ignoring case, in the title or in the description;
      a missing description never matches. */
  predicate MatchesSearch(a: Article, term: string)
    ensures a.description.None? ==> (MatchesSearch(a, term) <==> Contains(Lower(a.title), Lower(term)))
  {
    || Contains(Lower(a.title), Lower(term))
    || (a.description.Some? && Contains(Lower(a.description.value), Lower(term)))
  }

  /** The selected topic is the sentinel or the article's topic; an article
      without a topic shows only under the sentinel. */
  predicate MatchesTopic(a: Article, topic: string)
    ensures topic == All ==> MatchesTopic(a, topic)
    ensures a.topic.None? ==> (MatchesTopic(a, topic) <==> topic == All)
    ensures topic != All && MatchesTopic(a, topic) ==> a.topic == Some(topic)
  {
    topic == All || a.topic == Some(topic)
  }

  /** The selected source is the sentinel or the article's source name. */
  predicate MatchesSource(a: Article, source: string)
    ensures source == All ==> MatchesSource(a, source)
    ensures source != All ==> (MatchesSource(a, source) <==> a.sourceName == source)
  {
    source == All || a.sourceName == source
  }

  /** The article passes all three filters; with both selections at the
      sentinel only the search decides. */
  predicate Keep(a: Article, f: Filters)
    ensures Keep(a, f) ==> MatchesSearch(a, f.searchTerm)
    ensures f.topic == All && f.source == All ==> (Keep(a, f) <==> MatchesSearch(a, f.searchTerm))
  {
    MatchesSearch(a, f.searchTerm) && MatchesTopic(a, f.topic) && MatchesSource(a, f.source)
  }

  /** `articles.filter(...)`: the articles that pass the filters, in order. */
  function FilterArticles(xs: seq<Article>, f: Filters): (ys: seq<Article>)
    ensures |ys| <= |xs|
    decreases |xs|
  {
    if xs == [] then []
    else if Keep(xs[0], f) then [xs[0]] + FilterArticles(xs[1..], f)
    else FilterArticles(xs[1..], f)
  }

  /** `ys` can be obtained from `xs` by deleting elements, keeping the order. */
  predicate IsSubsequence<T(==)>(ys: seq<T>, xs: seq<T>)
    decreases |xs|
  {
    if ys == [] then true
    else if xs == [] then false
    else if ys[0] == xs[0] then IsSubsequence(ys[1..], xs[1..])
    else IsSubsequence(ys, xs[1..])
  }

  /** The visible list is the loaded list with some articles deleted and the
      relative order kept. */
  lemma {:induction false} FilterIsSubsequence(xs: seq<Article>, f: Filters)
    ensures IsSubsequence(FilterArticles(xs, f), xs)
    decreases |xs|
  {
    if xs != [] {
      FilterIsSubsequence(xs[1..], f);
      var ys := FilterArticles(xs, f);
      if Keep(xs[0], f) {
        assert ys[0] == xs[0] && ys[1..] == FilterArticles(xs[1..], f);
      } else if ys != [] && ys[0] == xs[0] {
        // the rest is a subsequence of xs[1..], so dropping its head keeps it one
        SubsequenceDropHead(ys, xs[1..]);
      }
    }
  }

  lemma {:induction false} SubsequenceDropHead<T>(ys: seq<T>, xs: seq<T>)
    requires ys != [] && IsSubsequence(ys, xs)
    ensures IsSubsequence(ys[1..], xs)
    decreases |xs|
  {
    if xs != [] && ys[0] != xs[0] {
      SubsequenceDropHead(ys, xs[1..]);
      if ys[1..] != [] && ys[1..][0] != xs[0] {
      } else if ys[1..] != [] {
        SubsequenceDropHead(ys[1..], xs[1..]);
      }
    } else if xs != [] {
      if ys[1..] != [] && ys[1..][0] == xs[0] {
        SubsequenceDropHead(ys[1..], xs[1..]);
      }
    }
  }

  /** Every occurrence of an article that passes all three filters is kept, and
      no article that fails one of them is: the visible list holds each article
      exactly as often as the loaded list when it passes, and never otherwise. */
  lemma {:induction false} FilterCount(xs: seq<Article>, f: Filters, a: Article)
    ensures multiset(FilterArticles(xs, f))[a] == if Keep(a, f) then multiset(xs)[a] else 0
    decreases |xs|
  {
    if xs != [] {
      FilterCount(xs[1..], f, a);
      assert xs == [xs[0]] + xs[1..];
    }
  }

  /** An article is visible iff it is loaded and passes search, topic and source. */
  lemma FilterMembership(xs: seq<Article>, f: Filters, a: Article)
    ensures a in FilterArticles(xs, f) <==> a in xs && Keep(a, f)
  {
    FilterCount(xs, f, a);
    assert a in FilterArticles(xs, f) <==> multiset(FilterArticles(xs, f))[a] > 0;
    assert a in xs <==> multiset(xs)[a] > 0;
  }

  /** Filtering the visible list again with the same filters changes nothing. */
  lemma {:induction false} FilterIdempotent(xs: seq<Article>, f: Filters)
    ensures FilterArticles(FilterArticles(xs, f), f) == FilterArticles(xs, f)
    decreases |xs|
  {
    if xs != [] {
      FilterIdempotent(xs[1..], f);
      var ys := FilterArticles(xs, f);
      if Keep(xs[0], f) {
        assert ys[0] == xs[0] && ys[1..] == FilterArticles(xs[1..], f);
      }
    }
  }

  /** With the initial filters (empty search, both selections "all") every
      article is visible, since the empty term occurs in every title. */
  lemma {:induction false} InitialFiltersKeepAll(xs: seq<Article>)
    ensures FilterArticles(xs, InitialFilters) == xs
    decreases |xs|
  {
    if xs != [] {
      EmptyOccursEverywhere(Lower(xs[0].title));
      assert Lower("") == "";
      assert Keep(xs[0], InitialFilters);
      InitialFiltersKeepAll(xs[1..]);
      assert [xs[0]] + xs[1..] == xs;
    }
  }

  /** The search ignores the case of the term. */
  lemma SearchIgnoresCase(a: Article, term: string)
    ensures MatchesSearch(a, term) <==> MatchesSearch(a, Lower(term))
  {
    LowerIdempotent(term);
  }

  // ---------------------------------------------------------------------
  // Topic and source choices
  // ---------------------------------------------------------------------

  /** `Array.from(new Set(values.filter(Boolean)))`: the non-empty values,
      each once, in the order of their first occurrence. */
  function DistinctTruthy(values: seq<string>): (r: seq<string>)
    ensures |r| <= |values|
    ensures forall i :: 0 <= i < |r| ==> r[i] != "" && r[i] in values
    ensures forall i, j :: 0 <= i < j < |r| ==> r[i] != r[j]
    decreases |values|
  {
    if values == [] then []
    else
      var d := DistinctTruthy(values[..|values| - 1]);
      var v := values[|values| - 1];
      if v == "" || v in d then d else d + [v]
  }

  /** Index of the first occurrence of `v`. */
  function FirstIndex(values: seq<string>, v: string): (k: nat)
    requires v in values
    ensures k < |values| && values[k] == v && v !in values[..k]
    decreases |values|
  {
    if values[0] == v then 0
    else
      var k := FirstIndex(values[1..], v);
      assert values[..k + 1] == [values[0]] + values[1..][..k];
      k + 1
  }

  lemma FirstIndexOfPrefix(values: seq<string>, n: nat, v: string)
    requires n <= |values| && v in values[..n]
    ensures FirstIndex(values[..n], v) == FirstIndex(values, v)
  {
    var k := FirstIndex(values[..n], v);
    var j := FirstIndex(values, v);
    assert values[..n][..k] == values[..k];
  }

  /** A value is listed iff it is non-empty and occurs among the inputs. */
  lemma {:induction false} DistinctMembership(values: seq<string>, v: string)
    ensures v in DistinctTruthy(values) <==> v != "" && v in values
    decreases |values|
  {
    if values != [] {
      var init := values[..|values| - 1];
      DistinctMembership(init, v);
      assert values == init + [values[|values| - 1]];
    }
  }

  /** No value is listed twice, and the values are listed in the order in which
      they first occur among the inputs. */
  lemma {:induction false} DistinctFirstSeenOrder(values: seq<string>)
    ensures var d := DistinctTruthy(values);
            forall i, j :: 0 <= i < j < |d| ==>
              d[i] in values && d[j] in values && FirstIndex(values, d[i]) < FirstIndex(values, d[j])
    decreases |values|
  {
    if values != [] {
      var init := values[..|values| - 1];
      var v := values[|values| - 1];
      var d0 := DistinctTruthy(init);
      var d := DistinctTruthy(values);
      DistinctFirstSeenOrder(init);
      forall i | 0 <= i < |d0|
        ensures d0[i] in init && FirstIndex(values, d0[i]) == FirstIndex(init, d0[i])
      {
        DistinctMembership(init, d0[i]);
        FirstIndexOfPrefix(values, |values| - 1, d0[i]);
        assert values[..|values| - 1] == init;
      }
      if !(v == "" || v in d0) {
        DistinctMembership(init, v);
        assert v !in init;
        var k := FirstIndex(values, v);
        assert k == |values| - 1 by {
          assert forall i :: 0 <= i < |values| - 1 ==> values[i] == init[i];
        }
      }
    }
  }

  /** Listing the choices of an already listed sequence changes nothing. */
  lemma {:induction false} DistinctIdempotent(values: seq<string>)
    ensures DistinctTruthy(DistinctTruthy(values)) == DistinctTruthy(values)
  {
    var d := DistinctTruthy(values);
    DistinctFirstSeenOrder(values);
    forall i | 0 <= i < |d| ensures d[i] != "" {
      DistinctMembership(values, d[i]);
    }
    DistinctOfDistinct(d);
  }

  /** A sequence of distinct non-empty values lists as itself. */
  lemma {:induction false} DistinctOfDistinct(values: seq<string>)
    requires forall i :: 0 <= i < |values| ==> values[i] != ""
    requires forall i, j :: 0 <= i < j < |values| ==> values[i] != values[j]
    ensures DistinctTruthy(values) == values
    decreases |values|
  {
    if values != [] {
      var init := values[..|values| - 1];
      DistinctOfDistinct(init);
      assert values[|values| - 1] !in init;
      assert init + [values[|values| - 1]] == values;
    }
  }

  /** The topic of an article as the page reads it; a missing topic reads as
      the empty string, falsy like `undefined`. */
  function TopicText(a: Article): string {
    if a.topic.Some? then a.topic.value else ""
  }

  function TopicValues(xs: seq<Article>): (r: seq<string>)
    ensures |r| == |xs| && forall i :: 0 <= i < |xs| ==> r[i] == TopicText(xs[i])
  {
    seq(|xs|, i requires 0 <= i < |xs| => TopicText(xs[i]))
  }

  function SourceValues(xs: seq<Article>): (r: seq<string>)
    ensures |r| == |xs| && forall i :: 0 <= i < |xs| ==> r[i] == xs[i].sourceName
  {
    seq(|xs|, i requires 0 <= i < |xs| => xs[i].sourceName)
  }

  /** `['all', ...uniqueTopics]`. */
  function TopicOptions(xs: seq<Article>): (r: seq<string>)
    ensures |r| >= 1 && r[0] == All
  {
    [All] + DistinctTruthy(TopicValues(xs))
  }

  /** `['all', ...uniqueSources]`. */
  function SourceOptions(xs: seq<Article>): (r: seq<string>)
    ensures |r| >= 1 && r[0] == All
  {
    [All] + DistinctTruthy(SourceValues(xs))
  }

  /** After the sentinel, a topic is in the derived topic list iff some
      loaded article carries it and it is not empty. */
  lemma TopicOptionsMembership(xs: seq<Article>, t: string)
    ensures t in TopicOptions(xs)[1..] <==> t != "" && exists a :: a in xs && a.topic == Some(t)
  {
    var vs := TopicValues(xs);
    DistinctMembership(vs, t);
    assert TopicOptions(xs)[1..] == DistinctTruthy(vs);
    if t != "" && t in vs {
      var i :| 0 <= i < |vs| && vs[i] == t;
      assert xs[i] in xs && xs[i].topic == Some(t);
    }
    if t != "" && exists a :: a in xs && a.topic == Some(t) {
      var a :| a in xs && a.topic == Some(t);
      var i :| 0 <= i < |xs| && xs[i] == a;
      assert vs[i] == t;
    }
  }

  /** A concrete topic that leaves some article visible is in the derived topic list. */
  lemma SelectedTopicIsOffered(xs: seq<Article>, f: Filters)
    requires f.topic != All && f.topic != ""
    requires FilterArticles(xs, f) != []
    ensures f.topic in TopicOptions(xs)
  {
    var a := FilterArticles(xs, f)[0];
    FilterMembership(xs, f, a);
    TopicOptionsMembership(xs, f.topic);
    assert f.topic in TopicOptions(xs)[1..];
  }

  // ---------------------------------------------------------------------
  // The page state
  // ---------------------------------------------------------------------

  /** The state of the collection page. */
  class ArticlesPage {
    var searchTerm: string
    var selectedTopic: string
    var selectedSource: string
    var articles: seq<Article>
    var topics: seq<string>
    var sources: seq<string>

    /** The choice lists are always derived from the loaded articles. */
    ghost predicate Valid()
      reads this
    {
      topics == TopicOptions(articles) && sources == SourceOptions(articles)
    }

    function CurrentFilters(): (f: Filters)
      reads this
      ensures f.searchTerm == searchTerm && f.topic == selectedTopic && f.source == selectedSource
    {
      Filters(searchTerm, selectedTopic, selectedSource)
    }

    /** `filteredArticles`: what the page lists, the loaded articles that
        pass the current filters, in load order. */
    function FilteredArticles(): (r: seq<Article>)
      reads this
      ensures forall a :: a in r <==> a in articles && Keep(a, CurrentFilters())
      ensures IsSubsequence(r, articles)
    {
      var r := FilterArticles(articles, CurrentFilters());
      forall a | true
        ensures a in r <==> a in articles && Keep(a, CurrentFilters())
      {
        FilterMembership(articles, CurrentFilters(), a);
      }
      FilterIsSubsequence(articles, CurrentFilters());
      r
    }

    /** A freshly mounted page: empty search, both selections "all", nothing
        loaded, and the choice lists holding only the sentinel. */
    constructor ()
      ensures Valid()
      ensures searchTerm == "" && selectedTopic == All && selectedSource == All
      ensures articles == [] && topics == [All] && sources == [All]
    {
      searchTerm := "";
      selectedTopic := All;
      selectedSource := All;
      articles := [];
      topics := [All];
      sources := [All];
    }

    method SetSearchTerm(term: string)
      requires Valid()
      modifies this`searchTerm
      ensures Valid() && searchTerm == term
    {
      searchTerm := term;
    }

    method SetSelectedTopic(topic: string)
      requires Valid()
      modifies this`selectedTopic
      ensures Valid() && selectedTopic == topic
    {
      selectedTopic := topic;
    }

    method SetSelectedSource(source: string)
      requires Valid()
      modifies this`selectedSource
      ensures Valid() && selectedSource == source
    {
      selectedSource := source;
    }

    /** `fetchArticles`: a successful `listArticles()` replaces the articles and
        derives both choice lists; a failed one changes nothing. */
    method FetchArticles(outcome: Result<seq<Article>, ApiError>)
      requires Valid()
      modifies this`articles, this`topics, this`sources
      ensures Valid()
      ensures outcome.Ok? ==> articles == outcome.value
      ensures outcome.Err? ==> articles == old(articles) && topics == old(topics) && sources == old(sources)
    {
      match outcome {
        case Ok(data) =>
          articles := data;
          topics := [All] + DistinctTruthy(TopicValues(data));
          sources := [All] + DistinctTruthy(SourceValues(data));
        case Err(_) =>
      }
    }
  }

  /** Until a load succeeds the page lists nothing and offers only "all":
      a page mounted and then refused by the server is still empty. */
  method MountWithFailedLoad(err: ApiError) returns (page: ArticlesPage)
    ensures page.Valid()
    ensures page.articles == [] && page.topics == [All] && page.sources == [All]
    ensures page.FilteredArticles() == []
  {
    page := new ArticlesPage();
    page.FetchArticles(Err(err));
  }
}
