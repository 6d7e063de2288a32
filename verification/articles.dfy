/** The article record and the dashboard's visible-list derivation
    (`filteredArticles` in src/components/Dashboard.tsx): a filter-button
    predicate, then a case-insensitive title search, then the pagination
    slice. */
module Articles {
  import opened Seqs
  import opened Text

  /** The closed sentiment label attached to every article upstream. */
  datatype Sentiment = Positive | Neutral | Negative

  /** One fetched article. Every field but the sentiment is a string, as in
      the GraphQL result; the fields after `sentiment` are only displayed. */
  datatype Article = Article(
    id: string,
    title: string,
    summary: string,
    sentiment: Sentiment,
    sentimentExplanation: string,
    url: string,
    imageUrl: string,
    createdAt: string)

  /** The six filter buttons: `all`, the three sentiments, `saved`, `read`. */
  datatype FilterOption = All | SentimentIs(sentiment: Sentiment) | Saved | Read

  /** The first `.filter` of the pipeline: `saved` and `read` look the id up
      in their list, `all` keeps everything, a sentiment compares labels. */
  predicate PassesFilter(filter: FilterOption, saved: seq<string>, read: seq<string>, a: Article)
  {
    match filter
    case Saved => a.id in saved
    case Read => a.id in read
    case All => true
    case SentimentIs(s) => a.sentiment == s
  }

  /** The second `.filter`: the lower-cased title contains the lower-cased
      query. */
  predicate MatchesSearch(query: string, a: Article)
  {
    Includes(Lower(a.title), Lower(query))
  }

  /** Both filters applied, in the source's order, before pagination. */
  function Matching(articles: seq<Article>, filter: FilterOption, saved: seq<string>,
                    read: seq<string>, query: string): (r: seq<Article>)
    ensures IsSubseq(r, articles)
    ensures forall a :: a in r <==>
      a in articles && PassesFilter(filter, saved, read, a) && MatchesSearch(query, a)
  {
    var byFilter := Filter(a => PassesFilter(filter, saved, read, a), articles);
    var bySearch := Filter(a => MatchesSearch(query, a), byFilter);
    FilterIsSubseq(a => PassesFilter(filter, saved, read, a), articles);
    FilterIsSubseq(a => MatchesSearch(query, a), byFilter);
    SubseqTrans(bySearch, byFilter, articles);
    bySearch
  }

  /** `filteredArticles`: the matching articles cut down to the first
      `visible` of them. */
  function FilteredArticles(articles: seq<Article>, filter: FilterOption, saved: seq<string>,
                            read: seq<string>, query: string, visible: nat): (r: seq<Article>)
    ensures IsSubseq(r, articles)
    ensures |r| <= visible && |r| <= |articles|
    ensures forall a :: a in r ==>
      a in articles && PassesFilter(filter, saved, read, a) && MatchesSearch(query, a)
    ensures var m := Matching(articles, filter, saved, read, query);
      |r| == Min(visible, |m|) && r == m[..|r|]
  {
    var m := Matching(articles, filter, saved, read, query);
    var r := Take(m, visible);
    PrefixIsSubseq(m, |r|);
    SubseqTrans(r, m, articles);
    SubseqMembers(m, articles);
    r
  }

  /** Applying the two filters one after the other is the same as one pass
      keeping the articles that satisfy both, so the order in which they are
      applied does not matter. */
  lemma {:induction false} MatchingIsOnePass(articles: seq<Article>, filter: FilterOption, saved: seq<string>,
                                             read: seq<string>, query: string)
    ensures Matching(articles, filter, saved, read, query)
         == Filter(a => PassesFilter(filter, saved, read, a) && MatchesSearch(query, a), articles)
    ensures Matching(articles, filter, saved, read, query)
         == Filter(a => PassesFilter(filter, saved, read, a), Filter(a => MatchesSearch(query, a), articles))
  {
    FilterFuse(a => MatchesSearch(query, a), a => PassesFilter(filter, saved, read, a),
               a => PassesFilter(filter, saved, read, a) && MatchesSearch(query, a), articles);
    FilterFuse(a => PassesFilter(filter, saved, read, a), a => MatchesSearch(query, a),
               a => PassesFilter(filter, saved, read, a) && MatchesSearch(query, a), articles);
  }

  /** The `saved` and `read` buttons look only at the id: the sentiment (and
      every other field) of the article plays no part. */
  lemma AnnotationFiltersIgnoreSentiment(saved: seq<string>, read: seq<string>, a: Article, s: Sentiment)
    ensures PassesFilter(Saved, saved, read, a) == PassesFilter(Saved, saved, read, a.(sentiment := s))
    ensures PassesFilter(Read, saved, read, a) == PassesFilter(Read, saved, read, a.(sentiment := s))
  {
  }

  /** With the `saved` button every visible article is saved, and with the
      `read` button every visible article is read. */
  lemma VisibleRespectsAnnotationFilter(articles: seq<Article>, filter: FilterOption, saved: seq<string>,
                                        read: seq<string>, query: string, visible: nat)
    ensures filter == Saved ==>
      forall a :: a in FilteredArticles(articles, filter, saved, read, query, visible) ==> a.id in saved
    ensures filter == Read ==>
      forall a :: a in FilteredArticles(articles, filter, saved, read, query, visible) ==> a.id in read
  {
  }

  /** The `all` button filters nothing out. */
  lemma {:induction false} AllFilterKeepsEverything(articles: seq<Article>, saved: seq<string>, read: seq<string>)
    ensures Filter(a => PassesFilter(All, saved, read, a), articles) == articles
  {
    FilterAllPass(a => PassesFilter(All, saved, read, a), articles);
  }

  /** The empty query filters nothing out. */
  lemma {:induction false} EmptySearchKeepsEverything(articles: seq<Article>)
    ensures Filter(a => MatchesSearch("", a), articles) == articles
  {
    FilterAllPass(a => MatchesSearch("", a), articles);
  }

  /** Every visible article's lower-cased title contains the lower-cased
      query. */
  lemma VisibleMatchesSearch(articles: seq<Article>, filter: FilterOption, saved: seq<string>,
                             read: seq<string>, query: string, visible: nat)
    ensures forall a :: a in FilteredArticles(articles, filter, saved, read, query, visible) ==>
      exists i :: OccursAt(Lower(a.title), Lower(query), i)
  {
  }

  /** With `all` and an empty query the visible list is the first `visible`
      fetched articles. */
  lemma {:induction false} UnfilteredIsPrefix(articles: seq<Article>, saved: seq<string>,
                                              read: seq<string>, visible: nat)
    ensures Matching(articles, All, saved, read, "") == articles
    ensures FilteredArticles(articles, All, saved, read, "", visible) == Take(articles, visible)
  {
    AllFilterKeepsEverything(articles, saved, read);
    EmptySearchKeepsEverything(articles);
  }

  /** A sentiment button with an empty query keeps exactly the articles
      carrying that sentiment, in their fetched order. */
  lemma {:induction false} SentimentFilterIsExact(articles: seq<Article>, s: Sentiment,
                                                  saved: seq<string>, read: seq<string>)
    ensures Matching(articles, SentimentIs(s), saved, read, "") == Filter((a: Article) => a.sentiment == s, articles)
  {
    var bySentiment := Filter(a => PassesFilter(SentimentIs(s), saved, read, a), articles);
    EmptySearchKeepsEverything(bySentiment);
    FilterExt(a => PassesFilter(SentimentIs(s), saved, read, a), (a: Article) => a.sentiment == s, articles);
  }
}
