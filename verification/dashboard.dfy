/** The dashboard's client-side state after the article fetch has
    resolved, and the transitions the user drives: the three annotation
    toggles, the filter buttons, the search box and "Load More". */
module Dashboard {
  import opened Seqs
  import opened Articles
  import opened Annotations

  /** Initial number of visible articles and the step of "Load More". */
  const PageSize: nat := 6

  datatype State = State(
    articles: seq<Article>,
    saved: seq<string>,
    liked: seq<string>,
    read: seq<string>,
    filter: FilterOption,
    query: string,
    visible: nat)

  /** Which of the three id lists a toggle works on. */
  datatype Mark = SaveMark | LikeMark | ReadMark

  /** The action of one user event. */
  datatype Action =
    | Flip(mark: Mark, id: string)
    | LoadMore
    | SetFilter(filter: FilterOption)
    | SetSearch(query: string)

  /** The state once `fetched` has been stored: empty id lists, the `all`
      button, an empty query and one page of visible articles. */
  function Init(fetched: seq<Article>): State
  {
    State(fetched, [], [], [], All, "", PageSize)
  }

  function Marks(s: State, m: Mark): seq<string>
  {
    match m
    case SaveMark => s.saved
    case LikeMark => s.liked
    case ReadMark => s.read
  }

  /** `filteredArticles` for the current state. */
  function Visible(s: State): seq<Article>
  {
    FilteredArticles(s.articles, s.filter, s.saved, s.read, s.query, s.visible)
  }

  /** The articles the current filter and query select, before slicing. */
  function MatchingOf(s: State): seq<Article>
  {
    Matching(s.articles, s.filter, s.saved, s.read, s.query)
  }

  /** The "Load More" button is rendered iff fewer articles are visible
      than were fetched; the count compared is the unfiltered one. */
  predicate ShowLoadMore(s: State)
  {
    s.visible < |s.articles|
  }

  /** `handleSaveArticle`, `handleLikeArticle`, `handleMarkAsRead`: flip the
      id in its own list and touch nothing else. */
  function ToggleMark(s: State, m: Mark, id: string): (s': State)
    ensures id in Marks(s', m) <==> id !in Marks(s, m)
    ensures forall x :: x != id ==> (x in Marks(s', m) <==> x in Marks(s, m))
    ensures forall other :: other != m ==> Marks(s', other) == Marks(s, other)
    ensures s'.articles == s.articles && s'.filter == s.filter
    ensures s'.query == s.query && s'.visible == s.visible
  {
    var flipped := Toggle(Marks(s, m), id);
    match m
    case SaveMark => s.(saved := flipped)
    case LikeMark => s.(liked := flipped)
    case ReadMark => s.(read := flipped)
  }

  /** `loadMoreArticles`: what was shown stays shown, in place, and up to
      one more page of matching articles is appended below it. */
  function LoadMorePage(s: State): (s': State)
    ensures s'.visible == s.visible + PageSize
    ensures s' == s.(visible := s'.visible)
    ensures MatchingOf(s') == MatchingOf(s)
    ensures Visible(s) == Visible(s')[..|Visible(s)|]
    ensures |Visible(s')| == Min(s.visible + PageSize, |MatchingOf(s)|)
  {
    s.(visible := s.visible + PageSize)
  }

  /** One user event. Changing the filter or the query keeps the page
      count `visible` (the length of the visible list may still change);
      the second ensures states on its own that the count never shrinks. */
  function Step(s: State, a: Action): (s': State)
    ensures s'.articles == s.articles
    ensures s'.visible >= s.visible
    ensures s'.visible == if a.LoadMore? then s.visible + PageSize else s.visible
    ensures a.LoadMore? ==> s' == s.(visible := s'.visible)
    ensures a.SetFilter? ==> s' == s.(filter := a.filter)
    ensures a.SetSearch? ==> s' == s.(query := a.query)
    ensures a.Flip? ==> (a.id in Marks(s', a.mark) <==> a.id !in Marks(s, a.mark))
    ensures a.Flip? ==> forall x :: x != a.id ==> (x in Marks(s', a.mark) <==> x in Marks(s, a.mark))
    ensures a.Flip? ==> forall other :: other != a.mark ==> Marks(s', other) == Marks(s, other)
    ensures a.Flip? ==> s'.filter == s.filter && s'.query == s.query
  {
    match a
    case Flip(m, id) => ToggleMark(s, m, id)
    case LoadMore => LoadMorePage(s)
    case SetFilter(f) => s.(filter := f)
    case SetSearch(q) => s.(query := q)
  }

  /** The events of `acts`, in order. */
  function Run(s: State, acts: seq<Action>): State
    decreases |acts|
  {
    if |acts| == 0 then s else Run(Step(s, acts[0]), acts[1..])
  }

  function CountLoadMore(acts: seq<Action>): nat
  {
    if |acts| == 0 then 0
    else (if acts[0].LoadMore? then 1 else 0) + CountLoadMore(acts[1..])
  }

  /** Whether the user can fire `a` in `s`: "Load More" only while its
      button is rendered, and a toggle only from the card of a visible
      article carrying that id. Filter buttons and the search box are
      always there. */
  ghost predicate Enabled(s: State, a: Action)
  {
    match a
    case LoadMore => ShowLoadMore(s)
    case Flip(_, id) => exists v :: v in Visible(s) && v.id == id
    case SetFilter(_) => true
    case SetSearch(_) => true
  }

  /** Every event of `acts` is enabled in the state it is fired from. */
  ghost predicate Guarded(s: State, acts: seq<Action>)
    decreases |acts|
  {
    |acts| == 0 || (Enabled(s, acts[0]) && Guarded(Step(s, acts[0]), acts[1..]))
  }

  /** The count is the initial page or overshoots the fetched count by
      less than one page. */
  predicate WithinOnePage(s: State)
  {
    s.visible == PageSize || s.visible < |s.articles| + PageSize
  }

  lemma {:induction false} GuardedRunKeepsWithinOnePage(s: State, acts: seq<Action>)
    requires WithinOnePage(s) && Guarded(s, acts)
    ensures WithinOnePage(Run(s, acts))
    decreases |acts|
  {
    if |acts| > 0 {
      var s' := Step(s, acts[0]);
      assert s'.articles == s.articles;
      if acts[0].LoadMore? {
        assert ShowLoadMore(s);
        assert s'.visible == s.visible + PageSize;
      } else {
        assert s'.visible == s.visible;
      }
      GuardedRunKeepsWithinOnePage(s', acts[1..]);
    }
  }

  /** On the runs the page can produce, "Load More" is pressed at most
      once past the point where the count reaches the fetched count: the
      count stays 6 or below the fetched count plus 6. */
  lemma {:induction false} GuardedRunsStayWithinOnePage(fetched: seq<Article>, acts: seq<Action>)
    requires Guarded(Init(fetched), acts)
    ensures Run(Init(fetched), acts).visible == PageSize
         || Run(Init(fetched), acts).visible < |fetched| + PageSize
  {
    GuardedRunKeepsWithinOnePage(Init(fetched), acts);
    RunCountsPages(Init(fetched), acts);
  }

  /** Facts every reachable state keeps: the id lists have no duplicates
      and the visible count is a positive whole number of pages. */
  predicate Inv(s: State)
  {
    && NoDup(s.saved) && NoDup(s.liked) && NoDup(s.read)
    && s.visible >= PageSize && s.visible % PageSize == 0
  }

  lemma InitSatisfiesInv(fetched: seq<Article>)
    ensures Inv(Init(fetched))
    ensures Init(fetched).visible == PageSize
    ensures Init(fetched).saved == [] && Init(fetched).liked == [] && Init(fetched).read == []
    ensures Visible(Init(fetched)) == Take(fetched, PageSize)
  {
    UnfilteredIsPrefix(fetched, [], [], PageSize);
  }

  lemma FlipKeepsInv(s: State, m: Mark, id: string)
    requires Inv(s)
    ensures Inv(ToggleMark(s, m, id))
  {
    ToggleKeepsNoDup(Marks(s, m), id);
    assert Marks(ToggleMark(s, m, id), m) == Toggle(Marks(s, m), id);
  }

  lemma NextPageKeepsInv(s: State)
    requires Inv(s)
    ensures Inv(s.(visible := s.visible + PageSize))
  {
  }

  lemma {:induction false} StepKeepsInv(s: State, a: Action)
    requires Inv(s)
    ensures Inv(Step(s, a))
  {
    match a
    case Flip(m, id) =>
      FlipKeepsInv(s, m, id);
      assert Step(s, a) == ToggleMark(s, m, id);
    case LoadMore =>
      NextPageKeepsInv(s);
      assert Step(s, a) == s.(visible := s.visible + PageSize);
    case SetFilter(f) =>
      assert Step(s, a) == s.(filter := f);
    case SetSearch(q) =>
      assert Step(s, a) == s.(query := q);
  }

  /** Every visible count counts whole pages: after any events the count
      is the starting count plus one page per "Load More". */
  lemma {:induction false} RunCountsPages(s: State, acts: seq<Action>)
    ensures Run(s, acts).visible == s.visible + PageSize * CountLoadMore(acts)
    ensures Run(s, acts).articles == s.articles
    decreases |acts|
  {
    if |acts| > 0 {
      RunCountsPages(Step(s, acts[0]), acts[1..]);
    }
  }

  /** From a freshly fetched state, after `n` uses of "Load More" among any
      other events, `6 + 6 * n` articles may be visible, the button is
      shown iff that is fewer than were fetched, and every invariant still
      holds. */
  lemma {:induction false} ReachableStates(fetched: seq<Article>, acts: seq<Action>)
    ensures Run(Init(fetched), acts).visible == PageSize + PageSize * CountLoadMore(acts)
    ensures ShowLoadMore(Run(Init(fetched), acts)) <==>
      PageSize + PageSize * CountLoadMore(acts) < |fetched|
    ensures Inv(Run(Init(fetched), acts))
  {
    RunCountsPages(Init(fetched), acts);
    InitSatisfiesInv(fetched);
    RunKeepsInv(Init(fetched), acts);
  }

  lemma {:induction false} RunKeepsInv(s: State, acts: seq<Action>)
    requires Inv(s)
    ensures Inv(Run(s, acts))
    decreases |acts|
  {
    if |acts| > 0 {
      StepKeepsInv(s, acts[0]);
      RunKeepsInv(Step(s, acts[0]), acts[1..]);
    }
  }

  /** When the button is hidden nothing that matches is hidden: the
      visible list is the whole matching list. */
  lemma HiddenButtonShowsAllMatching(s: State)
    requires !ShowLoadMore(s)
    ensures Visible(s) == MatchingOf(s)
  {
    SubseqMembers(MatchingOf(s), s.articles);
  }

  /** The button follows the unfiltered count: with the `saved` button and
      nothing saved, no article is visible, yet the button is shown and
      pressing it reveals nothing. */
  lemma ButtonIgnoresFilter(s: State)
    requires s.filter == Saved && s.saved == []
    requires s.visible < |s.articles|
    ensures ShowLoadMore(s)
    ensures Visible(s) == [] && Visible(LoadMorePage(s)) == []
  {
    NoMembersIsEmpty(MatchingOf(s));
  }

  /** Eight fetched articles, `all`, empty query: six are visible and the
      button is shown; after one "Load More" all eight are visible and the
      button is gone. */
  lemma EightArticlesScenario(fetched: seq<Article>)
    requires |fetched| == 8
    ensures Visible(Init(fetched)) == fetched[..6] && ShowLoadMore(Init(fetched))
    ensures Visible(LoadMorePage(Init(fetched))) == fetched
    ensures !ShowLoadMore(LoadMorePage(Init(fetched)))
  {
    UnfilteredIsPrefix(fetched, [], [], 6);
    UnfilteredIsPrefix(fetched, [], [], 12);
  }

  /** Saving the article with id "x" and pressing `saved`, over articles
      with ids "x" and "y", shows only the "x" article. */
  lemma SavedScenario(ax: Article, ay: Article)
    requires ax.id == "x" && ay.id == "y"
    ensures Guarded(Init([ax, ay]), [Flip(SaveMark, "x"), SetFilter(Saved)])
    ensures Visible(Run(Init([ax, ay]), [Flip(SaveMark, "x"), SetFilter(Saved)])) == [ax]
  {
    UnfilteredIsPrefix([ax, ay], [], [], PageSize);
    assert Visible(Init([ax, ay])) == [ax, ay];
    assert ax in Visible(Init([ax, ay]));
    var acts := [Flip(SaveMark, "x"), SetFilter(Saved)];
    assert acts[1..] == [SetFilter(Saved)] && acts[1..][1..] == [];
    assert Enabled(Init([ax, ay]), acts[0]);
    var s := Run(Init([ax, ay]), [Flip(SaveMark, "x"), SetFilter(Saved)]);
    assert s.saved == ["x"] && s.filter == Saved && s.query == "" && s.visible == 6;
    var byFilter := Filter(a => PassesFilter(Saved, ["x"], [], a), [ax, ay]);
    var p := a => PassesFilter(Saved, ["x"], [], a);
    assert [ax, ay][1..] == [ay] && [ay][1..] == [];
    assert Filter(p, [ay]) == [];
    assert byFilter == [ax] + Filter(p, [ay]);
    EmptySearchKeepsEverything(byFilter);
  }
}
