# News digest dashboard: the article-list pipeline in Dafny

This project models the client-side logic of the news digest dashboard
(`src/components/Dashboard.tsx`). The dashboard fetches sentiment-tagged
articles and derives the list it displays in three steps:
1. A filter button keeps some articles. `all` keeps every article. A
   sentiment button keeps the articles with that sentiment. `saved` and
   `read` keep the articles whose id is in the saved or read list.
2. A case-insensitive title search keeps the articles whose lower-cased
   title contains the lower-cased query.
3. Pagination keeps the first `visibleArticles` of what is left.

The user can toggle an article's id in the saved, liked and read lists.
"Load More" grows the page count by six. The button is rendered while
`visibleArticles` is below the number of fetched articles.

Modules:
- `Seqs` (`seqs.dfy`): the generic pieces. `Filter` is an order-preserving
  filter. `Take` is `slice(0, n)`. `IsSubseq` is the subsequence relation.
  `NoDup` says a list has no duplicates.
- `Text` (`text.dfy`): `toLowerCase` over ASCII letters, and `includes`
  together with its positional specification.
- `Articles` (`articles.dfy`): the `Article` record, the six filter options,
  and the pipeline `FilteredArticles`.
- `Annotations` (`annotations.dfy`): `Remove` and `Toggle` on id lists. The
  three handlers share this toggle.
- `Dashboard` (`dashboard.dfy`): the state after the fetch has resolved, the
  user events as an `Action` datatype, `Step`/`Run`, the reachable-state
  invariant and two worked scenarios. `Enabled`/`Guarded` restrict runs to
  the events the rendered page offers: "Load More" only while its button
  is shown, toggles only on visible cards.

What the dashboard does not do, and so the model does not either:
- It does no title deduplication, no timestamp sort and no category filter.
- The pagination window is not reset when the filter or query changes.
- The window is not bounded by the length of the filtered list.
- The "Load More" test uses the unfiltered count
  (`ButtonIgnoresFilter`).

## Model

| member | source | states |
|---|---|---|
| `Seqs.Filter` | src/components/Dashboard.tsx:86-97 | `Array.prototype.filter`: an element is in the result iff it is in the input and passes the predicate. Every element that passes keeps its number of copies, and the result is no longer than the input. |
| `Seqs.Take` | src/components/Dashboard.tsx:98 | `slice(0, n)` for a non-negative `n`: the result is the input's prefix of length `min(n, length)`. |
| `Articles.Matching` | src/components/Dashboard.tsx:85-97 | Before slicing, an article is in the result iff it was fetched, passes the filter button and matches the search. The result keeps the fetched order (a subsequence). |
| `Articles.FilteredArticles` | src/components/Dashboard.tsx:85-98 | The visible list is an order-preserving subsequence of the fetched articles. Its length is at most `visibleArticles` and at most the fetched count. It is exactly the first `min(visibleArticles, matching)` matching articles, and every element passes both filters. |
| `Articles.MatchingIsOnePass` | src/components/Dashboard.tsx:85-97 | Filtering by button then by search equals one pass keeping the articles that satisfy both. It also equals filtering by search first, so the order of the two filters does not matter. |
| `Articles.AnnotationFiltersIgnoreSentiment` | src/components/Dashboard.tsx:87-92 | Under the `saved` and `read` buttons, changing an article's sentiment never changes whether it passes. |
| `Articles.VisibleRespectsAnnotationFilter` | src/components/Dashboard.tsx:87-92 | With `saved`, every visible article's id is in the saved list. With `read`, every visible article's id is in the read list. |
| `Articles.AllFilterKeepsEverything` | src/components/Dashboard.tsx:93 | The `all` button's predicate filters nothing out. |
| `Articles.SentimentFilterIsExact` | src/components/Dashboard.tsx:93 | With a sentiment button and an empty query, the matching list is exactly the articles carrying that sentiment, in fetched order. |
| `Articles.EmptySearchKeepsEverything` | src/components/Dashboard.tsx:95-97 | The empty query filters nothing out. |
| `Articles.VisibleMatchesSearch` | src/components/Dashboard.tsx:95-97 | The lower-cased query occurs at some position of every visible article's lower-cased title. |
| `Articles.UnfilteredIsPrefix` | src/components/Dashboard.tsx:85-98 | With `all` and an empty query, the matching list is the whole fetched list. The visible list is its first `visibleArticles` elements. |
| `Text.Includes` | src/components/Dashboard.tsx:96 | `includes` is true iff some position of the title starts a copy of the query. The empty query is always found. A query longer than the title never is. |
| `Text.Lower` | src/components/Dashboard.tsx:96 | `Lower` keeps the length and maps each character on its own: `A`..`Z` become `a`..`z` and every other character is kept. The mapping is ASCII-only. |
| `Text.VerbatimOccurrenceMatches` | src/components/Dashboard.tsx:96 | A query that occurs verbatim in a title still matches after both are lower-cased. |
| `Annotations.Remove` | src/components/Dashboard.tsx:115 | `prev.filter(id => id !== articleId)` drops every copy of the id. Every other id keeps its membership, its number of copies and its relative order. |
| `Annotations.Toggle` | src/components/Dashboard.tsx:113-121 | The id's membership flips and no other id's membership changes. A present id is removed and the rest keep their order and counts. An absent id is appended at the end. |
| `Annotations.ToggleTwiceRestoresMembership` | src/components/Dashboard.tsx:113-121 | Two toggles of the same id restore the membership of every id. |
| `Annotations.ToggleTwiceAbsentIsIdentity` | src/components/Dashboard.tsx:113-121 | Toggling an absent id twice gives back exactly the original list. |
| `Annotations.ToggleTwicePresentMovesToEnd` | src/components/Dashboard.tsx:113-121 | Toggling a present id twice removes all of its copies and appends one at the end. |
| `Annotations.ToggleKeepsNoDup` | src/components/Dashboard.tsx:113-121 | A duplicate-free id list stays duplicate-free, because an id is only appended when absent. |
| `Dashboard.ToggleMark` | src/components/Dashboard.tsx:113-143 | Each of the three handlers flips the id in its own list only. The other two lists, the articles, the filter, the query and the page count are unchanged. |
| `Dashboard.LoadMorePage` | src/components/Dashboard.tsx:152-154 | "Load More" adds six to the visible count and leaves the matching list as it was. Every article already shown stays shown at the same position. The visible list grows to `min(count + 6, matching)` articles. |
| `Dashboard.Step` | src/components/Dashboard.tsx:164-180 | A filter button sets the filter and a search edit sets the query, and neither changes anything else, so the count is not reset. A toggle flips the id in its own list only. Only "Load More" changes the visible count, adding one page, and it changes nothing else. Every event keeps the fetched articles. |
| `Dashboard.InitSatisfiesInv` | src/components/Dashboard.tsx:51-59 | The initial state has empty id lists and a visible count of 6. It shows the first six fetched articles. |
| `Dashboard.StepKeepsInv` | src/components/Dashboard.tsx:113-154 | Every event keeps the id lists duplicate-free and the visible count a positive multiple of six. |
| `Dashboard.RunCountsPages` | src/components/Dashboard.tsx:152-154 | After any events, the visible count is the starting count plus six per "Load More". |
| `Dashboard.ReachableStates` | src/components/Dashboard.tsx:59-154 | From the initial state, after `n` "Load More" events among any others, the count is `6 + 6n`. The button is shown iff `6 + 6n` is below the fetched count. The invariant holds. This covers every event sequence, including ones the hidden button would not allow. |
| `Dashboard.GuardedRunsStayWithinOnePage` | src/components/Dashboard.tsx:293-300 | On runs where "Load More" is pressed only while its button is rendered, and toggles come only from visible cards, the count is 6 or below the fetched count plus 6. |
| `Dashboard.HiddenButtonShowsAllMatching` | src/components/Dashboard.tsx:293 | When the button is hidden, the visible list is the whole matching list, so no matching article is held back. |
| `Dashboard.ButtonIgnoresFilter` | src/components/Dashboard.tsx:293 | The button follows the unfiltered count. With `saved` and nothing saved, no article is visible, yet the button is shown whenever the count is below the fetched total, and pressing it reveals nothing. |
| `Dashboard.EightArticlesScenario` | src/components/Dashboard.tsx:293 | With eight fetched articles, six are shown with the button at first. After one "Load More", all eight are shown and the button is gone. |
| `Dashboard.SavedScenario` | src/components/Dashboard.tsx:87-89 | For articles with ids "x" and "y", saving "x" from its visible card and pressing `saved` is a run the page allows. It shows only the "x" article. |

## Left out

- The GraphQL fetch, the Nhost client and the loading and error flags (`src/components/Dashboard.tsx:9-36`, `:62-82`) are network I/O against a hosted service. The fetched list is a parameter of `Dashboard.Init`.
- Text.VerbatimOccurrenceMatches: holds for the ASCII lower-casing only. JavaScript's `toLowerCase` is context-sensitive: Greek capital sigma at the end of a word becomes final sigma. So `"ΟΔΟΣ".includes("Σ")` holds but `"οδος".includes("σ")` does not. `Text.LowerSlice` rests on the same ASCII assumption.
- Toast notifications and clipboard sharing (`handleShareArticle`) are left out as UI side effects. So are date formatting, `getSentimentColor` and all markup.
- `Text.LowerChar`: lower-cases only `A`..`Z`. JavaScript's `toLowerCase` also folds non-ASCII letters, and some of its mappings change the length (`"İ"` becomes two code units). Unicode case mapping is not modelled.
- `Dashboard.ToggleMark`: each handler reads its list's presence from the rendered state but updates through `prev`. The model treats handlers as sequential transitions, so both readings see the same list. Two clicks batched into one render are not modelled.
- Login, sign-up, the navigation bar, routing and the auth hook are left out: they delegate entirely to the hosted identity service and router.
- `visibleArticles` is a JavaScript number. The model uses an unbounded natural, because it grows by six per click and cannot approach the limit of exact integers in practice.
