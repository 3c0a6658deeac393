/** The searchable note feed: a case-insensitive filter over the notes the
    screen was given, and the pull-to-refresh handler. */
module ArticleFeed {
  import opened Wrappers
  import opened Seqs
  import opened JsText

  datatype Article = Article(id: int, title: string, content: string, userId: int, createdAt: string)

  /** The note's lower-cased title or content contains the lower-cased query.
      `lower` stands for `toLowerCase`. */
  predicate Matches(note: Article, query: string, lower: string -> string) {
    Includes(lower(note.title), lower(query)) || Includes(lower(note.content), lower(query))
  }

  /** `filteredNotes`: a blank query shows the whole feed (a missing feed is
      empty); otherwise the matching notes, in feed order. The untrimmed query
      is what is matched. */
  function FilteredNotes(feed: Option<seq<Article>>, query: string, lower: string -> string): (r: seq<Article>)
    ensures AllWhitespace(query) ==> r == feed.GetOr([])
    ensures !AllWhitespace(query) ==>
      && (forall n | n in r :: n in feed.GetOr([]) && Matches(n, query, lower))
      && (forall n | n in feed.GetOr([]) && Matches(n, query, lower) :: n in r)
      && (forall n | n in feed.GetOr([]) ::
            multiset(r)[n] == if Matches(n, query, lower) then multiset(feed.GetOr([]))[n] else 0)
    ensures Subsequence(r, feed.GetOr([]))
  {
    var items := feed.GetOr([]);
    if Trim(query) == "" then
      SubsequenceRefl(items);
      items
    else
      FilterIsSubsequence(items, (n: Article) => Matches(n, query, lower));
      Filter(items, (n: Article) => Matches(n, query, lower))
  }

  /** Surrounding spaces in the query must match too: " a" finds nothing in a
      note titled "a" that "a" finds. */
  lemma UntrimmedQueryMatters()
    ensures var n := Article(1, "a", "", 7, "");
      var same := (s: string) => s;
      FilteredNotes(Some([n]), " a", same) == [] && FilteredNotes(Some([n]), "a", same) == [n]
  {
    var n := Article(1, "a", "", 7, "");
    var same := (s: string) => s;
    assert !Includes("a", " a");
    assert !Includes("", " a");
    assert !Includes("", "a");
    assert OccursAt("a", "a", 0);
    assert !AllWhitespace(" a") by { assert !IsWhitespace(" a"[1]); }
    assert !AllWhitespace("a") by { assert !IsWhitespace("a"[0]); }
    assert Filter([n], (m: Article) => Matches(m, " a", same)) == [];
    assert Filter([n], (m: Article) => Matches(m, "a", same)) == [n];
  }

  /** The state the feed keeps across renders. */
  datatype FeedScreen = FeedScreen(searchQuery: string, refetches: nat)

  /** As written, the refresh handler evaluates `refetch` without calling it. */
  function OnRefreshAsWritten(s: FeedScreen): FeedScreen
  {
    s.(searchQuery := "")
  }

  /** Pulling to refresh clears the query but never asks for new data. */
  lemma RefreshNeverRefetchesAsWritten(s: FeedScreen)
    ensures OnRefreshAsWritten(s).searchQuery == ""
    ensures OnRefreshAsWritten(s).refetches == s.refetches
  {
  }

  /** Corrected: the handler calls `refetch()` and clears the query. */
  function OnRefresh(s: FeedScreen): FeedScreen
  {
    s.(searchQuery := "", refetches := s.refetches + 1)
  }

  /** A refresh asks for new data once and, the query being cleared, shows the whole feed. */
  lemma RefreshRefetchesAndShowsAll(s: FeedScreen, feed: Option<seq<Article>>, lower: string -> string)
    ensures OnRefresh(s).refetches == s.refetches + 1
    ensures FilteredNotes(feed, OnRefresh(s).searchQuery, lower) == feed.GetOr([])
  {
  }

  /** The memoised list and the dependency values it was computed for. */
  datatype Memo = Memo(feedDep: seq<Article>, queryDep: string, value: seq<Article>)

  /** As written, the memo lists only `searchQuery` as a dependency, so a new
      feed with an unchanged query reuses the old list. */
  function RenderAsWritten(memo: Option<Memo>, feed: seq<Article>, query: string, lower: string -> string): Memo
  {
    if memo.Some? && memo.value.queryDep == query then memo.value
    else Memo(feed, query, FilteredNotes(Some(feed), query, lower))
  }

  /** The first render happens while the feed is still loading (the screens pass
      `[]`); when the notes arrive with the query still empty, the list stays empty. */
  lemma StaleFeedAsWritten(n: Article, lower: string -> string)
    ensures var first := RenderAsWritten(None, [], "", lower);
      var second := RenderAsWritten(Some(first), [n], "", lower);
      second.value == [] && FilteredNotes(Some([n]), "", lower) == [n]
  {
  }

  /** Corrected: `feed` is a dependency too. */
  function Render(memo: Option<Memo>, feed: seq<Article>, query: string, lower: string -> string): Memo
  {
    if memo.Some? && memo.value.feedDep == feed && memo.value.queryDep == query then memo.value
    else Memo(feed, query, FilteredNotes(Some(feed), query, lower))
  }

  /** A memo built by `Render` always agrees with its dependencies. */
  ghost predicate Coherent(memo: Memo, lower: string -> string) {
    memo.value == FilteredNotes(Some(memo.feedDep), memo.queryDep, lower)
  }

  /** With the corrected dependencies every render shows the filter of the current feed and query. */
  lemma RenderIsFresh(memo: Option<Memo>, feed: seq<Article>, query: string, lower: string -> string)
    requires memo.Some? ==> Coherent(memo.value, lower)
    ensures Render(memo, feed, query, lower).value == FilteredNotes(Some(feed), query, lower)
    ensures Coherent(Render(memo, feed, query, lower), lower)
  {
  }
}
