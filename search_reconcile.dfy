/** The render-time filter reconciliation shared by the series and the artist
    search: a persisted filter `{firstLetter, sortBy}` and the previously seen
    search query are corrected on each render, and only a render that needs no
    correction emits the arguments of the remote search. */
module SearchReconcile {
  import opened Common

  datatype Filter = Filter(firstLetter: Option<string>, sortBy: Option<string>)

  /** The sort used when browsing without a query. */
  const DefaultSortBy: string := "name"

  /** The arguments handed to the remote search; `filters` maps a filter name
      to its value, null where unset. */
  datatype SearchArgs = SearchArgs(query: Option<string>, filters: map<string, Option<string>>,
                                   sortBy: Option<string>)

  /** The filter created when storage holds none: relevance (null) when
      searching, the default sort when browsing. */
  function InitialFilter(searchQuery: Option<string>): (f: Filter)
    ensures f.firstLetter.None?
    ensures f.sortBy.None? <==> TruthyString(searchQuery)
    ensures f.sortBy.Some? ==> f.sortBy.value == DefaultSortBy
  {
    Filter(None, if TruthyString(searchQuery) then None else Some(DefaultSortBy))
  }

  /** `firstLetter ? firstLetter + "%" : null`: a SQL-style prefix pattern. */
  function LikePattern(firstLetter: Option<string>): (r: Option<string>)
    ensures r.Some? <==> TruthyString(firstLetter)
    ensures r.Some? ==> |r.value| == |firstLetter.value| + 1 && r.value[|r.value| - 1] == '%'
  {
    if TruthyString(firstLetter) then Some(firstLetter.value + "%") else None
  }

  /** The pattern determines the letter: dropping the trailing `%` gives it back. */
  lemma LikePatternRecoversLetter(firstLetter: Option<string>)
    requires TruthyString(firstLetter)
    ensures var p := LikePattern(firstLetter).value; p[..|p| - 1] == firstLetter.value
  {
  }

  function BuildSearchArgs(searchQuery: Option<string>, filter: Filter): (r: SearchArgs)
    ensures r.query == searchQuery && r.sortBy == filter.sortBy
    ensures r.filters.Keys == {"name-like"}
    ensures r.filters["name-like"] == LikePattern(filter.firstLetter)
  {
    SearchArgs(searchQuery, map["name-like" := LikePattern(filter.firstLetter)], filter.sortBy)
  }

  /** What one render sees and leaves behind. */
  datatype ReconcileState = ReconcileState(filter: Filter, prevSearchQuery: Option<string>)

  datatype Rendered = Rendered(next: ReconcileState, output: Option<SearchArgs>)

  /** One render as a transition: correct the missing sort, or register a
      changed query, or emit the search arguments. */
  function Reconcile(s: ReconcileState, searchQuery: Option<string>): (r: Rendered)
    ensures r.output.Some? ==> r.next == s
  {
    if !TruthyString(searchQuery) && s.filter.sortBy.None? then
      Rendered(s.(filter := s.filter.(sortBy := Some(DefaultSortBy))), None)
    else if searchQuery != s.prevSearchQuery then
      var filter := if TruthyString(searchQuery) && !TruthyString(s.prevSearchQuery)
                    then s.filter.(sortBy := None) else s.filter;
      Rendered(ReconcileState(filter, searchQuery), None)
    else
      Rendered(s, Some(BuildSearchArgs(searchQuery, s.filter)))
  }

  /** Browsing with no sort: store the default sort and render nothing. */
  lemma ReconcileRestoresDefaultSort(s: ReconcileState, searchQuery: Option<string>)
    requires !TruthyString(searchQuery) && s.filter.sortBy.None?
    ensures Reconcile(s, searchQuery).output.None?
    ensures Reconcile(s, searchQuery).next ==
            ReconcileState(Filter(s.filter.firstLetter, Some(DefaultSortBy)), s.prevSearchQuery)
  {
  }

  /** A changed query is recorded and nothing is rendered; the sort is reset
      to relevance only when searching starts, otherwise it is kept. */
  lemma ReconcileRecordsQueryChange(s: ReconcileState, searchQuery: Option<string>)
    requires TruthyString(searchQuery) || s.filter.sortBy.Some?
    requires searchQuery != s.prevSearchQuery
    ensures Reconcile(s, searchQuery).output.None?
    ensures Reconcile(s, searchQuery).next.prevSearchQuery == searchQuery
    ensures Reconcile(s, searchQuery).next.filter.firstLetter == s.filter.firstLetter
    ensures Reconcile(s, searchQuery).next.filter.sortBy ==
            if TruthyString(searchQuery) && !TruthyString(s.prevSearchQuery) then None else s.filter.sortBy
  {
  }

  /** Going from one non-empty query to another keeps the chosen sort. */
  lemma ReconcileKeepsSortWhileSearching(s: ReconcileState, searchQuery: Option<string>)
    requires TruthyString(searchQuery) && TruthyString(s.prevSearchQuery)
    ensures Reconcile(s, searchQuery).next.filter == s.filter
  {
  }

  /** Results are rendered exactly when the query is the one already seen and
      browsing has a sort; then with the current filter. */
  lemma ReconcileOutputIff(s: ReconcileState, searchQuery: Option<string>)
    ensures Reconcile(s, searchQuery).output.Some? <==>
            searchQuery == s.prevSearchQuery && (TruthyString(searchQuery) || s.filter.sortBy.Some?)
    ensures Reconcile(s, searchQuery).output.Some? ==>
            Reconcile(s, searchQuery).output.value == BuildSearchArgs(searchQuery, s.filter)
  {
  }

  /** Never a browse request without a sort. */
  lemma ReconcileNeverBrowsesUnsorted(s: ReconcileState, searchQuery: Option<string>)
    requires Reconcile(s, searchQuery).output.Some?
    requires !TruthyString(searchQuery)
    ensures Reconcile(s, searchQuery).output.value.sortBy.Some?
  {
  }

  /** Renders with an unchanged query settle: by the third render the
      arguments are emitted, and from then on nothing changes. */
  lemma ReconcileSettles(s: ReconcileState, searchQuery: Option<string>)
    ensures var r1 := Reconcile(s, searchQuery);
            var r2 := Reconcile(r1.next, searchQuery);
            var r3 := Reconcile(r2.next, searchQuery);
            r3.output.Some? && Reconcile(r3.next, searchQuery) == r3
  {
    var r1 := Reconcile(s, searchQuery);
    var r2 := Reconcile(r1.next, searchQuery);
    if r1.output.None? && r2.output.None? {
      assert r2.next.prevSearchQuery == searchQuery;
      assert TruthyString(searchQuery) || r2.next.filter.sortBy.Some?;
    }
  }

  /** From "" to "naruto" the sort is cleared once; "naruto2" keeps it. */
  lemma StartingASearchClearsSortOnce(filter: Filter, picked: Option<string>)
    requires filter.sortBy.Some?
    ensures var s1 := Reconcile(ReconcileState(filter, Some("")), Some("naruto")).next;
            && s1 == ReconcileState(filter.(sortBy := None), Some("naruto"))
            && Reconcile(s1, Some("naruto")).output.Some?
            && var s2 := ReconcileState(s1.filter.(sortBy := picked), s1.prevSearchQuery);
               Reconcile(s2, Some("naruto2")).next.filter.sortBy == picked
  {
    assert Some("") != Some("naruto") && Some("naruto") != Some("naruto2");
  }

  /** The sort options offered: "Relevance" (null) only while searching. */
  function SortOptions(searchQuery: Option<string>): (r: seq<Option<string>>)
    ensures None in r <==> TruthyString(searchQuery)
    ensures Some(DefaultSortBy) in r
  {
    (if TruthyString(searchQuery) then [None] else [])
      + [Some("name"), Some("-name"), Some("-created_at")]
  }

  /** The search component: storage key, the entity it searches, persisted
      filter and the query seen by the previous render. */
  class SearchController {
    const storageKey: string
    const entity: string
    var filter: Filter
    var prevSearchQuery: Option<string>

    function State(): ReconcileState
      reads this
    {
      ReconcileState(filter, prevSearchQuery)
    }

    /** The series search; `stored` is what storage holds under its key. */
    constructor ForSeries(searchQuery: Option<string>, stored: Option<Filter>)
      ensures storageKey == "filter-series" && entity == "series"
      ensures filter == stored.GetOr(InitialFilter(searchQuery))
      ensures prevSearchQuery == searchQuery
    {
      storageKey := "filter-series";
      entity := "series";
      filter := stored.GetOr(InitialFilter(searchQuery));
      prevSearchQuery := searchQuery;
    }

    /** The artist search; `stored` is what storage holds under its key. */
    constructor ForArtist(searchQuery: Option<string>, stored: Option<Filter>)
      ensures storageKey == "filter-artist" && entity == "artist"
      ensures filter == stored.GetOr(InitialFilter(searchQuery))
      ensures prevSearchQuery == searchQuery
    {
      storageKey := "filter-artist";
      entity := "artist";
      filter := stored.GetOr(InitialFilter(searchQuery));
      prevSearchQuery := searchQuery;
    }

    /** `updateFilter("sortBy", sortBy)`. */
    method UpdateSortBy(sortBy: Option<string>)
      modifies this
      ensures filter == old(filter).(sortBy := sortBy)
      ensures prevSearchQuery == old(prevSearchQuery)
    {
      filter := filter.(sortBy := sortBy);
    }

    /** `updateFilter("firstLetter", firstLetter)`. */
    method UpdateFirstLetter(firstLetter: Option<string>)
      modifies this
      ensures filter == old(filter).(firstLetter := firstLetter)
      ensures prevSearchQuery == old(prevSearchQuery)
    {
      filter := filter.(firstLetter := firstLetter);
    }

    /** One render: `None` is the `return null` of a correcting render. */
    method Render(searchQuery: Option<string>) returns (output: Option<SearchArgs>)
      modifies this
      ensures Rendered(State(), output) == Reconcile(old(State()), searchQuery)
    {
      if !TruthyString(searchQuery) && filter.sortBy.None? {
        UpdateSortBy(Some(DefaultSortBy));
        return None;
      }
      if searchQuery != prevSearchQuery {
        if TruthyString(searchQuery) && !TruthyString(prevSearchQuery) {
          UpdateSortBy(None);
        }
        prevSearchQuery := searchQuery;
        return None;
      }
      return Some(BuildSearchArgs(searchQuery, filter));
    }
  }
}
