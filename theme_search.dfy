/** The theme search: a stateless variant that derives the effective sort
    from the stored filter on every render and never writes it back. */
module ThemeSearch {
  import opened Common
  import SearchReconcile

  /** The filter kept in session storage under "filter-theme"; `themeType` is
      the source's `type`. */
  datatype ThemeFilter = ThemeFilter(firstLetter: Option<string>, themeType: Option<string>,
                                     sortBy: Option<string>)

  /** The sort used when browsing and nothing was chosen. */
  const DefaultSortBy: string := "song.title"

  /** The filter storage starts from: nothing chosen. */
  function InitialThemeFilter(): (f: ThemeFilter)
    ensures f.firstLetter.None? && f.themeType.None? && f.sortBy.None?
  {
    ThemeFilter(None, None, None)
  }

  /** `searchQuery ? filter.sortBy : (filter.sortBy ?? "song.title")`. */
  function EffectiveSortBy(searchQuery: Option<string>, filter: ThemeFilter): (r: Option<string>)
    ensures filter.sortBy.Some? ==> r == filter.sortBy
    ensures TruthyString(searchQuery) ==> r == filter.sortBy
    ensures r.None? <==> TruthyString(searchQuery) && filter.sortBy.None?
    ensures !TruthyString(searchQuery) && filter.sortBy.None? ==> r == Some(DefaultSortBy)
  {
    if TruthyString(searchQuery) then filter.sortBy else Some(filter.sortBy.GetOr(DefaultSortBy))
  }

  /** What the theme search hands to the entity search. */
  datatype ThemeSearchArgs = ThemeSearchArgs(entity: string, query: Option<string>,
                                             filters: map<string, Option<string>>,
                                             sortBy: Option<string>)

  function BuildThemeSearchArgs(searchQuery: Option<string>, filter: ThemeFilter): (r: ThemeSearchArgs)
    ensures r.entity == "theme" && r.query == searchQuery
    ensures r.filters.Keys == {"has", "song][title-like", "type"}
    ensures r.filters["has"] == Some("song")
    ensures r.filters["song][title-like"] == SearchReconcile.LikePattern(filter.firstLetter)
    ensures r.filters["type"] == filter.themeType
    ensures r.sortBy == EffectiveSortBy(searchQuery, filter)
  {
    ThemeSearchArgs("theme", searchQuery,
                    map["has" := Some("song"),
                        "song][title-like" := SearchReconcile.LikePattern(filter.firstLetter),
                        "type" := filter.themeType],
                    EffectiveSortBy(searchQuery, filter))
  }

  /** The default is never stored: a filter that picked relevance while
      searching still browses by title once the query is gone, and picks
      relevance again when a query returns. */
  lemma DefaultIsNotPersisted(filter: ThemeFilter, query: string)
    requires filter.sortBy.None? && query != ""
    ensures EffectiveSortBy(None, filter) == Some(DefaultSortBy)
    ensures EffectiveSortBy(Some(""), filter) == Some(DefaultSortBy)
    ensures EffectiveSortBy(Some(query), filter).None?
  {
  }

  /** The sort options offered: "Relevance" (no value) only while searching. */
  function ThemeSortOptions(searchQuery: Option<string>): (r: seq<Option<string>>)
    ensures None in r <==> TruthyString(searchQuery)
    ensures Some(DefaultSortBy) in r
  {
    (if TruthyString(searchQuery) then [None] else [])
      + [Some("song.title"), Some("-song.title"), Some("anime.year,anime.season,song.title"),
         Some("-anime.year,-anime.season,song.title"), Some("-created_at")]
  }

  /** The sort shown in the selector is always one it offers, as long as the
      stored choice is one of the offered options or null. */
  lemma EffectiveSortIsOffered(searchQuery: Option<string>, filter: ThemeFilter)
    requires filter.sortBy.None? || filter.sortBy in ThemeSortOptions(searchQuery)
    ensures EffectiveSortBy(searchQuery, filter) in ThemeSortOptions(searchQuery)
  {
  }
}
