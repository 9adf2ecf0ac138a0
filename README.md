# animethemes-web core, modelled in Dafny

This project models three parts of the animethemes-web front end:

- **The comparator composition library** (`src/utils/comparators.ts`). Orderings over catalogue entities (anime, themes, songs, entries, studios, series, resources) are built from a few pieces:
  - the automatic value comparator;
  - enum ranking;
  - field extraction (`nestedComparator`);
  - reversal;
  - the first-non-zero-wins chain `either(..).or(..).chain()`.

  A fixed registry maps sort-key strings to composed orders. Module `Comparators`.
- **Render-time filter reconciliation** in the series and artist searches (`SearchSeries.tsx`, `SearchArtist.tsx`). Lines 23-53 of the two files are the same, apart from the storage key and the entity name. Each render either corrects the persisted filter and renders nothing, or emits the arguments of the remote search. Module `SearchReconcile`: a class `SearchController` whose fields are the persisted `filter` and `prevSearchQuery`, and whose `Render` method is specified by the pure transition `Reconcile`.
- **The theme search** (`SearchTheme.js`), which is stateless. It derives the effective sort and the filter arguments from the stored filter. Module `ThemeSearch`.
- **The local playlist hook** (`useLocalPlaylist.tsx`). It supports add, remove, membership and replace on a stored list of theme records keyed by `id`. Module `LocalPlaylist`: a class `Playlist` over a `seq` field.

`Common` holds what these share: `Option` (null/undefined), the JavaScript values the core compares, and truthiness.

Modelling choices:

- **JavaScript values.** They are `Null | Bool | Num(int) | Str`. `Null` stands for both `null` and `undefined`. The comparators treat the two the same, and `indexOf` of either in a list of strings is -1. `Falsy` is exactly JavaScript's set for these kinds: `null`, `undefined`, `false`, `0` and `""`.
- **`localeCompare`.** It is taken to be lexicographic order on character codes, normalised to -1/0/1 (`LocaleCompare`). This is an assumption: the real result depends on the host locale. What the proofs use from it is also proved about it: it is sign-valued, zero exactly on equal strings, antisymmetric and transitive.
- **`toLowerCase`.** It lower-cases ASCII letters only.
- **Comparators.** A comparator is a total function `(T, T) -> int`. Each entity comparator is a module constant built from the primitives, as in the source. Each extractor is a named function (`AnimeName`, `SongTitle`, …).
- **Registry keys.** They are a datatype `SortKey`, so `GetComparator` is total. `KeyName` gives each key's exported string. `ParseSortKey` is the by-string lookup. It finds nothing for an undeclared name. At run time `comparators[name]` gives `undefined` for such a name, except for the names the object literal inherits from `Object.prototype` (see "## Left out").
- **Registry result type.** In the source, the type of a registry entry depends on its key. Here it is the datatype `Registered`:
  - `AnyOrder` for `() => 0`, which `AnimeView` and `ThemeView` apply to anime and to themes alike;
  - `AnimeOrder` for the anime orders;
  - `ThemeOrder` for the song orders.
- **Main theorem** (`RegistryConsistent`). Every registered order is a total preorder: antisymmetric and transitive. This is what a sort routine needs. It rests on the automatic comparator being a total preorder on values of one kind. Across kinds it is not a preorder (`AutomaticNotTransitiveAcrossTypes`), because mismatched types tie.
- **Unknown keys.** The parameter type of `getComparator` limits callers to declared keys, and nothing rejects an unknown key at run time. The model follows the code.

## Model

| member | source | states |
|---|---|---|
| `Comparators.LocaleCompare` | src/utils/comparators.ts:31-32 | string comparison returns -1, 0 or 1, and 0 exactly when the strings are equal |
| `Comparators.LocaleCompareAntisymmetric` | src/utils/comparators.ts:32 | swapping the strings negates the result |
| `Comparators.LocaleCompareTransitive` | src/utils/comparators.ts:32 | "not after" on strings is transitive |
| `Comparators.IndexOf` | src/utils/comparators.ts:40-42 | `indexOf` gives the first position holding the value, or -1 exactly when the value is absent or undefined |
| `Comparators.LowerChar` | src/utils/comparators.ts:54 | `toLowerCase` on one character: an ASCII capital moves down by 32, every other character is kept |
| `Comparators.ToLower` | src/utils/comparators.ts:65 | `toLowerCase` keeps the length and lower-cases each character |
| `Comparators.LowerOpt` | src/utils/comparators.ts:54 | `season?.toLowerCase()`: undefined stays undefined, a string is lower-cased |
| `Comparators.ComparatorChain.Chain` | src/utils/comparators.ts:13 | `chain()` hands back the comparator built so far |
| `Comparators.ComparatorChain.Or` | src/utils/comparators.ts:14 | the new chain gives the old comparator's result when it is non-zero, and the next comparator's result on a tie |
| `Comparators.Either` | src/utils/comparators.ts:11-16 | `either(c)` starts a chain whose `chain()` compares exactly as `c` |
| `Comparators.Reverse` | src/utils/comparators.ts:18-20 | the reversed comparator compares with the arguments swapped |
| `Comparators.AutomaticComparator` | src/utils/comparators.ts:22-38 | falsy values tie and sort first; two strings compare by `localeCompare` (the empty string included); two truthy numbers by difference; any other truthy pair ties |
| `Comparators.EnumComparator` | src/utils/comparators.ts:40-42 | a value sorts before another exactly when its index in the reference list is smaller, and ties exactly on equal index (-1 for unknown or missing) |
| `Comparators.NestedComparator` | src/utils/comparators.ts:44-49 | compares two entities by comparing their extracted fields |
| `Comparators.NestedAutomatic` | src/utils/comparators.ts:44-49 | without an explicit comparator, the extracted fields are compared by the automatic comparator |
| `Comparators.SortTransformed` | src/utils/comparators.ts:127-129 | compares two values by comparing their transformed values |
| `Comparators.SortTransformedPreorder` | src/utils/comparators.ts:127-129 | sorting by a transformed value keeps a total preorder |
| `Comparators.AnimeName` | src/utils/comparators.ts:51 | the extracted value is the anime's name |
| `Comparators.AnimeYear` | src/utils/comparators.ts:52 | the extracted value is the year, null exactly when it is missing |
| `Comparators.AnimeSeason` | src/utils/comparators.ts:53-56 | `season?.toLowerCase()`: missing exactly when the season is, else the lower-cased season |
| `Comparators.SongTitle` | src/utils/comparators.ts:58-60 | `song?.title`: null exactly when the song or its title is missing, else the title |
| `Comparators.EntryVersion` | src/utils/comparators.ts:61-63 | the extracted value is the version, null exactly when it is missing |
| `Comparators.ThemeType` | src/utils/comparators.ts:64-67 | the extracted value is the lower-cased theme type |
| `Comparators.ThemeSequence` | src/utils/comparators.ts:68-70 | the extracted value is the sequence number, null exactly when it is missing |
| `Comparators.ThemeGroupName` | src/utils/comparators.ts:71-73 | `group?.name`: null exactly when the group is missing, else its name |
| `Comparators.StudioName` | src/utils/comparators.ts:74 | the extracted value is the studio's name |
| `Comparators.SeriesName` | src/utils/comparators.ts:75 | the extracted value is the series' name |
| `Comparators.ResourceSite` | src/utils/comparators.ts:76-78 | the extracted value is the site, null exactly when it is missing |
| `Comparators.ResourceAs` | src/utils/comparators.ts:79 | the extracted value is the `as` label, null exactly when it is missing |
| `Comparators.ToAnime` | src/utils/comparators.ts:95-98 | the lifted comparator compares two themes by comparing their anime |
| `Comparators.SeasonRank` | src/utils/comparators.ts:53-56 | a season's rank is its index among the four seasons after lower-casing, -1 exactly when unknown or missing |
| `Comparators.ThemeTypeRank` | src/utils/comparators.ts:64-67 | a theme type's rank is its index in (op, ed) after lower-casing, -1 exactly when it is neither |
| `Comparators.KeyName` | src/utils/comparators.ts:81-93 | "unsorted" names the unsorted key; exactly the anime keys are named "anime-…", exactly the song keys "song-…" |
| `Comparators.SortKeyRoundTrip` | src/utils/comparators.ts:81-93 | every key is found again under its exported name, and no two keys share a name |
| `Comparators.UnsortedComparator` | src/utils/comparators.ts:101 | `() => 0` ties every pair |
| `Comparators.AnimeView` | src/utils/comparators.ts:101-105 | a registry entry can be applied to anime exactly when it is not a song order |
| `Comparators.ThemeView` | src/utils/comparators.ts:106-120 | a registry entry can be applied to themes exactly when it is not an anime order |
| `Comparators.EitherChainIsIdentity` | src/utils/comparators.ts:11-13 | `either(c).chain()` compares exactly as `c` |
| `Comparators.EitherOrFirstNonZero` | src/utils/comparators.ts:14 | `either(c1).or(c2).chain()` gives `c1(a,b)` when non-zero, else `c2(a,b)` |
| `Comparators.FirstNonZero` | src/utils/comparators.ts:11-16 | reference fold over a comparator list: 0 iff every comparator ties, else the value of the first non-tying one |
| `Comparators.ChainOfIsFirstNonZero` | src/utils/comparators.ts:11-16 | a chain `either(c0).or(c1)…or(cn)` of any length equals the left-to-right first-non-zero fold |
| `Comparators.ReverseSwaps` | src/utils/comparators.ts:18-20 | `reverse(c)(a,b) == c(b,a)`, and reversing twice is the identity pointwise |
| `Comparators.ReverseNegates` | src/utils/comparators.ts:18-20 | reversal equals negation exactly for antisymmetric comparators (both directions) |
| `Comparators.AutomaticFalsyPolicy` | src/utils/comparators.ts:22-29 | both falsy ties at 0, only left falsy is -1, only right falsy is 1 |
| `Comparators.AutomaticZeroAndEmptyAreMissing` | src/utils/comparators.ts:22-29 | `0` and `""` tie with null and sort before every truthy value |
| `Comparators.AutomaticTruthy` | src/utils/comparators.ts:31-37 | two truthy numbers compare by `a - b`, two truthy strings by `localeCompare`, anything else ties at 0 |
| `Comparators.AutomaticExamples` | src/utils/comparators.ts:22-37 | (null,null)=0, (null,"x")<0, ("x",null)>0, ("b","a")>0, (2,10)<0 |
| `Comparators.AutomaticOnStrings` | src/utils/comparators.ts:22-32 | on two strings the falsy rule agrees with `localeCompare` (the empty string sorts first either way) |
| `Comparators.AutomaticAntisymmetric` | src/utils/comparators.ts:22-37 | the automatic comparator is antisymmetric on all values |
| `Comparators.AutomaticTransitiveOnText` | src/utils/comparators.ts:22-32 | on strings and nulls the automatic comparator is transitive |
| `Comparators.AutomaticTransitiveOnNumbers` | src/utils/comparators.ts:22-35 | on numbers and nulls the automatic comparator is transitive |
| `Comparators.AutomaticNotTransitiveAcrossTypes` | src/utils/comparators.ts:31-37 | because mismatched types tie, the automatic comparator is not transitive over mixed values |
| `Comparators.EnumComparatorRanks` | src/utils/comparators.ts:40-42 | an enum comparator returns the difference of reference indices; an unknown or missing value sorts before every known one |
| `Comparators.EnumComparatorPreorder` | src/utils/comparators.ts:40-42 | every enum comparator is a total preorder |
| `Comparators.NestedAutomaticApply` | src/utils/comparators.ts:44-49 | `nestedComparator(f)` compares `f(a)` with `f(b)` by the automatic comparator (the default) |
| `Comparators.NestedPreorder` | src/utils/comparators.ts:44-49 | comparing through any extractor keeps a total preorder |
| `Comparators.NestedTextPreorder` | src/utils/comparators.ts:44-49 | a default nested comparator over a string-or-null field is a total preorder |
| `Comparators.NestedNumberPreorder` | src/utils/comparators.ts:44-49 | a default nested comparator over a number-or-null field is a total preorder |
| `Comparators.ReversePreorder` | src/utils/comparators.ts:18-20 | reversing keeps a total preorder |
| `Comparators.OrPreorder` | src/utils/comparators.ts:14 | chaining two total preorders gives a total preorder (their lexicographic combination) |
| `Comparators.ToAnimeProjects` | src/utils/comparators.ts:95-98 | `toAnime(c)` compares the themes' anime by `c`, the same as nesting through `.anime` |
| `Comparators.ToAnimePreorder` | src/utils/comparators.ts:95-98 | `toAnime` keeps a total preorder |
| `Comparators.SortTransformedProjects` | src/utils/comparators.ts:127-129 | `sortTransformed(c, f)` compares the transformed values, and agrees with `nestedComparator(f, c)` |
| `Comparators.AnimeNameAlphabetical` | src/utils/comparators.ts:51 | anime names compare by `localeCompare` |
| `Comparators.YearZeroSortsAsMissing` | src/utils/comparators.ts:52 | a year of 0 ties with a missing year and sorts before every other year, negative ones included |
| `Comparators.AnimeSeasonByRank` | src/utils/comparators.ts:53-56 | the season comparator is the difference of the lower-cased seasons' ranks |
| `Comparators.KnownSeasonRank` | src/utils/comparators.ts:53-56 | a season whose lower-case form is the i-th of winter, spring, summer, fall has rank i, whatever its case |
| `Comparators.UnknownSeasonFirst` | src/utils/comparators.ts:53-56 | an unknown or missing season sorts before winter |
| `Comparators.SeasonCaseInsensitive` | src/utils/comparators.ts:53-56 | seasons equal up to case compare the same |
| `Comparators.ThemeTypeOrdering` | src/utils/comparators.ts:64-67 | theme type compares by rank of the lower-cased type through `nestedComparator`; "op" sorts before "ed" in any case; types equal up to case tie |
| `Comparators.PremiereYearFirst` | src/utils/comparators.ts:57 | premiere decides by year, and falls back to season only when the years tie |
| `Comparators.AnimeOrders` | src/utils/comparators.ts:102-104 | a-z is the name order, z-a is its reverse, old-new is premiere with name as tie-break |
| `Comparators.NewOldKeepsNameAscending` | src/utils/comparators.ts:105 | new-old negates only the premiere; ties are still broken by ascending name |
| `Comparators.OldNewSamePremiereByName` | src/utils/comparators.ts:104 | two anime with the same year and season are ordered alphabetically by old-new |
| `Comparators.UnsortedTies` | src/utils/comparators.ts:101 | the unsorted entry applies to anime and to themes, and ties every pair of either |
| `Comparators.SongOrders` | src/utils/comparators.ts:106-120 | each song order is the left-to-right first-non-zero fold of its comparators (e.g. a-z-anime: anime name, then theme type, then sequence) |
| `Comparators.FieldComparatorsConsistent` | src/utils/comparators.ts:61-79 | the version, group, studio, series and resource comparators, and the resource site-then-as chain, are total preorders |
| `Comparators.RegistryConsistent` | src/utils/comparators.ts:100-125 | every comparator the registry hands out is a total preorder |
| `Comparators.GetComparator` | src/utils/comparators.ts:123-125 | the lookup is total over the declared keys; the unsorted key gives the any-type entry, exactly the anime keys give anime orders |
| `Comparators.ParseSortKey` | src/utils/comparators.ts:81-93 | a name resolves to the key exported under that string, and an undeclared name resolves to nothing |
| `SearchReconcile.InitialFilter` | src/components/search/SearchSeries.tsx:13-26 | the created filter has no first letter, and a null sort exactly when a query is present, otherwise "name" |
| `SearchReconcile.LikePattern` | src/components/search/SearchSeries.tsx:50 | a pattern exists exactly when the first letter is set and non-empty, and is that letter followed by `%` |
| `SearchReconcile.LikePatternRecoversLetter` | src/components/search/SearchSeries.tsx:50 | dropping the trailing `%` recovers the first letter |
| `SearchReconcile.BuildSearchArgs` | src/components/search/SearchSeries.tsx:47-53 | the query and the sort are passed through; the only filter is "name-like", set to the letter pattern |
| `SearchReconcile.Reconcile` | src/components/search/SearchSeries.tsx:29-44 | a render that emits arguments leaves the state unchanged |
| `SearchReconcile.ReconcileRestoresDefaultSort` | src/components/search/SearchSeries.tsx:29-32 | with no query and a null sort, the render stores "name" and renders nothing |
| `SearchReconcile.ReconcileRecordsQueryChange` | src/components/search/SearchSeries.tsx:34-42 | a changed query is recorded and nothing renders; the sort is cleared only on the move from no query to a query |
| `SearchReconcile.ReconcileKeepsSortWhileSearching` | src/components/search/SearchSeries.tsx:36-38 | from one non-empty query to another the filter is unchanged |
| `SearchReconcile.ReconcileOutputIff` | src/components/search/SearchArtist.tsx:29-53 | results render iff the query equals `prevSearchQuery` and (a query is present or a sort is set), and then with the current filter |
| `SearchReconcile.ReconcileNeverBrowsesUnsorted` | src/components/search/SearchArtist.tsx:29-32 | no request is ever made without a query and without a sort |
| `SearchReconcile.ReconcileSettles` | src/components/search/SearchArtist.tsx:29-44 | with a fixed query the third render emits arguments, and further renders change nothing |
| `SearchReconcile.StartingASearchClearsSortOnce` | src/components/search/SearchArtist.tsx:34-42 | "" to "naruto" clears the sort once and then renders; a sort picked afterwards survives "naruto2" |
| `SearchReconcile.SortOptions` | src/components/search/SearchArtist.tsx:78-83 | the "Relevance" (null) option is offered exactly while a query is present |
| `SearchReconcile.SearchController.ForSeries` | src/components/search/SearchSeries.tsx:23-46 | the series search uses key "filter-series" and entity "series", the stored filter or else the initial one, and starts with `prevSearchQuery` = the query |
| `SearchReconcile.SearchController.ForArtist` | src/components/search/SearchArtist.tsx:23-46 | the artist search is the same under key "filter-artist" and entity "artist" |
| `SearchReconcile.SearchController.UpdateSortBy` | src/components/search/SearchSeries.tsx:78 | setting the sort changes only `filter.sortBy` |
| `SearchReconcile.SearchController.UpdateFirstLetter` | src/components/search/SearchSeries.tsx:77 | setting the first letter changes only `filter.firstLetter` |
| `SearchReconcile.SearchController.Render` | src/components/search/SearchArtist.tsx:29-53 | the new filter, the new `prevSearchQuery` and the output are those of `Reconcile` on the old state |
| `ThemeSearch.InitialThemeFilter` | src/components/search/SearchTheme.js:7-11 | first letter, type and sort are all null |
| `ThemeSearch.EffectiveSortBy` | src/components/search/SearchTheme.js:16-18 | a chosen sort is always used; when searching, the stored sort is used verbatim; the result is null (relevance) exactly when searching with no sort chosen; when browsing with none, it is "song.title" |
| `ThemeSearch.BuildThemeSearchArgs` | src/components/search/SearchTheme.js:20-27 | entity "theme", the query, filters `has` = "song", `song][title-like` = letter pattern, `type` passed through, and the effective sort |
| `ThemeSearch.DefaultIsNotPersisted` | src/components/search/SearchTheme.js:16-18 | with no stored sort, browsing uses "song.title" while searching uses relevance: the default is computed, never stored |
| `ThemeSearch.ThemeSortOptions` | src/components/search/SearchTheme.js:36-46 | the "Relevance" option is offered exactly while a query is present |
| `ThemeSearch.EffectiveSortIsOffered` | src/components/search/SearchTheme.js:36-46 | if the stored sort is null or offered, the effective sort is one of the offered options |
| `LocalPlaylist.Merge` | src/hooks/useLocalPlaylist.tsx:23-28 | the added record has every field of both, and fresh fields override the given ones |
| `LocalPlaylist.Find` | src/hooks/useLocalPlaylist.tsx:40-42 | `find` succeeds exactly when some entry has the id, and returns the first such entry |
| `LocalPlaylist.Without` | src/hooks/useLocalPlaylist.tsx:36-38 | `filter` keeps no entry with the id, every entry with another id, and nothing new |
| `LocalPlaylist.WithoutConcat` | src/hooks/useLocalPlaylist.tsx:36-38 | the filter distributes over concatenation, so kept entries stay in their order |
| `LocalPlaylist.WithoutSingleton` | src/hooks/useLocalPlaylist.tsx:36-38 | on one entry the filter drops it exactly when its id matches |
| `LocalPlaylist.WithoutAbsent` | src/hooks/useLocalPlaylist.tsx:36-38 | removing an id that is not present leaves the list unchanged |
| `LocalPlaylist.AddedIsInPlaylist` | src/hooks/useLocalPlaylist.tsx:20-30 | an add grows the list by one with no duplicate check, and the theme is then found, provided the fresh data has no id or the same one |
| `LocalPlaylist.RemovedIsNotInPlaylist` | src/hooks/useLocalPlaylist.tsx:36-42 | after a remove the theme is not found |
| `LocalPlaylist.RemoveUndoesAdd` | src/hooks/useLocalPlaylist.tsx:20-38 | removing right after an add gives the list with the theme removed from before the add |
| `LocalPlaylist.Playlist.constructor` | src/hooks/useLocalPlaylist.tsx:15-17 | the playlist is the stored list, or empty by default |
| `LocalPlaylist.Playlist.AddToPlaylist` | src/hooks/useLocalPlaylist.tsx:20-34 | with fresh data, exactly one merged entry is appended and the prefix is untouched; without, the list is unchanged |
| `LocalPlaylist.Playlist.RemoveFromPlaylist` | src/hooks/useLocalPlaylist.tsx:36-38 | the list becomes the old list without the entries having the id |
| `LocalPlaylist.Playlist.IsInPlaylist` | src/hooks/useLocalPlaylist.tsx:40-42 | true iff some entry has the given id |
| `LocalPlaylist.Playlist.SetPlaylist` | src/hooks/useLocalPlaylist.tsx:44-46 | the whole list is replaced by the argument |

## Left out

- The host locale's `localeCompare`: modelled as lexicographic code-unit order, an assumption, because the real order depends on the host.
- Unicode case mapping: `toLowerCase` lower-cases ASCII letters only.
- Floating point: numbers are integers, and `NaN` (falsy, and falsy as a comparator result in `||`) is not modelled; every compared number is a year, a sequence or a version.
- The distinction between `null` and `undefined` among compared values: both are `Null`, as the comparators treat them alike. Playlist ids keep it, as a missing `id` field.
- Comparators.ParseSortKey: names inherited from `Object.prototype` (such as `"toString"` or `"constructor"`) are not modelled. A lookup of such a name in the registry object finds an inherited member rather than `undefined`; the model finds nothing.
- LocalPlaylist.Playlist.AddToPlaylist: the call and the resolution of its fetch are one step here. The source's callback appends to the list captured when `addToPlaylist` was created, not to the current list. So the lost updates of overlapping calls are not captured: of two adds started from one render only the later survives, and a remove or replace made during the fetch is undone.
- TypeScript intersection types (`T & K` in `or`): a chain compares one entity type.
- Host sort stability and the sort routine itself: no sort routine appears in the modelled code. The model proves instead that every registered comparator is a total preorder.
- The remote search (`fetchResults`, GraphQL), `SearchEntity` paging and result cards, and the filter widgets beyond the sort options they offer.
- Browser storage behind `useFilterStorage`, `useSessionStorage` and `useLocalStorageState`: the stored value is a constructor parameter (`stored`), and the filter is a plain field. `useFilterStorage` is not part of this model. The initial filter is only used when storage holds none.
- React's render scheduling: the state writes of a correcting render are applied at once, and the re-render it causes is the next `Render` call.
- `fetchThemeSummaryCardData` and `dispatchToast` in the playlist hook: the fetch result is the `themeFresh` parameter (`None` for a falsy result), and the toast is not modelled.
- `SearchTheme.js` writes the filter only from the widgets (`updateFilter(field)`): pure functions of the filter model the rest, so computing the effective sort cannot write it.
- `src/components/navigation/SearchNavigation.tsx`: debounce, router and hotkey glue.
- Presentational files (`FeaturedTheme.tsx`, `SummaryCard.tsx`, `ListboxReach.js`, `Markdown.tsx`, `Navigation.style.ts`, `SeasonNavigation.tsx`, `PlaylistTrackAddToast.tsx`, `ProfileImage.tsx`), `markdownToHtml.ts` (a wrapper over external libraries), `useColorTheme.ts` (DOM and storage effects) and `config.ts` (environment variables): not part of this model.
