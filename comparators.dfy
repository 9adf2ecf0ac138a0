/** The comparator composition library: a handful of primitives (the automatic
    value comparator, enum ranking, field extraction, reversal and the
    first-non-zero-wins chain), the entity comparators built from them, and the
    fixed registry of named sort orders. */
module Comparators {
  import opened Common

  /** Negative: `a` sorts first; zero: tie; positive: `b` sorts first. */
  type Comparator<!T> = (T, T) -> int

  // ---------------------------------------------------------------------------
  // Properties a comparator may have
  // ---------------------------------------------------------------------------

  /** Swapping the arguments exactly negates the result. */
  ghost predicate Antisymmetric<T(!new)>(cmp: Comparator<T>) {
    forall a, b :: cmp(a, b) == -cmp(b, a)
  }

  /** "Sorts no later than" is transitive. */
  ghost predicate Transitive<T(!new)>(cmp: Comparator<T>) {
    forall a, b, c :: cmp(a, b) <= 0 && cmp(b, c) <= 0 ==> cmp(a, c) <= 0
  }

  /** What a sort routine needs from its comparator: a total preorder
      (totality and reflexivity follow from antisymmetry). */
  ghost predicate TotalPreorder<T(!new)>(cmp: Comparator<T>) {
    Antisymmetric(cmp) && Transitive(cmp)
  }

  // ---------------------------------------------------------------------------
  // Host string primitives
  // ---------------------------------------------------------------------------

  /** `String.prototype.localeCompare`, taken to be lexicographic order on
      character codes, with the result normalised to -1, 0 or 1. */
  function LocaleCompare(a: string, b: string): (r: int)
    ensures -1 <= r <= 1
    ensures r == 0 <==> a == b
  {
    if a == [] && b == [] then 0
    else if a == [] then -1
    else if b == [] then 1
    else if a[0] < b[0] then -1
    else if b[0] < a[0] then 1
    else
      assert a == [a[0]] + a[1..] && b == [b[0]] + b[1..];
      LocaleCompare(a[1..], b[1..])
  }

  lemma {:induction false} LocaleCompareAntisymmetric(a: string, b: string)
    ensures LocaleCompare(a, b) == -LocaleCompare(b, a)
  {
    if a != [] && b != [] && a[0] == b[0] {
      LocaleCompareAntisymmetric(a[1..], b[1..]);
    }
  }

  lemma {:induction false} LocaleCompareTransitive(a: string, b: string, c: string)
    requires LocaleCompare(a, b) <= 0 && LocaleCompare(b, c) <= 0
    ensures LocaleCompare(a, c) <= 0
  {
    if a != [] && b != [] && c != [] && a[0] == b[0] && b[0] == c[0] {
      LocaleCompareTransitive(a[1..], b[1..], c[1..]);
    }
  }

  /** `toLowerCase` on one character (ASCII letters only). */
  function LowerChar(c: char): (r: char)
    ensures 'A' <= c <= 'Z' ==> r as int == c as int + 32
    ensures !('A' <= c <= 'Z') ==> r == c
  {
    if 'A' <= c <= 'Z' then (c as int + 32) as char else c
  }

  /** `String.prototype.toLowerCase` (ASCII letters only). */
  function ToLower(s: string): (r: string)
    ensures |r| == |s|
    ensures forall i :: 0 <= i < |s| ==> r[i] == LowerChar(s[i])
  {
    seq(|s|, i requires 0 <= i < |s| => LowerChar(s[i]))
  }

  /** `s?.toLowerCase()`: undefined stays undefined. */
  function LowerOpt(s: Option<string>): (r: Option<string>)
    ensures r.Some? <==> s.Some?
    ensures s.Some? ==> r.value == ToLower(s.value)
  {
    match s
    case Some(x) => Some(ToLower(x))
    case None => None
  }

  // ---------------------------------------------------------------------------
  // Primitives
  // ---------------------------------------------------------------------------

  /** The object `either(comparator)` returns: `Chain()` hands the comparator
      out, `Or(next)` builds a new chain that consults `next` on a tie. */
  datatype ComparatorChain<!T(!new)> = ComparatorChain(comparator: Comparator<T>) {
    function Chain(): (r: Comparator<T>)
      ensures forall a, b :: r(a, b) == comparator(a, b)
    {
      comparator
    }

    /** `comparator(a, b) || or(a, b)`: a non-zero number is truthy. */
    function Or(or: Comparator<T>): (r: ComparatorChain<T>)
      ensures forall a, b :: comparator(a, b) != 0 ==> r.comparator(a, b) == comparator(a, b)
      ensures forall a, b :: comparator(a, b) == 0 ==> r.comparator(a, b) == or(a, b)
    {
      Either((a: T, b: T) => var r := comparator(a, b); if r != 0 then r else or(a, b))
    }
  }

  function Either<T(!new)>(comparator: Comparator<T>): (r: ComparatorChain<T>)
    ensures forall a, b :: r.Chain()(a, b) == comparator(a, b)
  {
    ComparatorChain(comparator)
  }

  function Reverse<T(!new)>(comparator: Comparator<T>): (r: Comparator<T>)
    ensures forall a, b :: r(a, b) == comparator(b, a)
  {
    (a: T, b: T) => comparator(b, a)
  }

  /** The generic fallback comparator: falsy values first, strings by
      `localeCompare`, numbers by subtraction, anything else ties. */
  function AutomaticComparator(a: Value, b: Value): (r: int)
    ensures Falsy(a) && Falsy(b) ==> r == 0
    ensures Falsy(a) && !Falsy(b) ==> r == -1
    ensures !Falsy(a) && Falsy(b) ==> r == 1
    ensures a.Str? && b.Str? ==> r == LocaleCompare(a.s, b.s)
    ensures !Falsy(a) && !Falsy(b) && a.Num? && b.Num? ==> r == a.n - b.n
    ensures !Falsy(a) && !Falsy(b) && !(a.Str? && b.Str?) && !(a.Num? && b.Num?) ==> r == 0
  {
    if Falsy(a) && Falsy(b) then 0
    else if Falsy(a) then -1
    else if Falsy(b) then 1
    else if a.Str? && b.Str? then LocaleCompare(a.s, b.s)
    else if a.Num? && b.Num? then a.n - b.n
    else 0
  }

  /** `Array.prototype.indexOf`: the first position holding `v`, or -1. An
      undefined value is never in a reference list. */
  function IndexOf<T(==)>(target: seq<T>, v: Option<T>): (r: int)
    ensures -1 <= r < |target|
    ensures r == -1 <==> v.None? || v.value !in target
    ensures 0 <= r ==> v.Some? && target[r] == v.value
    ensures 0 <= r ==> forall j :: 0 <= j < r ==> target[j] != v.value
  {
    if v.None? || target == [] then -1
    else if target[0] == v.value then 0
    else
      var k := IndexOf(target[1..], v);
      if k == -1 then -1 else k + 1
  }

  function EnumComparator<T(==, !new)>(target: seq<T>): (r: Comparator<Option<T>>)
    ensures forall a, b :: r(a, b) < 0 <==> IndexOf(target, a) < IndexOf(target, b)
    ensures forall a, b :: r(a, b) == 0 <==> IndexOf(target, a) == IndexOf(target, b)
  {
    (a: Option<T>, b: Option<T>) => IndexOf(target, a) - IndexOf(target, b)
  }

  function NestedComparator<S(!new), V>(extractor: S -> V, comparator: Comparator<V>): (r: Comparator<S>)
    ensures forall a, b :: r(a, b) == comparator(extractor(a), extractor(b))
  {
    (a: S, b: S) => comparator(extractor(a), extractor(b))
  }

  /** `nestedComparator(extractor)`: the default comparator is the automatic one. */
  function NestedAutomatic<S(!new)>(extractor: S -> Value): (r: Comparator<S>)
    ensures forall a, b :: r(a, b) == AutomaticComparator(extractor(a), extractor(b))
  {
    NestedComparator(extractor, AutomaticComparator)
  }

  function SortTransformed<T, K(!new)>(comparator: Comparator<T>, transformator: K -> T): (r: Comparator<K>)
    ensures forall a, b :: r(a, b) == comparator(transformator(a), transformator(b))
  {
    (a: K, b: K) => comparator(transformator(a), transformator(b))
  }

  // ---------------------------------------------------------------------------
  // Entities (the minimal field shapes the comparators read)
  // ---------------------------------------------------------------------------

  datatype Anime = Anime(name: string, year: Option<int>, season: Option<string>)
  datatype Song = Song(title: Option<string>)
  datatype Group = Group(name: string)
  /** A theme; `themeType` is the source's `type` ("OP", "ED"). */
  datatype Theme = Theme(themeType: string, sequence: Option<int>, song: Option<Song>,
                         group: Option<Group>, anime: Anime)
  datatype Entry = Entry(version: Option<int>)
  datatype Studio = Studio(name: string)
  datatype Series = Series(name: string)
  /** An external resource; `asLabel` is the source's `as` field. */
  datatype Resource = Resource(site: Option<string>, asLabel: Option<string>)

  const SeasonOrder: seq<string> := ["winter", "spring", "summer", "fall"]
  const ThemeTypeOrder: seq<string> := ["op", "ed"]

  // The extractors handed to nestedComparator: a missing field reads as null.

  function AnimeName(anime: Anime): (v: Value)
    ensures v.Str? && v.s == anime.name
  {
    Str(anime.name)
  }

  function AnimeYear(anime: Anime): (v: Value)
    ensures v.Null? <==> anime.year.None?
    ensures anime.year.Some? ==> v.Num? && v.n == anime.year.value
  {
    NumOrNull(anime.year)
  }

  /** `anime.season?.toLowerCase()`. */
  function AnimeSeason(anime: Anime): (v: Option<string>)
    ensures v.Some? <==> anime.season.Some?
    ensures v.Some? ==> v.value == ToLower(anime.season.value)
  {
    LowerOpt(anime.season)
  }

  /** `theme.song?.title`. */
  function SongTitle(theme: Theme): (v: Value)
    ensures v.Null? <==> theme.song.None? || theme.song.value.title.None?
    ensures !v.Null? ==> v.Str? && v.s == theme.song.value.title.value
  {
    match theme.song
    case Some(song) => StrOrNull(song.title)
    case None => Null
  }

  function EntryVersion(entry: Entry): (v: Value)
    ensures v.Null? <==> entry.version.None?
    ensures entry.version.Some? ==> v.Num? && v.n == entry.version.value
  {
    NumOrNull(entry.version)
  }

  /** `theme.type.toLowerCase()`. */
  function ThemeType(theme: Theme): (v: Option<string>)
    ensures v.Some? && v.value == ToLower(theme.themeType)
  {
    Some(ToLower(theme.themeType))
  }

  function ThemeSequence(theme: Theme): (v: Value)
    ensures v.Null? <==> theme.sequence.None?
    ensures theme.sequence.Some? ==> v.Num? && v.n == theme.sequence.value
  {
    NumOrNull(theme.sequence)
  }

  /** `theme.group?.name`. */
  function ThemeGroupName(theme: Theme): (v: Value)
    ensures v.Null? <==> theme.group.None?
    ensures theme.group.Some? ==> v.Str? && v.s == theme.group.value.name
  {
    match theme.group
    case Some(group) => Str(group.name)
    case None => Null
  }

  function StudioName(studio: Studio): (v: Value)
    ensures v.Str? && v.s == studio.name
  {
    Str(studio.name)
  }

  function SeriesName(series: Series): (v: Value)
    ensures v.Str? && v.s == series.name
  {
    Str(series.name)
  }

  function ResourceSite(resource: Resource): (v: Value)
    ensures v.Null? <==> resource.site.None?
    ensures resource.site.Some? ==> v.Str? && v.s == resource.site.value
  {
    StrOrNull(resource.site)
  }

  /** `resource.as`. */
  function ResourceAs(resource: Resource): (v: Value)
    ensures v.Null? <==> resource.asLabel.None?
    ensures resource.asLabel.Some? ==> v.Str? && v.s == resource.asLabel.value
  {
    StrOrNull(resource.asLabel)
  }

  const AnimeNameComparator: Comparator<Anime> := NestedAutomatic(AnimeName)
  const AnimeYearComparator: Comparator<Anime> := NestedAutomatic(AnimeYear)
  const AnimeSeasonComparator: Comparator<Anime> :=
    NestedComparator(AnimeSeason, EnumComparator(SeasonOrder))
  const AnimePremiereComparator: Comparator<Anime> :=
    Either(AnimeYearComparator).Or(AnimeSeasonComparator).Chain()
  const SongTitleComparator: Comparator<Theme> := NestedAutomatic(SongTitle)
  const EntryVersionComparator: Comparator<Entry> := NestedAutomatic(EntryVersion)
  const ThemeTypeComparator: Comparator<Theme> :=
    NestedComparator(ThemeType, EnumComparator(ThemeTypeOrder))
  const ThemeIndexComparator: Comparator<Theme> := NestedAutomatic(ThemeSequence)
  const ThemeGroupComparator: Comparator<Theme> := NestedAutomatic(ThemeGroupName)
  const StudioNameComparator: Comparator<Studio> := NestedAutomatic(StudioName)
  const SeriesNameComparator: Comparator<Series> := NestedAutomatic(SeriesName)
  const ResourceSiteComparator: Comparator<Resource> := NestedAutomatic(ResourceSite)
  const ResourceAsComparator: Comparator<Resource> := NestedAutomatic(ResourceAs)

  /** Lifts an anime comparator to themes through their `anime` field. */
  function ToAnime(comparator: Comparator<Anime>): (r: Comparator<Theme>)
    ensures forall a, b :: r(a, b) == comparator(a.anime, b.anime)
  {
    (a: Theme, b: Theme) => comparator(a.anime, b.anime)
  }

  // ---------------------------------------------------------------------------
  // The registry of named sort orders
  // ---------------------------------------------------------------------------

  datatype SortKey =
    | Unsorted
    | AnimeAZ | AnimeZA | AnimeOldNew | AnimeNewOld
    | SongAZ | SongZA | SongAZAnime | SongZAAnime | SongOldNew | SongNewOld

  predicate IsAnimeKey(key: SortKey) {
    key.AnimeAZ? || key.AnimeZA? || key.AnimeOldNew? || key.AnimeNewOld?
  }

  /** The string constant each key is exported as: the anime orders carry the
      prefix "anime-", the song orders "song-". */
  function KeyName(key: SortKey): (name: string)
    ensures key.Unsorted? <==> name == "unsorted"
    ensures IsAnimeKey(key) <==> |name| > 6 && name[..6] == "anime-"
    ensures !IsAnimeKey(key) && !key.Unsorted? <==> |name| > 5 && name[..5] == "song-"
  {
    assert "unsorted"[0] == 'u' && "anime-"[0] == 'a' && "song-"[0] == 's';
    match key
    case Unsorted => "unsorted"
    case AnimeAZ => "anime-a-z"
    case AnimeZA => "anime-z-a"
    case AnimeOldNew => "anime-old-new"
    case AnimeNewOld => "anime-new-old"
    case SongAZ => "song-a-z"
    case SongZA => "song-z-a"
    case SongAZAnime => "song-a-z-anime"
    case SongZAAnime => "song-z-a-anime"
    case SongOldNew => "song-old-new"
    case SongNewOld => "song-new-old"
  }

  /** Looking a key up by its string, as `comparators[name]` does: an
      undeclared name finds nothing. */
  function ParseSortKey(name: string): (r: Option<SortKey>)
    ensures r.Some? ==> KeyName(r.value) == name
    ensures r.None? ==> forall key :: KeyName(key) != name
  {
    if name == "unsorted" then Some(Unsorted)
    else if name == "anime-a-z" then Some(AnimeAZ)
    else if name == "anime-z-a" then Some(AnimeZA)
    else if name == "anime-old-new" then Some(AnimeOldNew)
    else if name == "anime-new-old" then Some(AnimeNewOld)
    else if name == "song-a-z" then Some(SongAZ)
    else if name == "song-z-a" then Some(SongZA)
    else if name == "song-a-z-anime" then Some(SongAZAnime)
    else if name == "song-z-a-anime" then Some(SongZAAnime)
    else if name == "song-old-new" then Some(SongOldNew)
    else if name == "song-new-old" then Some(SongNewOld)
    else None
  }

  /** What a registry entry compares: `() => 0` accepts anything, the anime
      orders compare anime, the song orders compare themes. */
  datatype Registered =
    | AnyOrder
    | AnimeOrder(animeCmp: Comparator<Anime>)
    | ThemeOrder(themeCmp: Comparator<Theme>)

  /** The registry's `() => 0`, at any entity type. */
  function UnsortedComparator<T(!new)>(): (r: Comparator<T>)
    ensures forall a, b :: r(a, b) == 0
  {
    (a: T, b: T) => 0
  }

  function GetComparator(key: SortKey): (r: Registered)
    ensures r.AnyOrder? <==> key == Unsorted
    ensures r.AnimeOrder? <==> IsAnimeKey(key)
  {
    match key
    case Unsorted => AnyOrder
    case AnimeAZ => AnimeOrder(AnimeNameComparator)
    case AnimeZA => AnimeOrder(Reverse(AnimeNameComparator))
    case AnimeOldNew => AnimeOrder(Either(AnimePremiereComparator).Or(AnimeNameComparator).Chain())
    case AnimeNewOld => AnimeOrder(Either(Reverse(AnimePremiereComparator)).Or(AnimeNameComparator).Chain())
    case SongAZ => ThemeOrder(SongTitleComparator)
    case SongZA => ThemeOrder(Reverse(SongTitleComparator))
    case SongAZAnime =>
      ThemeOrder(Either(ToAnime(AnimeNameComparator)).Or(ThemeTypeComparator).Or(ThemeIndexComparator).Chain())
    case SongZAAnime =>
      ThemeOrder(Either(Reverse(ToAnime(AnimeNameComparator))).Or(ThemeTypeComparator).Or(ThemeIndexComparator).Chain())
    case SongOldNew =>
      ThemeOrder(Either(ToAnime(AnimePremiereComparator)).Or(ToAnime(AnimeNameComparator)).Or(SongTitleComparator).Chain())
    case SongNewOld =>
      ThemeOrder(Either(Reverse(ToAnime(AnimePremiereComparator))).Or(ToAnime(AnimeNameComparator)).Or(SongTitleComparator).Chain())
  }

  /** A registry entry used as an anime order: `() => 0` accepts anime too,
      a song order does not. */
  function AnimeView(r: Registered): (c: Option<Comparator<Anime>>)
    ensures c.Some? <==> !r.ThemeOrder?
  {
    match r
    case AnyOrder => Some(UnsortedComparator())
    case AnimeOrder(cmp) => Some(cmp)
    case ThemeOrder(_) => None
  }

  /** A registry entry used as a theme order: `() => 0` accepts themes too,
      an anime order does not. */
  function ThemeView(r: Registered): (c: Option<Comparator<Theme>>)
    ensures c.Some? <==> !r.AnimeOrder?
  {
    match r
    case AnyOrder => Some(UnsortedComparator())
    case AnimeOrder(_) => None
    case ThemeOrder(cmp) => Some(cmp)
  }

  /** Every key is found again under the name it is exported as, and no two
      keys share a name. */
  lemma SortKeyRoundTrip(key: SortKey, other: SortKey)
    ensures ParseSortKey(KeyName(key)) == Some(key)
    ensures KeyName(key) == KeyName(other) ==> key == other
  {
  }

  // ---------------------------------------------------------------------------
  // Chains: a reference definition as a fold over a list
  // ---------------------------------------------------------------------------

  /** First-non-zero-wins over an explicit list of comparators. */
  function FirstNonZero<T>(cs: seq<Comparator<T>>, a: T, b: T): (r: int)
    ensures r == 0 <==> forall i :: 0 <= i < |cs| ==> cs[i](a, b) == 0
    ensures r != 0 ==> exists i :: 0 <= i < |cs| && r == cs[i](a, b) &&
                                   forall j :: 0 <= j < i ==> cs[j](a, b) == 0
  {
    if cs == [] then 0
    else if cs[0](a, b) != 0 then cs[0](a, b)
    else
      var r := FirstNonZero(cs[1..], a, b);
      assert forall i :: 1 <= i < |cs| ==> cs[i] == cs[1..][i - 1];
      if r != 0 then
        var i :| 0 <= i < |cs[1..]| && r == cs[1..][i](a, b) &&
                 forall j :: 0 <= j < i ==> cs[1..][j](a, b) == 0;
        assert r == cs[i + 1](a, b) && forall j :: 0 <= j < i + 1 ==> cs[j](a, b) == 0;
        r
      else r
  }

  /** `either(cs[0]).or(cs[1])...or(cs[n-1])`. */
  function ChainOf<T(!new)>(cs: seq<Comparator<T>>): ComparatorChain<T>
    requires |cs| > 0
    decreases |cs|
  {
    if |cs| == 1 then Either(cs[0]) else ChainOf(cs[..|cs| - 1]).Or(cs[|cs| - 1])
  }

  lemma {:induction false} FirstNonZeroSnoc<T>(cs: seq<Comparator<T>>, c: Comparator<T>, a: T, b: T)
    ensures FirstNonZero(cs + [c], a, b) ==
            (if FirstNonZero(cs, a, b) != 0 then FirstNonZero(cs, a, b) else c(a, b))
  {
    if cs != [] {
      assert (cs + [c])[1..] == cs[1..] + [c];
      FirstNonZeroSnoc(cs[1..], c, a, b);
    }
  }

  /** The fluent chain and the list fold agree: left to right, first non-zero wins. */
  lemma {:induction false} ChainOfIsFirstNonZero<T(!new)>(cs: seq<Comparator<T>>, a: T, b: T)
    requires |cs| > 0
    ensures ChainOf(cs).Chain()(a, b) == FirstNonZero(cs, a, b)
    decreases |cs|
  {
    if |cs| > 1 {
      var init := cs[..|cs| - 1];
      ChainOfIsFirstNonZero(init, a, b);
      FirstNonZeroSnoc(init, cs[|cs| - 1], a, b);
      assert init + [cs[|cs| - 1]] == cs;
    }
  }

  lemma EitherChainIsIdentity<T(!new)>(c: Comparator<T>, a: T, b: T)
    ensures Either(c).Chain()(a, b) == c(a, b)
  {
  }

  lemma EitherOrFirstNonZero<T(!new)>(c1: Comparator<T>, c2: Comparator<T>, a: T, b: T)
    ensures c1(a, b) != 0 ==> Either(c1).Or(c2).Chain()(a, b) == c1(a, b)
    ensures c1(a, b) == 0 ==> Either(c1).Or(c2).Chain()(a, b) == c2(a, b)
  {
  }

  // ---------------------------------------------------------------------------
  // Reversal
  // ---------------------------------------------------------------------------

  lemma ReverseSwaps<T(!new)>(c: Comparator<T>, a: T, b: T)
    ensures Reverse(c)(a, b) == c(b, a)
    ensures Reverse(Reverse(c))(a, b) == c(a, b)
  {
  }

  /** Reversal is negation exactly when the comparator is antisymmetric. */
  lemma ReverseNegates<T(!new)>(c: Comparator<T>)
    ensures Antisymmetric(c) <==> forall a, b :: Reverse(c)(a, b) == -c(a, b)
  {
    if forall a, b :: Reverse(c)(a, b) == -c(a, b) {
      forall a, b ensures c(a, b) == -c(b, a) {
        assert Reverse(c)(b, a) == -c(b, a);
      }
    }
  }

  // ---------------------------------------------------------------------------
  // The automatic comparator
  // ---------------------------------------------------------------------------

  lemma AutomaticFalsyPolicy(a: Value, b: Value)
    ensures Falsy(a) && Falsy(b) ==> AutomaticComparator(a, b) == 0
    ensures Falsy(a) && !Falsy(b) ==> AutomaticComparator(a, b) == -1
    ensures !Falsy(a) && Falsy(b) ==> AutomaticComparator(a, b) == 1
  {
  }

  /** A zero or an empty string sorts with the missing values. */
  lemma AutomaticZeroAndEmptyAreMissing(v: Value)
    requires !Falsy(v)
    ensures AutomaticComparator(Num(0), Null) == 0 && AutomaticComparator(Str(""), Null) == 0
    ensures AutomaticComparator(Num(0), v) == -1 && AutomaticComparator(Str(""), v) == -1
  {
  }

  lemma AutomaticTruthy(a: Value, b: Value)
    requires !Falsy(a) && !Falsy(b)
    ensures a.Num? && b.Num? ==> AutomaticComparator(a, b) == a.n - b.n
    ensures a.Str? && b.Str? ==> AutomaticComparator(a, b) == LocaleCompare(a.s, b.s)
    ensures !(a.Num? && b.Num?) && !(a.Str? && b.Str?) ==> AutomaticComparator(a, b) == 0
  {
  }

  lemma AutomaticExamples()
    ensures AutomaticComparator(Null, Null) == 0
    ensures AutomaticComparator(Null, Str("x")) < 0
    ensures AutomaticComparator(Str("x"), Null) > 0
    ensures AutomaticComparator(Str("b"), Str("a")) > 0
    ensures AutomaticComparator(Num(2), Num(10)) < 0
  {
    assert Str("x") != Str("");
    assert LocaleCompare("b", "a") == 1 by {
      assert "b"[0] == 'b' && "a"[0] == 'a';
    }
  }

  lemma AutomaticAntisymmetric()
    ensures Antisymmetric(AutomaticComparator)
  {
    forall a, b ensures AutomaticComparator(a, b) == -AutomaticComparator(b, a) {
      if a.Str? && b.Str? {
        LocaleCompareAntisymmetric(a.s, b.s);
      }
    }
  }

  /** On two strings the falsy rule agrees with `localeCompare`: the empty
      string sorts first either way. */
  lemma AutomaticOnStrings(x: string, y: string)
    ensures AutomaticComparator(Str(x), Str(y)) == LocaleCompare(x, y)
  {
  }

  /** Values a string field yields: a string, or null/undefined. */
  predicate TextLike(v: Value) { v.Null? || v.Str? }

  /** Values a number field yields: a number, or null/undefined. */
  predicate NumberLike(v: Value) { v.Null? || v.Num? }

  lemma AutomaticTransitiveOnText(a: Value, b: Value, c: Value)
    requires TextLike(a) && TextLike(b) && TextLike(c)
    requires AutomaticComparator(a, b) <= 0 && AutomaticComparator(b, c) <= 0
    ensures AutomaticComparator(a, c) <= 0
  {
    if !Falsy(a) && !Falsy(b) && !Falsy(c) {
      LocaleCompareTransitive(a.s, b.s, c.s);
    }
  }

  lemma AutomaticTransitiveOnNumbers(a: Value, b: Value, c: Value)
    requires NumberLike(a) && NumberLike(b) && NumberLike(c)
    requires AutomaticComparator(a, b) <= 0 && AutomaticComparator(b, c) <= 0
    ensures AutomaticComparator(a, c) <= 0
  {
  }

  /** Mixed types tie, so across types the automatic comparator is not a
      preorder: 1 ~ "a" ~ 2, yet 2 sorts after 1. */
  lemma AutomaticNotTransitiveAcrossTypes()
    ensures !Transitive(AutomaticComparator)
  {
    assert AutomaticComparator(Num(2), Str("a")) <= 0;
    assert AutomaticComparator(Str("a"), Num(1)) <= 0;
    assert AutomaticComparator(Num(2), Num(1)) > 0;
  }

  // ---------------------------------------------------------------------------
  // Enum ranking, nesting and lifting
  // ---------------------------------------------------------------------------

  lemma EnumComparatorRanks<T(!new)>(target: seq<T>, a: Option<T>, b: Option<T>)
    ensures EnumComparator(target)(a, b) == IndexOf(target, a) - IndexOf(target, b)
    ensures (a.None? || a.value !in target) && b.Some? && b.value in target ==>
              EnumComparator(target)(a, b) < 0
  {
  }

  lemma EnumComparatorPreorder<T(!new)>(target: seq<T>)
    ensures TotalPreorder(EnumComparator(target))
  {
  }

  lemma NestedPreorder<S(!new), V(!new)>(extractor: S -> V, cmp: Comparator<V>)
    requires TotalPreorder(cmp)
    ensures TotalPreorder(NestedComparator(extractor, cmp))
  {
    var n := NestedComparator(extractor, cmp);
    forall a, b, c | n(a, b) <= 0 && n(b, c) <= 0 ensures n(a, c) <= 0 {
      assert cmp(extractor(a), extractor(b)) <= 0 && cmp(extractor(b), extractor(c)) <= 0;
    }
  }

  lemma NestedTextPreorder<S(!new)>(extractor: S -> Value)
    requires forall s :: TextLike(extractor(s))
    ensures TotalPreorder(NestedAutomatic(extractor))
  {
    AutomaticAntisymmetric();
    var n := NestedAutomatic(extractor);
    forall a, b, c | n(a, b) <= 0 && n(b, c) <= 0 ensures n(a, c) <= 0 {
      AutomaticTransitiveOnText(extractor(a), extractor(b), extractor(c));
    }
  }

  lemma NestedNumberPreorder<S(!new)>(extractor: S -> Value)
    requires forall s :: NumberLike(extractor(s))
    ensures TotalPreorder(NestedAutomatic(extractor))
  {
    AutomaticAntisymmetric();
    var n := NestedAutomatic(extractor);
    forall a, b, c | n(a, b) <= 0 && n(b, c) <= 0 ensures n(a, c) <= 0 {
      AutomaticTransitiveOnNumbers(extractor(a), extractor(b), extractor(c));
    }
  }

  lemma NestedAutomaticApply<S(!new)>(extractor: S -> Value, a: S, b: S)
    ensures NestedAutomatic(extractor)(a, b) == AutomaticComparator(extractor(a), extractor(b))
  {
  }

  lemma ReversePreorder<T(!new)>(c: Comparator<T>)
    requires TotalPreorder(c)
    ensures TotalPreorder(Reverse(c))
  {
    var r := Reverse(c);
    forall a, b, d | r(a, b) <= 0 && r(b, d) <= 0 ensures r(a, d) <= 0 {
      assert c(d, b) <= 0 && c(b, a) <= 0;
    }
  }

  /** Chaining two total preorders gives their lexicographic combination,
      again a total preorder. */
  lemma OrPreorder<T(!new)>(c1: Comparator<T>, c2: Comparator<T>)
    requires TotalPreorder(c1) && TotalPreorder(c2)
    ensures TotalPreorder(Either(c1).Or(c2).Chain())
  {
    var o := Either(c1).Or(c2).Chain();
    forall a, b ensures o(a, b) == -o(b, a) {
      assert c1(a, b) == -c1(b, a);
    }
    forall a, b, c | o(a, b) <= 0 && o(b, c) <= 0 ensures o(a, c) <= 0 {
      assert c1(a, b) <= 0 && c1(b, c) <= 0;
      if c1(a, c) == 0 {
        assert c1(c, a) <= 0;
        assert c1(c, b) <= 0 && c1(b, a) <= 0;
        assert c1(a, b) == 0 && c1(b, c) == 0;
        assert c2(a, b) <= 0 && c2(b, c) <= 0;
      }
    }
  }

  lemma ToAnimeProjects(c: Comparator<Anime>, a: Theme, b: Theme)
    ensures ToAnime(c)(a, b) == c(a.anime, b.anime)
    ensures ToAnime(c)(a, b) == NestedComparator((t: Theme) => t.anime, c)(a, b)
  {
  }

  lemma ToAnimePreorder(c: Comparator<Anime>)
    requires TotalPreorder(c)
    ensures TotalPreorder(ToAnime(c))
  {
    var t := ToAnime(c);
    forall a, b ensures t(a, b) == -t(b, a) {
      assert c(a.anime, b.anime) == -c(b.anime, a.anime);
    }
    forall a, b, d | t(a, b) <= 0 && t(b, d) <= 0 ensures t(a, d) <= 0 {
      assert c(a.anime, b.anime) <= 0 && c(b.anime, d.anime) <= 0;
    }
  }

  lemma SortTransformedProjects<T, K(!new)>(c: Comparator<T>, f: K -> T, a: K, b: K)
    ensures SortTransformed(c, f)(a, b) == c(f(a), f(b))
    ensures SortTransformed(c, f)(a, b) == NestedComparator(f, c)(a, b)
  {
  }

  /** Sorting by a transformed value keeps a total preorder. */
  lemma SortTransformedPreorder<T(!new), K(!new)>(c: Comparator<T>, f: K -> T)
    requires TotalPreorder(c)
    ensures TotalPreorder(SortTransformed(c, f))
  {
    NestedPreorder(f, c);
    assert forall a, b :: SortTransformed(c, f)(a, b) == NestedComparator(f, c)(a, b);
  }

  // ---------------------------------------------------------------------------
  // Entity comparators
  // ---------------------------------------------------------------------------

  /** The rank of a season after lower-casing; -1 when unknown or missing. */
  function SeasonRank(season: Option<string>): (r: int)
    ensures -1 <= r < |SeasonOrder|
    ensures r == -1 <==> season.None? || ToLower(season.value) !in SeasonOrder
  {
    IndexOf(SeasonOrder, LowerOpt(season))
  }

  /** Anime names are compared alphabetically. */
  lemma AnimeNameAlphabetical(a: Anime, b: Anime)
    ensures AnimeNameComparator(a, b) == LocaleCompare(a.name, b.name)
  {
    assert AnimeNameComparator == NestedAutomatic(AnimeName);
    NestedAutomaticApply(AnimeName, a, b);
    AutomaticOnStrings(a.name, b.name);
  }

  lemma AnimeSeasonByRank(a: Anime, b: Anime)
    ensures AnimeSeasonComparator(a, b) == SeasonRank(a.season) - SeasonRank(b.season)
  {
    assert AnimeSeasonComparator == NestedComparator(AnimeSeason, EnumComparator(SeasonOrder));
  }

  /** Known seasons rank winter, spring, summer, fall, whatever their case. */
  lemma KnownSeasonRank(season: Option<string>, i: nat)
    requires i < |SeasonOrder|
    requires season.Some? && ToLower(season.value) == SeasonOrder[i]
    ensures SeasonRank(season) == i
  {
    var r := SeasonRank(season);
    assert 0 <= r < 4 && SeasonOrder[r] == SeasonOrder[i];
    assert forall p, q | 0 <= p < 4 && 0 <= q < 4 && p != q :: SeasonOrder[p] != SeasonOrder[q];
  }

  lemma UnknownSeasonFirst(a: Anime, b: Anime)
    requires a.season.None? || ToLower(a.season.value) !in SeasonOrder
    requires b.season.Some? && ToLower(b.season.value) == "winter"
    ensures AnimeSeasonComparator(a, b) < 0
  {
    KnownSeasonRank(b.season, 0);
    AnimeSeasonByRank(a, b);
  }

  /** Case-insensitive: only the lower-cased season matters. */
  lemma SeasonCaseInsensitive(a: Anime, a': Anime, b: Anime)
    requires LowerOpt(a.season) == LowerOpt(a'.season)
    ensures AnimeSeasonComparator(a, b) == AnimeSeasonComparator(a', b)
  {
    AnimeSeasonByRank(a, b);
    AnimeSeasonByRank(a', b);
  }

  function ThemeTypeRank(theme: Theme): (r: int)
    ensures -1 <= r < |ThemeTypeOrder|
    ensures r == -1 <==> ToLower(theme.themeType) !in ThemeTypeOrder
  {
    IndexOf(ThemeTypeOrder, Some(ToLower(theme.themeType)))
  }

  lemma ThemeTypeOrdering(a: Theme, b: Theme)
    ensures ThemeTypeComparator(a, b) == ThemeTypeRank(a) - ThemeTypeRank(b)
    ensures ThemeTypeComparator(a, b) ==
            EnumComparator(ThemeTypeOrder)(ThemeType(a), ThemeType(b))
    ensures ToLower(a.themeType) == "op" && ToLower(b.themeType) == "ed" ==>
              ThemeTypeComparator(a, b) < 0
    ensures ToLower(a.themeType) == ToLower(b.themeType) ==> ThemeTypeComparator(a, b) == 0
  {
    assert ThemeTypeComparator == NestedComparator(ThemeType, EnumComparator(ThemeTypeOrder));
    if ToLower(a.themeType) == "op" && ToLower(b.themeType) == "ed" {
      assert ThemeTypeOrder[0] == "op" && ThemeTypeOrder[1] == "ed";
      assert ThemeTypeRank(a) == 0;
      assert ThemeTypeRank(b) == 1;
    }
  }

  /** Year first; the season only breaks a tie on the year. */
  lemma PremiereYearFirst(a: Anime, b: Anime)
    ensures AnimeYearComparator(a, b) != 0 ==>
              AnimePremiereComparator(a, b) == AnimeYearComparator(a, b)
    ensures AnimeYearComparator(a, b) == 0 ==>
              AnimePremiereComparator(a, b) == AnimeSeasonComparator(a, b)
  {
  }

  /** The registry entry under `key` applied to two anime. */
  function AnimeCompare(key: SortKey, a: Anime, b: Anime): (r: int)
    requires AnimeView(GetComparator(key)).Some?
  {
    AnimeView(GetComparator(key)).value(a, b)
  }

  /** The registry entry under `key` applied to two themes. */
  function ThemeCompare(key: SortKey, a: Theme, b: Theme): (r: int)
    requires ThemeView(GetComparator(key)).Some?
  {
    ThemeView(GetComparator(key)).value(a, b)
  }

  lemma AnimeOrders(a: Anime, b: Anime)
    ensures AnimeCompare(AnimeAZ, a, b) == AnimeNameComparator(a, b)
    ensures AnimeCompare(AnimeZA, a, b) == AnimeNameComparator(b, a)
    ensures AnimePremiereComparator(a, b) == 0 ==>
              AnimeCompare(AnimeOldNew, a, b) == AnimeNameComparator(a, b)
    ensures AnimePremiereComparator(a, b) != 0 ==>
              AnimeCompare(AnimeOldNew, a, b) == AnimePremiereComparator(a, b)
  {
  }

  /** New-to-old reverses only the premiere; ties are still broken by
      ascending name. */
  lemma NewOldKeepsNameAscending(a: Anime, b: Anime)
    ensures AnimePremiereComparator(a, b) == 0 ==>
              AnimeCompare(AnimeNewOld, a, b) == AnimeNameComparator(a, b)
    ensures AnimePremiereComparator(a, b) != 0 ==>
              AnimeCompare(AnimeNewOld, a, b) == -AnimePremiereComparator(a, b)
  {
    PremierePreorder();
    assert AnimePremiereComparator(a, b) == -AnimePremiereComparator(b, a);
  }

  /** Equal premiere (same year and season): old-to-new orders by name. */
  lemma OldNewSamePremiereByName(a: Anime, b: Anime)
    requires a.year == b.year && LowerOpt(a.season) == LowerOpt(b.season)
    ensures AnimeCompare(AnimeOldNew, a, b) == AnimeNameComparator(a, b)
    ensures AnimeCompare(AnimeOldNew, a, b) == LocaleCompare(a.name, b.name)
  {
    assert AnimeYearComparator == NestedAutomatic(AnimeYear);
    NestedAutomaticApply(AnimeYear, a, b);
    AnimeSeasonByRank(a, b);
    PremiereYearFirst(a, b);
    AnimeNameAlphabetical(a, b);
  }

  /** The unsorted entry can be applied to anime and to themes, and ties every pair. */
  lemma UnsortedTies(a: Anime, b: Anime, s: Theme, t: Theme)
    ensures AnimeView(GetComparator(Unsorted)).Some? && ThemeView(GetComparator(Unsorted)).Some?
    ensures AnimeCompare(Unsorted, a, b) == 0
    ensures ThemeCompare(Unsorted, s, t) == 0
  {
  }

  lemma SongOrders(a: Theme, b: Theme)
    ensures ThemeCompare(SongAZ, a, b) == SongTitleComparator(a, b)
    ensures ThemeCompare(SongZA, a, b) == SongTitleComparator(b, a)
    ensures ThemeCompare(SongAZAnime, a, b) ==
            FirstNonZero([ToAnime(AnimeNameComparator), ThemeTypeComparator, ThemeIndexComparator], a, b)
    ensures ThemeCompare(SongZAAnime, a, b) ==
            FirstNonZero([Reverse(ToAnime(AnimeNameComparator)), ThemeTypeComparator, ThemeIndexComparator], a, b)
    ensures ThemeCompare(SongOldNew, a, b) ==
            FirstNonZero([ToAnime(AnimePremiereComparator), ToAnime(AnimeNameComparator), SongTitleComparator], a, b)
    ensures ThemeCompare(SongNewOld, a, b) ==
            FirstNonZero([Reverse(ToAnime(AnimePremiereComparator)), ToAnime(AnimeNameComparator), SongTitleComparator], a, b)
  {
    SongChainOrder(SongAZAnime, [ToAnime(AnimeNameComparator), ThemeTypeComparator, ThemeIndexComparator], a, b);
    SongChainOrder(SongZAAnime, [Reverse(ToAnime(AnimeNameComparator)), ThemeTypeComparator, ThemeIndexComparator], a, b);
    SongChainOrder(SongOldNew, [ToAnime(AnimePremiereComparator), ToAnime(AnimeNameComparator), SongTitleComparator], a, b);
    SongChainOrder(SongNewOld, [Reverse(ToAnime(AnimePremiereComparator)), ToAnime(AnimeNameComparator), SongTitleComparator], a, b);
  }

  /** A three-comparator song order is registered as the chain of its list. */
  lemma SongChainOrder(key: SortKey, cs: seq<Comparator<Theme>>, a: Theme, b: Theme)
    requires |cs| == 3
    requires GetComparator(key) == ThemeOrder(Either(cs[0]).Or(cs[1]).Or(cs[2]).Chain())
    ensures ThemeCompare(key, a, b) == FirstNonZero(cs, a, b)
  {
    var init := cs[..2];
    assert init[..1][0] == cs[0] && init[1] == cs[1];
    assert ChainOf(init[..1]) == Either(cs[0]);
    assert ChainOf(init) == Either(cs[0]).Or(cs[1]);
    assert ChainOf(cs) == Either(cs[0]).Or(cs[1]).Or(cs[2]);
    ChainOfIsFirstNonZero(cs, a, b);
  }

  // ---------------------------------------------------------------------------
  // Every registered order is a total preorder
  // ---------------------------------------------------------------------------

  lemma NamePreorders()
    ensures TotalPreorder(AnimeNameComparator)
    ensures TotalPreorder(SongTitleComparator)
    ensures TotalPreorder(ThemeIndexComparator)
    ensures TotalPreorder(ThemeTypeComparator)
  {
    NestedTextPreorder(AnimeName);
    NestedTextPreorder(SongTitle);
    NestedNumberPreorder(ThemeSequence);
    EnumComparatorPreorder(ThemeTypeOrder);
    NestedPreorder(ThemeType, EnumComparator(ThemeTypeOrder));
  }

  lemma PremierePreorder()
    ensures TotalPreorder(AnimePremiereComparator)
  {
    NestedNumberPreorder(AnimeYear);
    EnumComparatorPreorder(SeasonOrder);
    NestedPreorder(AnimeSeason, EnumComparator(SeasonOrder));
    OrPreorder(AnimeYearComparator, AnimeSeasonComparator);
  }

  /** The field comparators outside the registry are total preorders too,
      and so is the resource order `either(site).or(as)` built from them. */
  lemma FieldComparatorsConsistent()
    ensures TotalPreorder(EntryVersionComparator)
    ensures TotalPreorder(ThemeGroupComparator)
    ensures TotalPreorder(StudioNameComparator)
    ensures TotalPreorder(SeriesNameComparator)
    ensures TotalPreorder(Either(ResourceSiteComparator).Or(ResourceAsComparator).Chain())
  {
    NestedNumberPreorder(EntryVersion);
    NestedTextPreorder(ThemeGroupName);
    NestedTextPreorder(StudioName);
    NestedTextPreorder(SeriesName);
    NestedTextPreorder(ResourceSite);
    NestedTextPreorder(ResourceAs);
    OrPreorder(ResourceSiteComparator, ResourceAsComparator);
  }

  /** A year of 0 counts as missing: it ties with no year and sorts before
      every other year, negative ones included. */
  lemma YearZeroSortsAsMissing(a: Anime, b: Anime, c: Anime)
    requires a.year == Some(0) && b.year.None?
    requires c.year.Some? && c.year.value != 0
    ensures AnimeYearComparator(a, b) == 0
    ensures AnimeYearComparator(a, c) == -1
  {
    assert AnimeYearComparator == NestedAutomatic(AnimeYear);
    NestedAutomaticApply(AnimeYear, a, b);
    NestedAutomaticApply(AnimeYear, a, c);
  }

  ghost predicate Consistent(r: Registered) {
    match r
    case AnyOrder => true
    case AnimeOrder(c) => TotalPreorder(c)
    case ThemeOrder(c) => TotalPreorder(c)
  }

  /** Every named order can be handed to a sort routine: it is a total preorder. */
  lemma RegistryConsistent(key: SortKey)
    ensures Consistent(GetComparator(key))
  {
    NamePreorders();
    PremierePreorder();
    match key
    case Unsorted =>
    case AnimeAZ =>
    case AnimeZA =>
      ReversePreorder(AnimeNameComparator);
    case AnimeOldNew =>
      OrPreorder(AnimePremiereComparator, AnimeNameComparator);
    case AnimeNewOld =>
      ReversePreorder(AnimePremiereComparator);
      OrPreorder(Reverse(AnimePremiereComparator), AnimeNameComparator);
    case SongAZ =>
    case SongZA =>
      ReversePreorder(SongTitleComparator);
    case SongAZAnime =>
      ToAnimePreorder(AnimeNameComparator);
      OrPreorder(ToAnime(AnimeNameComparator), ThemeTypeComparator);
      OrPreorder(Either(ToAnime(AnimeNameComparator)).Or(ThemeTypeComparator).Chain(), ThemeIndexComparator);
    case SongZAAnime =>
      ToAnimePreorder(AnimeNameComparator);
      ReversePreorder(ToAnime(AnimeNameComparator));
      OrPreorder(Reverse(ToAnime(AnimeNameComparator)), ThemeTypeComparator);
      OrPreorder(Either(Reverse(ToAnime(AnimeNameComparator))).Or(ThemeTypeComparator).Chain(), ThemeIndexComparator);
    case SongOldNew =>
      ToAnimePreorder(AnimePremiereComparator);
      ToAnimePreorder(AnimeNameComparator);
      OrPreorder(ToAnime(AnimePremiereComparator), ToAnime(AnimeNameComparator));
      OrPreorder(Either(ToAnime(AnimePremiereComparator)).Or(ToAnime(AnimeNameComparator)).Chain(), SongTitleComparator);
    case SongNewOld =>
      ToAnimePreorder(AnimePremiereComparator);
      ToAnimePreorder(AnimeNameComparator);
      ReversePreorder(ToAnime(AnimePremiereComparator));
      OrPreorder(Reverse(ToAnime(AnimePremiereComparator)), ToAnime(AnimeNameComparator));
      OrPreorder(Either(Reverse(ToAnime(AnimePremiereComparator))).Or(ToAnime(AnimeNameComparator)).Chain(), SongTitleComparator);
  }
}
