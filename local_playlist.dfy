/** The local playlist: a list of theme records kept in browser storage,
    with add (after a fetch of fresh data), remove, membership and replace. */
module LocalPlaylist {
  import opened Common

  /** A stored theme as a JavaScript object: field name to value. */
  type Record = map<string, Value>

  /** `record.id`: `None` is `undefined` when the field is missing, so two
      records without an id compare equal under `===`, as in JavaScript. */
  function IdOf(record: Record): (r: Option<Value>)
    ensures r.Some? <==> "id" in record
    ensures r.Some? ==> r.value == record["id"]
  {
    if "id" in record then Some(record["id"]) else None
  }

  /** `{...theme, ...themeFresh}`: every field of both, fresh fields override. */
  function Merge(theme: Record, themeFresh: Record): (r: Record)
    ensures r.Keys == theme.Keys + themeFresh.Keys
    ensures forall k :: k in themeFresh ==> r[k] == themeFresh[k]
    ensures forall k :: k in theme && k !in themeFresh ==> r[k] == theme[k]
  {
    theme + themeFresh
  }

  /** `list.find((t) => t.id === theme.id)`: the first entry with that id. */
  function Find(list: seq<Record>, theme: Record): (r: Option<Record>)
    ensures r.Some? <==> exists i :: 0 <= i < |list| && IdOf(list[i]) == IdOf(theme)
    ensures r.Some? ==> exists i :: 0 <= i < |list| && list[i] == r.value &&
                                    IdOf(list[i]) == IdOf(theme) &&
                                    forall j :: 0 <= j < i ==> IdOf(list[j]) != IdOf(theme)
  {
    if list == [] then None
    else if IdOf(list[0]) == IdOf(theme) then Some(list[0])
    else
      var r := Find(list[1..], theme);
      assert forall i :: 1 <= i < |list| ==> list[i] == list[1..][i - 1];
      if r.Some? then
        var i :| 0 <= i < |list[1..]| && list[1..][i] == r.value && IdOf(list[1..][i]) == IdOf(theme) &&
                 forall j :: 0 <= j < i ==> IdOf(list[1..][j]) != IdOf(theme);
        assert list[i + 1] == r.value && forall j :: 0 <= j < i + 1 ==> IdOf(list[j]) != IdOf(theme);
        r
      else r
  }

  /** `list.filter((t) => t.id !== theme.id)`. */
  function Without(list: seq<Record>, theme: Record): (r: seq<Record>)
    ensures forall i :: 0 <= i < |r| ==> IdOf(r[i]) != IdOf(theme)
    ensures forall i :: 0 <= i < |list| && IdOf(list[i]) != IdOf(theme) ==> list[i] in r
    ensures forall t :: t in r ==> t in list
  {
    if list == [] then []
    else
      var rest := Without(list[1..], theme);
      assert forall i :: 1 <= i < |list| ==> list[i] == list[1..][i - 1];
      if IdOf(list[0]) == IdOf(theme) then rest else [list[0]] + rest
  }

  /** Filtering distributes over concatenation, so the kept entries stay in
      their original order. */
  lemma {:induction false} WithoutConcat(s1: seq<Record>, s2: seq<Record>, theme: Record)
    ensures Without(s1 + s2, theme) == Without(s1, theme) + Without(s2, theme)
  {
    if s1 != [] {
      assert (s1 + s2)[0] == s1[0] && (s1 + s2)[1..] == s1[1..] + s2;
      WithoutConcat(s1[1..], s2, theme);
      if IdOf(s1[0]) != IdOf(theme) {
        assert [s1[0]] + (Without(s1[1..], theme) + Without(s2, theme)) ==
               ([s1[0]] + Without(s1[1..], theme)) + Without(s2, theme);
      }
    } else {
      assert s1 + s2 == s2;
    }
  }

  lemma WithoutSingleton(t: Record, theme: Record)
    ensures Without([t], theme) == if IdOf(t) == IdOf(theme) then [] else [t]
  {
  }

  /** Removing an id that is not there changes nothing. */
  lemma {:induction false} WithoutAbsent(list: seq<Record>, theme: Record)
    requires Find(list, theme).None?
    ensures Without(list, theme) == list
  {
    if list != [] {
      assert IdOf(list[0]) != IdOf(theme);
      WithoutAbsent(list[1..], theme);
      assert list == [list[0]] + list[1..];
    }
  }

  /** After an add with data that keeps the theme's id, the theme is in the
      playlist; no duplicate check is made, so the list always grows by one. */
  lemma AddedIsInPlaylist(list: seq<Record>, theme: Record, themeFresh: Record)
    requires "id" !in themeFresh || IdOf(themeFresh) == IdOf(theme)
    ensures |list + [Merge(theme, themeFresh)]| == |list| + 1
    ensures Find(list + [Merge(theme, themeFresh)], theme).Some?
  {
    var l := list + [Merge(theme, themeFresh)];
    assert IdOf(l[|list|]) == IdOf(theme);
  }

  /** After a remove, the theme is not in the playlist. */
  lemma RemovedIsNotInPlaylist(list: seq<Record>, theme: Record)
    ensures Find(Without(list, theme), theme).None?
  {
  }

  /** Remove undoes an add whose fresh data keeps the id, and clears all
      earlier copies too. */
  lemma RemoveUndoesAdd(list: seq<Record>, theme: Record, themeFresh: Record)
    requires "id" !in themeFresh || IdOf(themeFresh) == IdOf(theme)
    ensures Without(list + [Merge(theme, themeFresh)], theme) == Without(list, theme)
  {
    WithoutConcat(list, [Merge(theme, themeFresh)], theme);
  }

  /** The hook's state: the stored list. */
  class Playlist {
    var localPlaylist: seq<Record>

    /** `stored` is what storage holds under "local-playlist"; default empty. */
    constructor(stored: Option<seq<Record>>)
      ensures localPlaylist == stored.GetOr([])
    {
      localPlaylist := stored.GetOr([]);
    }

    /** `themeFresh` is the result of fetching the theme's card data. */
    method AddToPlaylist(theme: Record, themeFresh: Option<Record>)
      modifies this
      ensures themeFresh.Some? ==> localPlaylist == old(localPlaylist) + [Merge(theme, themeFresh.value)]
      ensures themeFresh.None? ==> localPlaylist == old(localPlaylist)
    {
      if themeFresh.Some? {
        localPlaylist := localPlaylist + [Merge(theme, themeFresh.value)];
      }
    }

    method RemoveFromPlaylist(theme: Record)
      modifies this
      ensures localPlaylist == Without(old(localPlaylist), theme)
    {
      localPlaylist := Without(localPlaylist, theme);
    }

    function IsInPlaylist(theme: Record): (r: bool)
      reads this
      ensures r <==> exists i :: 0 <= i < |localPlaylist| && IdOf(localPlaylist[i]) == IdOf(theme)
    {
      Find(localPlaylist, theme).Some?
    }

    method SetPlaylist(playlist: seq<Record>)
      modifies this
      ensures localPlaylist == playlist
    {
      localPlaylist := playlist;
    }
  }
}
