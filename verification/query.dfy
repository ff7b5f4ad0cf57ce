/** The listing-API URL built from the stored filters: an OR-list of genre
    ids, an inclusive release-date range, and the choice between the
    discover endpoint and the popular endpoint. */
module Query {
  import opened Js
  import opened App

  const Host := "http://api.themoviedb.org/3/"
  const ApiKey := "?api_key=d5dc997b35ea773ef7edc72bb47dca1e"
  const DiscoverBase := Host + "discover/movie" + ApiKey
  const PopularUrl := Host + "movie/popular" + ApiKey
  const WithGenres := "&with_genres="
  const ReleasedFrom := "&primary_release_date.gte="
  const ReleasedTo := "&primary_release_date.lte="

  /** One property of the stored genre-selection object, in iteration order. */
  datatype Entry = Entry(key: string, value: JsValue)

  predicate Emitted(e: Entry)
  {
    e.value != Bool(false)
  }

  /** The genre ids as the controller appends them, walking the entries with
      their position `idx`: a key is written when its value is not `false`,
      and a `|` goes before it whenever its position is not 0, whether or not
      an earlier key was written. */
  function GenreIds(entries: seq<Entry>, idx: nat): string
    decreases |entries|
  {
    if |entries| == 0 then ""
    else
      var e := entries[0];
      (if idx != 0 && Emitted(e) then "|" else "")
      + (if Emitted(e) then e.key else "")
      + GenreIds(entries[1..], idx + 1)
  }

  /** Reference description: the keys whose value is not `false`, in order. */
  function SelectedKeys(entries: seq<Entry>): (ks: seq<string>)
    ensures |ks| <= |entries|
  {
    if |entries| == 0 then []
    else
      var rest := SelectedKeys(entries[1..]);
      if Emitted(entries[0]) then [entries[0].key] + rest else rest
  }

  /** Every written entry's key is among the selected keys. */
  lemma {:induction false} SelectedKeysHas(entries: seq<Entry>, j: int)
    requires 0 <= j < |entries| && Emitted(entries[j])
    ensures entries[j].key in SelectedKeys(entries)
  {
    if j > 0 {
      SelectedKeysHas(entries[1..], j - 1);
    }
  }

  /** Every key preceded by `|`. */
  function BarEach(ks: seq<string>): string
  {
    if |ks| == 0 then "" else "|" + ks[0] + BarEach(ks[1..])
  }

  /** The keys joined with `|`. */
  function JoinBar(ks: seq<string>): string
  {
    if |ks| == 0 then "" else ks[0] + BarEach(ks[1..])
  }

  /** Past position 0 every written key carries a leading `|`. */
  lemma {:induction false} GenreIdsPastFirst(entries: seq<Entry>, idx: nat)
    requires idx > 0
    ensures GenreIds(entries, idx) == BarEach(SelectedKeys(entries))
    decreases |entries|
  {
    if |entries| > 0 {
      GenreIdsPastFirst(entries[1..], idx + 1);
    }
  }

  /** The genre list is the selected keys joined by `|` when the first entry
      is written, and every selected key prefixed by `|` when the first entry
      is `false`, so a `false` first entry yields a leading `|`. */
  lemma {:induction false} GenreIdsShape(entries: seq<Entry>)
    ensures |entries| > 0 && Emitted(entries[0]) ==>
      GenreIds(entries, 0) == JoinBar(SelectedKeys(entries))
    ensures !(|entries| > 0 && Emitted(entries[0])) ==>
      GenreIds(entries, 0) == BarEach(SelectedKeys(entries))
  {
    if |entries| > 0 {
      var e := entries[0];
      var tail := GenreIds(entries[1..], 1);
      var rest := SelectedKeys(entries[1..]);
      GenreIdsPastFirst(entries[1..], 1);
      assert tail == BarEach(rest);
      if Emitted(e) {
        assert GenreIds(entries, 0) == "" + e.key + tail;
        assert SelectedKeys(entries) == [e.key] + rest;
        assert JoinBar([e.key] + rest) == e.key + BarEach(rest) by {
          assert ([e.key] + rest)[1..] == rest;
        }
      } else {
        assert GenreIds(entries, 0) == "" + "" + tail;
        assert SelectedKeys(entries) == rest;
      }
    }
  }

  /** With the first entry `false` and some later entry written, the list
      starts with `|`. */
  lemma LeadingBar(entries: seq<Entry>)
    requires |entries| > 0 && !Emitted(entries[0])
    requires exists j :: 0 <= j < |entries| && Emitted(entries[j])
    ensures |GenreIds(entries, 0)| > 0 && GenreIds(entries, 0)[0] == '|'
  {
    GenreIdsShape(entries);
    var j :| 0 <= j < |entries| && Emitted(entries[j]);
    SelectedKeysHas(entries, j);
  }

  /** When every value is `false` no key is selected and nothing is written. */
  lemma {:induction false} AllFalseWritesNothing(entries: seq<Entry>)
    requires forall j :: 0 <= j < |entries| ==> !Emitted(entries[j])
    ensures SelectedKeys(entries) == []
    ensures GenreIds(entries, 0) == ""
  {
    GenreIdsShape(entries);
    if |entries| > 0 {
      AllFalseWritesNothing(entries[1..]);
    }
  }

  /** The genre part: present whenever a selection object is stored. */
  function GenreFragment(genres: Option<seq<Entry>>): (r: string)
    ensures genres.None? <==> r == ""
    ensures genres.Some? ==> r == WithGenres + GenreIds(genres.value, 0)
  {
    if genres.None? then "" else WithGenres + GenreIds(genres.value, 0)
  }

  /** The release-date part: a lower bound when a from-date is stored, then
      an upper bound that is the stored to-date, or `tomorrow` when only a
      from-date is stored. */
  function DateFragment(fromDate: Option<string>, toDate: Option<string>, tomorrow: string): string
  {
    (if fromDate.Some? then
       ReleasedFrom + fromDate.value + (if toDate.None? then ReleasedTo + tomorrow else "")
     else "")
    + (if toDate.Some? then ReleasedTo + toDate.value else "")
  }

  /** The cases of the date part: lower bound before upper bound, exactly
      one upper bound when a to-date is stored, `tomorrow` used only when the
      to-date is absent, nothing when no date is stored. */
  lemma DateFragmentCases(fromDate: Option<string>, toDate: Option<string>, tomorrow: string, other: string)
    ensures fromDate.Some? && toDate.None? ==>
      DateFragment(fromDate, toDate, tomorrow) == ReleasedFrom + fromDate.value + ReleasedTo + tomorrow
    ensures fromDate.Some? && toDate.Some? ==>
      DateFragment(fromDate, toDate, tomorrow) == ReleasedFrom + fromDate.value + ReleasedTo + toDate.value
    ensures fromDate.None? && toDate.Some? ==>
      DateFragment(fromDate, toDate, tomorrow) == ReleasedTo + toDate.value
    ensures toDate.Some? ==> DateFragment(fromDate, toDate, tomorrow) == DateFragment(fromDate, toDate, other)
    ensures DateFragment(fromDate, toDate, tomorrow) == "" <==> fromDate.None? && toDate.None?
  {
    if fromDate.Some? && toDate.None? {
      assert ReleasedFrom + fromDate.value + (ReleasedTo + tomorrow) + ""
          == ReleasedFrom + fromDate.value + ReleasedTo + tomorrow;
    }
    if fromDate.Some? && toDate.Some? {
      assert ReleasedFrom + fromDate.value + "" + (ReleasedTo + toDate.value)
          == ReleasedFrom + fromDate.value + ReleasedTo + toDate.value;
    }
  }

  /** Everything the filters append to the base URL. */
  function Fragment(genres: Option<seq<Entry>>, fromDate: Option<string>, toDate: Option<string>, tomorrow: string): string
  {
    GenreFragment(genres) + DateFragment(fromDate, toDate, tomorrow)
  }

  /** The fragment is empty exactly when no filter is stored. */
  lemma FragmentEmpty(genres: Option<seq<Entry>>, fromDate: Option<string>, toDate: Option<string>, tomorrow: string)
    ensures Fragment(genres, fromDate, toDate, tomorrow) == "" <==>
      genres.None? && fromDate.None? && toDate.None?
  {
    DateFragmentCases(fromDate, toDate, tomorrow, tomorrow);
  }

  /** The two endpoints differ whatever the filters append. */
  lemma EndpointsDiffer(frag: string)
    ensures PopularUrl != DiscoverBase + frag
  {
    assert (DiscoverBase + frag)[|Host|] == 'd';
    assert PopularUrl[|Host|] == 'm';
  }

  /** `queryString`: stores the listing URL in both `qs` and `oqs`. The popular
      endpoint is chosen only when no filter is stored and the stored popular
      flag is the boolean `true`; otherwise the URL is the discover endpoint
      followed by the filter fragment. Nothing else in the state changes. */
  function QueryString(s: State, genres: Option<seq<Entry>>, fromDate: Option<string>,
                       toDate: Option<string>, popular: JsValue, tomorrow: string): (r: State)
    ensures r.qs == r.oqs
    ensures genres.None? && fromDate.None? && toDate.None? && popular == Bool(true) ==> r.qs == PopularUrl
    ensures !(genres.None? && fromDate.None? && toDate.None? && popular == Bool(true)) ==>
      r.qs == DiscoverBase + Fragment(genres, fromDate, toDate, tomorrow)
    ensures r.(qs := s.qs, oqs := s.oqs) == s
  {
    var frag := Fragment(genres, fromDate, toDate, tomorrow);
    FragmentEmpty(genres, fromDate, toDate, tomorrow);
    var url := if frag == "" && popular == Bool(true) then PopularUrl else DiscoverBase + frag;
    s.(qs := url, oqs := url)
  }

  /** The popular endpoint is used exactly when no filter is stored and the
      popular flag is the boolean `true`. */
  lemma PopularOnlyUnfiltered(s: State, genres: Option<seq<Entry>>, fromDate: Option<string>,
                              toDate: Option<string>, popular: JsValue, tomorrow: string)
    ensures QueryString(s, genres, fromDate, toDate, popular, tomorrow).qs == PopularUrl <==>
      genres.None? && fromDate.None? && toDate.None? && popular == Bool(true)
  {
    EndpointsDiffer(Fragment(genres, fromDate, toDate, tomorrow));
  }

  /** A stored genre object always adds `&with_genres=` right after the base
      URL, followed by the genre ids and then the date bounds; when every
      value is `false` the ids are empty but the parameter stays. */
  lemma GenresAlwaysListed(s: State, genres: Option<seq<Entry>>, fromDate: Option<string>,
                           toDate: Option<string>, popular: JsValue, tomorrow: string)
    requires genres.Some?
    ensures QueryString(s, genres, fromDate, toDate, popular, tomorrow).qs
      == DiscoverBase + WithGenres + GenreIds(genres.value, 0) + DateFragment(fromDate, toDate, tomorrow)
    ensures (forall j :: 0 <= j < |genres.value| ==> !Emitted(genres.value[j])) ==>
      QueryString(s, genres, fromDate, toDate, popular, tomorrow).qs
        == DiscoverBase + WithGenres + DateFragment(fromDate, toDate, tomorrow)
  {
    var ids := GenreIds(genres.value, 0);
    var dates := DateFragment(fromDate, toDate, tomorrow);
    Regroup(DiscoverBase, WithGenres, ids, dates);
    if forall j :: 0 <= j < |genres.value| ==> !Emitted(genres.value[j]) {
      AllFalseWritesNothing(genres.value);
      assert ids == "";
      assert DiscoverBase + WithGenres + ids == DiscoverBase + WithGenres;
    }
  }

  /** Concatenation regrouped, kept apart from the URL literals. */
  lemma Regroup(a: string, b: string, c: string, d: string)
    ensures a + ((b + c) + d) == a + b + c + d
  {
  }

  /** Storage only ever yields `null` or a string, never the boolean `true`,
      so a popular flag read from storage never selects the popular
      endpoint. */
  lemma StoredPopularNeverSelected(s: State, genres: Option<seq<Entry>>, fromDate: Option<string>,
                                   toDate: Option<string>, stored: Option<string>, tomorrow: string)
    ensures var popular := if stored.None? then Null else Str(stored.value);
      QueryString(s, genres, fromDate, toDate, popular, tomorrow).qs
        == DiscoverBase + Fragment(genres, fromDate, toDate, tomorrow)
  {
  }
}
