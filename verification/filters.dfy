/** The filter summary the settings view publishes: the names of the
    selected genres and the two release-date labels. */
module Filters {
  import opened Js
  import opened Movies
  import opened Query

  /** Names of the genres whose id renders as `key`, in catalogue order. */
  function Matching(key: string, genres: seq<Genre>): seq<string>
  {
    if |genres| == 0 then []
    else
      var g := genres[|genres| - 1];
      Matching(key, genres[..|genres| - 1]) + (if IntToString(g.id) == key then [g.name] else [])
  }

  /** Reference description of the genre labels: for each selection entry in
      order whose value is exactly `true`, the names of the catalogue genres
      whose id matches its key. */
  function Listed(selected: seq<Entry>, genres: seq<Genre>): seq<string>
  {
    if |selected| == 0 then []
    else
      var e := selected[|selected| - 1];
      Listed(selected[..|selected| - 1], genres) + (if e.value == Bool(true) then Matching(e.key, genres) else [])
  }

  /** Selection entry `e` labels catalogue genre `g` with `name`. */
  predicate Labels(e: Entry, g: Genre, name: string)
  {
    e.value == Bool(true) && IntToString(g.id) == e.key && g.name == name
  }

  /** `name` labels some selection entry that is exactly `true`. */
  ghost predicate Chosen(selected: seq<Entry>, genres: seq<Genre>, name: string)
  {
    exists j, k :: 0 <= j < |selected| && 0 <= k < |genres| && Labels(selected[j], genres[k], name)
  }

  /** `setupGenres`: walks the selection object and, inside it, the genre
      catalogue, collecting the name of every genre whose id string is a key
      mapped to `true`. A catalogue that is `null` is walked as empty. */
  method SetupGenres(selected: seq<Entry>, genres: seq<Genre>) returns (sege: seq<string>)
    ensures sege == Listed(selected, genres)
  {
    sege := [];
    var i := 0;
    while i < |selected|
      invariant 0 <= i <= |selected|
      invariant sege == Listed(selected[..i], genres)
    {
      var e := selected[i];
      var chosen := e.value == Bool(true);
      var before := sege;
      var j := 0;
      while j < |genres|
        invariant 0 <= j <= |genres|
        invariant sege == before + (if chosen then Matching(e.key, genres[..j]) else [])
      {
        var g := genres[j];
        var hit := IntToString(g.id) == e.key;
        assert genres[..j + 1][..j] == genres[..j];
        assert Matching(e.key, genres[..j + 1])
            == Matching(e.key, genres[..j]) + (if hit then [g.name] else []);
        if chosen && hit {
          sege := sege + [g.name];
        }
        j := j + 1;
      }
      assert genres[..j] == genres;
      assert selected[..i + 1][..i] == selected[..i];
      assert Listed(selected[..i + 1], genres)
          == Listed(selected[..i], genres) + (if chosen then Matching(e.key, genres) else []);
      i := i + 1;
    }
    assert selected[..i] == selected;
  }

  lemma {:induction false} MatchingMembership(e: Entry, genres: seq<Genre>, name: string)
    requires e.value == Bool(true)
    ensures name in Matching(e.key, genres) <==> exists k :: 0 <= k < |genres| && Labels(e, genres[k], name)
  {
    if |genres| > 0 {
      var init := genres[..|genres| - 1];
      var g := genres[|genres| - 1];
      MatchingMembership(e, init, name);
      assert Matching(e.key, genres) == Matching(e.key, init) + (if IntToString(g.id) == e.key then [g.name] else []);
      if name in Matching(e.key, genres) {
        if name in Matching(e.key, init) {
          var k :| 0 <= k < |init| && Labels(e, init[k], name);
          assert Labels(e, genres[k], name);
        } else {
          assert Labels(e, genres[|genres| - 1], name);
        }
      }
      if exists k :: 0 <= k < |genres| && Labels(e, genres[k], name) {
        var k :| 0 <= k < |genres| && Labels(e, genres[k], name);
        if k < |init| {
          assert Labels(e, init[k], name);
        }
      }
    }
  }

  /** A label chosen by a selection is chosen by its prefix or by its last entry. */
  lemma {:induction false} ChosenSplit(selected: seq<Entry>, genres: seq<Genre>, name: string)
    requires |selected| > 0
    requires Chosen(selected, genres, name)
    ensures Chosen(selected[..|selected| - 1], genres, name)
      || exists k :: 0 <= k < |genres| && Labels(selected[|selected| - 1], genres[k], name)
  {
    var init := selected[..|selected| - 1];
    var j, k :| 0 <= j < |selected| && 0 <= k < |genres| && Labels(selected[j], genres[k], name);
    if j < |init| {
      assert Labels(init[j], genres[k], name);
    } else {
      assert Labels(selected[|selected| - 1], genres[k], name);
    }
  }

  /** A label chosen by a prefix is chosen by the whole selection. */
  lemma {:induction false} ChosenPrefix(selected: seq<Entry>, genres: seq<Genre>, name: string)
    requires |selected| > 0
    requires Chosen(selected[..|selected| - 1], genres, name)
    ensures Chosen(selected, genres, name)
  {
    var init := selected[..|selected| - 1];
    var j, k :| 0 <= j < |init| && 0 <= k < |genres| && Labels(init[j], genres[k], name);
    assert Labels(selected[j], genres[k], name);
  }

  /** A label chosen by the last entry is chosen by the whole selection. */
  lemma {:induction false} ChosenLast(selected: seq<Entry>, genres: seq<Genre>, name: string)
    requires |selected| > 0
    requires exists k :: 0 <= k < |genres| && Labels(selected[|selected| - 1], genres[k], name)
    ensures Chosen(selected, genres, name)
  {
    var k :| 0 <= k < |genres| && Labels(selected[|selected| - 1], genres[k], name);
    assert 0 <= |selected| - 1 < |selected|;
  }

  /** A name is listed exactly when a genre with that name has an id whose
      string is a selection key mapped to `true`. */
  lemma {:induction false} ListedMembership(selected: seq<Entry>, genres: seq<Genre>, name: string)
    ensures name in Listed(selected, genres) <==> Chosen(selected, genres, name)
  {
    if |selected| > 0 {
      var init := selected[..|selected| - 1];
      var e := selected[|selected| - 1];
      ListedMembership(init, genres, name);
      if e.value == Bool(true) {
        MatchingMembership(e, genres, name);
      }
      if Chosen(selected, genres, name) {
        ChosenSplit(selected, genres, name);
      }
      if Chosen(init, genres, name) {
        ChosenPrefix(selected, genres, name);
      }
      if exists k :: 0 <= k < |genres| && Labels(e, genres[k], name) {
        ChosenLast(selected, genres, name);
      }
      assert Listed(selected, genres)
          == Listed(init, genres) + (if e.value == Bool(true) then Matching(e.key, genres) else []);
    }
  }

  /** Every listed genre's id is among the keys the listing query writes
      into `&with_genres=`, because a value that is `true` is not `false`. */
  lemma GenreLabelsAreQueried(selected: seq<Entry>, genres: seq<Genre>, name: string)
    requires name in Listed(selected, genres)
    ensures exists k :: 0 <= k < |genres| && genres[k].name == name &&
                        IntToString(genres[k].id) in SelectedKeys(selected)
  {
    ListedMembership(selected, genres, name);
    var j, k :| 0 <= j < |selected| && 0 <= k < |genres| && Labels(selected[j], genres[k], name);
    SelectedKeysHas(selected, j);
  }

  datatype DateLabels = DateLabels(from: string, to: string)

  /** `setupDates`: the from-label is the picker's from-day whenever either
      date is stored; the to-label is " - " and the picker's to-day when a
      to-date is stored, " - till today" when only a from-date is stored,
      and empty otherwise. Dates are opaque display strings. */
  function SetupDates(fromDate: Option<string>, toDate: Option<string>, fromDay: string, toDay: string): (r: DateLabels)
    ensures fromDate.None? && toDate.None? ==> r == DateLabels("", "")
    ensures fromDate.Some? || toDate.Some? ==> r.from == fromDay && r.to != ""
  {
    DateLabels(
      if fromDate.Some? || toDate.Some? then fromDay else "",
      if toDate.Some? then " - " + toDay else if fromDate.Some? then " - till today" else "")
  }

  /** The date labels agree with the date part of the listing query: a
      to-label shows exactly when the query bounds the release date, "till
      today" shows exactly when the query's upper bound is `tomorrow`, and a
      stored to-date is both labelled and used as the upper bound. */
  lemma DateLabelsMatchQuery(fromDate: Option<string>, toDate: Option<string>,
                             fromDay: string, toDay: string, tomorrow: string)
    ensures SetupDates(fromDate, toDate, fromDay, toDay).to == "" <==>
      DateFragment(fromDate, toDate, tomorrow) == ""
    ensures fromDate.Some? && toDate.None? ==>
      && SetupDates(fromDate, toDate, fromDay, toDay).to == " - till today"
      && DateFragment(fromDate, toDate, tomorrow) == ReleasedFrom + fromDate.value + ReleasedTo + tomorrow
    ensures toDate.Some? ==>
      && SetupDates(fromDate, toDate, fromDay, toDay).to == " - " + toDay
      && DateFragment(fromDate, toDate, tomorrow)
           == (if fromDate.Some? then ReleasedFrom + fromDate.value else "") + ReleasedTo + toDate.value
  {
    DateFragmentCases(fromDate, toDate, tomorrow, tomorrow);
  }
}
