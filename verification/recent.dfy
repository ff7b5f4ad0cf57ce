/** The recent-movies cache: `recentMovies` (ids, most recent first) and the
    parallel `recentMoviesDetails` (records). Drawing a movie either moves a
    cached entry to the front or prepends the new id and fetches its
    details; the details response is a parameter. `GetMovieDetails` is the
    controller as written; `GetMovieDetailsFixed` is the corrected version
    that keeps the two arrays aligned. */
module Recent {
  import opened Js
  import opened Movies
  import opened App

  /** The outcome of a details request. */
  datatype Fetch = Fetched(response: DetailResponse) | FetchFailed

  /** What the view ends up doing: render a record, render `undefined`
      (which throws in `render`), or call `generate` again for a new draw. */
  datatype Shown = Rendered(movie: Movie) | RenderedUndefined | Redraw

  datatype Reply = Reply(state: State, shown: Shown)

  /** Every id has its record at the same position. */
  predicate Aligned(ids: seq<int>, details: seq<Option<Movie>>)
  {
    |ids| == |details| && forall i :: 0 <= i < |ids| ==> details[i].Some? && details[i].value.id == ids[i]
  }

  /** `b` is `a` with the element at `k` moved to the front and the others
      kept in order. */
  ghost predicate MovedToFront<T>(a: seq<T>, k: int, b: seq<T>)
  {
    && 0 <= k < |a|
    && |b| == |a|
    && b[0] == a[k]
    && (forall j :: 0 <= j < k ==> b[j + 1] == a[j])
    && (forall j :: k < j < |a| ==> b[j] == a[j])
  }

  /** Moving an element to the front permutes the sequence. */
  lemma MoveToFrontPermutes<T>(a: seq<T>, k: int, b: seq<T>)
    requires MovedToFront(a, k, b)
    ensures multiset(b) == multiset(a)
  {
    assert b == [a[k]] + a[..k] + a[k + 1..];
    assert a == a[..k] + [a[k]] + a[k + 1..];
  }

  /** `a.splice(k, 1)` followed by `unshift(a[k])`. */
  function MoveToFront<T>(a: seq<T>, k: int): (b: seq<T>)
    requires 0 <= k < |a|
    ensures MovedToFront(a, k, b)
  {
    [a[k]] + SpliceOne(a, k)
  }

  /** Moving the front element to the front changes nothing. */
  lemma MoveFirstToFront<T>(a: seq<T>)
    requires |a| > 0
    ensures MoveToFront(a, 0) == a
  {
    assert SpliceOne(a, 0) == a[1..];
  }

  /** A drawn id can be produced: an explicit non-zero id, or a random index
      into a non-empty candidate pool. */
  predicate CanPick(s: State, r: Option<int>, ran: int)
  {
    (r.Some? && r.value != 0) || 0 <= ran < |s.results|
  }

  /** `r || results[ran]`: an explicit id unless it is absent or 0. */
  function Pick(s: State, r: Option<int>, ran: int): (res: int)
    requires CanPick(s, r, ran)
    ensures r.Some? && r.value != 0 ==> res == r.value
    ensures r.None? || r.value == 0 ==> res in s.results
  {
    if r.Some? && r.value != 0 then r.value else s.results[ran]
  }

  /** `generate`: on a cache hit at position `k` the id and the record at
      `k` both move to the front (a missing record becomes an `undefined`
      slot at the front); on a miss the id alone is prepended. The hit
      position, or -1, is remembered for the details step. */
  function Generate(s: State, r: Option<int>, ran: int): (t: State)
    requires CanPick(s, r, ran)
    ensures var res := Pick(s, r, ran);
      var k := IndexOf(s.recentMovies, res);
      && t.cachedMovieIndex == k
      && (k == -1 ==> t.recentMovies == [res] + s.recentMovies && t.recentMoviesDetails == s.recentMoviesDetails)
      && (0 <= k ==> MovedToFront(s.recentMovies, k, t.recentMovies) && t.recentMovies[0] == res)
      && (0 <= k < |s.recentMoviesDetails| ==> MovedToFront(s.recentMoviesDetails, k, t.recentMoviesDetails))
      && (|s.recentMoviesDetails| <= k ==> t.recentMoviesDetails == [None] + s.recentMoviesDetails)
    ensures t.(recentMovies := s.recentMovies, recentMoviesDetails := s.recentMoviesDetails,
               cachedMovieIndex := s.cachedMovieIndex) == s
  {
    var res := Pick(s, r, ran);
    var k := IndexOf(s.recentMovies, res);
    if k != -1 then
      var details := if k < |s.recentMoviesDetails| then MoveToFront(s.recentMoviesDetails, k)
                     else [None] + s.recentMoviesDetails;
      s.(cachedMovieIndex := k, recentMoviesDetails := details, recentMovies := MoveToFront(s.recentMovies, k))
    else
      s.(cachedMovieIndex := k, recentMovies := [res] + s.recentMovies)
  }

  /** `getMovieDetails` as written. It fetches when the remembered position
      is falsy or -1, so a hit at position 0 fetches again. An adult or
      unreleased response drops the LAST id and asks for a new draw; a
      failed request asks for a new draw and changes nothing; a valid
      response prepends its record and renders it. Otherwise it renders the
      record now at the remembered position. */
  function GetMovieDetails(s: State, fetch: Fetch): (r: Reply)
    ensures var fetches := s.cachedMovieIndex == 0 || s.cachedMovieIndex == -1;
      && (fetches && fetch.FetchFailed? ==> r == Reply(s, Redraw))
      && (fetches && fetch.Fetched? && !IsValid(fetch.response) ==>
            && r.shown == Redraw
            && r.state.recentMoviesDetails == s.recentMoviesDetails
            && (|s.recentMovies| > 0 ==> r.state.recentMovies == s.recentMovies[..|s.recentMovies| - 1])
            && (|s.recentMovies| == 0 ==> r.state == s))
      && (fetches && fetch.Fetched? && IsValid(fetch.response) ==>
            && r.shown == Rendered(Normalize(fetch.response))
            && r.state.recentMoviesDetails == [Some(Normalize(fetch.response))] + s.recentMoviesDetails
            && r.state.recentMovies == s.recentMovies)
      && (!fetches ==>
            && r.state == s
            && (r.shown.Rendered? <==>
                  (0 <= s.cachedMovieIndex < |s.recentMoviesDetails| && s.recentMoviesDetails[s.cachedMovieIndex].Some?))
            && (r.shown.Rendered? ==> r.shown.movie == s.recentMoviesDetails[s.cachedMovieIndex].value)
            && !r.shown.Redraw?)
    ensures r.state.(recentMovies := s.recentMovies, recentMoviesDetails := s.recentMoviesDetails) == s
  {
    if s.cachedMovieIndex == 0 || s.cachedMovieIndex == -1 then
      match fetch
      case FetchFailed => Reply(s, Redraw)
      case Fetched(d) =>
        if !IsValid(d) then
          Reply(s.(recentMovies := SpliceOne(s.recentMovies, |s.recentMovies| - 1)), Redraw)
        else
          var m := Normalize(d);
          Reply(s.(recentMoviesDetails := [Some(m)] + s.recentMoviesDetails), Rendered(m))
    else
      var k := s.cachedMovieIndex;
      if 0 <= k < |s.recentMoviesDetails| && s.recentMoviesDetails[k].Some? then
        Reply(s, Rendered(s.recentMoviesDetails[k].value))
      else
        Reply(s, RenderedUndefined)
  }

  /** The corrected details step: it fetches only on a miss (-1); a failed
      or rejected fetch removes the pending id it drew, at the front; a hit
      renders the record `generate` moved to the front. */
  function GetMovieDetailsFixed(s: State, fetch: Fetch): (r: Reply)
    ensures s.cachedMovieIndex == -1 && (fetch.FetchFailed? || !IsValid(fetch.response)) ==>
      r.shown == Redraw && r.state == s.(recentMovies := SpliceOne(s.recentMovies, 0))
    ensures s.cachedMovieIndex == -1 && fetch.Fetched? && IsValid(fetch.response) ==>
      && r.shown == Rendered(Normalize(fetch.response))
      && r.state == s.(recentMoviesDetails := [Some(Normalize(fetch.response))] + s.recentMoviesDetails)
    ensures s.cachedMovieIndex != -1 ==> r.state == s && !r.shown.Redraw?
    ensures s.cachedMovieIndex != -1 && 0 < |s.recentMoviesDetails| && s.recentMoviesDetails[0].Some? ==>
      r.shown == Rendered(s.recentMoviesDetails[0].value)
  {
    if s.cachedMovieIndex == -1 then
      match fetch
      case FetchFailed => Reply(s.(recentMovies := SpliceOne(s.recentMovies, 0)), Redraw)
      case Fetched(d) =>
        if !IsValid(d) then
          Reply(s.(recentMovies := SpliceOne(s.recentMovies, 0)), Redraw)
        else
          var m := Normalize(d);
          Reply(s.(recentMoviesDetails := [Some(m)] + s.recentMoviesDetails), Rendered(m))
    else if 0 < |s.recentMoviesDetails| && s.recentMoviesDetails[0].Some? then
      Reply(s, Rendered(s.recentMoviesDetails[0].value))
    else
      Reply(s, RenderedUndefined)
  }

  /** One draw as the controller performs it: `generate`, then `getMovieDetails`. */
  function DrawAsWritten(s: State, r: Option<int>, ran: int, fetch: Fetch): Reply
    requires CanPick(s, r, ran)
  {
    GetMovieDetails(Generate(s, r, ran), fetch)
  }

  /** One draw with the corrected details step. */
  function Draw(s: State, r: Option<int>, ran: int, fetch: Fetch): Reply
    requires CanPick(s, r, ran)
  {
    GetMovieDetailsFixed(Generate(s, r, ran), fetch)
  }

  /** A cache hit permutes both arrays: no id and no record is lost or added. */
  lemma GenerateHitPermutes(s: State, r: Option<int>, ran: int)
    requires CanPick(s, r, ran)
    requires Pick(s, r, ran) in s.recentMovies
    requires |s.recentMovies| == |s.recentMoviesDetails|
    ensures multiset(Generate(s, r, ran).recentMovies) == multiset(s.recentMovies)
    ensures multiset(Generate(s, r, ran).recentMoviesDetails) == multiset(s.recentMoviesDetails)
  {
    var t := Generate(s, r, ran);
    var k := IndexOf(s.recentMovies, Pick(s, r, ran));
    MoveToFrontPermutes(s.recentMovies, k, t.recentMovies);
    MoveToFrontPermutes(s.recentMoviesDetails, k, t.recentMoviesDetails);
  }

  /** A miss followed by a valid response: the id and then its record are
      prepended, and the record is rendered. */
  lemma MissThenValid(s: State, r: Option<int>, ran: int, d: DetailResponse)
    requires CanPick(s, r, ran)
    requires Pick(s, r, ran) !in s.recentMovies
    requires IsValid(d)
    ensures var t := DrawAsWritten(s, r, ran, Fetched(d));
      && t.state.recentMovies == [Pick(s, r, ran)] + s.recentMovies
      && t.state.recentMoviesDetails == [Some(Normalize(d))] + s.recentMoviesDetails
      && t.shown == Rendered(Normalize(d))
  {
  }

  /** Moving the same position to the front of both arrays keeps them aligned. */
  lemma {:induction false} MoveKeepsAligned(ids: seq<int>, details: seq<Option<Movie>>, k: int,
                                            ids': seq<int>, details': seq<Option<Movie>>)
    requires Aligned(ids, details)
    requires MovedToFront(ids, k, ids') && MovedToFront(details, k, details')
    ensures Aligned(ids', details')
  {
    forall i | 0 <= i < |ids'|
      ensures details'[i].Some? && details'[i].value.id == ids'[i]
    {
      if i == 0 {
      } else if i <= k {
        assert ids'[(i - 1) + 1] == ids[i - 1] && details'[(i - 1) + 1] == details[i - 1];
      } else {
        assert ids'[i] == ids[i] && details'[i] == details[i];
      }
    }
  }

  /** Prepending a record together with its id keeps the arrays aligned. */
  lemma PrependKeepsAligned(ids: seq<int>, details: seq<Option<Movie>>, m: Movie)
    requires Aligned(ids, details)
    ensures Aligned([m.id] + ids, [Some(m)] + details)
  {
    var ids', details' := [m.id] + ids, [Some(m)] + details;
    forall i | 0 <= i < |ids'|
      ensures details'[i].Some? && details'[i].value.id == ids'[i]
    {
      if i > 0 {
        assert ids'[i] == ids[i - 1] && details'[i] == details[i - 1];
      }
    }
  }

  /** The corrected draw on a cache hit renders the cached record of the
      drawn id, now at the front of both arrays, without using the response. */
  lemma DrawHitAligned(s: State, r: Option<int>, ran: int, fetch: Fetch)
    requires Aligned(s.recentMovies, s.recentMoviesDetails)
    requires CanPick(s, r, ran) && Pick(s, r, ran) in s.recentMovies
    ensures var t := Draw(s, r, ran, fetch);
      && Aligned(t.state.recentMovies, t.state.recentMoviesDetails)
      && t.shown == Rendered(s.recentMoviesDetails[IndexOf(s.recentMovies, Pick(s, r, ran))].value)
      && t.state.recentMovies[0] == Pick(s, r, ran)
      && t.state.recentMoviesDetails[0] == Some(t.shown.movie)
  {
    var g := Generate(s, r, ran);
    var k := IndexOf(s.recentMovies, Pick(s, r, ran));
    MoveKeepsAligned(s.recentMovies, s.recentMoviesDetails, k, g.recentMovies, g.recentMoviesDetails);
  }

  /** The corrected draw on a miss: a valid response prepends and renders
      its record; a rejected or failed one restores both arrays. */
  lemma DrawMissAligned(s: State, r: Option<int>, ran: int, fetch: Fetch)
    requires Aligned(s.recentMovies, s.recentMoviesDetails)
    requires CanPick(s, r, ran) && Pick(s, r, ran) !in s.recentMovies
    requires fetch.Fetched? ==> fetch.response.id == Pick(s, r, ran)
    ensures var t := Draw(s, r, ran, fetch);
      && Aligned(t.state.recentMovies, t.state.recentMoviesDetails)
      && (fetch.Fetched? && IsValid(fetch.response) ==>
            && t.shown == Rendered(Normalize(fetch.response))
            && t.state.recentMovies[0] == Pick(s, r, ran)
            && t.state.recentMoviesDetails[0] == Some(t.shown.movie))
      && (!(fetch.Fetched? && IsValid(fetch.response)) ==>
            && t.shown == Redraw
            && t.state.recentMovies == s.recentMovies
            && t.state.recentMoviesDetails == s.recentMoviesDetails)
  {
    var res := Pick(s, r, ran);
    var g := Generate(s, r, ran);
    assert g.recentMovies == [res] + s.recentMovies && g.recentMoviesDetails == s.recentMoviesDetails;
    assert g.cachedMovieIndex == -1;
    if fetch.Fetched? && IsValid(fetch.response) {
      PrependKeepsAligned(s.recentMovies, s.recentMoviesDetails, Normalize(fetch.response));
    } else {
      assert SpliceOne(g.recentMovies, 0) == s.recentMovies;
    }
  }

  /** The corrected draw keeps the cache aligned, provided the provider
      answers with the movie that was asked for. A hit renders the cached
      record of the drawn id without using the response; a valid miss
      renders the new record; a rejected or failed miss leaves both arrays
      as they were and asks for a new draw. Whatever it renders, the drawn
      id and its record are at the front, and it never renders `undefined`. */
  lemma DrawKeepsAligned(s: State, r: Option<int>, ran: int, fetch: Fetch)
    requires Aligned(s.recentMovies, s.recentMoviesDetails)
    requires CanPick(s, r, ran)
    requires fetch.Fetched? ==> fetch.response.id == Pick(s, r, ran)
    ensures var res := Pick(s, r, ran);
      var t := Draw(s, r, ran, fetch);
      && Aligned(t.state.recentMovies, t.state.recentMoviesDetails)
      && !t.shown.RenderedUndefined?
      && (t.shown.Rendered? ==>
            && t.state.recentMovies[0] == res
            && t.state.recentMoviesDetails[0] == Some(t.shown.movie)
            && t.shown.movie.id == res)
      && (t.shown.Redraw? ==>
            t.state.recentMovies == s.recentMovies && t.state.recentMoviesDetails == s.recentMoviesDetails)
      && (res in s.recentMovies ==>
            t.shown == Rendered(s.recentMoviesDetails[IndexOf(s.recentMovies, res)].value))
  {
    if Pick(s, r, ran) in s.recentMovies {
      DrawHitAligned(s, r, ran, fetch);
    } else {
      DrawMissAligned(s, r, ran, fetch);
    }
  }

  /** Finding: a rejected movie drops the oldest id instead of the one just
      drawn. From an aligned cache, a miss whose response is adult or
      unreleased keeps the rejected id at the front, loses the last id, and
      leaves the cache misaligned. */
  lemma RejectDropsOldestAsWritten(s: State, r: Option<int>, ran: int, d: DetailResponse)
    requires Aligned(s.recentMovies, s.recentMoviesDetails) && |s.recentMovies| > 0
    requires CanPick(s, r, ran) && Pick(s, r, ran) !in s.recentMovies
    requires !IsValid(d)
    ensures var t := DrawAsWritten(s, r, ran, Fetched(d));
      && t.shown == Redraw
      && t.state.recentMovies == [Pick(s, r, ran)] + s.recentMovies[..|s.recentMovies| - 1]
      && t.state.recentMoviesDetails == s.recentMoviesDetails
      && !Aligned(t.state.recentMovies, t.state.recentMoviesDetails)
  {
    var t := DrawAsWritten(s, r, ran, Fetched(d));
    var g := Generate(s, r, ran);
    assert g.recentMovies[..|g.recentMovies| - 1] == [Pick(s, r, ran)] + s.recentMovies[..|s.recentMovies| - 1];
    assert t.state.recentMoviesDetails[0].value.id == s.recentMovies[0] != t.state.recentMovies[0];
  }

  /** Finding: a failed details request leaves the pending id in place. From
      an aligned cache, a miss whose request fails leaves one more id than
      records. */
  lemma FailureKeepsPendingAsWritten(s: State, r: Option<int>, ran: int)
    requires Aligned(s.recentMovies, s.recentMoviesDetails)
    requires CanPick(s, r, ran) && Pick(s, r, ran) !in s.recentMovies
    ensures var t := DrawAsWritten(s, r, ran, FetchFailed);
      && t.shown == Redraw
      && t.state.recentMovies == [Pick(s, r, ran)] + s.recentMovies
      && |t.state.recentMovies| == |t.state.recentMoviesDetails| + 1
  {
  }

  /** Finding: a hit at position 0 is fetched again, because 0 is falsy. From
      an aligned cache, redrawing the front movie with a valid response
      stores a second record for it. */
  lemma FrontHitRefetchesAsWritten(s: State, d: DetailResponse)
    requires Aligned(s.recentMovies, s.recentMoviesDetails) && |s.recentMovies| > 0
    requires s.recentMovies[0] != 0
    requires IsValid(d)
    ensures var t := DrawAsWritten(s, Some(s.recentMovies[0]), 0, Fetched(d));
      && t.state.recentMovies == s.recentMovies
      && t.state.recentMoviesDetails == [Some(Normalize(d))] + s.recentMoviesDetails
      && |t.state.recentMoviesDetails| == |t.state.recentMovies| + 1
  {
    var g := Generate(s, Some(s.recentMovies[0]), 0);
    assert IndexOf(s.recentMovies, s.recentMovies[0]) == 0;
    MoveFirstToFront(s.recentMovies);
    MoveFirstToFront(s.recentMoviesDetails);
    assert g == s.(cachedMovieIndex := 0);
  }

  /** Finding: a hit at position k >= 1 renders the wrong record. After the
      move, position k holds the record that was at k-1, and that is what is
      rendered; its id is not the drawn id. */
  lemma HitRendersNeighbourAsWritten(s: State, k: nat, fetch: Fetch)
    requires Aligned(s.recentMovies, s.recentMoviesDetails)
    requires 1 <= k < |s.recentMovies| && s.recentMovies[k] != 0
    requires s.recentMovies[k] !in s.recentMovies[..k]
    ensures var t := DrawAsWritten(s, Some(s.recentMovies[k]), 0, fetch);
      && t.shown == Rendered(s.recentMoviesDetails[k - 1].value)
      && t.shown.movie.id != s.recentMovies[k]
  {
    var res := s.recentMovies[k];
    IndexOfFirst(s.recentMovies, k);
    var g := Generate(s, Some(res), 0);
    assert g.cachedMovieIndex == k;
    assert MovedToFront(s.recentMoviesDetails, k, g.recentMoviesDetails);
    assert g.recentMoviesDetails[(k - 1) + 1] == s.recentMoviesDetails[k - 1];
    assert s.recentMovies[k - 1] in s.recentMovies[..k];
  }

  /** `prevResult`: the id second from the END of the recent list, or nothing
      when the list is shorter than two. */
  function PrevResult(s: State): (r: Option<int>)
    ensures r.Some? <==> |s.recentMovies| >= 2
    ensures r.Some? ==> r.value in s.recentMovies
  {
    if |s.recentMovies| >= 2 then Some(s.recentMovies[|s.recentMovies| - 2]) else None
  }

  /** The previously shown movie: second from the front, as the list is
      kept most recent first. */
  function PreviousDraw(s: State): (r: Option<int>)
    ensures r.Some? <==> |s.recentMovies| >= 2
    ensures r.Some? ==> r.value in s.recentMovies
  {
    if |s.recentMovies| >= 2 then Some(s.recentMovies[1]) else None
  }

  /** Finding: with two recent movies `prevResult` picks the one on screen,
      and with four or more it skips the one shown just before it. */
  lemma PrevResultAsWritten(s: State)
    ensures |s.recentMovies| == 2 ==> PrevResult(s) == Some(s.recentMovies[0])
    ensures |s.recentMovies| >= 4 ==> PrevResult(s) != Some(s.recentMovies[1]) || s.recentMovies[|s.recentMovies| - 2] == s.recentMovies[1]
  {
  }

  /** After a draw of a movie other than the one on screen that renders (a
      cache hit, or a miss with a valid response), `PreviousDraw` names the
      movie that was on screen. */
  lemma PreviousDrawAfterDraw(s: State, r: Option<int>, ran: int, fetch: Fetch)
    requires Aligned(s.recentMovies, s.recentMoviesDetails) && |s.recentMovies| > 0
    requires CanPick(s, r, ran) && Pick(s, r, ran) != s.recentMovies[0]
    requires fetch.Fetched? ==> fetch.response.id == Pick(s, r, ran)
    requires Pick(s, r, ran) in s.recentMovies || (fetch.Fetched? && IsValid(fetch.response))
    ensures Draw(s, r, ran, fetch).shown.Rendered?
    ensures PreviousDraw(Draw(s, r, ran, fetch).state) == Some(s.recentMovies[0])
  {
    DrawKeepsAligned(s, r, ran, fetch);
    var g := Generate(s, r, ran);
    var k := IndexOf(s.recentMovies, Pick(s, r, ran));
    if k != -1 {
      assert g.recentMovies[0 + 1] == s.recentMovies[0];
    }
  }
}
