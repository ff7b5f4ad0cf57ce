# WATTO movie controller core, in Dafny

WATTO ("What to watch") is an Ionic/AngularJS app. It draws a random movie
from a pool of ids collected from The Movie Database's listing API. The pool
is narrowed by stored genre and release-date filters. The app keeps a cache
of recently drawn movies and a watchlist. This project models the sequential
logic inside `app/scripts/controllers.js` as pure functions over one
immutable state record (`App.State`), and proves properties of it:

- `Query`: the listing URL built from the stored filters (`queryString`).
- `Recent`: the recent-movies cache, with `generate`, `getMovieDetails` and
  `prevResult`. Two parallel arrays hold the ids and the records.
- `Watchlist`: the parallel watchlist arrays (`toWatchList`,
  `removeFromWatchList`).
- `Paging`: the page counters and the page chain of `getData`, plus `reset`
  and `gimmeNew`.
- `Filters`: the filter summary labels (`setupGenres`, `setupDates`).
- `Movies`: the details response, the validity check and the stored record.
- `Js`: the JavaScript built-ins the code relies on, each with its own edge
  cases. `indexOf` returns -1 when the value is absent. `splice(i, 1)` counts
  a negative `i` from the end, so `splice(-1, 1)` removes the last element.
  `r || x` treats 0 as false. `substr(0, n)` takes a prefix, `toLowerCase`
  lowers case, and `toString` renders a number in decimal.

HTTP responses, the random index and the current date are parameters.
Writes to `localStorage` become updates of state fields.

The popular endpoint is chosen only when the stored `filters.popular` value
is the boolean `true`. Storage only ever yields `null` or a string, so the
discover endpoint is always used (`Query.StoredPopularNeverSelected`). The
genre list can start with a `|` when the first genre entry is `false`
(`Query.LeadingBar`).

## Model

| member | source | states |
|---|---|---|
| Js.IndexOf | app/scripts/controllers.js:562 | `indexOf`: -1 exactly when the value is absent; otherwise the first position holding it |
| Js.SpliceOne | app/scripts/controllers.js:563-564 | `splice(start, 1)` removes exactly one element, at the normalised index, when that index is inside the array; a start of -1 removes the last element; the other elements keep their order |
| Js.SplicePushed | app/scripts/controllers.js:555-564 | splicing out the position just pushed restores the array |
| Js.NatToStringRoundTrip | app/scripts/controllers.js:384 | reading back the decimal rendering of an id gives the id |
| Js.IntToStringInjective | app/scripts/controllers.js:384 | distinct ids render as distinct strings, so a key string picks out one genre id |
| Js.IntToString | app/scripts/controllers.js:384 | `id.toString()`: a leading `-` exactly for negative ids (`Js.IntToStringSign`), injective (`Js.IntToStringInjective`), read back by `Js.DigitsValue` for naturals (`Js.NatToStringRoundTrip`) |
| Js.Lower | app/scripts/controllers.js:653 | `toLowerCase`: same length, each character lowered on its own |
| Js.Prefix | app/scripts/controllers.js:666 | `substr(0, n)`: a prefix of the string, of length `min(n, length)` |
| Movies.Normalize | app/scripts/controllers.js:663-676 | the stored record copies id, title, genres, overview, countries, original title and vote count; the year is the first `min(4, length)` characters of the release date; the three poster URLs are built from the poster path or fall back to the placeholders; the cast starts empty |
| Movies.IsValid | app/scripts/controllers.js:653 | a response is kept exactly when it is not adult and its status spells "released" in any letter case (`Movies.StatusAnyCase`) |
| Movies.StatusAnyCase | app/scripts/controllers.js:653 | for a response that is not adult, the check passes if and only if the status has eight characters, each being the letter of "released" in lower or upper case |
| Movies.StatusCheckIgnoresCase | app/scripts/controllers.js:653 | examples of the check: "Released" and "RELEASED" pass, "Rumored" and "Post Production" fail |
| Query.GenreIds | app/scripts/controllers.js:776-786 | the position-driven genre loop; characterised by `Query.GenreIdsShape` against the selected keys joined or prefixed by the bar character |
| Query.DateFragment | app/scripts/controllers.js:792-800 | the date part; characterised case by case by `Query.DateFragmentCases` |
| Query.GenreFragment | app/scripts/controllers.js:774-786 | the genre part is empty exactly when no selection is stored; otherwise it is `&with_genres=` followed by the genre ids |
| Query.SelectedKeysHas | app/scripts/controllers.js:782-784 | every entry whose value is not `false` has its key written |
| Query.GenreIdsPastFirst | app/scripts/controllers.js:778-785 | past position 0, every written key is preceded by the bar character |
| Query.GenreIdsShape | app/scripts/controllers.js:776-786 | the genre ids are the non-`false` keys in map order: joined by the bar character when the first entry is written, each preceded by the bar character when the first entry is `false` |
| Query.LeadingBar | app/scripts/controllers.js:778-780 | a `false` first entry followed by any written entry makes the list start with the bar character |
| Query.AllFalseWritesNothing | app/scripts/controllers.js:776-786 | when every value is `false`, no key is selected and the id list is empty |
| Query.DateFragmentCases | app/scripts/controllers.js:792-800 | from-date alone gives `gte=<from>` then `lte=<tomorrow>`; with a to-date there is exactly one `lte=<to>` after any `gte`, and `tomorrow` is not used; no date gives nothing |
| Query.FragmentEmpty | app/scripts/controllers.js:773-800 | the filter fragment is empty exactly when no filter is stored |
| Query.EndpointsDiffer | app/scripts/controllers.js:803-807 | the popular URL differs from every discover URL |
| Query.QueryString | app/scripts/controllers.js:763-810 | `oqs` equals `qs`; the popular URL is used when nothing is stored and the popular value is boolean `true`, and otherwise the discover base followed by the fragment; no other state changes |
| Query.PopularOnlyUnfiltered | app/scripts/controllers.js:803-807 | the popular URL is used if and only if no filter is stored and the popular value is exactly boolean `true` |
| Query.GenresAlwaysListed | app/scripts/controllers.js:773-786 | a stored genre map always puts `&with_genres=` right after the base URL, even when every value is `false` |
| Query.StoredPopularNeverSelected | app/scripts/controllers.js:768 | a popular value read from storage (`null` or a string) never selects the popular URL |
| Filters.SetupGenres | app/scripts/controllers.js:380-389 | the labels are, for each selection entry that is exactly `true` in order, the names of the catalogue genres whose id string equals the key |
| Filters.MatchingMembership | app/scripts/controllers.js:383-387 | a name is matched for an entry if and only if some catalogue genre with that name has an id rendering as the entry's key |
| Filters.ChosenSplit | app/scripts/controllers.js:382-388 | a label chosen by a selection is chosen by its prefix or by its last entry |
| Filters.ChosenPrefix | app/scripts/controllers.js:382-388 | a label chosen by a prefix of the selection is chosen by the whole selection |
| Filters.ChosenLast | app/scripts/controllers.js:382-388 | a label chosen by the last entry is chosen by the whole selection |
| Filters.ListedMembership | app/scripts/controllers.js:380-389 | a name is listed if and only if some entry that is exactly `true` has a key equal to the id string of a genre with that name |
| Filters.GenreLabelsAreQueried | app/scripts/controllers.js:384 | every listed genre's id is among the keys the listing query writes |
| Filters.SetupDates | app/scripts/controllers.js:301-306 | no stored date gives empty labels; otherwise the from-label is the picker day and the to-label is not empty |
| Filters.DateLabelsMatchQuery | app/scripts/controllers.js:301-306 | the to-label shows exactly when the query bounds the release date; "till today" shows exactly when the upper bound is `tomorrow`; a stored to-date is both labelled and used as the bound |
| Watchlist.Add | app/scripts/controllers.js:555-560 | appends the id and the record at the end of their arrays; the old elements and the rest of the state are unchanged |
| Watchlist.Remove | app/scripts/controllers.js:561-567 | a listed id loses one occurrence and the array shrinks by one; an unlisted id drops the last element of both arrays; equal lengths stay equal; no other state changes |
| Watchlist.AddThenRemove | app/scripts/controllers.js:555-567 | adding an unlisted movie and then removing it restores the state exactly |
| Watchlist.EditsKeepPairing | app/scripts/controllers.js:555-567 | both buttons keep every id paired with its record at the same position |
| Watchlist.RemoveListed | app/scripts/controllers.js:561-564 | removing a listed movie drops its first occurrence from both arrays, keeps the rest in order, and removes its own record |
| Paging.Reset | app/scripts/controllers.js:173-179 | page counter 0, 12 pages, first draw at page 6, filters flagged as changed; nothing else changes |
| Paging.GimmeNew | app/scripts/controllers.js:578-583 | six more pages are allowed and the counters stay bounded |
| Paging.Clamp | app/scripts/controllers.js:725-728 | the page limit is the smaller of the reported total and the current limit, and the first-draw page ends up below it |
| Paging.ResumeFromCounter | app/scripts/controllers.js:720 | the page falls back to the counter when absent or 0, so a call with no page, with page 0 (the retry offered on page 0) or with the counter's own value has the same effect |
| Paging.GetData | app/scripts/controllers.js:719-760 | a page below the limit appends its ids, bumps the counter by one, points `qs` at the next page and requests it; it draws exactly at the first-draw page; a failed request, or a page at or past the limit, leaves the state unchanged and requests nothing; a failed request offers a retry exactly up to the first-draw page; the page-0 clamp is dropped afterwards unless it is kept |
| Paging.Walk | app/scripts/controllers.js:731-743 | the chain of `getData` calls, one response each, never counts more requests than responses; its counts are given by `Paging.WalkFromPage` |
| Paging.WalkFromPage | app/scripts/controllers.js:731-744 | from page `d`, with every request answered, the chain requests pages `d` to `maxpages` and draws once exactly when the first-draw page lies in between |
| Paging.ClampKeepsBounded | app/scripts/controllers.js:725-728 | a kept clamp leaves the first-draw page below the page limit, and the limit at most the reported total |
| Recent.MoveToFrontPermutes | app/scripts/controllers.js:706-711 | moving one element to the front permutes the array |
| Recent.MoveToFront | app/scripts/controllers.js:706-715 | the element at `k` goes to the front; the elements before it shift by one and the rest keep their places |
| Recent.Pick | app/scripts/controllers.js:699-700 | the id falls back to a pool draw when absent or 0: a non-zero explicit id is used as given; otherwise the id is drawn from the candidate pool |
| Recent.Generate | app/scripts/controllers.js:698-717 | on a hit at `k` the id and its record both move to the front and the order of the others is kept (a missing record becomes an `undefined` front slot); on a miss the id alone is prepended; the hit position or -1 is remembered |
| Recent.GenerateHitPermutes | app/scripts/controllers.js:704-715 | a hit loses and adds no id and no record |
| Recent.GetMovieDetails | app/scripts/controllers.js:642-691 | fetches when the remembered position is 0 or -1; a rejected response drops the last id and redraws; a failed request redraws; a valid one prepends and renders its record; otherwise it renders the record at the remembered position |
| Recent.MissThenValid | app/scripts/controllers.js:678-715 | a miss followed by a valid response prepends the id and then its record and renders the record |
| Recent.MoveKeepsAligned | app/scripts/controllers.js:706-711 | moving the same position to the front of both arrays keeps ids and records paired |
| Recent.PrependKeepsAligned | app/scripts/controllers.js:678-714 | prepending a record together with its id keeps them paired |
| Recent.PrevResult | app/scripts/controllers.js:585-588 | `prevResult` draws an id from the recent list exactly when it holds at least two |
| Recent.PrevResultAsWritten | app/scripts/controllers.js:585-588 | with two recent movies `prevResult` picks the one on screen; with four or more it skips the one shown just before |
| Recent.RejectDropsOldestAsWritten | app/scripts/controllers.js:653-658 | a rejected new movie keeps its id at the front and drops the oldest id, leaving ids and records out of step |
| Recent.FailureKeepsPendingAsWritten | app/scripts/controllers.js:684-687 | a failed details request leaves the drawn id with no record |
| Recent.FrontHitRefetchesAsWritten | app/scripts/controllers.js:649 | redrawing the movie at position 0 fetches it again and stores a second record |
| Recent.HitRendersNeighbourAsWritten | app/scripts/controllers.js:688-690 | a hit at position 1 or later renders the record of a different movie |
| Recent.DrawAsWritten | app/scripts/controllers.js:698-717 | one draw as written: `generate` followed by its synchronous `getMovieDetails(res)` call (line 716); its outcomes are stated by `Recent.MissThenValid` and the four `AsWritten` lemmas |
| Recent.GetMovieDetailsFixed | app/scripts/controllers.js:642-691 | corrected details step: fetches only on a miss; a rejected or failed fetch removes the drawn id at the front; a hit renders the front record |
| Recent.DrawHitAligned | app/scripts/controllers.js:698-717 | corrected draw on a hit: the cached record of the drawn id is rendered and both arrays stay paired |
| Recent.DrawMissAligned | app/scripts/controllers.js:649-687 | corrected draw on a miss: a valid response prepends and renders its record; a rejected or failed one restores both arrays |
| Recent.DrawKeepsAligned | app/scripts/controllers.js:642-717 | the corrected draw keeps ids and records paired, never renders `undefined`, and puts the rendered movie's id and record at the front |
| Recent.PreviousDraw | app/scripts/controllers.js:585-588 | corrected `prevResult`: an id is available exactly when at least two are stored |
| Recent.PreviousDrawAfterDraw | app/scripts/controllers.js:585-588 | a draw of a different movie that is cached, or answered validly, renders it, and then the corrected `prevResult` names the movie that was on screen |
| Paging.WalkIgnoresTotalAsWritten | app/scripts/controllers.js:720-728 | after a reset, with 1 to 11 reported pages, the chain still requests 13 pages, and with one page it draws twice |
| Paging.WalkKeepingClampDrawsOnce | app/scripts/controllers.js:725-743 | keeping the clamp, the chain requests one page past `min(total, 12)` and draws exactly once |

## Left out

- HTTP requests (`$http`) to the listing, details, credits and video
  endpoints and to the backend: their responses are parameters (`Paging.Response`,
  `Recent.Fetch`). The details URL built from the id is not modelled.
- The `openFB` library, login, logout, revoke and the user/watchlist sync
  (`fbInit`, `watchListOperation`): network I/O and code that is not part of
  this model.
- `localStorage` and JSON (de)serialisation: a stored value is a field of the
  state or an `Option` parameter; storage writes are state updates.
- Ionic UI: loading spinners, popups, action sheets, side menu, scroll
  delegate, routing on view leave.
- `Math.random` in `generate`: the drawn index is a parameter `ran`.
- Recent.Generate, Recent.Pick: require (`Recent.CanPick`) a non-zero id or an index
  into a non-empty pool, because the source would draw `undefined` from an
  empty pool and the model has no `undefined` id. In the source, filters
  that match nothing leave the pool empty; `gimmeNew` then draws
  `undefined`, its details request fails, the error handler draws again,
  finds `undefined` at position 0 and, since `!0` holds, fetches again. That
  possible endless request loop is outside the model.
- `Date` construction and `toJSON().slice`: dates, `tomorrow` and the picker
  labels are opaque strings.
- Floating point: the rating computed in `render` and the storage-size sum
  in the setup view.
- `render`: the trailer and credits merge, the rating and the watchlist flag.
  A render is reported as the record it receives (`Recent.Shown`).
- The `onTheWatchList` flag that `toWatchList` and `removeFromWatchList`
  set (lines 559 and 566): a view flag, not part of the state record.
- Overlapping requests: each `getData` or details callback is applied, one
  at a time, to the state it runs in. The source captures the page number
  and the limits when the request is made and bumps the counter only in the
  callback, and `gimmeNew` can start a second page chain while the first is
  still running; both chains then share `qs` and the counter, so pages can
  be fetched twice or skipped. Likewise the reject branch reads the length
  of the recent list when its response arrives. Interleaved chains and
  draws are not modelled.
- Paging.GimmeNew: models only the counter update. The page request and
  the draw that `gimmeNew` also issues are the separate steps
  `Paging.GetData` and `Recent.Generate`.
- `init` (lines 813-864), run on every view enter. It builds the query,
  and when the filters changed it clears `storageChanged` and empties the
  candidate pool. For a movie opened by id that is not in the recent list,
  it appends the watchlist record and the id at the END of the recent
  arrays, against their most-recent-first order. It then renders or starts
  the page chain. None of these effects are modelled.
- The trivial controllers (home, profile, rating, video, recent and
  watchlist views).
- `Js.Lower`: lower-cases ASCII letters only, not other Unicode letters.
- Js.IntToString: renders every integer in plain decimal. JavaScript
  numbers are doubles, and `toString` switches to exponent form from 10^21
  on; TMDB ids are far below that.
- Js.Prefix: counts Dafny characters, where `substr` counts UTF-16 code
  units; the two agree on the ISO dates it is applied to.
- `Js.JsValue`: numbers, arrays and objects share one case, because nothing
  modelled compares them.
- Language filters: commented out in the source.

## Findings

| source | as written | input that shows it | evidently intended | confidence | as-written member | corrected member |
|---|---|---|---|---|---|---|
| app/scripts/controllers.js:653-658 | a rejected (adult or unreleased) movie removes `recentMovies[length-1]`, the oldest id | recent `[5]` with its record; draw id 7 and get an unreleased response: ids become `[7]`, records `[movie 5]` | remove the id just drawn, at the front | not executed; high | Recent.RejectDropsOldestAsWritten | Recent.GetMovieDetailsFixed |
| app/scripts/controllers.js:649 | `!cachedMovieIndex` is true for a hit at position 0, so that movie is fetched again and a second record is prepended | recent `[5]` with its record; redraw id 5: ids `[5]`, records `[new 5, old 5]` | fetch only on a miss (-1) | not executed; high | Recent.FrontHitRefetchesAsWritten | Recent.DrawHitAligned |
| app/scripts/controllers.js:688-690 | a hit at position `k` >= 1 renders `recentMoviesDetails[k]` after the record was moved to the front | recent `[5, 7]` with records; redraw id 7: movie 5 is rendered | render the record now at position 0 | not executed; high | Recent.HitRendersNeighbourAsWritten | Recent.DrawHitAligned |
| app/scripts/controllers.js:684-687 | a failed details request leaves the drawn id in `recentMovies` without a record | recent `[]`; draw id 7 and the request fails: ids `[7]`, records `[]` | drop the pending id, as for a rejected movie | not executed; medium | Recent.FailureKeepsPendingAsWritten | Recent.DrawMissAligned |
| app/scripts/controllers.js:720-728 | the page-0 clamp is kept in local copies only, so later pages use the unclamped limits | after `reset`, total_pages 1: pages 0 to 12 are requested and the draw happens at page 0 and again at page 6 | keep the clamped limits for the whole chain: request `min(total, 12) + 1` pages and draw once | not executed; medium | Paging.WalkIgnoresTotalAsWritten | Paging.WalkKeepingClampDrawsOnce |
| app/scripts/controllers.js:585-588 | `prevResult` reads `recentMovies[length-2]`, though the list is most recent first | recent `[9, 8, 7, 6]` (9 on screen, 8 before it): `prevResult` draws 7 | the movie shown before the current one, at index 1 | not executed; medium | Recent.PrevResultAsWritten | Recent.PreviousDrawAfterDraw |
