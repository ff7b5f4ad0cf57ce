/** The application state the movie controller keeps across callbacks:
    the recent-movies cache and the watchlist (parallel id and record
    arrays), the candidate pool of result ids, the page counters, and the
    listing query with and without its page suffix. */
module App {
  import opened Js
  import opened Movies

  datatype State = State(
    /** Ids of recently drawn movies, most recent first. */
    recentMovies: seq<int>,
    /** Records parallel to `recentMovies`; `None` is an `undefined` slot. */
    recentMoviesDetails: seq<Option<Movie>>,
    /** Position of the last drawn id in `recentMovies` before it moved, or -1. */
    cachedMovieIndex: int,
    watchlist: seq<int>,
    watchlistDetails: seq<Movie>,
    /** Candidate pool: ids collected from the listing pages. */
    results: seq<int>,
    dataIterator: int,
    maxpages: int,
    initialpages: int,
    storageChanged: bool,
    /** The listing URL for the next page request. */
    qs: string,
    /** The listing URL without a page parameter. */
    oqs: string)
}
