/** Movie records as the movie-details endpoint returns them and as the
    application stores them in its caches. */
module Movies {
  import opened Js

  datatype Genre = Genre(id: int, name: string)

  /** The fields of a movie-details response that the application reads. */
  datatype DetailResponse = DetailResponse(
    id: int,
    title: string,
    releaseDate: string,
    genres: seq<Genre>,
    overview: string,
    productionCountries: seq<string>,
    originalTitle: string,
    voteCount: int,
    posterPath: Option<string>,
    adult: bool,
    status: string)

  /** The normalised record kept in the recent cache and the watchlist. */
  datatype Movie = Movie(
    id: int,
    title: string,
    released: string,
    genres: seq<Genre>,
    overview: string,
    countries: seq<string>,
    otitle: string,
    votes: int,
    poster: string,
    posterTn: string,
    posterSn: string,
    actors: seq<string>)

  const EmptyPoster := "images/empty.png"
  const EmptyThumb := "images/empty_tn.png"
  const PosterBase := "https://image.tmdb.org/t/p/w396"
  const ThumbBase := "https://image.tmdb.org/t/p/w185"
  const SmallBase := "https://image.tmdb.org/t/p/w75"

  /** A response is shown only if it is not flagged adult and its status
      reads "released" in any letter case. */
  predicate IsValid(d: DetailResponse)
  {
    !d.adult && Lower(d.status) == Released
  }

  /** The record built from a valid response: the year is the first four
      characters of the release date, the poster URLs fall back to
      placeholders when the response has no poster, the cast starts empty. */
  function Normalize(d: DetailResponse): (m: Movie)
    ensures m.id == d.id && m.title == d.title && m.actors == []
    ensures m.released <= d.releaseDate
    ensures |m.released| == if |d.releaseDate| < 4 then |d.releaseDate| else 4
    ensures m.genres == d.genres && m.overview == d.overview && m.countries == d.productionCountries
    ensures m.otitle == d.originalTitle && m.votes == d.voteCount
    ensures d.posterPath.None? ==>
      m.poster == EmptyPoster && m.posterTn == EmptyThumb && m.posterSn == EmptyThumb
    ensures d.posterPath.Some? ==>
      && m.poster == PosterBase + d.posterPath.value
      && m.posterTn == ThumbBase + d.posterPath.value
      && m.posterSn == SmallBase + d.posterPath.value
  {
    var poster := if d.posterPath.None? then EmptyPoster else PosterBase + d.posterPath.value;
    var thumb := if d.posterPath.None? then EmptyThumb else ThumbBase + d.posterPath.value;
    var small := if d.posterPath.None? then EmptyThumb else SmallBase + d.posterPath.value;
    Movie(d.id, d.title, Prefix(d.releaseDate, 4), d.genres, d.overview,
          d.productionCountries, d.originalTitle, d.voteCount, poster, thumb, small, [])
  }

  const Released := "released"
  const ReleasedUpper := "RELEASED"

  /** An ASCII lower-case letter is reached from itself and from its
      upper-case form, and from nothing else. */
  lemma LowerCharIs(c: char, x: char, X: char)
    requires 'a' <= x <= 'z' && X as int == x as int - 32
    ensures LowerChar(c) == x <==> c == x || c == X
  {
  }

  /** A response that is not adult passes exactly when its status spells
      "released" with each letter in either case. */
  lemma {:induction false} StatusAnyCase(d: DetailResponse)
    requires !d.adult
    ensures IsValid(d) <==>
      |d.status| == 8 && forall i :: 0 <= i < 8 ==> d.status[i] == Released[i] || d.status[i] == ReleasedUpper[i]
  {
    var low := Lower(d.status);
    if |d.status| == 8 {
      forall i | 0 <= i < 8
        ensures low[i] == Released[i] <==> d.status[i] == Released[i] || d.status[i] == ReleasedUpper[i]
      {
        LowerCharIs(d.status[i], Released[i], ReleasedUpper[i]);
      }
      if forall i :: 0 <= i < 8 ==> d.status[i] == Released[i] || d.status[i] == ReleasedUpper[i] {
        assert low == Released;
      }
    }
  }

  /** Examples of the status check: "Released" and "RELEASED" pass,
      "Rumored" and "Post Production" do not. */
  lemma StatusCheckIgnoresCase(d: DetailResponse)
    requires !d.adult
    ensures d.status == "Released" ==> IsValid(d)
    ensures d.status == "RELEASED" ==> IsValid(d)
    ensures d.status == "Rumored" ==> !IsValid(d)
    ensures d.status == "Post Production" ==> !IsValid(d)
  {
    if d.status == "Released" {
      assert Lower(d.status) == "released";
    }
    if d.status == "RELEASED" {
      assert Lower(d.status) == "released";
    }
    if d.status == "Rumored" {
      assert Lower(d.status)[0] == 'r' && Lower(d.status)[1] == 'u';
    }
    if d.status == "Post Production" {
      assert |Lower(d.status)| == 15;
    }
  }
}
