/** The watchlist: parallel arrays of movie ids and movie records, changed
    by the add and remove buttons of the movie view. Persisting the arrays
    and posting them to the backend are left to the caller. */
module Watchlist {
  import opened Js
  import opened Movies
  import opened App

  /** The id array and the record array describe the same movies in the same order. */
  predicate Paired(ids: seq<int>, details: seq<Movie>)
  {
    |ids| == |details| && forall i :: 0 <= i < |ids| ==> details[i].id == ids[i]
  }

  /** `toWatchList`: appends the shown movie's id and record. Nothing else changes. */
  function Add(s: State, m: Movie): (r: State)
    ensures |r.watchlist| == |s.watchlist| + 1 && r.watchlist[|s.watchlist|] == m.id
    ensures r.watchlist[..|s.watchlist|] == s.watchlist
    ensures |r.watchlistDetails| == |s.watchlistDetails| + 1 && r.watchlistDetails[|s.watchlistDetails|] == m
    ensures r.watchlistDetails[..|s.watchlistDetails|] == s.watchlistDetails
    ensures r.(watchlist := s.watchlist, watchlistDetails := s.watchlistDetails) == s
  {
    s.(watchlist := s.watchlist + [m.id], watchlistDetails := s.watchlistDetails + [m])
  }

  /** `removeFromWatchList`: looks the shown movie's id up in the id array and
      splices that position out of both arrays. When the id is absent the
      position is -1, which `splice` reads as the last element. */
  function Remove(s: State, m: Movie): (r: State)
    ensures m.id in s.watchlist ==>
      && |r.watchlist| == |s.watchlist| - 1
      && multiset(r.watchlist) == multiset(s.watchlist) - multiset{m.id}
    ensures m.id !in s.watchlist && |s.watchlist| > 0 ==>
      r.watchlist == s.watchlist[..|s.watchlist| - 1]
    ensures m.id !in s.watchlist && |s.watchlistDetails| > 0 ==>
      r.watchlistDetails == s.watchlistDetails[..|s.watchlistDetails| - 1]
    ensures |s.watchlist| == |s.watchlistDetails| ==> |r.watchlist| == |r.watchlistDetails|
    ensures r.(watchlist := s.watchlist, watchlistDetails := s.watchlistDetails) == s
  {
    var index := IndexOf(s.watchlist, m.id);
    s.(watchlist := SpliceOne(s.watchlist, index), watchlistDetails := SpliceOne(s.watchlistDetails, index))
  }

  /** Adding a movie that is not on the list and then removing it restores
      both arrays exactly, provided they had equal length. */
  lemma AddThenRemove(s: State, m: Movie)
    requires m.id !in s.watchlist
    requires |s.watchlist| == |s.watchlistDetails|
    ensures Remove(Add(s, m), m) == s
  {
    var a := Add(s, m);
    assert IndexOf(a.watchlist, m.id) == |s.watchlist| by {
      assert a.watchlist[..|s.watchlist|] == s.watchlist;
    }
    SplicePushed(s.watchlist, m.id);
    SplicePushed(s.watchlistDetails, m);
  }

  /** Both buttons keep the two arrays paired, whatever movie is shown. */
  lemma {:induction false} EditsKeepPairing(s: State, m: Movie)
    requires Paired(s.watchlist, s.watchlistDetails)
    ensures Paired(Add(s, m).watchlist, Add(s, m).watchlistDetails)
    ensures Paired(Remove(s, m).watchlist, Remove(s, m).watchlistDetails)
  {
    var r := Remove(s, m);
    var k := SpliceIndex(|s.watchlist|, IndexOf(s.watchlist, m.id));
    assert forall i :: 0 <= i < |r.watchlist| ==> r.watchlistDetails[i].id == r.watchlist[i] by {
      forall i | 0 <= i < |r.watchlist|
        ensures r.watchlistDetails[i].id == r.watchlist[i]
      {
        if i < k {
          assert r.watchlist[i] == s.watchlist[i] && r.watchlistDetails[i] == s.watchlistDetails[i];
        } else {
          assert r.watchlist[i] == s.watchlist[i + 1] && r.watchlistDetails[i] == s.watchlistDetails[i + 1];
        }
      }
    }
  }

  /** Removing a listed movie drops exactly its record from the pairing: the
      movie's first occurrence is gone from both arrays and the rest keep
      their order. */
  lemma RemoveListed(s: State, m: Movie)
    requires Paired(s.watchlist, s.watchlistDetails)
    requires m.id in s.watchlist
    ensures var k := IndexOf(s.watchlist, m.id);
      && Remove(s, m).watchlist == s.watchlist[..k] + s.watchlist[k + 1..]
      && Remove(s, m).watchlistDetails == s.watchlistDetails[..k] + s.watchlistDetails[k + 1..]
      && s.watchlistDetails[k].id == m.id
  {
  }
}
