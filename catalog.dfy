/**
 * The shared movie list of lib.rs and the handlers that write it: the set
 * normalisation applied to every fetched batch (`movie_list_cleanup`), the
 * refresh that replaces the list only when the fetch succeeded
 * (`update_movie_list`), the read of the current list (`get_movie_list`) and
 * the local tag update of `set_movie_tags`. The read-write lock around the
 * list is not modelled: the store is one object with one field.
 */
module Catalog {
  import opened Wrappers
  import opened Types
  import opened KodiRpc

  /** How many movies of the batch belong to the set named `s`. */
  function SetCount(l: seq<Movie>, s: string): (n: nat)
    ensures n <= |l|
  {
    if l == [] then 0 else (if l[0].setName == Some(s) then 1 else 0) + SetCount(l[1..], s)
  }

  /** One step of the counting fold: one more movie in set `s`. */
  function Bump(counts: map<string, nat>, s: string): map<string, nat>
  {
    counts[s := if s in counts then counts[s] + 1 else 1]
  }

  /** The fold of `movie_list_cleanup`: movies per set name, accumulated left to right into `acc`. */
  function CountSets(acc: map<string, nat>, l: seq<Movie>): map<string, nat>
    decreases |l|
  {
    if l == [] then acc
    else
      var acc' := match l[0].setName case Some(s) => Bump(acc, s) case None => acc;
      CountSets(acc', l[1..])
  }

  /** The fold counts every set name exactly. */
  lemma {:induction false} CountSetsCounts(acc: map<string, nat>, l: seq<Movie>, s: string)
    ensures s in CountSets(acc, l) <==> s in acc || SetCount(l, s) > 0
    ensures s in CountSets(acc, l) ==>
      CountSets(acc, l)[s] == (if s in acc then acc[s] else 0) + SetCount(l, s)
    decreases |l|
  {
    if l != [] {
      var acc' := match l[0].setName case Some(t) => Bump(acc, t) case None => acc;
      CountSetsCounts(acc', l[1..], s);
    }
  }

  /** The names kept by `movie_list_cleanup`: those counted more than once. */
  function SharedSets(l: seq<Movie>): (shared: set<string>)
    ensures forall s :: s in shared <==> SetCount(l, s) > 1
  {
    var counts := CountSets(map[], l);
    assert forall s :: s in counts && counts[s] > 1 <==> SetCount(l, s) > 1 by {
      forall s ensures s in counts && counts[s] > 1 <==> SetCount(l, s) > 1 {
        CountSetsCounts(map[], l, s);
      }
    }
    set s | s in counts && counts[s] > 1
  }

  /** A movie keeps its set only when the set is one of `shared`. */
  function KeepShared(m: Movie, shared: set<string>): Movie
  {
    match m.setName
    case Some(s) => if s in shared then m else m.(setName := None)
    case None => m
  }

  /** The map of `movie_list_cleanup`, for a given set of kept names. */
  function Normalize(l: seq<Movie>, shared: set<string>): (r: seq<Movie>)
    ensures |r| == |l|
    ensures forall i :: 0 <= i < |l| ==> r[i] == KeepShared(l[i], shared)
  {
    if l == [] then [] else [KeepShared(l[0], shared)] + Normalize(l[1..], shared)
  }

  /**
   * `movie_list_cleanup`: same movies in the same order, each unchanged but for
   * its set, which survives exactly when more than one movie of the batch
   * belongs to it.
   */
  function MovieListCleanup(l: seq<Movie>): (r: seq<Movie>)
    ensures |r| == |l|
    ensures forall i :: 0 <= i < |l| ==> r[i] == l[i].(setName := r[i].setName)
    ensures forall i :: 0 <= i < |l| ==>
      r[i].setName == if l[i].setName.Some? && SetCount(l, l[i].setName.value) > 1 then l[i].setName else None
  {
    Normalize(l, SharedSets(l))
  }

  /** After normalisation a kept set has all its movies, and a dropped set has none. */
  lemma {:induction false} NormalizeCount(l: seq<Movie>, shared: set<string>, s: string)
    ensures SetCount(Normalize(l, shared), s) == if s in shared then SetCount(l, s) else 0
  {
    if l != [] {
      NormalizeCount(l[1..], shared, s);
      assert Normalize(l, shared)[1..] == Normalize(l[1..], shared);
    }
  }

  /** Cleaning a cleaned batch changes nothing: dropping singleton sets never makes a kept set a singleton. */
  lemma CleanupIdempotent(l: seq<Movie>)
    ensures MovieListCleanup(MovieListCleanup(l)) == MovieListCleanup(l)
  {
    var r := MovieListCleanup(l);
    var r2 := MovieListCleanup(r);
    forall i | 0 <= i < |r| ensures r2[i] == r[i] {
      if r[i].setName.Some? {
        var s := r[i].setName.value;
        NormalizeCount(l, SharedSets(l), s);
      }
    }
  }

  /**
   * The local part of `set_movie_tags`: every movie with the given id gets the
   * new tags; nothing else changes, in any movie.
   */
  function WithTags(l: seq<Movie>, id: u16, tags: seq<string>): (r: seq<Movie>)
    ensures |r| == |l|
    ensures forall i :: 0 <= i < |l| ==> r[i] == l[i].(tags := r[i].tags)
    ensures forall i :: 0 <= i < |l| && l[i].id == id ==> r[i].tags == tags
    ensures forall i :: 0 <= i < |l| && l[i].id != id ==> r[i] == l[i]
  {
    if l == [] then []
    else
      var rest := WithTags(l[1..], id, tags);
      var r := [if l[0].id == id then l[0].(tags := tags) else l[0]] + rest;
      assert forall i :: 0 < i < |l| ==> r[i] == rest[i - 1] && l[i] == l[1..][i - 1];
      r
  }

  /** Tagging an id no movie has leaves the list as it is. */
  lemma WithTagsAbsent(l: seq<Movie>, id: u16, tags: seq<string>)
    requires forall i :: 0 <= i < |l| ==> l[i].id != id
    ensures WithTags(l, id, tags) == l
  {
  }

  /** Tags do not take part in set normalisation, so tagging and cleaning commute. */
  lemma {:induction false} WithTagsCleanupCommute(l: seq<Movie>, id: u16, tags: seq<string>)
    ensures MovieListCleanup(WithTags(l, id, tags)) == WithTags(MovieListCleanup(l), id, tags)
  {
    var t := WithTags(l, id, tags);
    forall s ensures SetCount(t, s) == SetCount(l, s) {
      SetCountOnlySets(l, t, s);
    }
  }

  /** Two batches whose movies pair up set by set have the same set counts. */
  lemma {:induction false} SetCountOnlySets(l: seq<Movie>, t: seq<Movie>, s: string)
    requires |l| == |t|
    requires forall i :: 0 <= i < |l| ==> t[i].setName == l[i].setName
    ensures SetCount(t, s) == SetCount(l, s)
  {
    if l != [] {
      SetCountOnlySets(l[1..], t[1..], s);
    }
  }

  /**
   * The web answer to a remote call whose result is not needed: "ok" when it
   * succeeded, otherwise a server error carrying "error: " and the error text.
   */
  function Acknowledge(remote: RpcResult<string>): (r: HttpResponse<string>)
    ensures r.HttpOk? <==> remote.Ok?
    ensures r.HttpOk? ==> r.body == "ok"
    ensures remote.Err? ==> r.reason == "error: " + RpcErrorText(remote.error)
  {
    if remote.Err? then InternalServerError("error: " + RpcErrorText(remote.error)) else HttpOk("ok")
  }

  /** The single shared movie list. */
  class MovieStore {
    var movies: seq<Movie>

    /** The list starts empty. */
    constructor ()
      ensures movies == []
    {
      movies := [];
    }

    /** `get_movie_list`: a copy of the current list; the list is not changed. */
    method GetMovieList() returns (snapshot: seq<Movie>)
      ensures snapshot == movies
    {
      snapshot := movies;
    }

    /**
     * `update_movie_list`, given the outcome of the fetch: a fetched batch
     * replaces the list once normalised; a failed fetch leaves the previous
     * list in place. The answer is the list as it stands afterwards.
     */
    method Refresh(fetch: RpcResult<seq<Movie>>) returns (response: seq<Movie>)
      modifies this
      ensures fetch.Ok? ==> movies == MovieListCleanup(fetch.value)
      ensures fetch.Err? ==> movies == old(movies)
      ensures response == movies
    {
      if fetch.Ok? {
        movies := MovieListCleanup(fetch.value);
      }
      response := GetMovieList();
    }

    /**
     * `set_movie_tags`: the list is updated first, then the tags are sent to
     * the server, whose outcome is `remote`; a failure there is reported but
     * the local update stays.
     */
    method SetMovieTags(movieId: u16, tags: seq<string>, remote: RpcResult<string>)
      returns (sent: JsonRpcRequest<(u16, seq<string>)>, response: HttpResponse<string>)
      modifies this
      ensures movies == WithTags(old(movies), movieId, tags)
      ensures sent == JsonRpcRequest("2.0", 1, SetMovieDetailsMethod, Some((movieId, tags)))
      ensures response == Acknowledge(remote)
    {
      movies := WithTags(movies, movieId, tags);
      sent := JsonRpcRequest("2.0", 1, SetMovieDetailsMethod, Some((movieId, tags)));
      response := Acknowledge(remote);
    }
  }
}
