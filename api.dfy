/*
 * The web handlers that sequence several remote calls (src/api/movies.rs and
 * src/api/movie.rs). Every remote reply is a parameter; a handler also says
 * which remote methods it called, in order.
 */
module Api {
  import opened Wrappers
  import opened Types
  import opened KodiRpc
  import opened Catalog
  import opened GetMovies
  import opened ScanLibrary

  /** Normalising the set names keeps a list sorted: only `setName` changes. */
  lemma RefreshedCatalogSorted(l: seq<Movie>)
    requires SortedByTitle(l)
    ensures SortedByTitle(MovieListCleanup(l))
  {
    var r := MovieListCleanup(l);
    forall i, j | 0 <= i < j < |r|
      ensures !Less(r[j].title, r[i].title)
    {
      assert r[i].title == l[i].title && r[j].title == l[j].title;
    }
  }

  /**
   * `update_movie_list` as served: fetch every movie (the reply is
   * `moviesReply`), refresh the store with the outcome, answer with the list
   * as it stands. After a successful fetch the stored list is sorted by title.
   */
  method UpdateMovieList(store: MovieStore, moviesReply: RpcResult<MoviesResponse>, encode: string -> string)
    returns (sent: JsonRpcRequest<GetMoviesParams>, response: HttpResponse<seq<Movie>>)
    modifies store
    ensures sent == MoviesRequest()
    ensures moviesReply.Ok? ==>
      store.movies == MovieListCleanup(SortByTitle(ConvertAll(moviesReply.value.movies, encode)))
    ensures moviesReply.Ok? ==> SortedByTitle(store.movies)
    ensures moviesReply.Err? ==> store.movies == old(store.movies)
    ensures response == HttpOk(store.movies)
  {
    var fetch;
    sent, fetch := GetAllMovies(moviesReply, encode);
    var list := store.Refresh(fetch);
    if moviesReply.Ok? {
      SortByTitleCorrect(ConvertAll(moviesReply.value.movies, encode));
      RefreshedCatalogSorted(SortByTitle(ConvertAll(moviesReply.value.movies, encode)));
    }
    response := HttpOk(list);
  }

  /**
   * `clean_and_scan_kodi_library`: clean the library, then scan it and wait
   * for the scan to finish, then refresh the store; the first failure ends
   * the handler with a server error. `None` stands for a handler still
   * waiting because every status reply given said the scan was running.
   */
  method CleanAndScanKodiLibrary(store: MovieStore, clean: RpcResult<string>, scanStart: RpcResult<string>,
                                 polls: seq<RpcResult<InfoBooleans.InfoBooleansResponse>>,
                                 moviesReply: RpcResult<MoviesResponse>, encode: string -> string)
    returns (response: Option<HttpResponse<seq<Movie>>>, calls: seq<string>)
    modifies store
    ensures clean.Err? ==> response == Some(InternalServerError("err")) && calls == [CleanMethod]
    ensures clean.Ok? && ScanResult(scanStart, polls).Failed? ==> response == Some(InternalServerError("err"))
    ensures clean.Ok? && ScanResult(scanStart, polls) == StillScanning ==> response == None
    ensures !(clean.Ok? && ScanResult(scanStart, polls) == Done) ==>
      store.movies == old(store.movies)
    ensures clean.Ok? && ScanResult(scanStart, polls) == Done ==>
      && response == Some(HttpOk(store.movies))
      && (moviesReply.Ok? ==>
            store.movies == MovieListCleanup(SortByTitle(ConvertAll(moviesReply.value.movies, encode))))
      && (moviesReply.Err? ==> store.movies == old(store.movies))
    ensures clean.Ok? ==>
      calls == [CleanMethod, ScanMethod]
             + (if scanStart.Ok? then seq(PollCount(polls), _ => GetInfoBooleansMethod) else [])
             + (if ScanResult(scanStart, polls) == Done then [GetMoviesMethod] else [])
  {
    calls := [CleanMethod];
    if clean.Err? {
      return Some(InternalServerError("err")), calls;
    }
    var outcome, scanCalls := ScanVideoLibraryAndWaitForDone(scanStart, polls);
    calls := calls + scanCalls;
    if outcome.Failed? {
      return Some(InternalServerError("err")), calls;
    }
    if outcome == StillScanning {
      return None, calls;
    }
    var _, updated := UpdateMovieList(store, moviesReply, encode);
    calls := calls + [GetMoviesMethod];
    response := Some(updated);
  }

  /**
   * `refresh_movie`: ask the server to refresh one movie; the store is not
   * involved. The answer is "ok" exactly when the server call succeeded.
   */
  method RefreshMovie(movieId: u16, remote: RpcResult<string>)
    returns (sent: JsonRpcRequest<u16>, response: HttpResponse<string>)
    ensures sent == JsonRpcRequest("2.0", 1, RefreshMovieMethod, Some(movieId))
    ensures response.HttpOk? <==> remote.Ok?
    ensures remote.Ok? ==> response == HttpOk("ok")
    ensures remote.Err? ==> response == InternalServerError("error: " + RpcErrorText(remote.error))
  {
    sent := JsonRpcRequest("2.0", 1, RefreshMovieMethod, Some(movieId));
    response := Acknowledge(remote);
  }
}
