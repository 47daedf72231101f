/**
 * Movie ingestion (kodi_rpc/get_movies.rs): the reply of
 * `VideoLibrary.GetMovies` is converted movie by movie into catalog records
 * and the list is then sorted by title in place with a stable sort.
 */
module GetMovies {
  import opened Wrappers
  import opened Types
  import opened KodiRpc

  datatype Art = Art(
    icon: Option<string>, thumb: Option<string>, fanart: Option<string>, poster: Option<string>,
    setFanart: Option<string>, setPoster: Option<string>, setThumb: Option<string>)

  datatype AudioStream = AudioStream(channels: u8, codec: string, language: string)

  datatype SubtitleStream = SubtitleStream(language: string)

  datatype VideoStream = VideoStream(
    aspect: Float32, codec: string, duration: u16, height: u16, width: u16,
    language: string, stereomode: string)

  datatype StreamDetails = StreamDetails(
    audio: seq<AudioStream>, video: seq<VideoStream>, subtitle: seq<SubtitleStream>)

  datatype CastMember = CastMember(name: string, order: u16, role: string, thumbnail: Option<string>)

  /** One movie as the server describes it; `setString` is the server's `set` field, "" for none. */
  datatype MovieDetails = MovieDetails(
    art: Art, movieLabel: string, movieid: u16, runtime: u16, title: string, file: string,
    premiered: string, rating: Float32, playcount: u8, setString: string, dateadded: string,
    tag: seq<string>, genre: seq<string>, streamdetails: StreamDetails, cast: seq<CastMember>)

  datatype MoviesResponse = MoviesResponse(movies: seq<MovieDetails>)

  datatype Limits = Limits(end: u16)

  datatype GetMoviesParams = GetMoviesParams(properties: seq<string>, limits: Option<Limits>)

  /** The properties asked for: every field the conversion reads besides the id and label, which always come. */
  const MovieProperties: seq<string> :=
    ["art", "title", "runtime", "streamdetails", "file", "premiered", "rating",
     "playcount", "set", "dateadded", "tag", "genre", "cast"]

  /** The request `get_all_movies` sends: a `VideoLibrary.GetMovies` call for the movie properties, at most 10000 movies. */
  function MoviesRequest(): (req: JsonRpcRequest<GetMoviesParams>)
    ensures req.jsonrpc == "2.0" && req.id == 1 && req.methodName == GetMoviesMethod
    ensures req.params == Some(GetMoviesParams(MovieProperties, Some(Limits(10000))))
  {
    JsonRpcRequest("2.0", 1, GetMoviesMethod, Some(GetMoviesParams(MovieProperties, Some(Limits(10000)))))
  }

  /** Each property is asked for once. */
  lemma MoviePropertiesDistinct()
    ensures |MovieProperties| == 13
    ensures forall i, j :: 0 <= i < j < |MovieProperties| ==> MovieProperties[i] != MovieProperties[j]
  {
  }

  /** Position of a resolution in the order SD < 720p < 1080p < 4K < 8K. */
  function Rank(r: Resolution): nat
  {
    match r
    case Sd => 0
    case Hd720p => 1
    case Hd1080p => 2
    case Uhd4k => 3
    case Uhd8k => 4
  }

  /** The resolution class of a video height. */
  function ResolutionOf(height: u16): (r: Resolution)
    ensures r == Sd <==> height < 600
    ensures r == Hd720p <==> 600 <= height <= 720
    ensures r == Hd1080p <==> 720 < height <= 1080
    ensures r == Uhd4k <==> 1080 < height <= 2160
    ensures r == Uhd8k <==> 2160 < height
  {
    if height < 600 then Sd
    else if height <= 720 then Hd720p
    else if height <= 1080 then Hd1080p
    else if height <= 2160 then Uhd4k
    else Uhd8k
  }

  /** A taller picture never gets a lower class. */
  lemma ResolutionMonotone(h1: u16, h2: u16)
    requires h1 <= h2
    ensures Rank(ResolutionOf(h1)) <= Rank(ResolutionOf(h2))
  {
  }

  /** The movie's resolution comes from its first video stream alone; without one there is none. */
  function StreamResolution(details: StreamDetails): (r: Option<Resolution>)
    ensures r.None? <==> details.video == []
    ensures r.Some? ==> r.value == ResolutionOf(details.video[0].height)
  {
    if details.video == [] then None else Some(ResolutionOf(details.video[0].height))
  }

  /** The server's set string as an optional set: the empty string means no set. */
  function SetFromString(s: string): (r: Option<string>)
    ensures r.None? <==> s == ""
    ensures r.Some? ==> r.value == s
  {
    if s == "" then None else Some(s)
  }

  /** The server's encoding of an optional set. */
  function SetToString(o: Option<string>): string
  {
    match o
    case None => ""
    case Some(s) => s
  }

  /** The set string is read back exactly, and every set but the empty name survives the way back. */
  lemma SetStringRoundTrip(s: string, o: Option<string>)
    ensures SetToString(SetFromString(s)) == s
    ensures o != Some("") ==> SetFromString(SetToString(o)) == o
  {
  }

  function ToCast(c: CastMember): (r: Cast)
    ensures r.name == c.name && r.role == c.role && r.thumbnail == c.thumbnail
  {
    Cast(c.name, c.role, c.thumbnail)
  }

  /** The cast in the server's order, each entry keeping its name, role and thumbnail. */
  function ToCastList(cs: seq<CastMember>): (r: seq<Cast>)
    ensures |r| == |cs|
    ensures forall i :: 0 <= i < |cs| ==> r[i] == ToCast(cs[i])
  {
    if cs == [] then [] else [ToCast(cs[0])] + ToCastList(cs[1..])
  }

  /**
   * The conversion of one movie: fields are renamed onto the record, the
   * resolution and the set are derived, and the poster URL is percent-encoded
   * by `encode`.
   */
  function ToMovie(d: MovieDetails, encode: string -> string): (m: Movie)
    ensures m.id == d.movieid && m.title == d.title && m.path == d.file
    ensures m.runtime == d.runtime && m.premiered == d.premiered && m.dateadded == d.dateadded
    ensures m.rating == d.rating && m.playcount == d.playcount
    ensures m.tags == d.tag && m.genres == d.genre
    ensures m.resolution == StreamResolution(d.streamdetails)
    ensures m.setName == SetFromString(d.setString)
    ensures m.poster == match d.art.poster case None => None case Some(url) => Some(encode(url))
    ensures |m.cast| == |d.cast|
    ensures forall i :: 0 <= i < |d.cast| ==> m.cast[i] == ToCast(d.cast[i])
  {
    Movie(
      id := d.movieid,
      title := d.title,
      runtime := d.runtime,
      path := d.file,
      premiered := d.premiered,
      dateadded := d.dateadded,
      resolution := StreamResolution(d.streamdetails),
      poster := match d.art.poster case None => None case Some(url) => Some(encode(url)),
      rating := d.rating,
      playcount := d.playcount,
      setName := SetFromString(d.setString),
      tags := d.tag,
      genres := d.genre,
      cast := ToCastList(d.cast))
  }

  /** The conversion of every movie, in the server's order. */
  function ConvertAll(ds: seq<MovieDetails>, encode: string -> string): (ms: seq<Movie>)
    ensures |ms| == |ds|
    ensures forall i :: 0 <= i < |ds| ==> ms[i] == ToMovie(ds[i], encode)
  {
    if ds == [] then [] else [ToMovie(ds[0], encode)] + ConvertAll(ds[1..], encode)
  }

  // ---------------------------------------------------------------- ordering of titles

  /** `Ord` on strings: character by character; a proper prefix comes first. */
  predicate Less(a: string, b: string)
  {
    if b == [] then false
    else if a == [] then true
    else if a[0] != b[0] then a[0] < b[0]
    else Less(a[1..], b[1..])
  }

  lemma {:induction false} LessIrreflexive(a: string)
    ensures !Less(a, a)
  {
    if a != [] {
      LessIrreflexive(a[1..]);
    }
  }

  lemma {:induction false} LessTransitive(a: string, b: string, c: string)
    requires Less(a, b) && Less(b, c)
    ensures Less(a, c)
  {
    if a != [] && a[0] == b[0] && b[0] == c[0] {
      LessTransitive(a[1..], b[1..], c[1..]);
    }
  }

  lemma {:induction false} LessTotal(a: string, b: string)
    ensures a == b || Less(a, b) || Less(b, a)
  {
    if a != [] && b != [] && a[0] == b[0] {
      LessTotal(a[1..], b[1..]);
      if a[1..] == b[1..] {
        assert a == [a[0]] + a[1..] && b == [b[0]] + b[1..];
      }
    }
  }

  lemma {:induction false} LessAsymmetric(a: string, b: string)
    requires Less(a, b)
    ensures !Less(b, a)
  {
    if a != [] && a[0] == b[0] {
      LessAsymmetric(a[1..], b[1..]);
    }
  }

  /** "Not greater" is transitive. */
  lemma {:induction false} NotLessTransitive(a: string, b: string, c: string)
    requires !Less(b, a) && !Less(c, b)
    ensures !Less(c, a)
  {
    if a != [] && b != [] && c != [] && a[0] == b[0] && b[0] == c[0] {
      NotLessTransitive(a[1..], b[1..], c[1..]);
    }
  }

  /** Sorted by title, ascending. */
  predicate SortedByTitle(s: seq<Movie>)
  {
    forall i, j :: 0 <= i < j < |s| ==> !Less(s[j].title, s[i].title)
  }

  /** The movies of `s` titled `t`, in the order of `s`. */
  function WithTitle(s: seq<Movie>, t: string): (r: seq<Movie>)
    ensures |r| <= |s|
  {
    if s == [] then []
    else WithTitle(s[..|s| - 1], t) + (if s[|s| - 1].title == t then [s[|s| - 1]] else [])
  }

  // ---------------------------------------------------------------- the stable sort

  /** Insert `m` after every movie of `sorted` whose title is not greater than its own. */
  function Insert(sorted: seq<Movie>, m: Movie): seq<Movie>
    decreases |sorted|
  {
    if sorted == [] || !Less(m.title, sorted[|sorted| - 1].title) then sorted + [m]
    else Insert(sorted[..|sorted| - 1], m) + [sorted[|sorted| - 1]]
  }

  /** Insertion sort by title: the specification of the in-place sort. */
  function SortByTitle(s: seq<Movie>): seq<Movie>
  {
    if s == [] then [] else Insert(SortByTitle(s[..|s| - 1]), s[|s| - 1])
  }

  lemma {:induction false} InsertPermutes(sorted: seq<Movie>, m: Movie)
    ensures multiset(Insert(sorted, m)) == multiset(sorted) + multiset{m}
    decreases |sorted|
  {
    if !(sorted == [] || !Less(m.title, sorted[|sorted| - 1].title)) {
      var init := sorted[..|sorted| - 1];
      InsertPermutes(init, m);
      assert sorted == init + [sorted[|sorted| - 1]];
    }
  }

  lemma {:induction false} InsertSorted(sorted: seq<Movie>, m: Movie)
    requires SortedByTitle(sorted)
    ensures SortedByTitle(Insert(sorted, m))
    decreases |sorted|
  {
    var n := |sorted|;
    if sorted == [] || !Less(m.title, sorted[n - 1].title) {
      forall i | 0 <= i < n ensures !Less(m.title, sorted[i].title) {
        if i < n - 1 {
          NotLessTransitive(sorted[i].title, sorted[n - 1].title, m.title);
        }
      }
    } else {
      var init := sorted[..n - 1];
      var last := sorted[n - 1];
      InsertSorted(init, m);
      InsertPermutes(init, m);
      var ins := Insert(init, m);
      forall i | 0 <= i < |ins| ensures !Less(last.title, ins[i].title) {
        assert ins[i] in multiset(ins);
        if ins[i] == m {
          LessAsymmetric(m.title, last.title);
        } else {
          assert ins[i] in multiset(init);
        }
      }
    }
  }

  /** The movies of a title in a list extended by one movie. */
  lemma WithTitleSnoc(s: seq<Movie>, m: Movie, t: string)
    ensures WithTitle(s + [m], t) == WithTitle(s, t) + (if m.title == t then [m] else [])
  {
    assert (s + [m])[..|s|] == s;
  }

  /** Insertion puts `m` after every movie of the same title, and moves no other movie of a title past another. */
  lemma {:induction false} InsertStable(sorted: seq<Movie>, m: Movie, t: string)
    ensures WithTitle(Insert(sorted, m), t) == WithTitle(sorted, t) + (if m.title == t then [m] else [])
    decreases |sorted|
  {
    var n := |sorted|;
    if sorted == [] || !Less(m.title, sorted[n - 1].title) {
      assert Insert(sorted, m) == sorted + [m];
      WithTitleSnoc(sorted, m, t);
    } else {
      var init, last := sorted[..n - 1], sorted[n - 1];
      var ins := Insert(init, m);
      assert Insert(sorted, m) == ins + [last];
      InsertStable(init, m, t);
      WithTitleSnoc(ins, last, t);
      assert WithTitle(sorted, t) == WithTitle(init, t) + (if last.title == t then [last] else []);
      if m.title == t {
        LessIrreflexive(t);
        assert WithTitle(sorted, t) == WithTitle(init, t);
        assert WithTitle(Insert(sorted, m), t) == WithTitle(ins, t) == WithTitle(init, t) + [m];
      } else {
        assert WithTitle(ins, t) == WithTitle(init, t);
      }
    }
  }

  /** The sort's output is sorted by title. */
  lemma {:induction false} SortByTitleSorted(s: seq<Movie>)
    ensures SortedByTitle(SortByTitle(s))
  {
    if s != [] {
      SortByTitleSorted(s[..|s| - 1]);
      InsertSorted(SortByTitle(s[..|s| - 1]), s[|s| - 1]);
    }
  }

  /** The sort loses and adds no movie. */
  lemma {:induction false} SortByTitlePermutes(s: seq<Movie>)
    ensures multiset(SortByTitle(s)) == multiset(s)
  {
    if s != [] {
      var init, last := s[..|s| - 1], s[|s| - 1];
      calc {
        multiset(SortByTitle(s));
        multiset(Insert(SortByTitle(init), last));
        { InsertPermutes(SortByTitle(init), last); }
        multiset(SortByTitle(init)) + multiset{last};
        { SortByTitlePermutes(init); }
        multiset(init) + multiset{last};
        { assert s == init + [last]; }
        multiset(s);
      }
    }
  }

  /** The sort keeps the original order among movies of equal title. */
  lemma {:induction false} SortByTitleStable(s: seq<Movie>, t: string)
    ensures WithTitle(SortByTitle(s), t) == WithTitle(s, t)
  {
    if s != [] {
      var init := s[..|s| - 1];
      SortByTitleStable(init, t);
      InsertStable(SortByTitle(init), s[|s| - 1], t);
    }
  }

  /**
   * The sort orders by title, loses and adds no movie, and keeps the original
   * order among movies of equal title.
   */
  lemma SortByTitleCorrect(s: seq<Movie>)
    ensures SortedByTitle(SortByTitle(s))
    ensures multiset(SortByTitle(s)) == multiset(s)
    ensures forall t :: WithTitle(SortByTitle(s), t) == WithTitle(s, t)
  {
    SortByTitleSorted(s);
    SortByTitlePermutes(s);
    forall t ensures WithTitle(SortByTitle(s), t) == WithTitle(s, t) {
      SortByTitleStable(s, t);
    }
  }

  /** Where the loop stops, the movie goes right after the prefix. */
  lemma InsertStop(sorted: seq<Movie>, key: Movie, j: nat)
    requires j <= |sorted| && (j == 0 || !Less(key.title, sorted[j - 1].title))
    ensures Insert(sorted[..j], key) == sorted[..j] + [key]
  {
  }

  /** One step of the loop: the movie passes a greater title, and the insertion still to do shrinks by one. */
  lemma InsertShift(sorted: seq<Movie>, key: Movie, j: nat)
    requires 0 < j <= |sorted| && Less(key.title, sorted[j - 1].title)
    requires Insert(sorted, key) == Insert(sorted[..j], key) + sorted[j..]
    ensures Insert(sorted, key) == Insert(sorted[..j - 1], key) + sorted[j - 1..]
  {
    assert sorted[..j][..j - 1] == sorted[..j - 1];
    assert sorted[j - 1..] == [sorted[j - 1]] + sorted[j..];
  }

  /** Swapping two neighbours, written on the pieces around them. */
  lemma SwapNeighbours<T>(p: seq<T>, x: T, y: T, q: seq<T>)
    ensures (p + [y] + [x] + q)[|p| := x][|p| + 1 := y] == p + [x] + [y] + q
  {
    var b, c := p + [y] + [x] + q, p + [x] + [y] + q;
    forall k | 0 <= k < |c| ensures b[|p| := x][|p| + 1 := y][k] == c[k] {
      if k > |p| + 1 {
        assert b[k] == q[k - |p| - 2] == c[k];
      }
    }
  }

  /** The array contents before and after one step of the loop. */
  lemma SwapStep(sorted: seq<Movie>, key: Movie, rest: seq<Movie>, j: nat)
    requires 0 < j <= |sorted|
    ensures (sorted[..j] + [key] + sorted[j..] + rest)[j - 1 := key][j := sorted[j - 1]]
         == sorted[..j - 1] + [key] + sorted[j - 1..] + rest
  {
    var p, y, q := sorted[..j - 1], sorted[j - 1], sorted[j..] + rest;
    assert sorted[..j] == p + [y];
    assert sorted[j - 1..] == [y] + sorted[j..];
    assert sorted[..j] + [key] + sorted[j..] + rest == p + [y] + [key] + q;
    assert sorted[..j - 1] + [key] + sorted[j - 1..] + rest == p + [key] + [y] + q;
    SwapNeighbours(p, key, y, q);
  }

  /** The inner loop of the insertion sort: a[i] moves left past every greater title of the sorted prefix a[..i]. */
  method InsertInPlace(a: array<Movie>, i: nat)
    requires i < a.Length
    modifies a
    ensures a[..] == Insert(old(a[..i]), old(a[i])) + old(a[i + 1..])
  {
    ghost var sorted, rest := a[..i], a[i + 1..];
    var key := a[i];
    var j := i;
    assert sorted[..j] == sorted && sorted[j..] == [];
    assert a[..] == sorted[..j] + [key] + sorted[j..] + rest;
    while j > 0 && Less(key.title, a[j - 1].title)
      invariant 0 <= j <= i
      invariant a[..] == sorted[..j] + [key] + sorted[j..] + rest
      invariant Insert(sorted, key) == Insert(sorted[..j], key) + sorted[j..]
    {
      AroundHole(a[..], sorted, key, rest, j);
      InsertShift(sorted, key, j);
      SwapDown(a, sorted, key, rest, j);
      j := j - 1;
    }
    if j > 0 {
      AroundHole(a[..], sorted, key, rest, j);
    }
    InsertStop(sorted, key, j);
  }

  /** Swaps the moving movie with the one just before it. */
  method SwapDown(a: array<Movie>, ghost sorted: seq<Movie>, ghost key: Movie, ghost rest: seq<Movie>, j: nat)
    requires 0 < j <= |sorted| && a[..] == sorted[..j] + [key] + sorted[j..] + rest
    modifies a
    ensures a[..] == sorted[..j - 1] + [key] + sorted[j - 1..] + rest
  {
    AroundHole(a[..], sorted, key, rest, j);
    SwapStep(sorted, key, rest, j);
    a[j - 1], a[j] := a[j], a[j - 1];
  }

  /** While the movie is moving down, it sits at index j, just after the j-th of the sorted movies before it. */
  lemma AroundHole(contents: seq<Movie>, sorted: seq<Movie>, key: Movie, rest: seq<Movie>, j: nat)
    requires 0 < j <= |sorted| && contents == sorted[..j] + [key] + sorted[j..] + rest
    ensures contents[j - 1] == sorted[j - 1] && contents[j] == key
  {
  }

  /** Splitting a concatenation where its second part begins. */
  lemma ConcatParts<T>(p: seq<T>, q: seq<T>)
    requires q != []
    ensures (p + q)[..|p|] == p && (p + q)[|p|] == q[0] && (p + q)[|p| + 1..] == q[1..]
  {
  }

  /**
   * One round of the outer loop, on the array's contents: inserting element
   * `i` into the sorted prefix sorts one more element of the original.
   */
  lemma SortStep(s: seq<Movie>, i: nat, cur: seq<Movie>)
    requires i < |s| == |cur| && cur == SortByTitle(s[..i]) + s[i..]
    ensures Insert(cur[..i], cur[i]) + cur[i + 1..] == SortByTitle(s[..i + 1]) + s[i + 1..]
  {
    ConcatParts(SortByTitle(s[..i]), s[i..]);
    assert s[..i + 1][..i] == s[..i];
  }

  /** `sort_by` on the titles, done in place: insertion sort, shifting greater titles right. */
  method SortInPlace(a: array<Movie>)
    modifies a
    ensures a[..] == SortByTitle(old(a[..]))
  {
    ghost var orig := a[..];
    var i := 0;
    assert orig[..0] == [] && orig[0..] == orig;
    while i < a.Length
      invariant 0 <= i <= a.Length
      invariant a[..] == SortByTitle(orig[..i]) + orig[i..]
    {
      SortStep(orig, i, a[..]);
      InsertInPlace(a, i);
      i := i + 1;
    }
    assert orig[..a.Length] == orig && orig[a.Length..] == [];
  }

  /**
   * `get_all_movies`, given the reply to `MoviesRequest`: a failure is passed
   * on with no movies; otherwise every movie is converted and the list is
   * sorted by title.
   */
  method GetAllMovies(response: RpcResult<MoviesResponse>, encode: string -> string)
    returns (sent: JsonRpcRequest<GetMoviesParams>, r: RpcResult<seq<Movie>>)
    ensures sent == MoviesRequest()
    ensures r.Err? <==> response.Err?
    ensures response.Err? ==> r.error == response.error
    ensures response.Ok? ==> r.value == SortByTitle(ConvertAll(response.value.movies, encode))
  {
    sent := MoviesRequest();
    if response.Err? {
      return sent, Err(response.error);
    }
    var converted := ConvertAll(response.value.movies, encode);
    var movies := new Movie[|converted|](i requires 0 <= i < |converted| => converted[i]);
    assert movies[..] == converted;
    SortInPlace(movies);
    r := Ok(movies[..]);
  }
}
