/**
 * The three reconciliation analysers of api/errors.rs, as functions over a
 * snapshot of the catalog. The configured filename pattern is an extractor
 * from a path to its captures (MovieFile.DefaultExtractor is the default
 * pattern of lib.rs); the ignore patterns are regular-expression sources
 * matched by an abstract `isMatch`.
 */
module Reconciliation {
  import opened Wrappers
  import opened Types
  import opened KodiRpc
  import opened Seqs
  import opened Levenshtein
  import opened MovieFile
  import opened GetDirectory
  import opened GetMovies

  // ---------------------------------------------------------------- missing files

  /** The ignore loop: some pattern matches the path. */
  function Ignored(patterns: seq<string>, isMatch: (string, string) -> bool, path: string): (b: bool)
    ensures b <==> exists i :: 0 <= i < |patterns| && isMatch(patterns[i], path)
  {
    if patterns == [] then false
    else if isMatch(patterns[0], path) then true
    else
      var b := Ignored(patterns[1..], isMatch, path);
      assert b ==> exists i :: 1 <= i < |patterns| && isMatch(patterns[i], path) by {
        if b {
          var i :| 0 <= i < |patterns| - 1 && isMatch(patterns[1..][i], path);
          assert isMatch(patterns[i + 1], path);
        }
      }
      b
  }

  /** The paths the catalog knows. */
  function KnownFiles(catalog: seq<Movie>): (paths: seq<string>)
    ensures |paths| == |catalog|
    ensures forall i :: 0 <= i < |catalog| ==> paths[i] == catalog[i].path
  {
    if catalog == [] then [] else [catalog[0].path] + KnownFiles(catalog[1..])
  }

  /** A listed file is reported when no ignore pattern matches it and no movie of the catalog has its path. */
  predicate IsMissing(f: File, known: seq<string>, patterns: seq<string>, isMatch: (string, string) -> bool)
  {
    !Ignored(patterns, isMatch, f.path) && f.path !in known
  }

  /**
   * The two filters over the listing: ignored files are dropped, then files
   * the catalog already has. What is left keeps its order and multiplicity.
   */
  function MissingFiles(files: seq<File>, catalog: seq<Movie>, patterns: seq<string>, isMatch: (string, string) -> bool)
    : (missing: seq<File>)
    ensures forall f :: f in missing <==>
      f in files && !Ignored(patterns, isMatch, f.path) && forall i :: 0 <= i < |catalog| ==> catalog[i].path != f.path
    ensures forall f :: multiset(missing)[f] ==
                          if IsMissing(f, KnownFiles(catalog), patterns, isMatch) then multiset(files)[f] else 0
    ensures IsSubsequence(missing, files)
  {
    var known := KnownFiles(catalog);
    var keep := (f: File) => IsMissing(f, known, patterns, isMatch);
    FilterIsSubsequence(keep, files);
    assert forall p :: p in known <==> exists i :: 0 <= i < |catalog| && catalog[i].path == p by {
      forall p ensures p in known ==> exists i :: 0 <= i < |catalog| && catalog[i].path == p {
        if p in known {
          var i :| 0 <= i < |known| && known[i] == p;
          assert catalog[i].path == p;
        }
      }
    }
    Filter(keep, files)
  }

  /**
   * `get_unrecognized_movies`: the configured movies directory is listed, and
   * `listing` is the reply. A failed listing is an error and no list, never
   * an empty or partial one.
   */
  function GetUnrecognizedMovies(moviesDirectory: string, listing: RpcResult<DirectoryResponse>, catalog: seq<Movie>,
                                 patterns: seq<string>, isMatch: (string, string) -> bool)
    : (r: Exchange<DirectoryParams, HttpResponse<seq<File>>>)
    ensures r.sent == DirectoryRequest(moviesDirectory)
    ensures r.answer.HttpOk? <==> listing.Ok?
    ensures listing.Err? ==> r.answer == InternalServerError("err")
    ensures listing.Ok? ==> r.answer.body == MissingFiles(ToFiles(listing.value.files), catalog, patterns, isMatch)
  {
    var call := GetDirectory.GetDirectory(moviesDirectory, listing);
    var answer := match call.answer
      case Err(_) => InternalServerError("err")
      case Ok(files) => HttpOk(MissingFiles(files, catalog, patterns, isMatch));
    Exchange(call.sent, answer)
  }

  // ---------------------------------------------------------------- recognition errors

  /** `name_differences_threshold.unwrap_or(3)`. */
  function Threshold(configured: Option<nat>): (t: nat)
    ensures configured.None? ==> t == 3
    ensures configured.Some? ==> t == configured.value
  {
    match configured
    case None => 3
    case Some(t) => t
  }

  /** The title and year taken from a path; "" for a group that did not take part, or when the pattern does not match. */
  function ExtractedTitleYear(extract: string -> Option<Captures>, path: string): (string, string)
  {
    match extract(path)
    case None => ("", "")
    case Some(c) =>
      (match c.title case Some(t) => t case None => "",
       match c.year case Some(y) => y case None => "")
  }

  /** A movie whose title is too far from its filename's, or whose premiere date does not start with the filename's year. */
  predicate IsRecognitionError(m: Movie, extract: string -> Option<Captures>, threshold: nat)
  {
    var (title, year) := ExtractedTitleYear(extract, m.path);
    Distance(m.title, title) > threshold || !(year <= m.premiered)
  }

  /** `get_recognition_errors_list`: the flagged movies, in catalog order. */
  function RecognitionErrors(catalog: seq<Movie>, extract: string -> Option<Captures>, configured: Option<nat>)
    : (r: seq<Movie>)
    ensures forall m :: m in r <==> m in catalog && IsRecognitionError(m, extract, Threshold(configured))
    ensures forall m :: multiset(r)[m] ==
                          if IsRecognitionError(m, extract, Threshold(configured)) then multiset(catalog)[m] else 0
    ensures IsSubsequence(r, catalog)
  {
    var threshold := Threshold(configured);
    var flagged := (m: Movie) => IsRecognitionError(m, extract, threshold);
    FilterIsSubsequence(flagged, catalog);
    Filter(flagged, catalog)
  }

  /** A path the pattern does not match compares against "": the movie is flagged exactly when its title is longer than the threshold. */
  lemma UnmatchedPathFlaggedIffLongTitle(m: Movie, extract: string -> Option<Captures>, threshold: nat)
    requires extract(m.path).None?
    ensures IsRecognitionError(m, extract, threshold) <==> |m.title| > threshold
  {
    DistanceToEmpty(m.title);
  }

  /** A filename that gives back exactly the catalog title and a prefix of the premiere date is never flagged. */
  lemma AgreeingFilenameNotFlagged(m: Movie, extract: string -> Option<Captures>, threshold: nat, year: string)
    requires extract(m.path) == Some(Captures(Some(m.title), Some(year)))
    requires year <= m.premiered
    ensures !IsRecognitionError(m, extract, threshold)
  {
    DistanceZeroIffEqual(m.title, m.title);
  }

  /** Under the default pattern, "Up" filed as "/movies/Up 2009.mkv" and premiered in 2009 is recognised. */
  lemma UpRecognized(m: Movie, threshold: nat)
    requires m.title == "Up" && m.path == "/movies/Up 2009.mkv" && "2009" <= m.premiered
    ensures !IsRecognitionError(m, DefaultExtractor("/movies/"), threshold)
  {
    UpWithYear("/movies/", m.path);
    AgreeingFilenameNotFlagged(m, DefaultExtractor("/movies/"), threshold, "2009");
  }

  /** "e Matrix" and "e Matrx" are one deletion apart. */
  lemma MatrixTailClose(y: string, z: string)
    requires y == "e Matrix" && z == "e Matrx"
    ensures Distance(y, z) <= 1
  {
    DistanceAfterDeletion(y[..6], y[6], y[7..], z[6..]);
    assert y[..6] + [y[6]] + y[7..] == y && y[..6] + z[6..] == z;
    assert y[7..] == z[6..];
    DistanceZeroIffEqual(y[7..], z[6..]);
  }

  /** "The Matrix" and "Te Matrx" are two deletions apart. */
  lemma MatrixTitlesClose(a: string, b: string)
    requires a == "The Matrix" && b == "Te Matrx"
    ensures Distance(a, b) <= 2
  {
    DistanceAfterDeletion(a[..1], a[1], a[2..], b[1..]);
    assert a[..1] + [a[1]] + a[2..] == a && a[..1] + b[1..] == b;
    MatrixTailClose(a[2..], b[1..]);
  }

  /**
   * "The Matrix" premiered 1999-03-31: against the filename title "Te Matrx"
   * and year "1999" it is not flagged with the default threshold, against
   * "Totally Different Name" it is.
   */
  lemma MatrixExample(m: Movie, close: string -> Option<Captures>, far: string -> Option<Captures>)
    requires m.title == "The Matrix" && m.premiered == "1999-03-31"
    requires close(m.path) == Some(Captures(Some("Te Matrx"), Some("1999")))
    requires far(m.path) == Some(Captures(Some("Totally Different Name"), Some("1999")))
    ensures !IsRecognitionError(m, close, Threshold(None))
    ensures IsRecognitionError(m, far, Threshold(None))
  {
    var (t1, y1) := ExtractedTitleYear(close, m.path);
    MatrixTitlesClose(m.title, t1);
    assert y1 <= m.premiered;
    var (t2, _) := ExtractedTitleYear(far, m.path);
    DistanceBounds(m.title, t2);
  }

  // ---------------------------------------------------------------- duplicates

  /** The year the pattern extracts from a path, if any. */
  function YearOf(extract: string -> Option<Captures>, path: string): Option<string>
  {
    match extract(path)
    case None => None
    case Some(c) => c.year
  }

  /** The extracted years of a group of movies, in the group's order. */
  function Years(extract: string -> Option<Captures>, group: seq<Movie>): (ys: seq<Option<string>>)
    ensures |ys| == |group|
    ensures forall i :: 0 <= i < |group| ==> ys[i] == YearOf(extract, group[i].path)
  {
    if group == [] then [] else [YearOf(extract, group[0].path)] + Years(extract, group[1..])
  }

  /** The distinct years present; a missing year counts for nothing. */
  function DistinctYears(ys: seq<Option<string>>): set<string>
  {
    set i | 0 <= i < |ys| && ys[i].Some? :: ys[i].value
  }

  /** A title group is reported when it has more than one movie and its number of distinct present years differs from its size. */
  predicate IsDuplicateGroup(ys: seq<Option<string>>)
  {
    |ys| != 1 && |ys| != |DistinctYears(ys)|
  }

  /** Every movie of the group has a year and no two share one. */
  predicate AllYearsDistinct(ys: seq<Option<string>>)
  {
    && (forall i :: 0 <= i < |ys| ==> ys[i].Some?)
    && (forall i, j :: 0 <= i < j < |ys| ==> ys[i] != ys[j])
  }

  /** The distinct years of a group: those of its first movie and those of the rest. */
  lemma DistinctYearsCons(ys: seq<Option<string>>)
    requires ys != []
    ensures DistinctYears(ys) == (if ys[0].Some? then {ys[0].value} else {}) + DistinctYears(ys[1..])
  {
    var rest := ys[1..];
    forall y | y in DistinctYears(ys) ensures y in (if ys[0].Some? then {ys[0].value} else {}) + DistinctYears(rest) {
      var i :| 0 <= i < |ys| && ys[i].Some? && ys[i].value == y;
      if i > 0 {
        assert rest[i - 1] == ys[i];
      }
    }
    forall y | y in DistinctYears(rest) ensures y in DistinctYears(ys) {
      var i :| 0 <= i < |rest| && rest[i].Some? && rest[i].value == y;
      assert ys[i + 1] == rest[i];
    }
  }

  /** All years are present and distinct exactly when the first is present, absent from the rest, and the rest are so too. */
  lemma AllYearsDistinctCons(ys: seq<Option<string>>)
    requires ys != []
    ensures AllYearsDistinct(ys) <==>
      ys[0].Some? && ys[0].value !in DistinctYears(ys[1..]) && AllYearsDistinct(ys[1..])
  {
    var rest := ys[1..];
    assert forall i :: 0 <= i < |rest| ==> rest[i] == ys[i + 1];
    if AllYearsDistinct(ys) {
      forall i | 0 <= i < |rest| && rest[i].Some? ensures rest[i].value != ys[0].value {
        assert ys[0] != ys[i + 1];
      }
    }
    if ys[0].Some? && ys[0].value !in DistinctYears(rest) && AllYearsDistinct(rest) {
      forall i, j | 0 <= i < j < |ys| ensures ys[i] != ys[j] {
        if i == 0 {
          assert rest[j - 1].value in DistinctYears(rest);
        }
      }
      assert forall i :: 0 <= i < |ys| ==> ys[i].Some? by {
        forall i | 0 < i < |ys| ensures ys[i].Some? { assert ys[i] == rest[i - 1]; }
      }
    }
  }

  /** There are never more distinct years than movies, and as many exactly when all years are present and different. */
  lemma {:induction false} DistinctYearsCount(ys: seq<Option<string>>)
    ensures |DistinctYears(ys)| <= |ys|
    ensures |DistinctYears(ys)| == |ys| <==> AllYearsDistinct(ys)
  {
    if ys != [] {
      DistinctYearsCount(ys[1..]);
      DistinctYearsCons(ys);
      AllYearsDistinctCons(ys);
    }
  }

  /** A group is reported exactly when it has several movies and they do not all carry different years. */
  lemma DuplicateGroupIff(ys: seq<Option<string>>)
    ensures IsDuplicateGroup(ys) <==> |ys| > 1 && !AllYearsDistinct(ys)
  {
    DistinctYearsCount(ys);
  }

  /** Two or more movies of one title where one has no year are always reported. */
  lemma MissingYearReported(ys: seq<Option<string>>, k: nat)
    requires |ys| > 1 && k < |ys| && ys[k].None?
    ensures IsDuplicateGroup(ys)
  {
    DuplicateGroupIff(ys);
  }

  /** Two "Dune" files of 1984 and 2021 are different films; two of 2021 are duplicates. */
  lemma DuneExample()
    ensures !IsDuplicateGroup([Some("1984"), Some("2021")])
    ensures IsDuplicateGroup([Some("2021"), Some("2021")])
  {
    DuplicateGroupIff([Some("1984"), Some("2021")]);
    var twice := [Some("2021"), Some("2021")];
    DuplicateGroupIff(twice);
    assert twice[0] == twice[1];
  }

  /** The titles of a list, each once, in order of first appearance: the keys of the grouping map. */
  function Titles(l: seq<Movie>): (ts: seq<string>)
    ensures forall t :: t in ts <==> exists i :: 0 <= i < |l| && l[i].title == t
    ensures forall i, j :: 0 <= i < j < |ts| ==> ts[i] != ts[j]
  {
    if l == [] then []
    else
      var init := l[..|l| - 1];
      var ts := Titles(init);
      assert forall i :: 0 <= i < |init| ==> init[i] == l[i];
      if l[|l| - 1].title in ts then ts else ts + [l[|l| - 1].title]
  }

  /** The movies titled `t` form a reported group. */
  predicate IsDuplicateTitle(l: seq<Movie>, extract: string -> Option<Captures>, t: string)
  {
    IsDuplicateGroup(Years(extract, WithTitle(l, t)))
  }

  /** The flattening of the reported groups, taken in the order of `ts`. */
  function Gather(l: seq<Movie>, extract: string -> Option<Captures>, ts: seq<string>): seq<Movie>
  {
    if ts == [] then []
    else (if IsDuplicateTitle(l, extract, ts[0]) then WithTitle(l, ts[0]) else []) + Gather(l, extract, ts[1..])
  }

  /** A title group holds every movie of that title as often as the list does. */
  lemma {:induction false} WithTitleCount(l: seq<Movie>, t: string, m: Movie)
    ensures multiset(WithTitle(l, t))[m] == if m.title == t then multiset(l)[m] else 0
  {
    if l != [] {
      var init := l[..|l| - 1];
      WithTitleCount(init, t, m);
      assert l == init + [l[|l| - 1]];
    }
  }

  lemma {:induction false} GatherCount(l: seq<Movie>, extract: string -> Option<Captures>, ts: seq<string>, m: Movie)
    requires forall i, j :: 0 <= i < j < |ts| ==> ts[i] != ts[j]
    ensures multiset(Gather(l, extract, ts))[m] ==
      if m.title in ts && IsDuplicateTitle(l, extract, m.title) then multiset(l)[m] else 0
  {
    if ts != [] {
      GatherCount(l, extract, ts[1..], m);
      WithTitleCount(l, ts[0], m);
      assert ts == [ts[0]] + ts[1..];
      assert ts[0] !in ts[1..];
    }
  }

  /**
   * `get_duplicate_movies_list`: movies are grouped by title and every movie
   * of a reported group is returned, as often as it is in the catalog. The
   * source walks its grouping map in hash order; here the groups come in
   * order of first appearance, and the contract holds for any order.
   */
  function DuplicateMovies(catalog: seq<Movie>, extract: string -> Option<Captures>): (r: seq<Movie>)
    ensures forall m :: multiset(r)[m] ==
                          if IsDuplicateTitle(catalog, extract, m.title) then multiset(catalog)[m] else 0
    ensures forall m :: m in r <==> m in catalog && IsDuplicateTitle(catalog, extract, m.title)
  {
    var ts := Titles(catalog);
    forall m ensures multiset(Gather(catalog, extract, ts))[m] ==
      if IsDuplicateTitle(catalog, extract, m.title) then multiset(catalog)[m] else 0
    {
      GatherCount(catalog, extract, ts, m);
      if m in catalog {
        var i :| 0 <= i < |catalog| && catalog[i] == m;
        assert m.title in ts;
      }
    }
    Gather(catalog, extract, ts)
  }

  /** A movie alone with its title is never reported. */
  lemma LoneTitleNotDuplicate(l: seq<Movie>, extract: string -> Option<Captures>, t: string)
    requires |WithTitle(l, t)| == 1
    ensures !IsDuplicateTitle(l, extract, t)
  {
  }
}
