/**
 * The default filename pattern of lib.rs (MOVIE_FILE):
 *
 *   ^<movies_directory>(?P<title>.+?)( (?P<year>[0-9]{4})\.[a-z0-9]{3,4}$|\.[a-z0-9]{3,4}$)
 *
 * written out as the match a backtracking regular-expression engine finds:
 * after the directory prefix, the title is the shortest non-empty run of
 * characters other than a line break after which one of the two endings
 * matches through to the end of the path, the ending with a year being tried
 * first. The directory is taken literally: a regular-expression
 * metacharacter in it is not given its special meaning here.
 */
module MovieFile {
  import opened Wrappers

  /** What a filename pattern captured: its `title` and `year` groups, each possibly absent. */
  datatype Captures = Captures(title: Option<string>, year: Option<string>)

  predicate IsDigit(c: char)
  {
    '0' <= c <= '9'
  }

  predicate IsExtensionChar(c: char)
  {
    'a' <= c <= 'z' || '0' <= c <= '9'
  }

  /** `\.[a-z0-9]{3,4}$` over all of `s`. */
  predicate IsExtension(s: string)
  {
    (|s| == 4 || |s| == 5) && s[0] == '.' && forall i :: 1 <= i < |s| ==> IsExtensionChar(s[i])
  }

  /** ` [0-9]{4}\.[a-z0-9]{3,4}$` over all of `s`. */
  predicate IsYearAndExtension(s: string)
  {
    |s| >= 5 && s[0] == ' ' && (forall i :: 1 <= i < 5 ==> IsDigit(s[i])) && IsExtension(s[5..])
  }

  /** One of the two alternatives that may follow the title. */
  predicate IsEnding(s: string)
  {
    IsYearAndExtension(s) || IsExtension(s)
  }

  /**
   * The title group may end at index `k` of `path`: the path starts with the
   * directory, the title `path[|dir|..k]` is non-empty and has no line break
   * (which `.` does not match), and an ending follows it.
   */
  predicate ValidSplit(dir: string, path: string, k: int)
  {
    && dir <= path
    && |dir| < k <= |path|
    && (forall i :: |dir| <= i < k ==> path[i] != '\n')
    && IsEnding(path[k..])
  }

  /** The lazy `.+?`: try title ends k, k + 1, ... until an ending matches or a line break is reached. */
  function FirstSplit(dir: string, path: string, k: nat): (r: Option<nat>)
    requires dir <= path && |dir| < k <= |path| + 1
    requires forall i :: |dir| <= i < k - 1 ==> path[i] != '\n'
    ensures r.Some? ==> k <= r.value && ValidSplit(dir, path, r.value)
    ensures r.Some? ==> forall j :: k <= j < r.value ==> !ValidSplit(dir, path, j)
    ensures r.None? ==> forall j :: k <= j ==> !ValidSplit(dir, path, j)
    decreases |path| + 1 - k
  {
    if k > |path| || path[k - 1] == '\n' then None
    else if IsEnding(path[k..]) then Some(k)
    else FirstSplit(dir, path, k + 1)
  }

  /** The path ends with a dot and three or four lower-case letters or digits. */
  predicate EndsWithExtension(path: string)
  {
    (|path| >= 4 && IsExtension(path[|path| - 4..])) || (|path| >= 5 && IsExtension(path[|path| - 5..]))
  }

  /**
   * The captures of the default pattern on `path`, or `None` when it does not
   * match. A match has a non-empty title, the shortest possible; a year, when
   * captured, is four digits right after a space that follows the title; and
   * the path ends with an extension.
   */
  function DefaultCaptures(dir: string, path: string): (r: Option<Captures>)
    ensures r.None? <==> forall k :: !ValidSplit(dir, path, k)
    ensures r.Some? ==> r.value.title.Some? && EndsWithExtension(path)
    ensures r.Some? ==>
      var t := r.value.title.value;
      && |t| > 0
      && dir + t <= path
      && ValidSplit(dir, path, |dir| + |t|)
      && (forall j :: j < |dir| + |t| ==> !ValidSplit(dir, path, j))
    ensures r.Some? && r.value.year.Some? ==>
      var t, y := r.value.title.value, r.value.year.value;
      && |y| == 4
      && (forall i :: 0 <= i < 4 ==> IsDigit(y[i]))
      && |dir| + |t| + 5 <= |path|
      && path[|dir| + |t|] == ' '
      && path[|dir| + |t| + 1..|dir| + |t| + 5] == y
    ensures r.Some? && r.value.year.None? ==> IsExtension(path[|dir| + |r.value.title.value|..])
  {
    if dir <= path && |dir| < |path| then
      match FirstSplit(dir, path, |dir| + 1)
      case None => None
      case Some(k) =>
        assert path[..k] == dir + path[|dir|..k];
        Some(Captures(
          Some(path[|dir|..k]),
          if IsYearAndExtension(path[k..]) then Some(path[k + 1..k + 5]) else None))
    else None
  }

  /** The default pattern for a movies directory, as an extractor of captures from a path. */
  function DefaultExtractor(dir: string): (extract: string -> Option<Captures>)
    ensures forall path :: extract(path) == DefaultCaptures(dir, path)
  {
    path => DefaultCaptures(dir, path)
  }

  /** " 2009.mkv" is an ending with a year. */
  lemma YearEnding(s: string)
    requires s == " 2009.mkv"
    ensures IsYearAndExtension(s)
  {
    assert s[5..] == ".mkv";
  }

  /** A path with a year: "Up 2009.mkv" under "/movies/" gives title "Up" and year "2009". */
  lemma UpWithYear(dir: string, path: string)
    requires dir == "/movies/" && path == "/movies/Up 2009.mkv"
    ensures DefaultCaptures(dir, path) == Some(Captures(Some("Up"), Some("2009")))
  {
    YearEnding(path[10..]);
    assert path[9..][0] == 'p';
    assert FirstSplit(dir, path, 10) == Some(10);
    assert FirstSplit(dir, path, 9) == Some(10);
    assert path[8..10] == ['U', 'p'] == "Up";
    assert path[11..15] == ['2', '0', '0', '9'] == "2009";
  }
}
