# kodi-helper, modelled in Dafny

kodi-helper is a small web service. It mirrors the movie library of a Kodi
media centre and reports problems in it:
- files on disk that Kodi does not know;
- movies whose title does not match their filename;
- titles present more than once.

This project models the service's core as values, functions and a few
imperative methods, and proves the properties that core promises.

What is modelled:

- **The movie list store** (`catalog.dfy`, module `Catalog`).
  - `movie_list_cleanup` keeps a movie's set name only when more than one movie of the batch belongs to that set.
  - `update_movie_list` replaces the stored list only when the fetch succeeded.
  - `get_movie_list` reads the list.
  - `set_movie_tags` rewrites the tags of every movie with a given id, then reports the remote outcome.
  - The store is a class whose one field is the list.
- **Movie ingestion** (`get_movies.dfy`, module `GetMovies`).
  - Each movie record from the JSON-RPC reply is mapped onto a `Movie`.
  - The resolution comes from the height of the first video stream.
  - An empty set string becomes "no set".
  - The list is then sorted by title with a stable sort, done as an in-place insertion sort on an array. It is proved equal to a functional insertion sort whose properties are proved: sorted, a permutation, stable.
- **The reconciliation analysers** (`errors.dfy`, module `Reconciliation`).
  - Missing files: an order-preserving filter.
  - Recognition errors: a Levenshtein distance against a threshold (default 3), plus a prefix test on the premiere date.
  - Duplicates: movies grouped by title, comparing the number of distinct extracted years with the group size.
  - `levenshtein.dfy` defines the edit distance recursively.
  - `movie_file.dfy` gives the default filename pattern of `src/lib.rs` a concrete meaning: shortest non-empty title, optional ` YYYY`, and a 3–4 character lower-case alphanumeric extension at the end.
  - `seqs.dfy` holds the generic filter and subsequence relation.
- **Remote-call plumbing** (`kodi_rpc.dfy`, `get_directory.dfy`, `get_info_booleans.dfy`, `scan_library.dfy`).
  - The JSON-RPC error text.
  - The success/error envelope.
  - Omission of an absent `params` member.
  - The endpoint URL.
  - Mapping directory entries to files.
  - Building the info-boolean map.
  - The scan-then-poll loop, as a `while` loop over the sequence of poll replies.
- **Handlers that sequence remote calls** (`api.dfy`, module `Api`).
  - Clean, then scan and wait, then refresh, with short-circuiting.
  - The movie-list refresh handler.
  - `refresh_movie`.

Each remote reply is a parameter of the member that receives it. The members
that call the server also return what they sent, so the order of effects can be
stated: `GetDirectory.GetDirectory`, `Reconciliation.GetUnrecognizedMovies`,
`GetMovies.GetAllMovies`, `Api.UpdateMovieList`, `Api.RefreshMovie`,
`InfoBooleans.GetInfoBoolean` and `Catalog.MovieStore.SetMovieTags` return
their request, while `ScanLibrary.ScanVideoLibraryAndWaitForDone` and
`Api.CleanAndScanKodiLibrary`, which make several calls, return the method
names in order.

`src/lib.rs` is an older version of the crate. Its `Movie` record lacks tags,
genres and cast, and its copies of the analysers predate `src/api/errors.rs`.
The model takes the record from `src/kodi_rpc/get_movies.rs` and the analysers
from `src/api/errors.rs`. From `src/lib.rs` it takes only `movie_list_cleanup`,
`update_movie_list` and the default filename pattern.

## Model

| member | source | states |
|---|---|---|
| Wrappers.Get | src/kodi_rpc/scan_library.rs:29-33 | map lookup: `Some` exactly for a present key, holding its value |
| KodiRpc.ErrorText | src/kodi_rpc/mod.rs:50-62 | the message comes first; with data it is followed by " when calling <method>: <data message>", without data by a single space |
| KodiRpc.RpcErrorText | src/kodi_rpc/mod.rs:50-62 | a remote error displays as its JSON-RPC error text, a transport failure as its description |
| KodiRpc.FromEnvelope | src/kodi_rpc/mod.rs:114-120 | a Success envelope gives `Ok` of its result, an Error envelope gives `Err` of its error, and nothing else |
| KodiRpc.EnvelopeRoundTrip | src/kodi_rpc/mod.rs:32-37 | no information is lost in the mapping: the envelope can be rebuilt from the result |
| KodiRpc.Receive | src/kodi_rpc/mod.rs:103-120 | the result is `Ok` iff the reply arrived and was a Success; a failed exchange becomes a transport error |
| KodiRpc.Keys | src/kodi_rpc/mod.rs:23-30 | the member names of a serialised object, in order |
| KodiRpc.Lookup | src/kodi_rpc/mod.rs:23-30 | a member is found iff its name is among the keys, and then it is a member of the object |
| KodiRpc.SerializeRequest | src/kodi_rpc/mod.rs:23-30 | a request serialises to an object with members jsonrpc, id, method, followed by params only when params are present |
| KodiRpc.ParamsMember | src/kodi_rpc/mod.rs:28-29 | the `params` member exists exactly when the request has parameters, and then holds their serialisation |
| KodiRpc.Endpoint | src/kodi_rpc/mod.rs:93 | the URL is the host followed directly by "jsonrpc", with no separator added |
| Catalog.SetCount | src/lib.rs:75-83 | how many movies of a list carry a given set name; never more than the list's length |
| Catalog.CountSets | src/lib.rs:79-83 | definition: the fold that adds 1 to the count of each movie's set name, starting from an accumulator |
| Catalog.CountSetsCounts | src/lib.rs:79-83 | the counting fold adds, for every set name, exactly the number of movies carrying it |
| Catalog.SharedSets | src/lib.rs:75-86 | a set name is kept iff more than one movie of the batch carries it |
| Catalog.KeepShared | src/lib.rs:92-95 | definition: a movie whose set is not shared loses its set; any other movie is unchanged |
| Catalog.Normalize | src/lib.rs:89-99 | same length and order; each movie is replaced by its normalised version |
| Catalog.MovieListCleanup | src/lib.rs:74-100 | same length and order; each movie is unchanged except its set; a set is kept iff more than one movie of the batch has it, and "no set" stays "no set" |
| Catalog.NormalizeCount | src/lib.rs:89-99 | after normalisation a kept set name has its old count and a dropped one has count 0 |
| Catalog.CleanupIdempotent | src/lib.rs:74-100 | cleaning an already cleaned list changes nothing |
| Catalog.WithTags | src/api/movie.rs:26-37 | same length and order; movies with the id get the new tags; nothing else changes, in them or in any other movie |
| Catalog.WithTagsAbsent | src/api/movie.rs:29-35 | when no movie has the id, the list is unchanged |
| Catalog.WithTagsCleanupCommute | src/api/movie.rs:26-37 | replacing tags and normalising set names commute |
| Catalog.SetCountOnlySets | src/lib.rs:75-83 | the set counts depend only on the movies' set names, position by position |
| Catalog.Acknowledge | src/api/movie.rs:41-45 | the answer is "ok" iff the remote call succeeded; otherwise it is a server error reading "error: " and the error text |
| Catalog.MovieStore.constructor | src/bin/web.rs:27-28 | the store starts with an empty list |
| Catalog.MovieStore.GetMovieList | src/api/movies.rs:16-19 | returns the stored list and changes nothing |
| Catalog.MovieStore.Refresh | src/lib.rs:103-114 | a successful fetch replaces the list by its cleanup; a failed one leaves the list as it was; the answer is the list afterwards |
| Catalog.MovieStore.SetMovieTags | src/api/movie.rs:19-46 | the list is updated locally first, and the update stays whatever the remote outcome; the SetMovieDetails request with id and tags is sent; the answer follows the remote outcome |
| GetMovies.MoviesRequest | src/kodi_rpc/get_movies.rs:103-125 | a JSON-RPC 2.0 call with id 1 to VideoLibrary.GetMovies, asking for the 13 properties art, title, runtime, streamdetails, file, premiered, rating, playcount, set, dateadded, tag, genre and cast, with limit end 10000 |
| GetMovies.MoviePropertiesDistinct | src/kodi_rpc/get_movies.rs:108-122 | 13 properties are asked for, each once |
| GetMovies.ResolutionOf | src/kodi_rpc/get_movies.rs:134-144 | below 600 is Sd, 600–720 Hd720p, 721–1080 Hd1080p, 1081–2160 Uhd4k, above 2160 Uhd8k (each an iff) |
| GetMovies.ResolutionMonotone | src/kodi_rpc/get_movies.rs:134-144 | a taller picture never gets a lower resolution class |
| GetMovies.StreamResolution | src/kodi_rpc/get_movies.rs:133 | no resolution iff there is no video stream; otherwise the first stream's height decides |
| GetMovies.SetFromString | src/kodi_rpc/get_movies.rs:164-167 | the empty string is "no set"; any other string is that set |
| GetMovies.SetStringRoundTrip | src/kodi_rpc/get_movies.rs:164-167 | set names round-trip through their string form, except a set literally named "" |
| GetMovies.ToCast | src/kodi_rpc/get_movies.rs:173-177 | a cast entry keeps its name, role and thumbnail |
| GetMovies.ToCastList | src/kodi_rpc/get_movies.rs:170-178 | the cast keeps its length and order |
| GetMovies.ToMovie | src/kodi_rpc/get_movies.rs:147-179 | every field of the movie is the renamed field of the record; poster through the encoder; resolution, set and cast as above |
| GetMovies.ConvertAll | src/kodi_rpc/get_movies.rs:129-181 | one movie per record, in the reply's order |
| GetMovies.Less | src/kodi_rpc/get_movies.rs:183 | definition: `String` comparison, lexicographic by character code, a proper prefix before its extensions |
| GetMovies.SortedByTitle | src/kodi_rpc/get_movies.rs:183 | definition: no movie has a title before that of a movie earlier in the list |
| GetMovies.LessIrreflexive | src/kodi_rpc/get_movies.rs:183 | no title sorts before itself |
| GetMovies.LessTransitive | src/kodi_rpc/get_movies.rs:183 | the title order is transitive |
| GetMovies.LessTotal | src/kodi_rpc/get_movies.rs:183 | any two different titles are ordered one way or the other |
| GetMovies.LessAsymmetric | src/kodi_rpc/get_movies.rs:183 | two titles are never each before the other |
| GetMovies.NotLessTransitive | src/kodi_rpc/get_movies.rs:183 | "not after" is transitive, which is what sortedness chains on |
| GetMovies.WithTitle | src/kodi_rpc/get_movies.rs:183 | the movies of a given title, in list order, are no more than the list |
| GetMovies.WithTitleSnoc | src/kodi_rpc/get_movies.rs:183 | appending a movie adds it to the movies of its own title only |
| GetMovies.Insert | src/kodi_rpc/get_movies.rs:183 | definition: the movie goes after the last movie whose title is not after its own |
| GetMovies.SortByTitle | src/kodi_rpc/get_movies.rs:183 | definition: insertion of each movie in turn into the sorted list of those before it; its meaning is given by `SortByTitleCorrect` |
| GetMovies.InsertPermutes | src/kodi_rpc/get_movies.rs:183 | inserting adds exactly the one movie |
| GetMovies.InsertSorted | src/kodi_rpc/get_movies.rs:183 | inserting into a sorted list keeps it sorted |
| GetMovies.InsertStable | src/kodi_rpc/get_movies.rs:183 | the inserted movie goes after every movie of equal title |
| GetMovies.SortByTitleCorrect | src/kodi_rpc/get_movies.rs:183 | the sort's output is sorted by title, is a permutation of its input, and keeps movies of equal title in input order (stable) |
| GetMovies.SortByTitleSorted | src/kodi_rpc/get_movies.rs:183 | the sort's output is sorted by title |
| GetMovies.SortByTitlePermutes | src/kodi_rpc/get_movies.rs:183 | the sort's output holds exactly the input movies, with their multiplicities |
| GetMovies.SortByTitleStable | src/kodi_rpc/get_movies.rs:183 | for every title, the movies of that title come out in input order |
| GetMovies.InsertShift | src/kodi_rpc/get_movies.rs:183 | one step of the insertion loop: an element greater than the key moves right |
| GetMovies.InsertStop | src/kodi_rpc/get_movies.rs:183 | the insertion loop stops at the first element not greater than the key |
| GetMovies.SwapStep | src/kodi_rpc/get_movies.rs:183 | swapping the moving movie with its left neighbour moves the gap one place left and changes nothing else |
| GetMovies.SwapDown | src/kodi_rpc/get_movies.rs:183 | the swap on the array does exactly what SwapStep describes |
| GetMovies.SortStep | src/kodi_rpc/get_movies.rs:183 | inserting element i into the sorted prefix of the array extends the sorted prefix by one, leaving the unsorted rest as it was |
| GetMovies.InsertInPlace | src/kodi_rpc/get_movies.rs:183 | the array becomes the old prefix before i with the old element i inserted at its place by title, followed by the untouched rest |
| GetMovies.SortInPlace | src/kodi_rpc/get_movies.rs:183 | the array ends up holding the stable title sort of its old contents |
| GetMovies.GetAllMovies | src/kodi_rpc/get_movies.rs:100-185 | sends `MoviesRequest`; a failed request gives its error and no movies; otherwise the converted movies sorted by title |
| GetDirectory.DirectoryRequest | src/kodi_rpc/get_directory.rs:34-41 | asks Files.GetDirectory for the given directory |
| GetDirectory.ToFile | src/kodi_rpc/get_directory.rs:49-52 | a file keeps the entry's path and label |
| GetDirectory.ToFiles | src/kodi_rpc/get_directory.rs:46-53 | same length and order; each file has the entry's path and label |
| GetDirectory.TypesDiscarded | src/kodi_rpc/get_directory.rs:11-18 | entries that differ only in filetype or type give the same files |
| GetDirectory.GetDirectory | src/kodi_rpc/get_directory.rs:27-56 | sends the listing request for the given path; an RPC error passes through with no files; otherwise the mapped entries |
| InfoBooleans.GetInfoBoolean | src/kodi_rpc/get_info_booleans.rs:19-45 | the XBMC.GetInfoBooleans request carries the names; an error passes through; the map's keys are exactly the scanning flag if it was asked for, and then it holds the reply's value |
| ScanLibrary.FirstStop | src/kodi_rpc/scan_library.rs:26-36 | the index of the first poll that ends the loop (an error or "not scanning"); every earlier poll continues it |
| ScanLibrary.FirstStopAt | src/kodi_rpc/scan_library.rs:26-36 | the loop ends at the first poll that stops it and no other |
| ScanLibrary.PollCount | src/kodi_rpc/scan_library.rs:26-36 | definition: the number of status polls made, up to and including the first that stops the loop, or all of them when none does |
| ScanLibrary.ScanResult | src/kodi_rpc/scan_library.rs:24-39 | definition: a failed start fails; otherwise the first stopping poll decides (an error fails, "not scanning" is done); with no stopping poll the scan is still running |
| ScanLibrary.ScanVideoLibraryAndWaitForDone | src/kodi_rpc/scan_library.rs:20-40 | a failed scan start makes no poll; otherwise polls are made up to and including the first that stops the loop; an error there is returned; "not scanning" is success |
| ScanLibrary.DoneMeansIdleObserved | src/kodi_rpc/scan_library.rs:26-39 | success means the start succeeded, the last poll said "not scanning", and every earlier poll said "scanning" |
| ScanLibrary.LaterPollsIgnored | src/kodi_rpc/scan_library.rs:26-36 | replies after the stopping poll change nothing |
| Seqs.Filter | src/api/errors.rs:27-38 | an element is kept iff it passes the test, each one as often as in the input |
| Seqs.FilterIsSubsequence | src/api/errors.rs:27-38 | a filter's output is a subsequence of its input: order is kept |
| Levenshtein.Distance | src/api/errors.rs:135 | definition: the Levenshtein distance of `strsim::levenshtein`, by the recurrence on first characters (deletion, insertion, substitution or match) |
| Levenshtein.Min3 | src/api/errors.rs:135 | the least of three numbers |
| Levenshtein.DistanceToEmpty | src/api/errors.rs:135 | the distance to the empty string is the length |
| Levenshtein.DistanceZeroIffEqual | src/api/errors.rs:135 | the distance is 0 iff the strings are equal |
| Levenshtein.DistanceSymmetric | src/api/errors.rs:135 | the distance is symmetric |
| Levenshtein.DistanceBounds | src/api/errors.rs:135 | the distance lies between the difference of the lengths and the longer length |
| Levenshtein.DistanceAfterDeletion | src/api/errors.rs:135 | deleting one character after a common prefix costs at most one edit |
| MovieFile.FirstSplit | src/lib.rs:24-27 | the lazy title match: finds the shortest title length from k on at which the rest of the path matches, or reports that none exists |
| MovieFile.DefaultCaptures | src/lib.rs:24-27 | matches iff some split works; the title is non-empty, follows the directory and is the shortest that works; a year is 4 digits after a space; the path ends in a 3–4 character extension |
| MovieFile.DefaultExtractor | src/lib.rs:24-27 | the default pattern as an extractor over all paths |
| MovieFile.UpWithYear | src/lib.rs:24-27 | "/movies/Up 2009.mkv" gives title "Up" and year "2009" |
| Reconciliation.Ignored | src/api/errors.rs:29-36 | a path is ignored iff some ignore pattern matches it |
| Reconciliation.KnownFiles | src/api/errors.rs:20-25 | the catalog's paths, in catalog order |
| Reconciliation.IsMissing | src/api/errors.rs:29-37 | definition: no ignore pattern matches the path and no catalog path equals it |
| Reconciliation.MissingFiles | src/api/errors.rs:27-38 | a file is reported iff no ignore pattern matches it and no catalog movie has its path; its multiplicity is kept and the order is the listing's |
| Reconciliation.GetUnrecognizedMovies | src/api/errors.rs:7-46 | lists the configured movies directory; a failed listing gives the error answer "err" and no list; otherwise the missing files of the listing |
| Reconciliation.Threshold | src/api/errors.rs:136 | the configured threshold, or 3 when none is set |
| Reconciliation.ExtractedTitleYear | src/api/errors.rs:116-131 | definition: the title and year captures of the path, each "" when its group did not take part, both "" when the pattern does not match |
| Reconciliation.IsRecognitionError | src/api/errors.rs:134-138 | definition: the title is more than the threshold in edit distance from the extracted title, or the premiere date does not start with the extracted year |
| Reconciliation.RecognitionErrors | src/api/errors.rs:102-144 | a movie is reported iff its title is more than the threshold away from the extracted title, or its premiere date does not start with the extracted year; order and multiplicity are kept |
| Reconciliation.UnmatchedPathFlaggedIffLongTitle | src/api/errors.rs:121-137 | when the pattern does not match, a movie is reported iff its title is longer than the threshold |
| Reconciliation.AgreeingFilenameNotFlagged | src/api/errors.rs:134-138 | a filename carrying the exact title and the premiere year is never reported |
| Reconciliation.UpRecognized | src/api/errors.rs:134-138 | under the default pattern of src/lib.rs, "Up" at "/movies/Up 2009.mkv" premiered in 2009 is not reported, whatever the threshold |
| Reconciliation.MatrixTitlesClose | src/api/errors.rs:135 | "The Matrix" and "Te Matrx" are at most 2 edits apart |
| Reconciliation.MatrixTailClose | src/api/errors.rs:135 | "e Matrix" and "e Matrx" are one deletion apart |
| Reconciliation.MatrixExample | src/api/errors.rs:134-138 | with the default threshold a two-typo filename is accepted and an unrelated one is reported |
| Reconciliation.YearOf | src/api/errors.rs:62-69 | definition: the year capture of the path, none when the pattern does not match or the group did not take part |
| Reconciliation.Years | src/api/errors.rs:62-70 | one extracted year per movie of the group, in order |
| Reconciliation.DistinctYears | src/api/errors.rs:84-92 | definition: the set of the present years of a group |
| Reconciliation.IsDuplicateGroup | src/api/errors.rs:81-93 | definition: the group has other than one movie and its count of distinct present years differs from its size |
| Reconciliation.DistinctYearsCons | src/api/errors.rs:84-92 | the distinct years of a group are the first movie's year, if present, together with those of the rest |
| Reconciliation.AllYearsDistinctCons | src/api/errors.rs:84-92 | all years present and different iff the first is present, not among the rest's years, and the rest are all present and different |
| Reconciliation.DistinctYearsCount | src/api/errors.rs:84-92 | the number of distinct present years is at most the group size, and equal to it iff every year is present and all differ |
| Reconciliation.DuplicateGroupIff | src/api/errors.rs:81-93 | a group is reported iff it has more than one movie and its years are not all present and distinct |
| Reconciliation.MissingYearReported | src/api/errors.rs:85-92 | a group of two or more with a missing year is always reported |
| Reconciliation.DuneExample | src/api/errors.rs:81-93 | two films with one title and different years are not reported; the same year twice is |
| Reconciliation.Titles | src/api/errors.rs:71-79 | the grouping keys: every title of the list, once each |
| Reconciliation.WithTitleCount | src/api/errors.rs:71-79 | a title group holds every movie of that title as often as the list does |
| Reconciliation.GatherCount | src/api/errors.rs:80-96 | flattening the reported groups yields each movie as often as it occurs, when its group is reported |
| Reconciliation.DuplicateMovies | src/api/errors.rs:48-100 | as a multiset, the output is exactly the movies whose title group is reported, each as often as in the catalog |
| Reconciliation.LoneTitleNotDuplicate | src/api/errors.rs:83 | a title carried by one movie is never reported |
| Api.RefreshedCatalogSorted | src/lib.rs:89-99 | normalising set names keeps a title-sorted list sorted |
| Api.UpdateMovieList | src/api/movies.rs:7-13 | sends `MoviesRequest`; a successful fetch stores the cleanup of the sorted, converted movies, and the list is then sorted by title; a failure leaves the list; the answer is the stored list |
| Api.CleanAndScanKodiLibrary | src/api/movies.rs:22-34 | a failed clean answers "err" and calls nothing else; a failed scan answers "err" and does not refresh; the list is fetched and refreshed only after both succeed; the methods called are listed in order |
| Api.RefreshMovie | src/api/movie.rs:7-16 | sends VideoLibrary.RefreshMovie with the id, touches no list, answers `HttpOk("ok")` when the call succeeded and "error: " with the error text when it failed |

## Left out

- HTTP transport, JSON encoding and decoding, and serde's field strictness. Every reply is a parameter: a `Result` for success or failure, an envelope where its shape matters.
- The actix web layer: routing, static files and response construction. A response is `HttpOk(body)` or `InternalServerError(reason)`.
- The read-write lock around the shared list, and races between concurrent refreshes. The store is a single-threaded object.
- The 30-minute refresh timer, the `select` loop of the server binary, configuration loading, tracing, and the `config` handler.
- The regular-expression engine. Ignore patterns are matched by an abstract `isMatch`. The configured movie pattern is an abstract extractor, with the default pattern of `src/lib.rs` given concretely in `MovieFile`.
- MovieFile.DefaultCaptures: the movies directory is compared literally, so regular-expression metacharacters in it are not modelled.
- The load-time validation of the patterns, a library call.
- The 5-second sleep between status polls. Only the order of calls and replies is modelled.
- ScanLibrary.ScanVideoLibraryAndWaitForDone: the source polls forever while the server keeps reporting a scan. The model reads a finite sequence of replies and answers `StillScanning` when they run out. `Api.CleanAndScanKodiLibrary` then answers `None`, a handler still waiting.
- Floating-point values (`rating`, `aspect`) are carried as uninterpreted 32-bit patterns.
- The percent-encoding of poster URLs is a foreign crate call. It is the `encode` parameter.
- The thin one-request wrappers `refresh_movie.rs`, `set_movie_details.rs` and `clean_video_library.rs` are modelled only as the request each one sends, or as its reply passed in.
- Reconciliation.DuplicateMovies: the source emits title groups in hash-map order, which is unspecified. The model emits them in order of first appearance, and its contract is stated as a multiset, so it holds for any group order.
