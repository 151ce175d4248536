# analyze.py, modelled in Dafny

`analyze.py` ranks the most downloaded PyPI packages by downloads per GitHub star.
It does the following, in order:

- It loads the list of top packages into an insertion-ordered dictionary `pkgs`.
- For each package it fetches the PyPI metadata and turns the home page into an
  `owner/repo` slug. For that slug it fetches the GitHub star count.
- A successful package gains `stars` and `dl_to_s_ratio`, and `pkgs_done` increments.
  Every other package is queued in `to_del` or left alone.
- The loop stops once `pkgs_done` reaches `PKGS_TO_ANALYZE`.
- It then deletes the queued names, takes the first `PKGS_TO_ANALYZE` entries and
  sorts them by descending ratio.

This project models that logic. The network answers become parameters:

- `pypi: string -> Option<Url>` gives each package's home page, with `None` for JSON null.
- `github: string -> GitHubReply` gives the reply for each slug: `NotFound` (a 404),
  `Failed` (any exception in the request or the JSON lookup) or `Found(stars)`.

The modules are:

- `Ratios` — the ratio as the exact rational `downloads / stars`. Ratios are compared
  by cross-multiplication; lemmas tie this to real division.
- `HomePage` — the home page to slug parser:
  - the null replacement;
  - the `www.` host test;
  - `re.fullmatch(r"/(.*?)/([A-Za-z0-9_.-]+)(?:/.*)?", path)`, stated as the index
    predicate `MatchAt` and searched with the lazy owner group;
  - the single `.git` removal.
- `Packages` — the ordered dictionary. It is a class `PackageTable` with a key order
  `keys` and a map `entries`, whose methods `Put`, `Annotate` and `Delete` update it in
  place. It also holds the sequence helpers `Without` (deletion) and `Take` (`islice`).
- `Ranking` — `sorted(..., key=lambda row: -row["dl_to_s_ratio"])`, written as a stable
  insertion sort by descending ratio.
- `MainLoop` — the main loop as a specification:
  - `Visit` is the outcome for one package: annotated, queued or untouched;
  - `Step` is its effect on the loop variables (`pkgs`, `to_del`, `pkgs_done`);
  - `Scan` is the whole loop, including the `break`.
- `Analyze` — the script:
  - `Run` chains the imperative methods `Load`, `MainLoopRun` (which calls
    `VisitPackage` per package), `DeleteQueued` and the final slice and sort;
  - `Run` is proved equal to the functional `Pipeline`;
  - the pipeline lemmas state what the inserted rows are.

The model follows the code as written in one respect worth noting. A GitHub home page
whose path does not match the pattern has no `else` branch. Such a package stays in
`pkgs` with only `downloads`. If it falls inside the slice, the sort key raises
`KeyError`; the model returns `MissingRatio` for that case. `UnmatchedPathRaises`
exhibits it. `NoUnmatchedPathMeansRanked` shows that without such packages the script
ranks exactly the annotated ones.

## Model

| member | source | states |
|---|---|---|
| HomePage.ParseHomePage | analyze.py:41-43 | a JSON-null home page is parsed as "", with an empty network location and path; otherwise the given parts are used |
| HomePage.GitHubHostIff | analyze.py:44 | the host test passes exactly for "github.com" and "www.github.com": only one leading "www." is removed |
| HomePage.RepoGroupUnique | analyze.py:46 | for a given owner end, the repository group is forced to be the whole run of `[A-Za-z0-9_.-]` characters |
| HomePage.SearchFromSpec | analyze.py:46 | trying owner ends from i upward finds a full match if one exists with owner end at least i, and the one with the smallest owner end |
| HomePage.FullMatchSpec | analyze.py:46-47 | the match is None exactly when no split of the path matches; otherwise its groups match and group 1 is the shortest possible (the lazy `.*?`) |
| HomePage.OwnerAndRepoOfMatch | analyze.py:46-48 | for a match with the shortest owner, the slug is owner + "/" + repository group without one trailing ".git" |
| HomePage.OwnerAndRepoNone | analyze.py:46-47 | no slug exactly when the path does not fully match the pattern |
| HomePage.OwnerAndRepoShape | analyze.py:46-48 | every slug comes from a full match: a non-empty repository group of allowed characters, an owner without newlines |
| HomePage.RemoveGitSuffixOnce | analyze.py:48 | `removesuffix(".git")` strips one ".git": "x.git" gives "x", "x.git.git" gives "x.git" |
| HomePage.ExampleOrdinary | analyze.py:46-48 | "/psf/requests" gives "psf/requests" |
| HomePage.ExampleEmptyOwner | analyze.py:46-48 | "//x" matches with an empty owner and gives "/x" |
| HomePage.ExampleOwnerWithSlash | analyze.py:46-48 | "/a/b!/c" gives "a/b!/c": the lazy owner grows past a slash when the rest fails |
| HomePage.ExampleOwnerOnly | analyze.py:46-47 | an organisation path "/psf" does not match |
| MainLoop.NullHomePageQueued | analyze.py:41-44 | a package whose home page is JSON null fails the host test and is queued for deletion |
| MainLoop.QueuedCases | analyze.py:44-59 | a package is queued exactly for a foreign host, a 404, a failed request or lookup, or zero stars (the division raises) |
| MainLoop.UntouchedCases | analyze.py:44-47 | a package is left untouched exactly when the host is GitHub's and the path does not match |
| MainLoop.AnnotatedCases | analyze.py:58-61 | a success records the positive star count the lookup returned and the ratio downloads / stars |
| MainLoop.Scan | analyze.py:33-65 | the loop keeps the dictionary's key set, only appends to to_del and never decreases pkgs_done |
| MainLoop.ScanEffects | analyze.py:35-76 | downloads never change; an entry changes only by gaining the stats its own visit produced; names added to to_del are visited names whose visit queued them |
| MainLoop.ScanSplits | analyze.py:35-65 | until the limit is reached, the loop over k1 + k2 is the loop over k1 followed by the loop over k2 |
| MainLoop.ScanStopsAtLimit | analyze.py:63-65 | once pkgs_done reaches the limit after a success, the remaining packages are not visited |
| MainLoop.ScanKeepsOtherNames | analyze.py:35-76 | a name outside the visited keys keeps its entry and its to_del membership |
| MainLoop.ReachedKeyFate | analyze.py:35-76 | a visited package that is queued ends in to_del; an untouched one keeps its entry with only downloads and is not queued; an annotated one gains exactly its stats and is not queued |
| MainLoop.UnreachedKeysUnchanged | analyze.py:63-65 | packages after the break keep their entry and are not queued |
| MainLoop.ScanQueuesOnce | analyze.py:54-76 | to_del holds no name twice and only names of visited packages |
| MainLoop.ScanCountsSuccesses | analyze.py:58-65 | pkgs_done never exceeds the limit and equals the number of packages that gained stats |
| MainLoop.WithStatsKeepsOrder | analyze.py:33-85 | the annotated packages, listed as WithStats does, are in dictionary order |
| MainLoop.SelectedAreAnnotated | analyze.py:33-85 | if no GitHub path fails the pattern, the first limit survivors of deletion are exactly the annotated packages, in dictionary order |
| Packages.Without | analyze.py:78-79 | deletion keeps exactly the names not queued, without repetitions |
| Packages.WithoutKeepsOrder | analyze.py:78-79 | the names deletion keeps stay in their dictionary order |
| Packages.WithoutEmpty | analyze.py:78-79 | with nothing queued, deletion changes nothing |
| Packages.InOrderCons | analyze.py:78-79 | a list in the order of the later keys stays in dictionary order, with or without the first key in front |
| Packages.TakeKeepsOrder | analyze.py:85 | a slice of a list in dictionary order is in dictionary order |
| Packages.WithoutOneMore | analyze.py:78-79 | deleting queued names one at a time equals deleting them all |
| Packages.DeleteOneMore | analyze.py:78-79 | each round of the deletion loop finds its name still present and removes it from keys and entries |
| Packages.Take | analyze.py:85 | `islice(s, n)` is the first min(n, len(s)) elements of s |
| Packages.PackageTable.Put | analyze.py:26-31 | a new key is appended; a repeated key keeps its position and takes the new value |
| Packages.PackageTable.Annotate | analyze.py:60-61 | only the package's entry changes, gaining stars and ratio; the key order is unchanged |
| Packages.PackageTable.Delete | analyze.py:79 | `del pkgs[pkg]` removes the key from the order and the map |
| Ratios.AtMostIsQuotientOrder | analyze.py:84-87 | comparing by cross-multiplication orders ratios as `downloads / stars` does |
| Ratios.SameIsQuotientEquality | analyze.py:84-87 | two ratios tie exactly when their quotients are equal |
| Ratios.AtMostTransitive | analyze.py:84-87 | the sort order on ratios is transitive |
| Ratios.AboveIsNotSame | analyze.py:84-87 | a ratio strictly above one equal to q is not equal to q |
| Ranking.InsertPermutes | analyze.py:84-87 | inserting a row adds exactly that row |
| Ranking.InsertDescending | analyze.py:84-87 | inserting into a descending list keeps it descending |
| Ranking.InsertStable | analyze.py:84-87 | an inserted row goes before existing rows with an equal ratio |
| Ranking.SortPermutes | analyze.py:84-87 | the sorted rows are a permutation of the rows |
| Ranking.SortedRowsAreProper | analyze.py:84-87 | sorting keeps every ratio's denominator positive |
| Ranking.SortDescending | analyze.py:84-87 | the sorted rows are in non-increasing ratio order |
| Ranking.SortStable | analyze.py:84-87 | rows with equal ratios keep their relative order (`sorted` is stable) |
| Analyze.Projects | analyze.py:28-30 | the project names of the input rows, in order |
| Analyze.LoadKeys | analyze.py:25-31 | the dictionary's keys are the distinct input projects, each once |
| Analyze.LoadEntries | analyze.py:25-31 | the dictionary holds every input project, with downloads only |
| Analyze.FirstIndex | analyze.py:26-31 | the first input row naming a project |
| Analyze.LastIndex | analyze.py:26-31 | the last input row naming a project |
| Analyze.LoadKeepsFirstPosition | analyze.py:26-31 | dictionary order is the order of each project's first row |
| Analyze.LoadKeepsLastValue | analyze.py:26-31 | a repeated project holds the download count of its last row |
| Analyze.LoadKeysCount | analyze.py:26-31 | the dictionary has as many keys as there are distinct projects |
| Analyze.OutputRows | analyze.py:85 | each chosen entry merged with its name, in slice order; None exactly when a chosen entry has no ratio |
| Analyze.RankSortsRows | analyze.py:84-87 | the sort key raises exactly when a chosen entry lacks a ratio; otherwise the output is a permutation of the chosen rows, descending, with ties in slice order |
| Analyze.ChosenSurvive | analyze.py:78-85 | a chosen name was not deleted and keeps the entry the main loop left |
| Analyze.ChosenEntry | analyze.py:25-85 | a chosen entry has its project's last download count, and any stats it has come from its own successful visit |
| Analyze.LoadOrderIsInputOrder | analyze.py:26-31 | a key listed before another was first seen in an earlier input row |
| Analyze.ChosenInInputOrder | analyze.py:78-85 | the chosen names are in dictionary order, which is the order of their first input rows |
| Analyze.ChosenBound | analyze.py:78-85 | at most PKGS_TO_ANALYZE names are chosen, no more than the distinct projects, each once and none queued |
| Analyze.RankedRowsAreAnnotated | analyze.py:25-87 | every inserted row is an annotated package: at most the limit, descending, with its last download count, positive stars from the lookup and ratio downloads / stars |
| Analyze.NoUnmatchedPathMeansRanked | analyze.py:33-87 | if no GitHub path fails the pattern, the slice is exactly the annotated packages and pkgs_done rows are inserted |
| Analyze.UnmatchedPathRaises | analyze.py:84-87 | a sliced package with an unmatched GitHub path (here "/psf") makes the sort raise |
| Analyze.Load | analyze.py:25-31 | building `pkgs` row by row gives LoadKeys and LoadEntries |
| Analyze.VisitPackage | analyze.py:39-76 | one loop body updates pkgs, to_del and pkgs_done as Step does; it reports whether a success occurred; to_del grows by this package or not at all |
| Analyze.MainLoopRun | analyze.py:33-76 | the loop with its break ends in Scan's state; to_del is free of repetitions and holds dictionary keys |
| Analyze.DeleteQueued | analyze.py:78-79 | afterwards the key order is the old one without the queued names, and the map no longer holds them |
| Analyze.Run | analyze.py:25-87 | the script's rows are Pipeline's: load, loop, delete, slice and sort |

## Left out

- HTTP requests to PyPI and GitHub (analyze.py:39-40, 50-53). Their answers are the
  parameters `pypi` and `github`. One slug always gets the same answer.
- A failing PyPI request or a missing "info"/"home_page" key (analyze.py:39-40) is
  outside the `try` and would stop the script. The model assumes every PyPI answer
  carries a home page or JSON null.
- `urlparse` (analyze.py:43). The network location and path arrive already split.
- Reading the token file (analyze.py:20). As written, `str` has no `.trim()` method, so
  that line raises before anything else runs.
- `time.sleep`, every `print` and the traceback dump in the handler (analyze.py:36-38,
  55, 62, 67-72, 75).
- Analyze.VisitPackage: treats every `Failed` reply as queued. As written, the handler
  prints `gh_r.content` (analyze.py:72). Suppose a GitHub request raises before any GitHub
  request of the run has returned. This can happen at any package, because earlier ones
  may have non-GitHub home pages. Then `gh_r` is unbound, the handler raises `NameError`
  and the script stops. After the first returned response, a request that raises prints
  the previous package's stale response, and the package is still queued, as modelled.
- Floating point (analyze.py:59, 86). The ratio is the exact rational downloads / stars.
  Ties and order follow exact values, so two ratios that round to the same float are not
  counted as tied.
- JSON parsing of the input file (analyze.py:25-31). The input is the list of
  (project, download_count) rows, with a natural-number count.
- The SQLite output (analyze.py:81-83, 88-93). The model ends with the sorted rows that
  would be inserted.
- PKGS_TO_ANALYZE is 1000 in `Run`. The specification functions and lemmas take the
  limit as a parameter.
