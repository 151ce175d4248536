/**
 * The script analyze.py as a whole: load the list of top packages into an ordered
 * dictionary, run the main loop, delete the queued names, take the first
 * PKGS_TO_ANALYZE entries and sort them by descending ratio.
 */
module Analyze {
  import opened Wrappers
  import opened Ratios
  import opened HomePage
  import opened Packages
  import opened Ranking
  import opened MainLoop

  const PkgsToAnalyze: nat := 1000

  /** One element of the "rows" list of top_pypi_pkgs.json. */
  datatype TopPackage = TopPackage(project: string, downloadCount: nat)

  /** The sorted rows to insert, or the KeyError raised by the sort key when a chosen entry has no ratio. */
  datatype Report = Ranked(rows: seq<OutputRow>) | MissingRatio

  function Projects(input: seq<TopPackage>): (r: seq<string>)
    ensures |r| == |input| && forall i :: 0 <= i < |input| ==> r[i] == input[i].project
  {
    seq(|input|, i requires 0 <= i < |input| => input[i].project)
  }

  lemma ProjectsOfPrefix(input: seq<TopPackage>)
    requires input != []
    ensures Projects(input) == Projects(input[..|input| - 1]) + [input[|input| - 1].project]
  {
  }

  lemma ProjectsOfSuffix(input: seq<TopPackage>)
    requires input != []
    ensures Projects(input) == [input[0].project] + Projects(input[1..])
  {
  }

  /** The keys of the dictionary comprehension (lines 26-31), in insertion order. */
  function LoadKeys(input: seq<TopPackage>): (keys: seq<string>)
    ensures Distinct(keys)
    ensures forall x :: x in keys <==> x in Projects(input)
    ensures |keys| <= |input|
  {
    if input == [] then []
    else
      var keys := LoadKeys(input[..|input| - 1]);
      var p := input[|input| - 1].project;
      ProjectsOfPrefix(input);
      if p in keys then keys else keys + [p]
  }

  /** The values of the dictionary comprehension: {"downloads": download_count}. */
  function LoadEntries(input: seq<TopPackage>): (entries: map<string, Entry>)
    ensures forall x :: x in entries <==> x in Projects(input)
    ensures forall x :: x in entries ==> entries[x].stats.None?
  {
    if input == [] then map[]
    else
      ProjectsOfPrefix(input);
      LoadEntries(input[..|input| - 1])[input[|input| - 1].project := Entry(input[|input| - 1].downloadCount, None)]
  }

  /** The position of the first row naming project k. */
  function FirstIndex(input: seq<TopPackage>, k: string): (i: nat)
    requires k in Projects(input)
    ensures i < |input| && input[i].project == k
    ensures forall j :: 0 <= j < i ==> input[j].project != k
  {
    if input[0].project == k then 0
    else
      ProjectsOfSuffix(input);
      1 + FirstIndex(input[1..], k)
  }

  lemma FirstIndexOfPrefix(input: seq<TopPackage>, n: nat, k: string)
    requires n <= |input| && k in Projects(input[..n])
    ensures k in Projects(input) && FirstIndex(input, k) == FirstIndex(input[..n], k)
  {
    var f := FirstIndex(input[..n], k);
    assert input[f].project == k;
  }

  /** Appending a row does not move the first row of a project already present. */
  lemma FirstIndexUnchanged(input: seq<TopPackage>, x: string)
    requires input != [] && x in LoadKeys(input[..|input| - 1])
    ensures x in Projects(input)
    ensures FirstIndex(input, x) == FirstIndex(input[..|input| - 1], x)
    ensures FirstIndex(input, x) < |input| - 1
  {
    FirstIndexOfPrefix(input, |input| - 1, x);
  }

  /** A project first seen in the last row has that row as its first. */
  lemma FirstIndexOfNewProject(input: seq<TopPackage>)
    requires input != [] && input[|input| - 1].project !in LoadKeys(input[..|input| - 1])
    ensures FirstIndex(input, input[|input| - 1].project) == |input| - 1
  {
    var n := |input| - 1;
    var p := input[n].project;
    ProjectsOfPrefix(input);
    forall f | 0 <= f < n ensures input[f].project != p {
      assert Projects(input[..n])[f] == input[f].project;
    }
  }

  /** The order of LoadKeys(input) by first row is kept when a row is appended. */
  lemma AppendKeepsFirstPosition(input: seq<TopPackage>)
    requires input != []
    requires var keys := LoadKeys(input[..|input| - 1]);
      forall i, j :: 0 <= i < j < |keys| ==> FirstIndex(input[..|input| - 1], keys[i]) < FirstIndex(input[..|input| - 1], keys[j])
    ensures var keys := LoadKeys(input);
      forall i, j :: 0 <= i < j < |keys| ==> FirstIndex(input, keys[i]) < FirstIndex(input, keys[j])
  {
    var n := |input| - 1;
    var old_keys := LoadKeys(input[..n]);
    var keys := LoadKeys(input);
    assert keys == old_keys || (keys == old_keys + [input[n].project] && input[n].project !in old_keys);
    forall i, j | 0 <= i < j < |keys| ensures FirstIndex(input, keys[i]) < FirstIndex(input, keys[j]) {
      assert keys[i] == old_keys[i];
      FirstIndexUnchanged(input, keys[i]);
      if j < |old_keys| {
        assert keys[j] == old_keys[j];
        FirstIndexUnchanged(input, keys[j]);
      } else {
        FirstIndexOfNewProject(input);
      }
    }
  }

  /** A project listed twice keeps the position of its first row. */
  lemma {:induction false} LoadKeepsFirstPosition(input: seq<TopPackage>)
    ensures var keys := LoadKeys(input);
      forall i, j :: 0 <= i < j < |keys| ==> FirstIndex(input, keys[i]) < FirstIndex(input, keys[j])
  {
    if input != [] {
      LoadKeepsFirstPosition(input[..|input| - 1]);
      AppendKeepsFirstPosition(input);
    }
  }

  /** The position of the last row naming project k. */
  function LastIndex(input: seq<TopPackage>, k: string): (i: nat)
    requires k in Projects(input)
    ensures i < |input| && input[i].project == k
    ensures forall j :: i < j < |input| ==> input[j].project != k
  {
    ProjectsOfPrefix(input);
    if input[|input| - 1].project == k then |input| - 1
    else LastIndex(input[..|input| - 1], k)
  }

  /** A project listed twice keeps the download count of its last row. */
  lemma {:induction false} LoadKeepsLastValue(input: seq<TopPackage>, k: string)
    requires k in Projects(input)
    ensures LoadEntries(input)[k] == Entry(input[LastIndex(input, k)].downloadCount, None)
  {
    ProjectsOfPrefix(input);
    if input[|input| - 1].project != k {
      LoadKeepsLastValue(input[..|input| - 1], k);
    }
  }

  /** The dictionary holds each distinct project of the input exactly once. */
  lemma LoadKeysCount(input: seq<TopPackage>)
    ensures |LoadKeys(input)| == |set x | x in Projects(input)|
  {
    var keys := LoadKeys(input);
    DistinctCount(keys);
    assert (set x | x in keys) == (set x | x in Projects(input));
  }

  /** The rows `v | {"name": k}` for the chosen names, None if one lacks "dl_to_s_ratio". */
  function OutputRows(names: seq<string>, entries: map<string, Entry>): (r: Option<seq<OutputRow>>)
    requires Covers(names, entries)
    ensures r.Some? <==> forall x :: x in names ==> entries[x].stats.Some?
    ensures r.Some? ==> |r.value| == |names| && forall i :: 0 <= i < |names| ==>
      var e := entries[names[i]];
      e.stats.Some? && r.value[i] == OutputRow(names[i], e.downloads, e.stats.value.stars, e.stats.value.ratio)
  {
    if names == [] then Some([])
    else
      var e := entries[names[0]];
      if e.stats.None? then None
      else match OutputRows(names[1..], entries)
        case None => None
        case Some(rest) => Some([OutputRow(names[0], e.downloads, e.stats.value.stars, e.stats.value.ratio)] + rest)
  }

  /** Lines 84-87: build the rows and sort them by descending ratio. */
  function Rank(names: seq<string>, entries: map<string, Entry>): Report
    requires Covers(names, entries)
  {
    match OutputRows(names, entries)
    case None => MissingRatio
    case Some(rows) => Ranked(SortByRatio(rows))
  }

  /** The loop variables after the main loop. */
  function AfterLoop(input: seq<TopPackage>, pypi: string -> Option<Url>, github: string -> GitHubReply, limit: nat): State
  {
    Scan(LoadKeys(input), State(LoadEntries(input), [], 0), pypi, github, limit)
  }

  /** The names `islice` takes from the dictionary after the deletion loop. */
  function Chosen(input: seq<TopPackage>, pypi: string -> Option<Url>, github: string -> GitHubReply, limit: nat): seq<string>
  {
    Take(Without(LoadKeys(input), AfterLoop(input, pypi, github, limit).toDel), limit)
  }

  /** The dictionary's entries after the deletion loop. */
  function Remaining(input: seq<TopPackage>, pypi: string -> Option<Url>, github: string -> GitHubReply, limit: nat): map<string, Entry>
  {
    var after := AfterLoop(input, pypi, github, limit);
    after.entries - Names(after.toDel)
  }

  /** What the script computes, PKGS_TO_ANALYZE written as limit. */
  function Pipeline(input: seq<TopPackage>, pypi: string -> Option<Url>, github: string -> GitHubReply, limit: nat): Report
  {
    Rank(Chosen(input, pypi, github, limit), Remaining(input, pypi, github, limit))
  }

  /** Lines 25-31: the ordered dictionary built from the input rows. */
  method Load(input: seq<TopPackage>) returns (pkgs: PackageTable)
    ensures fresh(pkgs) && pkgs.Valid()
    ensures pkgs.keys == LoadKeys(input) && pkgs.entries == LoadEntries(input)
  {
    pkgs := new PackageTable();
    var n := 0;
    while n < |input|
      invariant 0 <= n <= |input|
      invariant pkgs.Valid()
      invariant pkgs.keys == LoadKeys(input[..n]) && pkgs.entries == LoadEntries(input[..n])
    {
      assert input[..n + 1][..n] == input[..n];
      pkgs.Put(input[n].project, Entry(input[n].downloadCount, None));
      n := n + 1;
    }
    assert input[..n] == input;
  }

  /**
   * One pass of the loop body (lines 36-76) for package pkg: the new to_del and
   * pkgs_done, pkgs annotated in place on success; `succeeded` tells whether the
   * `pkgs_done == PKGS_TO_ANALYZE` test is reached.
   */
  method VisitPackage(pkgs: PackageTable, pkg: string, toDel: seq<string>, pkgsDone: nat, pypi: string -> Option<Url>, github: string -> GitHubReply)
    returns (toDel': seq<string>, pkgsDone': nat, succeeded: bool)
    requires pkgs.Valid() && pkg in pkgs.entries
    modifies pkgs
    ensures pkgs.Valid() && pkgs.keys == old(pkgs.keys)
    ensures State(pkgs.entries, toDel', pkgsDone') == Step(pkg, State(old(pkgs.entries), toDel, pkgsDone), pypi, github)
    ensures succeeded <==> pkgsDone' != pkgsDone
    ensures toDel' == toDel || toDel' == toDel + [pkg]
  {
    toDel', pkgsDone', succeeded := toDel, pkgsDone, false;
    ghost var outcome := Visit(pkgs.entries[pkg].downloads, pypi(pkg), github);
    var url := ParseHomePage(pypi(pkg));
    if IsGitHubHost(url.netloc) {
      var ownerAndRepo := OwnerAndRepo(url.path);
      if ownerAndRepo.Some? {
        var reply := github(ownerAndRepo.value);
        if reply.NotFound? {
          assert outcome == Queued;
          toDel' := toDel + [pkg];
          return;
        }
        if reply.Failed? || reply.stars == 0 {
          // the request, the JSON lookup or the division raised
          assert outcome == Queued;
          toDel' := toDel + [pkg];
        } else {
          var stars := reply.stars;
          var ratio := Ratio(pkgs.entries[pkg].downloads, stars);
          assert outcome == Annotated(Stats(stars, ratio));
          pkgs.Annotate(pkg, Stats(stars, ratio));
          pkgsDone' := pkgsDone + 1;
          succeeded := true;
        }
      } else {
        assert outcome == Untouched;
      }
    } else {
      assert outcome == Queued;
      toDel' := toDel + [pkg];
    }
  }

  /**
   * Lines 33-76: the main loop. It annotates entries of pkgs in place and returns
   * to_del and pkgs_done; the resulting state is Scan's.
   */
  method MainLoopRun(pkgs: PackageTable, pypi: string -> Option<Url>, github: string -> GitHubReply) returns (toDel: seq<string>, pkgsDone: nat)
    requires pkgs.Valid()
    modifies pkgs
    ensures pkgs.Valid() && pkgs.keys == old(pkgs.keys)
    ensures State(pkgs.entries, toDel, pkgsDone) == Scan(old(pkgs.keys), State(old(pkgs.entries), [], 0), pypi, github, PkgsToAnalyze)
    ensures Distinct(toDel) && forall x :: x in toDel ==> x in pkgs.keys
  {
    var keys := pkgs.keys;
    ghost var after := Scan(keys, State(pkgs.entries, [], 0), pypi, github, PkgsToAnalyze);
    ScanQueuesOnce(keys, State(pkgs.entries, [], 0), pypi, github, PkgsToAnalyze);
    toDel := [];
    pkgsDone := 0;
    var i := 0;
    while i < |keys|
      invariant 0 <= i <= |keys|
      invariant pkgs.Valid() && pkgs.keys == keys
      invariant pkgsDone < PkgsToAnalyze
      invariant Scan(keys[i..], State(pkgs.entries, toDel, pkgsDone), pypi, github, PkgsToAnalyze) == after
    {
      var pkg := keys[i];
      assert keys[i..][0] == pkg && keys[i..][1..] == keys[i + 1..];
      ghost var st := State(pkgs.entries, toDel, pkgsDone);
      ghost var next := Step(pkg, st, pypi, github);
      ScanUnfold(keys[i..], st, pypi, github, PkgsToAnalyze);
      var succeeded;
      toDel, pkgsDone, succeeded := VisitPackage(pkgs, pkg, toDel, pkgsDone, pypi, github);
      assert State(pkgs.entries, toDel, pkgsDone) == next;
      if succeeded && pkgsDone == PkgsToAnalyze {
        assert next == after;
        break;
      }
      assert Scan(keys[i + 1..], next, pypi, github, PkgsToAnalyze) == after;
      i := i + 1;
    }
  }

  /** Lines 78-79: every queued name is deleted from pkgs. */
  method DeleteQueued(pkgs: PackageTable, toDel: seq<string>)
    requires pkgs.Valid()
    requires Distinct(toDel) && forall x :: x in toDel ==> x in pkgs.keys
    modifies pkgs
    ensures pkgs.Valid()
    ensures pkgs.keys == Without(old(pkgs.keys), toDel)
    ensures pkgs.entries == old(pkgs.entries) - Names(toDel)
  {
    ghost var keys := pkgs.keys;
    WithoutEmpty(keys);
    var j := 0;
    while j < |toDel|
      invariant 0 <= j <= |toDel|
      invariant pkgs.Valid()
      invariant pkgs.keys == Without(keys, toDel[..j])
      invariant pkgs.entries == old(pkgs.entries) - Names(toDel[..j])
    {
      assert toDel[j] in toDel;
      DeleteOneMore(keys, old(pkgs.entries), toDel, j);
      pkgs.Delete(toDel[j]);
      j := j + 1;
    }
    assert toDel[..j] == toDel;
  }

  /** The script with the network answers as parameters; the result is the rows it would insert. */
  method Run(input: seq<TopPackage>, pypi: string -> Option<Url>, github: string -> GitHubReply) returns (report: Report)
    ensures report == Pipeline(input, pypi, github, PkgsToAnalyze)
  {
    var pkgs := Load(input);
    var toDel, pkgsDone := MainLoopRun(pkgs, pypi, github);
    DeleteQueued(pkgs, toDel);
    report := Rank(Take(pkgs.keys, PkgsToAnalyze), pkgs.entries);
  }

  /** Every stored ratio among the named entries has a positive denominator. */
  predicate ProperStats(names: seq<string>, entries: map<string, Entry>)
    requires Covers(names, entries)
  {
    forall x :: x in names && entries[x].stats.Some? ==> Proper(entries[x].stats.value.ratio)
  }

  /**
   * Lines 84-87: the sort key raises exactly when a chosen entry has no ratio;
   * otherwise the rows are the chosen entries, each once, by descending ratio,
   * with equal ratios kept in slice order.
   */
  lemma RankSortsRows(names: seq<string>, entries: map<string, Entry>)
    requires Covers(names, entries) && ProperStats(names, entries)
    ensures Rank(names, entries).Ranked? <==> forall x :: x in names ==> entries[x].stats.Some?
    ensures Rank(names, entries).Ranked? ==>
      var rows := Rank(names, entries).rows;
      var unsorted := OutputRows(names, entries).value;
      multiset(rows) == multiset(unsorted) && Descending(rows) &&
      forall q :: Proper(q) ==> WithRatio(rows, q) == WithRatio(unsorted, q)
  {
    match OutputRows(names, entries)
    case None =>
    case Some(unsorted) =>
      assert AllProper(unsorted) by {
        forall i | 0 <= i < |unsorted| ensures Proper(unsorted[i].ratio) {
          assert names[i] in names;
        }
      }
      SortPermutes(unsorted);
      SortDescending(unsorted);
      forall q | Proper(q) ensures WithRatio(SortByRatio(unsorted), q) == WithRatio(unsorted, q) {
        SortStable(unsorted, q);
      }
  }

  /** A chosen name survives the deletion loop with the entry the main loop left. */
  lemma ChosenSurvive(input: seq<TopPackage>, pypi: string -> Option<Url>, github: string -> GitHubReply, limit: nat, x: string)
    requires x in Chosen(input, pypi, github, limit)
    ensures x in LoadKeys(input) && x !in AfterLoop(input, pypi, github, limit).toDel
    ensures x in Remaining(input, pypi, github, limit)
    ensures Remaining(input, pypi, github, limit)[x] == AfterLoop(input, pypi, github, limit).entries[x]
  {
  }

  /**
   * A chosen entry keeps the download count of the input's last row for its
   * project, and its stats, if any, are those of a successful visit.
   */
  lemma ChosenEntry(input: seq<TopPackage>, pypi: string -> Option<Url>, github: string -> GitHubReply, limit: nat, x: string)
    requires x in Chosen(input, pypi, github, limit)
    ensures x in Projects(input) && x in Remaining(input, pypi, github, limit)
    ensures var e := Remaining(input, pypi, github, limit)[x];
      e.downloads == input[LastIndex(input, x)].downloadCount &&
      (e.stats.Some? ==> Visit(e.downloads, pypi(x), github) == Annotated(e.stats.value))
  {
    ChosenSurvive(input, pypi, github, limit, x);
    ScanEffects(LoadKeys(input), State(LoadEntries(input), [], 0), pypi, github, limit);
    LoadKeepsLastValue(input, x);
  }

  lemma ChosenStatsProper(input: seq<TopPackage>, pypi: string -> Option<Url>, github: string -> GitHubReply, limit: nat)
    ensures Covers(Chosen(input, pypi, github, limit), Remaining(input, pypi, github, limit))
    ensures ProperStats(Chosen(input, pypi, github, limit), Remaining(input, pypi, github, limit))
  {
    var names := Chosen(input, pypi, github, limit);
    var entries := Remaining(input, pypi, github, limit);
    forall x | x in names ensures x in entries && (entries[x].stats.Some? ==> Proper(entries[x].stats.value.ratio)) {
      ChosenEntry(input, pypi, github, limit, x);
      if entries[x].stats.Some? {
        AnnotatedCases(entries[x].downloads, pypi(x), github);
      }
    }
  }

  /**
   * Every inserted row is a package the loop annotated: at most limit rows, by
   * descending ratio, each with the last download count listed for it, a positive
   * star count from a successful lookup and the ratio downloads / stars.
   */
  lemma RankedRowsAreAnnotated(input: seq<TopPackage>, pypi: string -> Option<Url>, github: string -> GitHubReply, limit: nat)
    requires Pipeline(input, pypi, github, limit).Ranked?
    ensures var rows := Pipeline(input, pypi, github, limit).rows;
      |rows| <= limit && Descending(rows) &&
      forall r :: r in rows ==>
        r.name in Projects(input) && r.downloads == input[LastIndex(input, r.name)].downloadCount &&
        r.stars > 0 && r.ratio == Ratio(r.downloads, r.stars) &&
        Visit(r.downloads, pypi(r.name), github) == Annotated(Stats(r.stars, r.ratio))
  {
    var names := Chosen(input, pypi, github, limit);
    var entries := Remaining(input, pypi, github, limit);
    ChosenStatsProper(input, pypi, github, limit);
    RankSortsRows(names, entries);
    var rows := Pipeline(input, pypi, github, limit).rows;
    var unsorted := OutputRows(names, entries).value;
    assert |rows| == |multiset(rows)| == |multiset(unsorted)| == |unsorted|;
    forall r | r in rows
      ensures r.name in Projects(input) && r.downloads == input[LastIndex(input, r.name)].downloadCount &&
        r.stars > 0 && r.ratio == Ratio(r.downloads, r.stars) &&
        Visit(r.downloads, pypi(r.name), github) == Annotated(Stats(r.stars, r.ratio))
    {
      assert r in multiset(unsorted);
      var i :| 0 <= i < |unsorted| && unsorted[i] == r;
      ChosenEntry(input, pypi, github, limit, names[i]);
      AnnotatedCases(r.downloads, pypi(r.name), github);
    }
  }

  /**
   * When no package on the way has a GitHub home page whose path fails the
   * pattern, the slice takes exactly the annotated packages, in dictionary order,
   * and the script ranks all of them: pkgs_done rows.
   */
  lemma NoUnmatchedPathMeansRanked(input: seq<TopPackage>, pypi: string -> Option<Url>, github: string -> GitHubReply, limit: nat)
    requires limit > 0
    requires forall k :: k in Projects(input) ==> !Visit(LoadEntries(input)[k].downloads, pypi(k), github).Untouched?
    ensures var after := AfterLoop(input, pypi, github, limit);
      Chosen(input, pypi, github, limit) == WithStats(LoadKeys(input), after.entries) &&
      Pipeline(input, pypi, github, limit).Ranked? &&
      |Pipeline(input, pypi, github, limit).rows| == after.done
  {
    var keys := LoadKeys(input);
    var st := State(LoadEntries(input), [], 0);
    var after := AfterLoop(input, pypi, github, limit);
    var names := Chosen(input, pypi, github, limit);
    var entries := Remaining(input, pypi, github, limit);
    SelectedAreAnnotated(keys, st, pypi, github, limit);
    assert names == WithStats(keys, after.entries);
    ScanCountsSuccesses(keys, st, pypi, github, limit);
    assert |names| == after.done;
    ChosenStatsProper(input, pypi, github, limit);
    forall x | x in names ensures entries[x].stats.Some? {
      ChosenSurvive(input, pypi, github, limit, x);
    }
    RankSortsRows(names, entries);
    assert Pipeline(input, pypi, github, limit) == Rank(names, entries);
    var rows := Rank(names, entries).rows;
    var unsorted := OutputRows(names, entries).value;
    assert |rows| == |multiset(rows)| == |multiset(unsorted)| == |unsorted| == |names|;
  }

  /** islice takes at most limit names, in dictionary order, and at most one per distinct project. */
  lemma ChosenBound(input: seq<TopPackage>, pypi: string -> Option<Url>, github: string -> GitHubReply, limit: nat)
    ensures var names := Chosen(input, pypi, github, limit);
      |names| <= limit && |names| <= |set x | x in Projects(input)| && Distinct(names) &&
      forall x :: x in names ==> x in Projects(input) && x !in AfterLoop(input, pypi, github, limit).toDel
  {
    LoadKeysCount(input);
    var survivors := Without(LoadKeys(input), AfterLoop(input, pypi, github, limit).toDel);
    assert Distinct(survivors);
  }

  /** A key listed before another was first seen in an earlier row of the input. */
  lemma LoadOrderIsInputOrder(input: seq<TopPackage>, x: string, y: string)
    requires Before(LoadKeys(input), x, y)
    ensures x in Projects(input) && y in Projects(input)
    ensures FirstIndex(input, x) < FirstIndex(input, y)
  {
    var keys := LoadKeys(input);
    var p, q := Pos(keys, x), Pos(keys, y);
    assert keys[p] == x && keys[q] == y;
    LoadKeepsFirstPositionAt(input, p, q);
  }

  lemma LoadKeepsFirstPositionAt(input: seq<TopPackage>, p: nat, q: nat)
    requires p < q < |LoadKeys(input)|
    ensures LoadKeys(input)[p] in Projects(input) && LoadKeys(input)[q] in Projects(input)
    ensures FirstIndex(input, LoadKeys(input)[p]) < FirstIndex(input, LoadKeys(input)[q])
  {
    LoadKeepsFirstPosition(input);
  }

  /**
   * islice takes the survivors in dictionary order, which is the order of each
   * project's first row in the input.
   */
  lemma ChosenInInputOrder(input: seq<TopPackage>, pypi: string -> Option<Url>, github: string -> GitHubReply, limit: nat)
    ensures InOrder(LoadKeys(input), Chosen(input, pypi, github, limit))
    ensures var names := Chosen(input, pypi, github, limit);
      forall i, j :: 0 <= i < j < |names| ==>
        names[i] in Projects(input) && names[j] in Projects(input) &&
        FirstIndex(input, names[i]) < FirstIndex(input, names[j])
  {
    var keys := LoadKeys(input);
    var survivors := Without(keys, AfterLoop(input, pypi, github, limit).toDel);
    WithoutKeepsOrder(keys, AfterLoop(input, pypi, github, limit).toDel);
    TakeKeepsOrder(keys, survivors, limit);
    var names := Chosen(input, pypi, github, limit);
    assert InOrder(keys, names);
    forall i, j | 0 <= i < j < |names|
      ensures names[i] in Projects(input) && names[j] in Projects(input) &&
        FirstIndex(input, names[i]) < FirstIndex(input, names[j])
    {
      LoadOrderIsInputOrder(input, names[i], names[j]);
    }
  }

  /**
   * A GitHub organisation page such as "https://github.com/psf" leaves its package
   * in the dictionary without a ratio; once it is sliced in, the sort key raises.
   */
  lemma UnmatchedPathRaises(downloads: nat, github: string -> GitHubReply, limit: nat)
    requires limit > 0
    ensures Pipeline([TopPackage("x", downloads)], _ => Some(Url("github.com", "/psf")), github, limit) == MissingRatio
  {
    var input := [TopPackage("x", downloads)];
    var pypi: string -> Option<Url> := _ => Some(Url("github.com", "/psf"));
    GitHubHostIff("github.com");
    ExampleOwnerOnly();
    assert Visit(downloads, pypi("x"), github) == Untouched;
    assert Projects(input) == ["x"];
    assert LoadKeys(input) == ["x"];
    var st := State(LoadEntries(input), [], 0);
    assert LoadEntries(input) == map["x" := Entry(downloads, None)];
    assert Step("x", st, pypi, github) == st;
    ScanUnfold(["x"], st, pypi, github, limit);
    assert ["x"][1..] == [];
    var after := AfterLoop(input, pypi, github, limit);
    assert after == st;
    assert Chosen(input, pypi, github, limit) == ["x"];
    assert Remaining(input, pypi, github, limit)["x"].stats.None?;
  }
}
