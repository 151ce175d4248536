/**
 * The bookkeeping of the main loop of analyze.py (lines 33-76): for each package, in
 * dictionary order, the outcome of its two network calls decides whether it is
 * annotated, queued for deletion, or left alone, and the loop stops right after
 * the PKGS_TO_ANALYZE-th success. The network answers are parameters: `pypi` gives
 * a package's home page (None for JSON null), `github` the answer for an
 * "owner/repo" slug.
 */
module MainLoop {
  import opened Wrappers
  import opened Ratios
  import opened HomePage
  import opened Packages

  /** What the GitHub step yields: a 404, any exception, or a star count. */
  datatype GitHubReply = NotFound | Failed | Found(stars: nat)

  /** The effect of one iteration on its package. */
  datatype Outcome = Annotated(stats: Stats) | Queued | Untouched

  /**
   * One iteration (lines 39-76). A zero star count makes the division of line 59
   * raise, which the handler treats like any other exception.
   */
  function Visit(downloads: nat, home: Option<Url>, github: string -> GitHubReply): Outcome
  {
    var url := ParseHomePage(home);
    if !IsGitHubHost(url.netloc) then Queued
    else match OwnerAndRepo(url.path)
      case None => Untouched
      case Some(slug) =>
        match github(slug)
        case NotFound => Queued
        case Failed => Queued
        case Found(stars) =>
          if stars == 0 then Queued else Annotated(Stats(stars, Ratio(downloads, stars)))
  }

  /** A JSON-null home page is not a GitHub URL, so the package is queued for deletion. */
  lemma NullHomePageQueued(downloads: nat, github: string -> GitHubReply)
    ensures Visit(downloads, None, github) == Queued
  {
    GitHubHostIff("");
  }

  /** Exactly these cases queue a package: a foreign host, a 404, a failure, or zero stars. */
  lemma QueuedCases(downloads: nat, home: Option<Url>, github: string -> GitHubReply)
    ensures Visit(downloads, home, github) == Queued <==>
      var url := ParseHomePage(home);
      !IsGitHubHost(url.netloc) ||
      (OwnerAndRepo(url.path).Some? &&
       (github(OwnerAndRepo(url.path).value).NotFound? ||
        github(OwnerAndRepo(url.path).value).Failed? ||
        github(OwnerAndRepo(url.path).value) == Found(0)))
  {
  }

  /** A GitHub home page whose path does not match the pattern is neither queued nor annotated. */
  lemma UntouchedCases(downloads: nat, home: Option<Url>, github: string -> GitHubReply)
    ensures Visit(downloads, home, github) == Untouched <==>
      IsGitHubHost(ParseHomePage(home).netloc) && OwnerAndRepo(ParseHomePage(home).path) == None
  {
  }

  /** A success records a positive star count and the ratio downloads / stars. */
  lemma AnnotatedCases(downloads: nat, home: Option<Url>, github: string -> GitHubReply)
    requires Visit(downloads, home, github).Annotated?
    ensures var s := Visit(downloads, home, github).stats;
      s.stars > 0 && s.ratio == Ratio(downloads, s.stars) && Proper(s.ratio) &&
      github(OwnerAndRepo(ParseHomePage(home).path).value) == Found(s.stars)
  {
  }

  /** The variables of the loop: `pkgs` (its entries), `to_del` and `pkgs_done`. */
  datatype State = State(entries: map<string, Entry>, toDel: seq<string>, done: nat)

  predicate Covers(keys: seq<string>, entries: map<string, Entry>)
  {
    forall k :: k in keys ==> k in entries
  }

  /** The state after visiting key k, before the `pkgs_done == PKGS_TO_ANALYZE` test. */
  function Step(k: string, st: State, pypi: string -> Option<Url>, github: string -> GitHubReply): State
    requires k in st.entries
  {
    match Visit(st.entries[k].downloads, pypi(k), github)
    case Queued => State(st.entries, st.toDel + [k], st.done)
    case Untouched => st
    case Annotated(stats) => State(st.entries[k := Entry(st.entries[k].downloads, Some(stats))], st.toDel, st.done + 1)
  }

  /** The loop run over keys from state st, `limit` standing for PKGS_TO_ANALYZE. */
  function Scan(keys: seq<string>, st: State, pypi: string -> Option<Url>, github: string -> GitHubReply, limit: nat): (r: State)
    requires Covers(keys, st.entries)
    ensures r.entries.Keys == st.entries.Keys
    ensures st.toDel <= r.toDel
    ensures st.done <= r.done
    decreases |keys|
  {
    if keys == [] then st
    else
      var next := Step(keys[0], st, pypi, github);
      // the counter is compared with the limit only right after a success
      if next.done != st.done && next.done == limit then next
      else Scan(keys[1..], next, pypi, github, limit)
  }

  /**
   * What the loop does to its variables: the map keeps its downloads, an entry
   * changes only by gaining the stats its package's visit produced, and to_del
   * grows only by visited names whose visit queued them.
   */
  lemma {:induction false} ScanEffects(keys: seq<string>, st: State, pypi: string -> Option<Url>, github: string -> GitHubReply, limit: nat)
    requires Covers(keys, st.entries)
    ensures var r := Scan(keys, st, pypi, github, limit);
      (forall k :: k in st.entries ==>
        r.entries[k] == st.entries[k] ||
        (k in keys && Visit(st.entries[k].downloads, pypi(k), github).Annotated? &&
         r.entries[k] == Entry(st.entries[k].downloads, Some(Visit(st.entries[k].downloads, pypi(k), github).stats)))) &&
      (forall k :: k in st.entries ==> r.entries[k].downloads == st.entries[k].downloads) &&
      (forall i :: |st.toDel| <= i < |r.toDel| ==>
        r.toDel[i] in keys && Visit(st.entries[r.toDel[i]].downloads, pypi(r.toDel[i]), github) == Queued)
    decreases |keys|
  {
    if keys != [] {
      var next := Step(keys[0], st, pypi, github);
      if !(next.done != st.done && next.done == limit) {
        ScanEffects(keys[1..], next, pypi, github, limit);
      }
    }
  }

  lemma ScanUnfold(keys: seq<string>, st: State, pypi: string -> Option<Url>, github: string -> GitHubReply, limit: nat)
    requires keys != [] && Covers(keys, st.entries)
    ensures var next := Step(keys[0], st, pypi, github);
      Scan(keys, st, pypi, github, limit) ==
        if next.done != st.done && next.done == limit then next else Scan(keys[1..], next, pypi, github, limit)
  {
  }

  /** As long as the limit has not been reached, the loop over k1 + k2 is the loop over k1, then over k2. */
  lemma {:induction false} ScanSplits(k1: seq<string>, k2: seq<string>, st: State, pypi: string -> Option<Url>, github: string -> GitHubReply, limit: nat)
    requires Covers(k1 + k2, st.entries)
    requires Scan(k1, st, pypi, github, limit).done < limit
    ensures Scan(k1 + k2, st, pypi, github, limit) == Scan(k2, Scan(k1, st, pypi, github, limit), pypi, github, limit)
  {
    if k1 == [] {
      assert k1 + k2 == k2;
    } else {
      assert (k1 + k2)[1..] == k1[1..] + k2;
      assert (k1 + k2)[0] == k1[0];
      ScanSplits(k1[1..], k2, Step(k1[0], st, pypi, github), pypi, github, limit);
    }
  }

  /** The `break`: once the limit is reached within k1, the keys after it are never visited. */
  lemma {:induction false} ScanStopsAtLimit(k1: seq<string>, k2: seq<string>, st: State, pypi: string -> Option<Url>, github: string -> GitHubReply, limit: nat)
    requires Covers(k1 + k2, st.entries)
    requires st.done < limit
    requires Scan(k1, st, pypi, github, limit).done == limit
    ensures Scan(k1 + k2, st, pypi, github, limit) == Scan(k1, st, pypi, github, limit)
  {
    if k1 == [] {
    } else {
      assert (k1 + k2)[1..] == k1[1..] + k2;
      assert (k1 + k2)[0] == k1[0];
      var next := Step(k1[0], st, pypi, github);
      if next.done < limit {
        ScanStopsAtLimit(k1[1..], k2, next, pypi, github, limit);
      }
    }
  }

  /** Only names whose visit queued them are added to to_del; membership of any other name is kept. */
  lemma ScanKeepsOtherNames(keys: seq<string>, st: State, pypi: string -> Option<Url>, github: string -> GitHubReply, limit: nat, k: string)
    requires Covers(keys, st.entries) && k !in keys
    ensures var r := Scan(keys, st, pypi, github, limit);
      (k in r.toDel <==> k in st.toDel) && (k in st.entries ==> r.entries[k] == st.entries[k])
  {
    var r := Scan(keys, st, pypi, github, limit);
    if k in r.toDel {
      var i :| 0 <= i < |r.toDel| && r.toDel[i] == k;
      if i < |st.toDel| {
        assert st.toDel[i] == k;
      }
    }
  }

  /**
   * The fate of a package the loop reaches (the limit was not hit before it): a
   * queued package is in to_del, an untouched one keeps its entry and is not added
   * to to_del, an annotated one gains exactly its stats.
   */
  lemma {:induction false} ReachedKeyFate(pre: seq<string>, k: string, post: seq<string>, st: State, pypi: string -> Option<Url>, github: string -> GitHubReply, limit: nat)
    requires Covers(pre + [k] + post, st.entries)
    requires k !in pre && k !in post
    requires Scan(pre, st, pypi, github, limit).done < limit
    ensures var r := Scan(pre + [k] + post, st, pypi, github, limit);
      var o := Visit(st.entries[k].downloads, pypi(k), github);
      (o.Queued? ==> k in r.toDel) &&
      (o.Untouched? ==> r.entries[k] == st.entries[k] && (k in r.toDel <==> k in st.toDel)) &&
      (o.Annotated? ==> r.entries[k] == Entry(st.entries[k].downloads, Some(o.stats)) && (k in r.toDel <==> k in st.toDel))
  {
    assert pre + [k] + post == pre + ([k] + post);
    ScanSplits(pre, [k] + post, st, pypi, github, limit);
    var mid := Scan(pre, st, pypi, github, limit);
    ScanKeepsOtherNames(pre, st, pypi, github, limit, k);
    assert ([k] + post)[0] == k && ([k] + post)[1..] == post;
    var next := Step(k, mid, pypi, github);
    if !(next.done != mid.done && next.done == limit) {
      ScanKeepsOtherNames(post, next, pypi, github, limit, k);
    }
  }

  /** After the break, the packages never visited keep their entry and are not in to_del. */
  lemma UnreachedKeysUnchanged(pre: seq<string>, post: seq<string>, st: State, pypi: string -> Option<Url>, github: string -> GitHubReply, limit: nat, k: string)
    requires Covers(pre + post, st.entries)
    requires st.done < limit && Scan(pre, st, pypi, github, limit).done == limit
    requires k in post && k !in pre && k in st.entries
    ensures var r := Scan(pre + post, st, pypi, github, limit);
      r.entries[k] == st.entries[k] && (k in r.toDel <==> k in st.toDel)
  {
    ScanStopsAtLimit(pre, post, st, pypi, github, limit);
    ScanKeepsOtherNames(pre, st, pypi, github, limit, k);
  }

  /** The names among keys whose entry has the "stars" and "dl_to_s_ratio" keys, in order. */
  function WithStats(keys: seq<string>, entries: map<string, Entry>): (r: seq<string>)
    requires Covers(keys, entries)
    ensures |r| <= |keys|
    ensures forall x :: x in r <==> x in keys && entries[x].stats.Some?
  {
    if keys == [] then []
    else if entries[keys[0]].stats.Some? then [keys[0]] + WithStats(keys[1..], entries)
    else WithStats(keys[1..], entries)
  }

  /** The annotated keys keep their relative order in keys. */
  lemma {:induction false} WithStatsKeepsOrder(keys: seq<string>, entries: map<string, Entry>)
    requires Covers(keys, entries) && Distinct(keys)
    ensures InOrder(keys, WithStats(keys, entries))
  {
    if keys != [] {
      assert Distinct(keys[1..]) && keys[0] !in keys[1..];
      WithStatsKeepsOrder(keys[1..], entries);
      InOrderCons(keys, WithStats(keys[1..], entries), entries[keys[0]].stats.Some?);
    }
  }

  predicate NoStats(keys: seq<string>, entries: map<string, Entry>)
    requires Covers(keys, entries)
  {
    forall k :: k in keys ==> entries[k].stats.None?
  }

  lemma WithStatsEmpty(keys: seq<string>, entries: map<string, Entry>)
    requires Covers(keys, entries) && NoStats(keys, entries)
    ensures WithStats(keys, entries) == []
  {
  }

  lemma DistinctTail(s: seq<string>)
    requires Distinct(s) && s != []
    ensures Distinct(s[1..]) && s[0] !in s[1..]
  {
  }

  /** Each visited name is queued at most once: to_del stays free of repetitions and holds only visited names. */
  lemma {:induction false} ScanQueuesOnce(keys: seq<string>, st: State, pypi: string -> Option<Url>, github: string -> GitHubReply, limit: nat)
    requires Covers(keys, st.entries) && Distinct(keys) && Distinct(st.toDel)
    requires forall k :: k in keys ==> k !in st.toDel
    ensures var r := Scan(keys, st, pypi, github, limit);
      Distinct(r.toDel) && forall x :: x in r.toDel ==> x in st.toDel || x in keys
    decreases |keys|
  {
    if keys != [] {
      var k := keys[0];
      DistinctTail(keys);
      var next := Step(k, st, pypi, github);
      if next.toDel != st.toDel {
        DistinctAppend(st.toDel, k);
      }
      if !(next.done != st.done && next.done == limit) {
        ScanQueuesOnce(keys[1..], next, pypi, github, limit);
      }
    }
  }

  /**
   * `pkgs_done` counts successes only and never passes PKGS_TO_ANALYZE: it ends as
   * the number of packages that gained stats, and at most the limit.
   */
  lemma {:induction false} ScanCountsSuccesses(keys: seq<string>, st: State, pypi: string -> Option<Url>, github: string -> GitHubReply, limit: nat)
    requires Covers(keys, st.entries) && Distinct(keys) && NoStats(keys, st.entries)
    requires st.done < limit
    ensures var r := Scan(keys, st, pypi, github, limit);
      r.done <= limit && r.done == st.done + |WithStats(keys, r.entries)|
  {
    if keys != [] {
      var k := keys[0];
      DistinctTail(keys);
      var next := Step(k, st, pypi, github);
      var r := Scan(keys, st, pypi, github, limit);
      assert NoStats(keys[1..], next.entries);
      if next.done != st.done && next.done == limit {
        WithStatsEmpty(keys[1..], next.entries);
      } else {
        ScanCountsSuccesses(keys[1..], next, pypi, github, limit);
        ScanKeepsOtherNames(keys[1..], next, pypi, github, limit, k);
      }
    }
  }

  lemma {:induction false} WithoutNothing(s: seq<string>, gone: seq<string>)
    requires forall x :: x in s ==> x !in gone
    ensures Without(s, gone) == s
  {
    if s != [] {
      WithoutNothing(s[1..], gone);
    }
  }

  lemma TakeCons(x: string, s: seq<string>, n: nat)
    requires n > 0
    ensures Take([x] + s, n) == [x] + Take(s, n - 1)
  {
  }

  /** Dropping a queued key without stats changes neither the slice nor the annotated keys. */
  lemma SkipQueued(keys: seq<string>, toDel: seq<string>, entries: map<string, Entry>, n: nat)
    requires keys != [] && Covers(keys, entries)
    requires keys[0] in toDel && entries[keys[0]].stats.None?
    ensures Take(Without(keys, toDel), n) == Take(Without(keys[1..], toDel), n)
    ensures WithStats(keys, entries) == WithStats(keys[1..], entries)
  {
  }

  /** A kept, annotated first key heads both the slice and the annotated keys. */
  lemma KeepAnnotated(keys: seq<string>, toDel: seq<string>, entries: map<string, Entry>, n: nat)
    requires keys != [] && Covers(keys, entries) && n > 0
    requires keys[0] !in toDel && entries[keys[0]].stats.Some?
    ensures Take(Without(keys, toDel), n) == [keys[0]] + Take(Without(keys[1..], toDel), n - 1)
    ensures WithStats(keys, entries) == [keys[0]] + WithStats(keys[1..], entries)
  {
    TakeCons(keys[0], Without(keys[1..], toDel), n);
  }

  /** The conditions under which the slice is exactly the annotated keys. */
  predicate SelectionReady(keys: seq<string>, st: State, pypi: string -> Option<Url>, github: string -> GitHubReply, limit: nat)
  {
    Covers(keys, st.entries) && Distinct(keys) && NoStats(keys, st.entries) && st.done < limit &&
    (forall k :: k in keys ==> k !in st.toDel) &&
    forall k :: k in keys ==> !Visit(st.entries[k].downloads, pypi(k), github).Untouched?
  }

  /**
   * If no package on the way has a GitHub home page whose path fails the pattern,
   * the entries that survive deletion and fall within the slice are exactly the
   * successfully annotated ones, in dictionary order.
   */
  lemma {:induction false} SelectedAreAnnotated(keys: seq<string>, st: State, pypi: string -> Option<Url>, github: string -> GitHubReply, limit: nat)
    requires SelectionReady(keys, st, pypi, github, limit)
    ensures var r := Scan(keys, st, pypi, github, limit);
      Take(Without(keys, r.toDel), limit - st.done) == WithStats(keys, r.entries)
    decreases |keys|, 2
  {
    if keys != [] {
      if Visit(st.entries[keys[0]].downloads, pypi(keys[0]), github).Queued? {
        SelectedAfterQueued(keys, st, pypi, github, limit);
      } else {
        SelectedAfterAnnotated(keys, st, pypi, github, limit);
      }
    }
  }

  lemma {:induction false} SelectedAfterQueued(keys: seq<string>, st: State, pypi: string -> Option<Url>, github: string -> GitHubReply, limit: nat)
    requires SelectionReady(keys, st, pypi, github, limit) && keys != []
    requires Visit(st.entries[keys[0]].downloads, pypi(keys[0]), github).Queued?
    ensures var r := Scan(keys, st, pypi, github, limit);
      Take(Without(keys, r.toDel), limit - st.done) == WithStats(keys, r.entries)
    decreases |keys|, 1
  {
    var k := keys[0];
    DistinctTail(keys);
    var next := State(st.entries, st.toDel + [k], st.done);
    assert Step(k, st, pypi, github) == next;
    var r := Scan(keys, st, pypi, github, limit);
    assert r == Scan(keys[1..], next, pypi, github, limit);
    SelectedAreAnnotated(keys[1..], next, pypi, github, limit);
    ScanKeepsOtherNames(keys[1..], next, pypi, github, limit, k);
    SkipQueued(keys, r.toDel, r.entries, limit - st.done);
  }

  /** After a successful first key, the rest of the keys are still ready. */
  lemma StepAnnotated(keys: seq<string>, st: State, pypi: string -> Option<Url>, github: string -> GitHubReply, limit: nat)
    requires SelectionReady(keys, st, pypi, github, limit) && keys != []
    requires Visit(st.entries[keys[0]].downloads, pypi(keys[0]), github).Annotated?
    ensures var next := Step(keys[0], st, pypi, github);
      next.entries.Keys == st.entries.Keys && next.entries[keys[0]].stats.Some? &&
      next.toDel == st.toDel && next.done == st.done + 1 && keys[0] !in next.toDel &&
      Covers(keys[1..], next.entries) && NoStats(keys[1..], next.entries) && keys[0] !in keys[1..] &&
      (next.done < limit ==> SelectionReady(keys[1..], next, pypi, github, limit))
  {
    DistinctTail(keys);
  }

  lemma {:induction false} SelectedAfterAnnotated(keys: seq<string>, st: State, pypi: string -> Option<Url>, github: string -> GitHubReply, limit: nat)
    requires SelectionReady(keys, st, pypi, github, limit) && keys != []
    requires Visit(st.entries[keys[0]].downloads, pypi(keys[0]), github).Annotated?
    ensures var r := Scan(keys, st, pypi, github, limit);
      Take(Without(keys, r.toDel), limit - st.done) == WithStats(keys, r.entries)
    decreases |keys|, 1
  {
    if st.done + 1 == limit {
      SelectedAtLimit(keys, st, pypi, github, limit);
    } else {
      SelectedBeforeLimit(keys, st, pypi, github, limit);
    }
  }

  lemma SelectedAtLimit(keys: seq<string>, st: State, pypi: string -> Option<Url>, github: string -> GitHubReply, limit: nat)
    requires SelectionReady(keys, st, pypi, github, limit) && keys != []
    requires Visit(st.entries[keys[0]].downloads, pypi(keys[0]), github).Annotated?
    requires st.done + 1 == limit
    ensures var r := Scan(keys, st, pypi, github, limit);
      Take(Without(keys, r.toDel), limit - st.done) == WithStats(keys, r.entries)
  {
    var next := Step(keys[0], st, pypi, github);
    StepAnnotated(keys, st, pypi, github, limit);
    ScanUnfold(keys, st, pypi, github, limit);
    var r := Scan(keys, st, pypi, github, limit);
    assert r == next;
    WithStatsEmpty(keys[1..], next.entries);
    WithoutNothing(keys[1..], r.toDel);
    KeepAnnotated(keys, r.toDel, r.entries, 1);
  }

  lemma {:induction false} SelectedBeforeLimit(keys: seq<string>, st: State, pypi: string -> Option<Url>, github: string -> GitHubReply, limit: nat)
    requires SelectionReady(keys, st, pypi, github, limit) && keys != []
    requires Visit(st.entries[keys[0]].downloads, pypi(keys[0]), github).Annotated?
    requires st.done + 1 < limit
    ensures var r := Scan(keys, st, pypi, github, limit);
      Take(Without(keys, r.toDel), limit - st.done) == WithStats(keys, r.entries)
    decreases |keys|, 0
  {
    var k := keys[0];
    var next := Step(k, st, pypi, github);
    StepAnnotated(keys, st, pypi, github, limit);
    ScanUnfold(keys, st, pypi, github, limit);
    var r := Scan(keys[1..], next, pypi, github, limit);
    assert r == Scan(keys, st, pypi, github, limit);
    SelectedAreAnnotated(keys[1..], next, pypi, github, limit);
    ScanKeepsOtherNames(keys[1..], next, pypi, github, limit, k);
    KeepAnnotated(keys, r.toDel, r.entries, limit - st.done);
  }
}
