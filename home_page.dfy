/**
 * Turning a package's home page into a GitHub "owner/repo" slug (analyze.py lines 41-48).
 * `urlparse` itself is not modelled: a home page arrives already split into the two
 * parts the script reads, its network location and its path.
 */
module HomePage {
  import opened Wrappers

  /** The `netloc` and `path` attributes of `urlparse(home_page)`. */
  datatype Url = Url(netloc: string, path: string)

  /** A JSON-null home page becomes "", and `urlparse("")` has an empty netloc and path. */
  function ParseHomePage(home: Option<Url>): (u: Url)
    ensures home.None? ==> u.netloc == [] && u.path == []
    ensures home.Some? ==> u == home.value
  {
    match home
    case None => Url("", "")
    case Some(url) => url
  }

  /** `s.removeprefix("www.")`. */
  function RemoveWwwPrefix(s: string): string
  {
    if |s| >= 4 && s[..4] == "www." then s[4..] else s
  }

  predicate IsGitHubHost(netloc: string)
  {
    RemoveWwwPrefix(netloc) == "github.com"
  }

  /** Exactly two hosts pass: one leading "www." is stripped, never two. */
  lemma GitHubHostIff(netloc: string)
    ensures IsGitHubHost(netloc) <==> netloc == "github.com" || netloc == "www.github.com"
  {
    if netloc == "www.github.com" {
      assert netloc[..4] == "www." && netloc[4..] == "github.com";
    } else if netloc == "github.com" {
      assert netloc[..4] != "www." by { assert netloc[0] == 'g'; }
    } else if |netloc| >= 4 && netloc[..4] == "www." {
      assert netloc == netloc[..4] + netloc[4..];
    }
  }

  /** The character class `[A-Za-z0-9_.-]`. */
  predicate IsRepoChar(c: char)
  {
    ('A' <= c <= 'Z') || ('a' <= c <= 'z') || ('0' <= c <= '9') || c == '_' || c == '.' || c == '-'
  }

  /** What `.` matches: anything but a newline. */
  predicate NoNewline(s: string, lo: int, hi: int)
    requires 0 <= lo <= hi <= |s|
  {
    forall k :: lo <= k < hi ==> s[k] != '\n'
  }

  /**
   * `re.fullmatch(r"/(.*?)/([A-Za-z0-9_.-]+)(?:/.*)?", path)` can succeed with
   * group 1 = path[1..i] and group 2 = path[i+1..j].
   */
  predicate MatchAt(path: string, i: int, j: int)
  {
    0 < i && i + 1 < j <= |path| && path[0] == '/' && path[i] == '/'
    && NoNewline(path, 1, i)
    && (forall k :: i + 1 <= k < j ==> IsRepoChar(path[k]))
    && (j == |path| || (path[j] == '/' && NoNewline(path, j + 1, |path|)))
  }

  /** The end of the longest run of repository characters starting at j. */
  function RepoEnd(path: string, j: nat): (e: nat)
    requires j <= |path|
    ensures j <= e <= |path|
    ensures forall k :: j <= k < e ==> IsRepoChar(path[k])
    ensures e < |path| ==> !IsRepoChar(path[e])
    decreases |path| - j
  {
    if j < |path| && IsRepoChar(path[j]) then RepoEnd(path, j + 1) else j
  }

  /** For a given group 1, group 2 is determined: it is the whole run of repository characters. */
  lemma RepoGroupUnique(path: string, i: int, j: int)
    requires MatchAt(path, i, j)
    ensures j == RepoEnd(path, i + 1)
  {
    var e := RepoEnd(path, i + 1);
    assert j < |path| ==> !IsRepoChar(path[j]);
    assert e < |path| ==> !IsRepoChar(path[e]);
  }

  /** Tries group 1 ending at i, i+1, ... in turn, as the lazy `.*?` does. */
  function SearchFrom(path: string, i: nat): (m: Option<(nat, nat)>)
    requires 0 < |path| && path[0] == '/' && 0 < i
    ensures m.Some? ==> i <= m.value.0 && m.value.0 + 1 < m.value.1 <= |path|
    decreases |path| - i
  {
    if i >= |path| then None
    else
      var e := RepoEnd(path, i + 1);
      if path[i] == '/' && NoNewline(path, 1, i) && MatchAt(path, i, e) then Some((i, e))
      else SearchFrom(path, i + 1)
  }

  /** The search finds a match, and the one with the earliest end of group 1. */
  lemma {:induction false} SearchFromSpec(path: string, i: nat)
    requires 0 < |path| && path[0] == '/' && 0 < i
    ensures var m := SearchFrom(path, i);
      (m.Some? ==> MatchAt(path, m.value.0, m.value.1)) &&
      (m.Some? ==> forall i', j' :: i <= i' < m.value.0 ==> !MatchAt(path, i', j')) &&
      (m.None? ==> forall i', j' :: i <= i' ==> !MatchAt(path, i', j'))
    decreases |path| - i
  {
    if i < |path| {
      var e := RepoEnd(path, i + 1);
      if !(path[i] == '/' && NoNewline(path, 1, i) && MatchAt(path, i, e)) {
        SearchFromSpec(path, i + 1);
        forall j' | MatchAt(path, i, j') ensures false {
          RepoGroupUnique(path, i, j');
        }
      }
    }
  }

  /** The span of the two groups of the full match, or None when the path does not match. */
  function FullMatch(path: string): (m: Option<(nat, nat)>)
    ensures m.Some? ==> 0 < m.value.0 && m.value.0 + 1 < m.value.1 <= |path|
  {
    if |path| > 0 && path[0] == '/' then SearchFrom(path, 1) else None
  }

  /** `re.fullmatch` succeeds exactly when some split matches, and then group 1 is the shortest. */
  lemma FullMatchSpec(path: string)
    ensures var m := FullMatch(path);
      (m.Some? ==> MatchAt(path, m.value.0, m.value.1)) &&
      (m.Some? ==> forall i', j' :: MatchAt(path, i', j') ==> m.value.0 <= i') &&
      (m.None? ==> forall i', j' :: !MatchAt(path, i', j'))
  {
    if |path| > 0 && path[0] == '/' {
      SearchFromSpec(path, 1);
    }
  }

  /** `s.removesuffix(".git")`. */
  function RemoveGitSuffix(s: string): string
  {
    if |s| >= 4 && s[|s| - 4..] == ".git" then s[..|s| - 4] else s
  }

  /** The f-string of line 48 over the match groups, or None when there is no match. */
  function OwnerAndRepo(path: string): Option<string>
  {
    match FullMatch(path)
    case None => None
    case Some((i, j)) => Some(path[1..i] + "/" + RemoveGitSuffix(path[i + 1..j]))
  }

  /**
   * When group 1 can end at i and at no earlier position, the slug is that owner,
   * a slash, and the whole run of repository characters after it without one ".git".
   */
  lemma {:induction false} OwnerAndRepoOfMatch(path: string, i: int, j: int)
    requires MatchAt(path, i, j)
    requires forall i', j' :: MatchAt(path, i', j') ==> i <= i'
    ensures OwnerAndRepo(path) == Some(path[1..i] + "/" + RemoveGitSuffix(path[i + 1..j]))
  {
    var m := FullMatch(path);
    FullMatchSpec(path);
    assert m.Some?;
    RepoGroupUnique(path, i, j);
    RepoGroupUnique(path, m.value.0, m.value.1);
  }

  /** The slug is None exactly when no split of the path satisfies the pattern. */
  lemma OwnerAndRepoNone(path: string)
    ensures OwnerAndRepo(path) == None <==> forall i, j :: !MatchAt(path, i, j)
  {
    FullMatchSpec(path);
  }

  /** The repository part of a slug is non-empty in the path and drawn from `[A-Za-z0-9_.-]`. */
  lemma OwnerAndRepoShape(path: string)
    requires OwnerAndRepo(path).Some?
    ensures exists i, j :: MatchAt(path, i, j) && OwnerAndRepo(path).value == path[1..i] + "/" + RemoveGitSuffix(path[i + 1..j])
  {
    var m := FullMatch(path);
    FullMatchSpec(path);
    assert MatchAt(path, m.value.0, m.value.1);
  }

  /** Only one ".git" is removed: "x.git.git" becomes "x.git". */
  lemma RemoveGitSuffixOnce(s: string)
    ensures RemoveGitSuffix(s + ".git") == s
    ensures RemoveGitSuffix(s + ".git.git") == s + ".git"
  {
    assert (s + ".git")[|s + ".git"| - 4..] == ".git";
    assert (s + ".git")[..|s + ".git"| - 4] == s;
    assert (s + ".git.git") == (s + ".git") + ".git";
  }

  lemma ExampleOrdinary()
    ensures OwnerAndRepo("/psf/requests") == Some("psf/requests")
  {
    OrdinaryMatch();
    OrdinaryOwnerIsShortest();
    OwnerAndRepoOfMatch("/psf/requests", 4, 13);
    OrdinaryGroups();
  }

  lemma OrdinaryGroups()
    ensures var p := "/psf/requests";
      p[1..4] + "/" + RemoveGitSuffix(p[5..13]) == "psf/requests"
  {
    var p := "/psf/requests";
    assert p[1..4] == "psf";
    assert p[5..13] == "requests";
    assert RemoveGitSuffix("requests") == "requests" by { assert "requests"[4] != '.'; }
    assert "psf" + "/" + "requests" == "psf/requests";
  }

  lemma OrdinaryMatch()
    ensures MatchAt("/psf/requests", 4, 13)
  {
    var p := "/psf/requests";
    assert forall k :: 5 <= k < 13 ==> IsRepoChar(p[k]);
  }

  lemma OrdinaryOwnerIsShortest()
    ensures forall i', j' :: MatchAt("/psf/requests", i', j') ==> 4 <= i'
  {
    var p := "/psf/requests";
    forall i', j' | MatchAt(p, i', j') ensures 4 <= i' {
      assert p[i'] == '/';
    }
  }

  /** An empty owner is accepted: the lazy group may match nothing. */
  lemma ExampleEmptyOwner()
    ensures OwnerAndRepo("//x") == Some("/x")
  {
    var p := "//x";
    assert p[1..1] == "";
    assert p[2..3] == "x";
    assert "" + "/" + RemoveGitSuffix("x") == "/x";
    OwnerAndRepoOfMatch(p, 1, 3);
  }

  /** After backtracking the owner may itself contain a slash. */
  lemma ExampleOwnerWithSlash()
    ensures OwnerAndRepo("/a/b!/c") == Some("a/b!/c")
  {
    var p := "/a/b!/c";
    assert p[1..5] == "a/b!";
    assert p[6..7] == "c";
    assert "a/b!" + "/" + RemoveGitSuffix("c") == "a/b!/c";
    forall i', j' | 0 < i' < 5 ensures !MatchAt(p, i', j') {
      if i' == 2 && 3 < j' {
        assert !IsRepoChar(p[4]);
      }
    }
    OwnerAndRepoOfMatch(p, 5, 7);
  }

  /** An organisation page has no repository part and does not match. */
  lemma ExampleOwnerOnly()
    ensures OwnerAndRepo("/psf") == None
  {
    var p := "/psf";
    FullMatchSpec(p);
    forall i', j' | MatchAt(p, i', j') ensures false {
    }
  }
}
