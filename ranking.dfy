/**
 * The final ordering of analyze.py: `sorted(rows, key=lambda row: -row["dl_to_s_ratio"])`,
 * a stable sort by descending ratio. The model is an insertion sort over values.
 */
module Ranking {
  import opened Ratios

  /** One row written to the `package` table: name, downloads, stars and dl_to_s_ratio. */
  datatype OutputRow = OutputRow(name: string, downloads: nat, stars: nat, ratio: Ratio)

  predicate AllProper(s: seq<OutputRow>)
  {
    forall i :: 0 <= i < |s| ==> Proper(s[i].ratio)
  }

  /** Every row's ratio is at least that of every later row. */
  predicate Descending(s: seq<OutputRow>)
  {
    forall i, j :: 0 <= i < j < |s| ==> AtMost(s[j].ratio, s[i].ratio)
  }

  /** The rows whose ratio equals q, in their order in s. */
  function WithRatio(s: seq<OutputRow>, q: Ratio): (r: seq<OutputRow>)
    ensures |r| <= |s|
  {
    if s == [] then []
    else if Same(s[0].ratio, q) then [s[0]] + WithRatio(s[1..], q)
    else WithRatio(s[1..], q)
  }

  /** Puts x after every row with a strictly larger ratio and before the others. */
  function Insert(x: OutputRow, s: seq<OutputRow>): seq<OutputRow>
  {
    if s == [] || AtMost(s[0].ratio, x.ratio) then [x] + s
    else [s[0]] + Insert(x, s[1..])
  }

  /** The stable descending sort. */
  function SortByRatio(s: seq<OutputRow>): seq<OutputRow>
  {
    if s == [] then [] else Insert(s[0], SortByRatio(s[1..]))
  }

  lemma {:induction false} InsertPermutes(x: OutputRow, s: seq<OutputRow>)
    ensures multiset(Insert(x, s)) == multiset(s) + multiset{x}
  {
    if s != [] && !AtMost(s[0].ratio, x.ratio) {
      InsertPermutes(x, s[1..]);
      assert s == [s[0]] + s[1..];
    }
  }

  lemma {:induction false} InsertDescending(x: OutputRow, s: seq<OutputRow>)
    requires Proper(x.ratio) && AllProper(s) && Descending(s)
    ensures Descending(Insert(x, s))
  {
    if s == [] || AtMost(s[0].ratio, x.ratio) {
      var r := [x] + s;
      forall i, j | 0 <= i < j < |r| ensures AtMost(r[j].ratio, r[i].ratio) {
        if i == 0 {
          if j > 1 { AtMostTransitive(s[j - 1].ratio, s[0].ratio, x.ratio); }
        }
      }
    } else {
      var t := Insert(x, s[1..]);
      InsertDescending(x, s[1..]);
      InsertPermutes(x, s[1..]);
      var r := [s[0]] + t;
      forall j | 0 < j < |r| ensures AtMost(r[j].ratio, s[0].ratio) {
        assert r[j] in multiset(t);
        assert r[j] in multiset(s[1..]) + multiset{x};
        if r[j] != x {
          assert r[j] in s[1..];
          var k :| 0 <= k < |s[1..]| && s[1..][k] == r[j];
          assert s[k + 1] == r[j];
        }
      }
    }
  }

  /** Insert keeps, for each ratio value, the order of the rows having it, and puts x first among them. */
  lemma {:induction false} InsertStable(x: OutputRow, s: seq<OutputRow>, q: Ratio)
    requires Proper(x.ratio) && AllProper(s) && Proper(q)
    ensures WithRatio(Insert(x, s), q) == if Same(x.ratio, q) then [x] + WithRatio(s, q) else WithRatio(s, q)
  {
    if s == [] || AtMost(s[0].ratio, x.ratio) {
      assert ([x] + s)[1..] == s;
    } else {
      InsertStable(x, s[1..], q);
      assert ([s[0]] + Insert(x, s[1..]))[1..] == Insert(x, s[1..]);
      if Same(x.ratio, q) {
        AboveIsNotSame(s[0].ratio, x.ratio, q);
      }
    }
  }

  /** The result is a permutation of the rows. */
  lemma {:induction false} SortPermutes(s: seq<OutputRow>)
    ensures multiset(SortByRatio(s)) == multiset(s)
  {
    if s != [] {
      SortPermutes(s[1..]);
      InsertPermutes(s[0], SortByRatio(s[1..]));
      assert s == [s[0]] + s[1..];
    }
  }

  lemma SortedRowsAreProper(s: seq<OutputRow>)
    requires AllProper(s)
    ensures AllProper(SortByRatio(s))
  {
    var r := SortByRatio(s);
    SortPermutes(s);
    forall i | 0 <= i < |r| ensures Proper(r[i].ratio) {
      assert r[i] in multiset(s);
    }
  }

  /** The result is ordered by non-increasing ratio. */
  lemma {:induction false} SortDescending(s: seq<OutputRow>)
    requires AllProper(s)
    ensures Descending(SortByRatio(s))
  {
    if s != [] {
      SortDescending(s[1..]);
      SortedRowsAreProper(s[1..]);
      InsertDescending(s[0], SortByRatio(s[1..]));
    }
  }

  /** Stability: rows with equal ratios keep the order they had before sorting. */
  lemma {:induction false} SortStable(s: seq<OutputRow>, q: Ratio)
    requires AllProper(s) && Proper(q)
    ensures WithRatio(SortByRatio(s), q) == WithRatio(s, q)
  {
    if s != [] {
      SortStable(s[1..], q);
      SortedRowsAreProper(s[1..]);
      InsertStable(s[0], SortByRatio(s[1..]), q);
    }
  }
}
