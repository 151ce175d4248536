/**
 * The `pkgs` dictionary of analyze.py: an insertion-ordered map from project name to
 * its entry, updated in place by the main loop and pruned by the deletion loop.
 */
module Packages {
  import opened Wrappers
  import opened Ratios

  /** The "stars" and "dl_to_s_ratio" keys a successful package gains. */
  datatype Stats = Stats(stars: nat, ratio: Ratio)

  /** One value of `pkgs`: {"downloads": n}, plus the two keys above once annotated. */
  datatype Entry = Entry(downloads: nat, stats: Option<Stats>)

  predicate Distinct(s: seq<string>)
  {
    forall i, j :: 0 <= i < j < |s| ==> s[i] != s[j]
  }

  /** s without every name in gone, the others in their order. */
  function Without(s: seq<string>, gone: seq<string>): (r: seq<string>)
    ensures |r| <= |s|
    ensures forall x :: x in r <==> x in s && x !in gone
    ensures Distinct(s) ==> Distinct(r)
  {
    if s == [] then []
    else if s[0] in gone then Without(s[1..], gone)
    else [s[0]] + Without(s[1..], gone)
  }

  /** The position of x in s: the index of its first occurrence. */
  function Pos(s: seq<string>, x: string): (p: nat)
    requires x in s
    ensures p < |s| && s[p] == x
    ensures forall j :: 0 <= j < p ==> s[j] != x
  {
    if s[0] == x then 0 else 1 + Pos(s[1..], x)
  }

  lemma PosTail(s: seq<string>, x: string)
    requires s != [] && x in s[1..] && x != s[0]
    ensures Pos(s, x) == 1 + Pos(s[1..], x)
  {
  }

  /** x comes before y in s. */
  predicate Before(s: seq<string>, x: string, y: string)
  {
    x in s && y in s && Pos(s, x) < Pos(s, y)
  }

  /** r lists names of s in the order they have in s. */
  predicate InOrder(s: seq<string>, r: seq<string>)
  {
    forall i, j :: 0 <= i < j < |r| ==> Before(s, r[i], r[j])
  }

  lemma InOrderConsPair(s: seq<string>, t: seq<string>, keep: bool, i: int, j: int)
    requires s != [] && s[0] !in s[1..] && InOrder(s[1..], t)
    requires forall x :: x in t ==> x in s[1..]
    requires var r := if keep then [s[0]] + t else t; 0 <= i < j < |r|
    ensures var r := if keep then [s[0]] + t else t;
      Before(s, r[i], r[j])
  {
    var r := if keep then [s[0]] + t else t;
    var d := if keep then 1 else 0;
    assert r[j] == t[j - d] && t[j - d] in t;
    PosTail(s, r[j]);
    if i >= d {
      assert r[i] == t[i - d] && t[i - d] in t;
      PosTail(s, r[i]);
      assert Before(s[1..], t[i - d], t[j - d]);
    }
  }

  /** A list in the order of s[1..] stays in the order of s, also behind s[0]. */
  lemma InOrderCons(s: seq<string>, t: seq<string>, keep: bool)
    requires s != [] && s[0] !in s[1..] && InOrder(s[1..], t)
    requires forall x :: x in t ==> x in s[1..]
    ensures InOrder(s, if keep then [s[0]] + t else t)
  {
    var r := if keep then [s[0]] + t else t;
    forall i, j | 0 <= i < j < |r| ensures Before(s, r[i], r[j]) {
      InOrderConsPair(s, t, keep, i, j);
    }
  }

  /** The survivors of a deletion keep their relative order in s. */
  lemma {:induction false} WithoutKeepsOrder(s: seq<string>, gone: seq<string>)
    requires Distinct(s)
    ensures InOrder(s, Without(s, gone))
  {
    if s != [] {
      assert Distinct(s[1..]) && s[0] !in s[1..];
      WithoutKeepsOrder(s[1..], gone);
      InOrderCons(s, Without(s[1..], gone), s[0] !in gone);
    }
  }

  /** Without the empty list nothing is deleted. */
  lemma {:induction false} WithoutEmpty(s: seq<string>)
    ensures Without(s, []) == s
  {
    if s != [] {
      WithoutEmpty(s[1..]);
    }
  }

  /** Deleting the names of gone one after the other leaves s without all of them. */
  lemma {:induction false} WithoutOneMore(s: seq<string>, gone: seq<string>, k: string)
    ensures Without(s, gone + [k]) == Without(Without(s, gone), [k])
  {
    if s != [] {
      WithoutOneMore(s[1..], gone, k);
    }
  }

  lemma DistinctPrefix(s: seq<string>, j: int)
    requires Distinct(s) && 0 <= j < |s|
    ensures s[j] !in s[..j]
  {
    assert forall i :: 0 <= i < j ==> s[..j][i] == s[i];
  }

  lemma DistinctAppend(s: seq<string>, x: string)
    requires Distinct(s) && x !in s
    ensures Distinct(s + [x])
  {
  }

  lemma PrefixAppend(s: seq<string>, j: int)
    requires 0 <= j < |s|
    ensures s[..j + 1] == s[..j] + [s[j]]
  {
  }

  /** A sequence without repetitions has as many elements as its set of elements. */
  lemma {:induction false} DistinctCount(s: seq<string>)
    requires Distinct(s)
    ensures |set x | x in s| == |s|
  {
    if s != [] {
      DistinctCount(s[1..]);
      assert (set x | x in s) == {s[0]} + (set x | x in s[1..]);
    }
  }

  /** The set of names in s. */
  function Names(s: seq<string>): (r: set<string>)
    ensures forall x :: x in r <==> x in s
  {
    set x | x in s
  }

  lemma RemoveOneMore<V>(m: map<string, V>, gone: seq<string>, k: string)
    ensures (m - Names(gone)) - {k} == m - Names(gone + [k])
  {
    assert Names(gone + [k]) == Names(gone) + {k};
  }

  /** One more round of the deletion loop: toDel[j] is still present and goes. */
  lemma DeleteOneMore<V>(s: seq<string>, m: map<string, V>, toDel: seq<string>, j: nat)
    requires Distinct(toDel) && j < |toDel| && toDel[j] in m
    ensures toDel[j] in m - Names(toDel[..j])
    ensures Without(s, toDel[..j + 1]) == Without(Without(s, toDel[..j]), [toDel[j]])
    ensures m - Names(toDel[..j + 1]) == (m - Names(toDel[..j])) - {toDel[j]}
  {
    DistinctPrefix(toDel, j);
    PrefixAppend(toDel, j);
    WithoutOneMore(s, toDel[..j], toDel[j]);
    RemoveOneMore(m, toDel[..j], toDel[j]);
  }

  /** `islice(s, n)`: the first n elements, or all of them when there are fewer. */
  function Take<T>(s: seq<T>, n: nat): (r: seq<T>)
    ensures |r| <= n && |r| <= |s|
    ensures |s| <= n ==> r == s
    ensures |s| > n ==> |r| == n
    ensures forall i :: 0 <= i < |r| ==> r[i] == s[i]
    ensures forall x :: x in r ==> x in s
  {
    if |s| <= n then s else s[..n]
  }

  /** A prefix of a list in the order of s is in the order of s. */
  lemma TakeKeepsOrder(s: seq<string>, r: seq<string>, n: nat)
    requires InOrder(s, r)
    ensures InOrder(s, Take(r, n))
  {
    var t := Take(r, n);
    forall i, j | 0 <= i < j < |t| ensures Before(s, t[i], t[j]) {
      assert t[i] == r[i] && t[j] == r[j];
    }
  }

  class PackageTable {
    /** The keys in insertion order. */
    var keys: seq<string>
    var entries: map<string, Entry>

    ghost predicate Valid()
      reads this
    {
      Distinct(keys) && forall k :: k in entries <==> k in keys
    }

    constructor ()
      ensures Valid() && keys == [] && entries == map[]
    {
      keys := [];
      entries := map[];
    }

    /** `pkgs[name] = entry`: a new name goes last, a known name keeps its place. */
    method Put(name: string, entry: Entry)
      requires Valid()
      modifies this
      ensures Valid()
      ensures keys == if name in old(entries) then old(keys) else old(keys) + [name]
      ensures entries == old(entries)[name := entry]
    {
      if name !in entries {
        keys := keys + [name];
      }
      entries := entries[name := entry];
    }

    /** Lines 60-61: the package gains "stars" and "dl_to_s_ratio"; nothing else changes. */
    method Annotate(name: string, stats: Stats)
      requires Valid() && name in entries
      modifies this
      ensures Valid()
      ensures keys == old(keys)
      ensures entries == old(entries)[name := Entry(old(entries)[name].downloads, Some(stats))]
    {
      entries := entries[name := Entry(entries[name].downloads, Some(stats))];
    }

    /** `del pkgs[name]`, which the source only does for names it holds. */
    method Delete(name: string)
      requires Valid() && name in entries
      modifies this
      ensures Valid()
      ensures keys == Without(old(keys), [name])
      ensures entries == old(entries) - {name}
    {
      keys := Without(keys, [name]);
      entries := entries - {name};
    }
  }
}
