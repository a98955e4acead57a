/** The last stage of `processGitStats`: the entries of the table sorted by number of changes,
    most changed first, cut to the first fifty and collected into an insertion-ordered map. */
module Ranking {
  import opened Stats

  /** One `Map.Entry<String, Integer[]>`. */
  type Entry = (string, FileStats)

  /** The argument of `limit`. */
  const TopN: nat := 50

  function Min(a: nat, b: nat): nat
  {
    if a <= b then a else b
  }

  predicate DistinctNames(s: seq<Entry>)
  {
    forall i, j :: 0 <= i < j < |s| ==> s[i].0 != s[j].0
  }

  /** The order of the comparator `comparingInt(a -> -a[0])`: changes never increase. */
  predicate ByChangesDescending(s: seq<Entry>)
  {
    forall i, j :: 0 <= i < j < |s| ==> s[i].1.changes >= s[j].1.changes
  }

  /** `es` lists every entry of `m` exactly once: what iterating `m.entrySet()` yields. */
  ghost predicate Enumerates(es: seq<Entry>, m: map<string, FileStats>)
  {
    && DistinctNames(es)
    && (forall i :: 0 <= i < |es| ==> es[i].0 in m && m[es[i].0] == es[i].1)
    && (forall k :: k in m ==> exists i :: 0 <= i < |es| && es[i].0 == k)
  }

  /** What the returned `LinkedHashMap` is, independently of how it is computed: at most fifty
      entries of the table, as many as there are up to fifty, each file once with its own totals,
      in non-increasing order of changes, and no omitted file changed more often than a listed one. */
  ghost predicate IsRanking(m: map<string, FileStats>, r: seq<Entry>)
  {
    && |r| == Min(TopN, |m|)
    && (forall i :: 0 <= i < |r| ==> r[i].0 in m && m[r[i].0] == r[i].1)
    && DistinctNames(r)
    && ByChangesDescending(r)
    && (forall k, i :: k in m && 0 <= i < |r| && (forall j :: 0 <= j < |r| ==> r[j].0 != k) ==>
          m[k].changes <= r[i].1.changes)
  }

  /** One step of a stable sort on the comparator: `e` goes before the first entry with no more
      changes than `e`; since `e` is the earlier input element, equal counts keep their order. */
  function Insert(e: Entry, s: seq<Entry>): (r: seq<Entry>)
    ensures |r| == |s| + 1
    ensures multiset(r) == multiset{e} + multiset(s)
  {
    if |s| == 0 then [e]
    else if e.1.changes >= s[0].1.changes then [e] + s
    else
      assert s == [s[0]] + s[1..];
      [s[0]] + Insert(e, s[1..])
  }

  /** `stream().sorted(cmp)`: sorting by changes, most changed first. */
  function SortByChanges(s: seq<Entry>): (r: seq<Entry>)
    ensures |r| == |s|
    ensures multiset(r) == multiset(s)
  {
    if |s| == 0 then []
    else
      assert s == [s[0]] + s[1..];
      Insert(s[0], SortByChanges(s[1..]))
  }

  /** `limit(n)`: the first `n` entries, or all of them when there are fewer. */
  function Limit(s: seq<Entry>, n: nat): seq<Entry>
  {
    s[..Min(n, |s|)]
  }

  function NamesOf(s: seq<Entry>): set<string>
  {
    set i | 0 <= i < |s| :: s[i].0
  }

  /** `Collectors.toMap(getKey, getValue, (e1, e2) -> e1, LinkedHashMap::new)`: entries in
      encounter order, a repeated key keeping the value met first. */
  function CollectFirstWins(s: seq<Entry>): (r: seq<Entry>)
    ensures DistinctNames(r)
    ensures NamesOf(r) == NamesOf(s)
  {
    if |s| == 0 then []
    else
      var c := CollectFirstWins(s[..|s| - 1]);
      var e := s[|s| - 1];
      assert NamesOf(s) == NamesOf(s[..|s| - 1]) + {e.0} by {
        assert forall i :: 0 <= i < |s| - 1 ==> s[..|s| - 1][i] == s[i];
      }
      if e.0 in NamesOf(c) then c
      else
        assert NamesOf(c + [e]) == NamesOf(c) + {e.0} by {
          assert forall i :: 0 <= i < |c| ==> (c + [e])[i] == c[i];
          assert (c + [e])[|c|] == e;
        }
        c + [e]
  }

  /** The whole pipeline after the table is filled. */
  function Rank(es: seq<Entry>): seq<Entry>
  {
    CollectFirstWins(Limit(SortByChanges(es), TopN))
  }

  // Sorting

  lemma {:induction false} InsertSorted(e: Entry, s: seq<Entry>)
    requires ByChangesDescending(s)
    ensures ByChangesDescending(Insert(e, s))
  {
    if |s| > 0 && e.1.changes < s[0].1.changes {
      InsertSorted(e, s[1..]);
      var t := Insert(e, s[1..]);
      forall x: Entry | x in multiset(t)
        ensures x.1.changes <= s[0].1.changes
      {
        assert x in multiset{e} + multiset(s[1..]);
        if x != e {
          assert x in s[1..];
        }
      }
      forall j | 0 <= j < |t|
        ensures s[0].1.changes >= t[j].1.changes
      {
        assert t[j] in multiset(t);
      }
    }
  }

  lemma {:induction false} SortSorted(s: seq<Entry>)
    ensures ByChangesDescending(SortByChanges(s))
  {
    if |s| > 0 {
      SortSorted(s[1..]);
      InsertSorted(s[0], SortByChanges(s[1..]));
    }
  }

  /** Names and distinctness of a sequence built from its first entry and the rest. */
  lemma {:induction false} NamesCons(x: Entry, t: seq<Entry>)
    ensures NamesOf([x] + t) == {x.0} + NamesOf(t)
    ensures DistinctNames([x] + t) <==> DistinctNames(t) && x.0 !in NamesOf(t)
  {
    var r := [x] + t;
    assert r[0] == x;
    assert forall i :: 0 <= i < |t| ==> r[i + 1] == t[i];
    assert forall j :: 0 < j < |r| ==> r[j] == t[j - 1];
  }

  /** Names and distinctness of a sequence with one more entry at the end. */
  lemma {:induction false} NamesSnoc(t: seq<Entry>, x: Entry)
    ensures NamesOf(t + [x]) == NamesOf(t) + {x.0}
    ensures DistinctNames(t + [x]) <==> DistinctNames(t) && x.0 !in NamesOf(t)
    ensures forall i :: 0 <= i < |t| ==> (t + [x])[i] == t[i]
    ensures (t + [x])[|t|] == x
  {
    var r := t + [x];
    assert forall i :: 0 <= i < |t| ==> r[i] == t[i];
    assert r[|t|] == x;
  }

  /** Inserting an entry with a new name keeps the names distinct and adds that name. */
  lemma {:induction false} InsertNames(e: Entry, s: seq<Entry>)
    requires DistinctNames(s) && e.0 !in NamesOf(s)
    ensures DistinctNames(Insert(e, s))
    ensures NamesOf(Insert(e, s)) == NamesOf(s) + {e.0}
  {
    if |s| == 0 {
      assert Insert(e, s) == [e] + s;
      NamesCons(e, s);
    } else if e.1.changes >= s[0].1.changes {
      NamesCons(e, s);
    } else {
      var t := s[1..];
      assert s == [s[0]] + t;
      NamesCons(s[0], t);
      InsertNames(e, t);
      NamesCons(s[0], Insert(e, t));
    }
  }

  /** Sorting keeps the names, and keeps them distinct. */
  lemma {:induction false} SortNames(s: seq<Entry>)
    requires DistinctNames(s)
    ensures DistinctNames(SortByChanges(s))
    ensures NamesOf(SortByChanges(s)) == NamesOf(s)
  {
    if |s| > 0 {
      var t := s[1..];
      assert s == [s[0]] + t;
      NamesCons(s[0], t);
      SortNames(t);
      InsertNames(s[0], SortByChanges(t));
    }
  }

  // Ranking

  /** The sorted entries still enumerate the table. */
  lemma {:induction false} SortEnumerates(m: map<string, FileStats>, es: seq<Entry>)
    requires Enumerates(es, m)
    ensures Enumerates(SortByChanges(es), m)
  {
    var sorted := SortByChanges(es);
    SortNames(es);
    forall i | 0 <= i < |sorted|
      ensures sorted[i].0 in m && m[sorted[i].0] == sorted[i].1
    {
      assert sorted[i] in multiset(es);
    }
    forall k | k in m
      ensures exists i :: 0 <= i < |sorted| && sorted[i].0 == k
    {
      var p :| 0 <= p < |es| && es[p].0 == k;
      assert es[p].0 in NamesOf(es);
      assert k in NamesOf(sorted);
    }
  }

  /** The first fifty of a sorted enumeration form a ranking. */
  lemma {:induction false} PrefixRanking(m: map<string, FileStats>, s: seq<Entry>)
    requires Enumerates(s, m) && ByChangesDescending(s)
    ensures IsRanking(m, Limit(s, TopN))
  {
    EnumerationSize(s, m);
    var r := Limit(s, TopN);
    PrefixKeepsEntries(m, s, r);
    PrefixDominates(m, s, r);
  }

  /** A prefix of a sorted enumeration lists entries of the table, once each, in order. */
  lemma {:induction false} PrefixKeepsEntries(m: map<string, FileStats>, s: seq<Entry>, r: seq<Entry>)
    requires Enumerates(s, m) && ByChangesDescending(s) && |r| <= |s| && r == s[..|r|]
    ensures forall i :: 0 <= i < |r| ==> r[i].0 in m && m[r[i].0] == r[i].1
    ensures DistinctNames(r) && ByChangesDescending(r)
  {
    assert forall i :: 0 <= i < |r| ==> r[i] == s[i];
  }

  /** No entry left out of a prefix of a sorted enumeration has more changes than one in it. */
  lemma {:induction false} PrefixDominates(m: map<string, FileStats>, s: seq<Entry>, r: seq<Entry>)
    requires Enumerates(s, m) && ByChangesDescending(s) && |r| <= |s| && r == s[..|r|]
    ensures forall k, i :: k in m && 0 <= i < |r| && (forall j :: 0 <= j < |r| ==> r[j].0 != k) ==>
              m[k].changes <= r[i].1.changes
  {
    forall k, i | k in m && 0 <= i < |r| && (forall j :: 0 <= j < |r| ==> r[j].0 != k)
      ensures m[k].changes <= r[i].1.changes
    {
      var q :| 0 <= q < |s| && s[q].0 == k;
      assert r[i] == s[i];
    }
  }

  /** Ranking an enumeration of a table gives what `IsRanking` describes. */
  lemma {:induction false} RankIsRanking(m: map<string, FileStats>, es: seq<Entry>)
    requires Enumerates(es, m)
    ensures IsRanking(m, Rank(es))
  {
    var sorted := SortByChanges(es);
    SortSorted(es);
    SortEnumerates(m, es);
    PrefixRanking(m, sorted);
    CollectDistinct(Limit(sorted, TopN));
  }

  /** An enumeration of a table is as long as the table. */
  lemma {:induction false} EnumerationSize(es: seq<Entry>, m: map<string, FileStats>)
    requires Enumerates(es, m)
    ensures |es| == |m|
  {
    NamesCount(es);
    assert NamesOf(es) == m.Keys;
  }

  /** Without repeated names, a sequence has as many names as entries. */
  lemma {:induction false} NamesCount(s: seq<Entry>)
    requires DistinctNames(s)
    ensures |NamesOf(s)| == |s|
  {
    if |s| > 0 {
      var init := s[..|s| - 1];
      NamesCount(init);
      assert NamesOf(s) == NamesOf(init) + {s[|s| - 1].0} by {
        assert forall i :: 0 <= i < |s| - 1 ==> init[i] == s[i];
      }
      assert s[|s| - 1].0 !in NamesOf(init);
    }
  }

  /** Collecting entries whose names are already distinct keeps them as they were. */
  lemma {:induction false} CollectDistinct(s: seq<Entry>)
    requires DistinctNames(s)
    ensures CollectFirstWins(s) == s
  {
    if |s| > 0 {
      var init := s[..|s| - 1];
      CollectDistinct(init);
      assert s[|s| - 1].0 !in NamesOf(init);
      assert init + [s[|s| - 1]] == s;
    }
  }

  /** The first entry of a non-empty ranking is a most-changed file of the table. */
  lemma {:induction false} FirstIsMax(m: map<string, FileStats>, r: seq<Entry>, k: string)
    requires IsRanking(m, r) && k in m
    ensures |r| > 0 && m[k].changes <= r[0].1.changes
  {
    if forall j :: 0 <= j < |r| ==> r[j].0 != k {
    } else {
      var j :| 0 <= j < |r| && r[j].0 == k;
    }
  }

  /** An empty table has an empty ranking, and only it does. */
  lemma {:induction false} EmptyRanking(m: map<string, FileStats>, r: seq<Entry>)
    requires IsRanking(m, r)
    ensures |r| == 0 <==> |m| == 0
  {
  }

  /** The ranking is the whole table when it has at most fifty files. */
  lemma {:induction false} SmallTableComplete(m: map<string, FileStats>, r: seq<Entry>, k: string)
    requires IsRanking(m, r) && |m| <= TopN && k in m
    ensures exists i :: 0 <= i < |r| && r[i].0 == k
  {
    var names := NamesOf(r);
    NamesCount(r);
    assert names <= m.Keys;
    if k !in names {
      assert names + {k} <= m.Keys;
      assert |names + {k}| == |names| + 1;
      SubsetSize(names + {k}, m.Keys);
    }
  }

  /** A subset is no larger than its superset. */
  lemma {:induction false} SubsetSize(a: set<string>, b: set<string>)
    requires a <= b
    ensures |a| <= |b|
    decreases |a|
  {
    if |a| > 0 {
      var x :| x in a;
      SubsetSize(a - {x}, b - {x});
    }
  }
}
