/** The per-file accumulation of `processGitStats`: the `Integer[]{changes, lines}` pair,
    `mapMerge`, and the table that a sequence of merges builds. */
module Stats {

  /** The pair stored per file: how many log lines named it, and the sum of their counts. */
  datatype FileStats = FileStats(changes: int, lines: int)

  const NoStats: FileStats := FileStats(0, 0)

  /** One call `mapMerge(ret, name, value)`. */
  type MergeOp = (string, FileStats)

  /** The remapping function given to `Map.merge`: `a[0] += b[0]; a[1] += b[1]`. */
  function Plus(x: FileStats, y: FileStats): FileStats
  {
    FileStats(x.changes + y.changes, x.lines + y.lines)
  }

  /** `Map.merge(key, value, remap)` as `mapMerge` uses it: an absent key receives `value`
      as it is, a present key the componentwise sum, and no other key changes. */
  function Merge(m: map<string, FileStats>, key: string, value: FileStats): (r: map<string, FileStats>)
    ensures r.Keys == m.Keys + {key}
    ensures key !in m ==> r[key] == value
    ensures key in m ==> r[key].changes == m[key].changes + value.changes && r[key].lines == m[key].lines + value.lines
    ensures forall k :: k in m && k != key ==> r[k] == m[k]
  {
    m[key := if key in m then Plus(m[key], value) else value]
  }

  /** The `HashMap<String, Integer[]>` that `processGitStats` fills in place. */
  class StatsTable {
    var entries: map<string, FileStats>

    constructor ()
      ensures entries == map[]
    {
      entries := map[];
    }

    /** `mapMerge(map, key, value)`: updates the stored pair of `key` in place. */
    method MapMerge(key: string, value: FileStats)
      modifies this
      ensures entries == Merge(old(entries), key, value)
    {
      if key in entries {
        var a := entries[key];
        entries := entries[key := FileStats(a.changes + value.changes, a.lines + value.lines)];
      } else {
        entries := entries[key := value];
      }
    }
  }

  /** Merges commute: the order in which two pairs reach the table does not matter. */
  lemma {:induction false} MergeCommutes(m: map<string, FileStats>, k1: string, v1: FileStats, k2: string, v2: FileStats)
    ensures Merge(Merge(m, k1, v1), k2, v2) == Merge(Merge(m, k2, v2), k1, v1)
  {
    if k1 != k2 {
      var l, r := Merge(Merge(m, k1, v1), k2, v2), Merge(Merge(m, k2, v2), k1, v1);
      assert forall k :: k in l ==> l[k] == r[k];
    }
  }

  /** Merging `{0, 0}` into a present entry leaves the table as it is. */
  lemma {:induction false} MergeZero(m: map<string, FileStats>, key: string)
    requires key in m
    ensures Merge(m, key, NoStats) == m
  {
    assert Plus(m[key], NoStats) == m[key];
  }

  /** The sequence of merges of the unit test: sums are exact, negative pairs subtract,
      and `{0, 0}` changes nothing. */
  lemma {:induction false} MergeTestSequence()
    ensures var m1 := Merge(map[], "key", FileStats(1, 1));
            var m2 := Merge(m1, "key", FileStats(1, 10));
            var m3 := Merge(m2, "key", FileStats(2, 2));
            var m4 := Merge(m3, "key", FileStats(-2, -2));
            var m5 := Merge(m4, "key", FileStats(0, 0));
            && m1["key"] == FileStats(1, 1) && m2["key"] == FileStats(2, 11)
            && m3["key"] == FileStats(4, 13) && m4["key"] == FileStats(2, 11)
            && m5["key"] == FileStats(2, 11)
  {
  }

  /** The table after merging the operations in order, starting from an empty map. */
  function Accumulate(ops: seq<MergeOp>): map<string, FileStats>
  {
    if |ops| == 0 then map[]
    else Merge(Accumulate(ops[..|ops| - 1]), ops[|ops| - 1].0, ops[|ops| - 1].1)
  }

  /** The table after one more merge. */
  lemma {:induction false} AccumulateSnoc(ops: seq<MergeOp>, op: MergeOp)
    ensures Accumulate(ops + [op]) == Merge(Accumulate(ops), op.0, op.1)
  {
    assert (ops + [op])[..|ops|] == ops;
  }

  /** The table after two merges. */
  lemma {:induction false} AccumulatePair(op1: MergeOp, op2: MergeOp)
    ensures Accumulate([op1, op2]) == Merge(Merge(map[], op1.0, op1.1), op2.0, op2.1)
  {
    assert [op1, op2][..1] == [op1];
    assert [op1][..0] == [];
    assert Accumulate([op1]) == Merge(map[], op1.0, op1.1);
    assert Accumulate([op1, op2]) == Merge(Accumulate([op1]), op2.0, op2.1);
  }

  /** Reference definition of one key's total, independent of any table: the sum of the
      pairs merged under that key. */
  function Tally(ops: seq<MergeOp>, key: string): FileStats
  {
    if |ops| == 0 then NoStats
    else Plus(if ops[0].0 == key then ops[0].1 else NoStats, Tally(ops[1..], key))
  }

  /** The tally of an operation followed by more. */
  lemma {:induction false} TallyCons(op: MergeOp, ops: seq<MergeOp>, key: string)
    ensures Tally([op] + ops, key) == Plus(if op.0 == key then op.1 else NoStats, Tally(ops, key))
  {
    assert ([op] + ops)[0] == op;
    assert ([op] + ops)[1..] == ops;
  }

  /** Tallies add up over consecutive batches. */
  lemma {:induction false} TallyAppend(a: seq<MergeOp>, b: seq<MergeOp>, key: string)
    ensures Tally(a + b, key) == Plus(Tally(a, key), Tally(b, key))
  {
    if |a| == 0 {
      assert a + b == b;
    } else {
      assert (a + b)[0] == a[0];
      assert (a + b)[1..] == a[1..] + b;
      TallyAppend(a[1..], b, key);
      PlusAssoc(if a[0].0 == key then a[0].1 else NoStats, Tally(a[1..], key), Tally(b, key));
    }
  }

  /** The keys the operations name. */
  function KeysOf(ops: seq<MergeOp>): set<string>
  {
    if |ops| == 0 then {} else {ops[0].0} + KeysOf(ops[1..])
  }

  /** Keys of consecutive batches. */
  lemma {:induction false} KeysOfAppend(a: seq<MergeOp>, b: seq<MergeOp>)
    ensures KeysOf(a + b) == KeysOf(a) + KeysOf(b)
  {
    if |a| == 0 {
      assert a + b == b;
    } else {
      assert (a + b)[0] == a[0];
      assert (a + b)[1..] == a[1..] + b;
      KeysOfAppend(a[1..], b);
    }
  }

  /** A key names some operation exactly when it is the key of one of them. */
  lemma {:induction false} KeysOfMembers(ops: seq<MergeOp>, key: string)
    ensures key in KeysOf(ops) <==> exists i :: 0 <= i < |ops| && ops[i].0 == key
  {
    if |ops| > 0 {
      KeysOfMembers(ops[1..], key);
      if key in KeysOf(ops[1..]) {
        var i :| 0 <= i < |ops[1..]| && ops[1..][i].0 == key;
        assert ops[i + 1] == ops[1..][i];
      }
      if exists i :: 0 <= i < |ops| && ops[i].0 == key {
        var i :| 0 <= i < |ops| && ops[i].0 == key;
        if i > 0 {
          assert ops[1..][i - 1] == ops[i];
        }
      }
    }
  }

  /** The table holds exactly the keys that some operation named. */
  lemma {:induction false} AccumulateKeys(ops: seq<MergeOp>)
    ensures Accumulate(ops).Keys == KeysOf(ops)
  {
    if |ops| > 0 {
      var init, last := ops[..|ops| - 1], ops[|ops| - 1];
      AccumulateKeys(init);
      KeysOfAppend(init, [last]);
      assert init + [last] == ops;
      assert KeysOf([last]) == {last.0};
    }
  }

  /** The table holds a key exactly when some operation named it, and then holds the sum of all
      pairs merged under it. */
  lemma {:induction false} AccumulatePerKey(ops: seq<MergeOp>, key: string)
    ensures key in Accumulate(ops) <==> key in KeysOf(ops)
    ensures key in Accumulate(ops) ==> Accumulate(ops)[key] == Tally(ops, key)
  {
    AccumulateKeys(ops);
    if |ops| > 0 {
      AccumulatePerKey(ops[..|ops| - 1], key);
      PerKeyStep(ops, key);
    }
  }

  /** One more merge keeps the per-key value. */
  lemma {:induction false} PerKeyStep(ops: seq<MergeOp>, key: string)
    requires |ops| > 0
    requires var init := ops[..|ops| - 1];
      key in Accumulate(init) ==> Accumulate(init)[key] == Tally(init, key)
    ensures key in Accumulate(ops) ==> Accumulate(ops)[key] == Tally(ops, key)
  {
    var init, last := ops[..|ops| - 1], ops[|ops| - 1];
    assert init + [last] == ops;
    var before, after := Accumulate(init), Accumulate(ops);
    TallyAppend(init, [last], key);
    TallySingleton(last, key);
    AccumulateKeys(init);
    if key != last.0 {
      PlusZero(Tally(init, key));
    } else if key in before {
      assert after[key] == Plus(before[key], last.1);
    } else {
      TallyUnmentioned(init, key);
      PlusZero(last.1);
    }
  }

  /** A key that no operation names has a zero tally. */
  lemma {:induction false} TallyUnmentioned(ops: seq<MergeOp>, key: string)
    requires key !in KeysOf(ops)
    ensures Tally(ops, key) == NoStats
  {
    if |ops| > 0 {
      TallyUnmentioned(ops[1..], key);
    }
  }

  /** Tallies depend only on which operations occur how often, not on their order. */
  lemma {:induction false} TallyPermutation(a: seq<MergeOp>, b: seq<MergeOp>, key: string)
    requires multiset(a) == multiset(b)
    ensures Tally(a, key) == Tally(b, key)
    decreases |a|
  {
    if |a| == 0 {
      assert |b| == |multiset(b)| == 0;
    } else {
      assert a[0] in multiset(b);
      var j :| 0 <= j < |b| && b[j] == a[0];
      RemoveOne(a, b, j);
      TallyPermutation(a[1..], b[..j] + b[j + 1..], key);
      TallyRemove(b, j, key);
    }
  }

  /** Removing the first element of `a` and a copy of it from `b` keeps them permutations. */
  lemma {:induction false} RemoveOne<T>(a: seq<T>, b: seq<T>, j: nat)
    requires multiset(a) == multiset(b) && 0 < |a| && j < |b| && b[j] == a[0]
    ensures multiset(a[1..]) == multiset(b[..j] + b[j + 1..])
  {
    var x := a[0];
    assert a == [x] + a[1..];
    assert b == b[..j] + [x] + b[j + 1..];
    calc {
      multiset(a[1..]);
      multiset(a) - multiset{x};
      multiset(b) - multiset{x};
      multiset(b[..j]) + multiset(b[j + 1..]);
      multiset(b[..j] + b[j + 1..]);
    }
  }

  /** The tally of `b` is that of `b` without its `j`-th operation plus that operation's share. */
  lemma {:induction false} TallyRemove(b: seq<MergeOp>, j: nat, key: string)
    requires j < |b|
    ensures Tally(b, key) == Plus(if b[j].0 == key then b[j].1 else NoStats, Tally(b[..j] + b[j + 1..], key))
  {
    var before, x, after := b[..j], b[j], b[j + 1..];
    assert b == (before + [x]) + after;
    TallyAppend(before + [x], after, key);
    TallyAppend(before, [x], key);
    TallyAppend(before, after, key);
    TallySingleton(x, key);
    PlusSwap(Tally(before, key), Tally([x], key), Tally(after, key));
  }

  /** One operation's share of a tally. */
  lemma {:induction false} TallySingleton(x: MergeOp, key: string)
    ensures Tally([x], key) == if x.0 == key then x.1 else NoStats
  {
    assert |[x][1..]| == 0;
  }

  lemma {:induction false} PlusAssoc(x: FileStats, y: FileStats, z: FileStats)
    ensures Plus(Plus(x, y), z) == Plus(x, Plus(y, z))
  {
  }

  lemma {:induction false} PlusZero(x: FileStats)
    ensures Plus(x, NoStats) == x && Plus(NoStats, x) == x
  {
  }

  /** Adding a share to a total whose fields are known. */
  lemma {:induction false} AddShare(total: FileStats, share: FileStats, rest: FileStats,
                                    changes: int, lines: int, restChanges: int, restLines: int)
    requires total == Plus(share, rest)
    requires rest == FileStats(restChanges, restLines)
    requires changes == share.changes + restChanges && lines == share.lines + restLines
    ensures total == FileStats(changes, lines)
  {
  }

  lemma {:induction false} PlusSwap(x: FileStats, y: FileStats, z: FileStats)
    ensures Plus(Plus(x, y), z) == Plus(y, Plus(x, z))
  {
  }

  /** A permutation of the operations names the same keys. */
  lemma {:induction false} PermutationKeys(a: seq<MergeOp>, b: seq<MergeOp>, key: string)
    requires multiset(a) == multiset(b)
    ensures key in KeysOf(a) <==> key in KeysOf(b)
  {
    KeysOfMembers(a, key);
    KeysOfMembers(b, key);
    if key in KeysOf(a) {
      var i :| 0 <= i < |a| && a[i].0 == key;
      assert a[i] in multiset(b);
      var j :| 0 <= j < |b| && b[j] == a[i];
    }
    if key in KeysOf(b) {
      var i :| 0 <= i < |b| && b[i].0 == key;
      assert b[i] in multiset(a);
      var j :| 0 <= j < |a| && a[j] == b[i];
    }
  }

  /** The final table does not depend on the order of the merges. */
  lemma {:induction false} AccumulateOrderIndependent(a: seq<MergeOp>, b: seq<MergeOp>)
    requires multiset(a) == multiset(b)
    ensures Accumulate(a) == Accumulate(b)
  {
    forall key
      ensures (key in Accumulate(a) <==> key in Accumulate(b))
      ensures key in Accumulate(a) ==> Accumulate(a)[key] == Accumulate(b)[key]
    {
      AccumulatePerKey(a, key);
      AccumulatePerKey(b, key);
      PermutationKeys(a, b, key);
      TallyPermutation(a, b, key);
    }
  }
}
