/** `processGitStats`: every `git log --stat` line that matches the stat-line pattern adds
    `{1, stringToInt(changes)}` to its file's entry of a hash map; the entries are then ranked by
    number of changes and cut to the first fifty. */
module RepoAnalyzer {
  import opened Wrappers
  import opened Chars
  import opened LineFilter
  import opened StatLine
  import opened Numbers
  import opened Stats
  import opened Ranking

  /** The merge one log line causes: `{1, stringToInt(group(2))}` under `group(1)`, or none when
      the line does not match. */
  function Contribution(line: string): (r: Option<MergeOp>)
    ensures r.Some? <==> exists g :: Matches(line, g)
    ensures r.Some? ==> r.value.1.changes == 1 && 0 <= r.value.1.lines <= MaxInt
  {
    ParseStatLineIffMatches(line);
    match ParseStatLine(line)
    case Some((name, changes)) => Some((name, FileStats(1, StringToInt(changes))))
    case None => None
  }

  /** The merges that the log lines cause, in order. */
  function Parsed(lines: seq<string>): seq<MergeOp>
  {
    if |lines| == 0 then []
    else
      match Contribution(lines[0])
      case Some(op) => [op] + Parsed(lines[1..])
      case None => Parsed(lines[1..])
  }

  /** The hash map after the loop over `lines`. */
  function Totals(lines: seq<string>): map<string, FileStats>
  {
    Accumulate(Parsed(lines))
  }

  // Reference definitions, read off the log lines directly

  /** The line matches the pattern and names the file `name`. */
  predicate Names(line: string, name: string)
  {
    ParseStatLine(line).Some? && ParseStatLine(line).value.0 == name
  }

  /** How many log lines name the file. */
  function MatchCount(lines: seq<string>, name: string): nat
  {
    if |lines| == 0 then 0
    else (if Names(lines[0], name) then 1 else 0) + MatchCount(lines[1..], name)
  }

  /** The sum of the counts that the log lines naming the file carry. */
  function MatchSum(lines: seq<string>, name: string): int
  {
    if |lines| == 0 then 0
    else (if Names(lines[0], name) then StringToInt(ParseStatLine(lines[0]).value.1) else 0)
         + MatchSum(lines[1..], name)
  }

  /** The files that some log line names. */
  function MatchedNames(lines: seq<string>): set<string>
  {
    if |lines| == 0 then {}
    else (if ParseStatLine(lines[0]).Some? then {ParseStatLine(lines[0]).value.0} else {})
         + MatchedNames(lines[1..])
  }

  // The loop

  /** `ret.entrySet()`: the entries of the table, each once, in an order the hash map chooses. */
  method EntriesOf(t: StatsTable) returns (es: seq<Entry>)
    ensures Enumerates(es, t.entries)
  {
    var m := t.entries;
    var rest := m.Keys;
    es := [];
    while rest != {}
      invariant rest <= m.Keys
      invariant NamesOf(es) == m.Keys - rest
      invariant DistinctNames(es)
      invariant forall i :: 0 <= i < |es| ==> es[i].0 in m && m[es[i].0] == es[i].1
      decreases |rest|
    {
      var k :| k in rest;
      NamesSnoc(es, (k, m[k]));
      es := es + [(k, m[k])];
      rest := rest - {k};
    }
    forall k | k in m
      ensures exists i :: 0 <= i < |es| && es[i].0 == k
    {
      assert k in NamesOf(es);
    }
  }

  /** `processGitStats(lines)`: the ranking of the files named by the matching lines, each with
      the number of lines naming it and the sum of their counts. */
  method ProcessGitStats(lines: seq<string>) returns (report: seq<Entry>)
    ensures IsRanking(Totals(lines), report)
    ensures |report| == Min(TopN, |MatchedNames(lines)|)
    ensures forall i :: 0 <= i < |report| ==>
              report[i].0 in MatchedNames(lines) &&
              report[i].1 == FileStats(MatchCount(lines, report[i].0), MatchSum(lines, report[i].0))
  {
    var ret := new StatsTable();
    for i := 0 to |lines|
      invariant ret.entries == Totals(lines[..i])
    {
      TotalsSnoc(lines[..i], lines[i]);
      assert lines[..i + 1] == lines[..i] + [lines[i]];
      match ParseStatLine(lines[i])
      case Some((name, changes)) =>
        ret.MapMerge(name, FileStats(1, StringToInt(changes)));
      case None =>
    }
    assert lines[..|lines|] == lines;
    var es := EntriesOf(ret);
    RankIsRanking(ret.entries, es);
    report := Rank(es);
    TotalsKeys(lines);
    forall i | 0 <= i < |report|
      ensures report[i].1 == FileStats(MatchCount(lines, report[i].0), MatchSum(lines, report[i].0))
    {
      TotalsPerName(lines, report[i].0);
    }
  }

  // What the table is

  lemma {:induction false} ParsedAppend(a: seq<string>, b: seq<string>)
    ensures Parsed(a + b) == Parsed(a) + Parsed(b)
  {
    if |a| == 0 {
      assert a + b == b;
    } else {
      assert (a + b)[0] == a[0];
      assert (a + b)[1..] == a[1..] + b;
      ParsedAppend(a[1..], b);
    }
  }

  /** The merges of a line followed by more lines. */
  lemma {:induction false} ParsedCons(line: string, rest: seq<string>)
    ensures Parsed([line] + rest) ==
              match Contribution(line)
              case Some(op) => [op] + Parsed(rest)
              case None => Parsed(rest)
  {
    assert ([line] + rest)[0] == line;
    assert ([line] + rest)[1..] == rest;
  }

  /** One more log line either merges its contribution into the table or leaves it as it is. */
  lemma {:induction false} TotalsSnoc(prefix: seq<string>, line: string)
    ensures Totals(prefix + [line]) ==
              match Contribution(line)
              case Some(op) => Merge(Totals(prefix), op.0, op.1)
              case None => Totals(prefix)
  {
    ParsedAppend(prefix, [line]);
    ParsedCons(line, []);
    assert [line] + [] == [line];
    var p := Parsed(prefix);
    match Contribution(line)
    case Some(op) =>
      assert [op] + [] == [op];
      AccumulateSnoc(p, op);
    case None =>
      assert p + [] == p;
  }

  /** A line that does not match contributes nothing, wherever it stands. */
  lemma {:induction false} SkippedLine(before: seq<string>, line: string, after: seq<string>)
    requires ParseStatLine(line).None?
    ensures Totals(before + [line] + after) == Totals(before + after)
  {
    ParsedAppend(before + [line], after);
    ParsedAppend(before, [line]);
    ParsedAppend(before, after);
    assert [line][1..] == [];
    assert Parsed([line]) == [];
    assert Parsed(before) + [] == Parsed(before);
  }

  /** The `|` filter applied when reading the log drops no line the pattern would match. */
  lemma {:induction false} FilterKeepsTotals(lines: seq<string>)
    ensures Parsed(FilterStatLines(lines)) == Parsed(lines)
  {
    if |lines| > 0 {
      FilterKeepsTotals(lines[1..]);
      if !HasSeparator(lines[0]) && ParseStatLine(lines[0]).Some? {
        ParsedLineHasSeparator(lines[0]);
      }
      assert FilterStatLines(lines) ==
        (if HasSeparator(lines[0]) then [lines[0]] else []) + FilterStatLines(lines[1..]);
      ParsedAppend(if HasSeparator(lines[0]) then [lines[0]] else [], FilterStatLines(lines[1..]));
      assert [lines[0]][1..] == [];
    }
  }

  /** The merges name exactly the files some line names. */
  lemma {:induction false} ParsedKeys(lines: seq<string>)
    ensures KeysOf(Parsed(lines)) == MatchedNames(lines)
  {
    if |lines| > 0 {
      ParsedKeys(lines[1..]);
      match Contribution(lines[0])
      case Some(op) =>
        var p := [op] + Parsed(lines[1..]);
        assert p[0] == op && p[1..] == Parsed(lines[1..]);
      case None =>
    }
  }

  /** Per file, the merges add up to the count and the sum read off the lines. */
  lemma {:induction false} ParsedTally(lines: seq<string>, name: string)
    ensures Tally(Parsed(lines), name) == FileStats(MatchCount(lines, name), MatchSum(lines, name))
  {
    if |lines| > 0 {
      ParsedTally(lines[1..], name);
      ParsedTallyStep(lines, name);
    }
  }

  /** What one line adds to the count and the sum of a file. */
  function Share(line: string, name: string): FileStats
  {
    if Names(line, name) then FileStats(1, StringToInt(ParseStatLine(line).value.1)) else NoStats
  }

  lemma {:induction false} ParsedTallyStep(lines: seq<string>, name: string)
    requires |lines| > 0
    requires Tally(Parsed(lines[1..]), name) == FileStats(MatchCount(lines[1..], name), MatchSum(lines[1..], name))
    ensures Tally(Parsed(lines), name) == FileStats(MatchCount(lines, name), MatchSum(lines, name))
  {
    MatchStep(lines, name);
    TallyOfFirst(lines, name);
    AddShare(Tally(Parsed(lines), name), Share(lines[0], name), Tally(Parsed(lines[1..]), name),
             MatchCount(lines, name), MatchSum(lines, name), MatchCount(lines[1..], name), MatchSum(lines[1..], name));
  }

  /** The count and the sum of a file: the first line's share plus those of the rest. */
  lemma {:induction false} MatchStep(lines: seq<string>, name: string)
    requires |lines| > 0
    ensures MatchCount(lines, name) == Share(lines[0], name).changes + MatchCount(lines[1..], name)
    ensures MatchSum(lines, name) == Share(lines[0], name).lines + MatchSum(lines[1..], name)
  {
  }

  lemma {:induction false} TallyOfFirst(lines: seq<string>, name: string)
    requires |lines| > 0
    ensures Tally(Parsed(lines), name) == Plus(Share(lines[0], name), Tally(Parsed(lines[1..]), name))
  {
    ShareOfContribution(lines[0], name);
    var c := Contribution(lines[0]);
    if c.Some? {
      assert Parsed(lines) == [c.value] + Parsed(lines[1..]);
      TallyCons(c.value, Parsed(lines[1..]), name);
    } else {
      assert Parsed(lines) == Parsed(lines[1..]);
      PlusZero(Tally(Parsed(lines[1..]), name));
    }
  }

  lemma {:induction false} ShareOfContribution(line: string, name: string)
    ensures Share(line, name) ==
              if Contribution(line).Some? && Contribution(line).value.0 == name
              then Contribution(line).value.1 else NoStats
  {
  }

  /** A matched file has been named by at least one line. */
  lemma {:induction false} MatchCountPositive(lines: seq<string>, name: string)
    requires name in MatchedNames(lines)
    ensures MatchCount(lines, name) >= 1
  {
    if !Names(lines[0], name) {
      MatchCountPositive(lines[1..], name);
    }
  }

  /** The table holds exactly the files that matching lines name. */
  lemma {:induction false} TotalsKeys(lines: seq<string>)
    ensures Totals(lines).Keys == MatchedNames(lines)
  {
    AccumulateKeys(Parsed(lines));
    ParsedKeys(lines);
  }

  /** The entry of a file counts the lines that name it and sums their counts; it is at least
      one change. */
  lemma {:induction false} TotalsPerName(lines: seq<string>, name: string)
    ensures name in Totals(lines) <==> name in MatchedNames(lines)
    ensures name in Totals(lines) ==>
              Totals(lines)[name] == FileStats(MatchCount(lines, name), MatchSum(lines, name))
              && Totals(lines)[name].changes >= 1
  {
    TotalsKeys(lines);
    AccumulatePerKey(Parsed(lines), name);
    ParsedTally(lines, name);
    if name in MatchedNames(lines) {
      MatchCountPositive(lines, name);
    }
  }

  /** The table does not depend on the order in which git printed the lines. */
  lemma {:induction false} TotalsOrderIndependent(a: seq<string>, b: seq<string>)
    requires multiset(a) == multiset(b)
    ensures Totals(a) == Totals(b)
  {
    ParsedPermutation(a, b);
    AccumulateOrderIndependent(Parsed(a), Parsed(b));
  }

  lemma {:induction false} ParsedPermutation(a: seq<string>, b: seq<string>)
    requires multiset(a) == multiset(b)
    ensures multiset(Parsed(a)) == multiset(Parsed(b))
    decreases |a|
  {
    if |a| == 0 {
      assert |b| == |multiset(b)| == 0;
    } else {
      assert a[0] in multiset(b);
      var j :| 0 <= j < |b| && b[j] == a[0];
      RemoveOne(a, b, j);
      ParsedPermutation(a[1..], b[..j] + b[j + 1..]);
      ParsedRemove(b, j);
      ParsedRemove(a, 0);
      assert a[..0] + a[1..] == a[1..];
    }
  }

  lemma {:induction false} ParsedRemove(b: seq<string>, j: nat)
    requires j < |b|
    ensures multiset(Parsed(b)) == multiset(Parsed([b[j]])) + multiset(Parsed(b[..j] + b[j + 1..]))
  {
    var before, x, after := b[..j], b[j], b[j + 1..];
    assert b == (before + [x]) + after;
    ParsedAppend(before + [x], after);
    ParsedAppend(before, [x]);
    ParsedAppend(before, after);
  }

  // Worked examples

  /** What a short line for `a.txt` with a one-digit count contributes. */
  lemma {:induction false} ShortLineContribution(line: string, digit: char, bar: string)
    requires IsDigit(digit) && |bar| > 0 && bar[0] == ' '
    requires line == "" + "a.txt" + " | " + ([digit] + bar)
    ensures Contribution(line) == Some(("a.txt", FileStats(1, DigitValue(digit))))
  {
    ScenarioShortLine(line, digit, bar);
    assert DecimalValue([digit]) == DigitValue(digit) by {
      assert [digit][..0] == [];
    }
  }

  /** The table of two matching lines. */
  lemma {:induction false} TwoMatchingLines(l1: string, l2: string, op1: MergeOp, op2: MergeOp)
    requires Contribution(l1) == Some(op1) && Contribution(l2) == Some(op2)
    ensures Totals([l1, l2]) == Merge(Merge(map[], op1.0, op1.1), op2.0, op2.1)
  {
    ParsedCons(l1, [l2]);
    ParsedCons(l2, []);
    assert [l1] + [l2] == [l1, l2];
    assert [l2] + [] == [l2];
    assert [op1] + ([op2] + []) == [op1, op2];
    AccumulatePair(op1, op2);
  }

  /** Two stat lines for the same file: two changes, counts three and five added up. */
  lemma {:induction false} TwoLinesSameFile(l1: string, l2: string)
    requires l1 == "" + "a.txt" + " | " + (['3'] + " +++")
    requires l2 == "" + "a.txt" + " | " + (['5'] + " +++++")
    ensures Totals([l1, l2]) == map["a.txt" := FileStats(2, 8)]
  {
    ShortLineContribution(l1, '3', " +++");
    ShortLineContribution(l2, '5', " +++++");
    TwoMatchingLines(l1, l2, ("a.txt", FileStats(1, 3)), ("a.txt", FileStats(1, 5)));
  }

  /** A binary-file line is skipped: it adds no entry and no change. */
  lemma {:induction false} BinaryLineSkipped(before: seq<string>, bin: string, after: seq<string>)
    requires bin == "" + "README.md" + " | " + "Bin 204 -> 300 bytes"
    ensures Totals(before + [bin] + after) == Totals(before + after)
  {
    ScenarioBinaryLine(bin);
    SkippedLine(before, bin, after);
  }

  /** No log lines, no table. */
  lemma {:induction false} EmptyLog()
    ensures Totals([]) == map[]
    ensures MatchedNames([]) == {}
  {
  }
}
