# git-top history statistics, modelled in Dafny

git-top ranks the files of a git repository by how often they changed. It runs
`git log --stat` and keeps only the per-file lines, which are the ones containing `|`. On
each such line it uses the pattern `^\s*(\S+)\s*\|\s+(\d+)\s*(.*)$` to find a file name
and a count of changed lines. For each file it adds up two numbers in a hash map: how many
lines named the file, and the sum of their counts. It then sorts the entries by the first
number, most changed first, keeps at most fifty of them and returns them as an insertion-ordered map.

The model follows `RepoAnalyzer.java` one operation at a time:

- `LineFilter`: the `line.contains("|")` filter that `getLogStatFromGit` applies, as a
  function on the list of lines.
- `StatLine`: a hand-written matcher for the pattern with `Matcher.matches()` semantics.
  - `\s*` and `\s+` are greedy.
  - `(\S+)` is tried from its longest extent down, as Java's backtracking does, so
    `a|  5` is read with the name `a`.
  - `(\d+)` is greedy.
  - `\s` is Java's ASCII set: space, tab, newline, vertical tab, form feed and carriage
    return.
- `Numbers`: `Integer.parseInt` on a digit string (it fails on an empty string and above
  2147483647), and `stringToInt`, which turns every failure into 0.
- `Stats`:
  - the `Integer[]{changes, lines}` pair (`FileStats`);
  - the remapping of `Map.merge` as `mapMerge` uses it (`Merge`);
  - the hash map as a class whose `MapMerge` method updates its `entries` map in place;
  - the table that a sequence of merges builds (`Accumulate`);
  - an independent per-key reference sum (`Tally`).
- `Ranking`: `sorted(cmp)` as a stable sort on changes, descending; `limit(50)`;
  `toMap(..., (e1, e2) -> e1, LinkedHashMap::new)` as a first-wins collection into a
  sequence of entries; and `IsRanking`, which says what the result is without saying how it
  is computed.
- `RepoAnalyzer`:
  - `ProcessGitStats`, an imperative method with the source's loop over the lines;
  - `EntriesOf`, the iteration of the hash map's entry set, in an order the method
    chooses freely;
  - reference definitions read directly off the lines (`MatchCount`, `MatchSum`,
    `MatchedNames`);
  - the lemmas that connect the loop's table to them.

The file names in the table below are relative to the repository root.

## Model

| member | source | states |
|---|---|---|
| LineFilter.FilterStatLines | src/main/java/net/gazzaniga/gittop/RepoAnalyzer.java:54-56 | the kept lines are no more than the input lines, and every kept line contains the separator bar |
| LineFilter.FilterSelects | src/main/java/net/gazzaniga/gittop/RepoAnalyzer.java:55-56 | the output is the input's order-preserving subsequence taken at strictly increasing positions; a position is taken exactly when its line contains the separator bar |
| LineFilter.FilterAppend | src/main/java/net/gazzaniga/gittop/RepoAnalyzer.java:55-56 | filtering two concatenated streams gives the concatenation of the filtered streams |
| LineFilter.FilterIdempotent | src/main/java/net/gazzaniga/gittop/RepoAnalyzer.java:55-56 | filtering an already-filtered list changes nothing, so every line it returns passes the filter (the property the line-filter unit test checks) |
| StatLine.MatchGroups | src/main/java/net/gazzaniga/gittop/RepoAnalyzer.java:69-73 | a match it returns fits every part of the pattern, and its digit group cannot be extended |
| StatLine.MatchGroupsComplete | src/main/java/net/gazzaniga/gittop/RepoAnalyzer.java:69-73 | every way the line fits the pattern is found: the match exists, starts the name at the same place, has a name at least as long, and, for an equal name, the same bar and a digit group at least as long |
| StatLine.ParseStatLineIffMatches | src/main/java/net/gazzaniga/gittop/RepoAnalyzer.java:71-73 | `matcher.matches()` holds exactly when some way of splitting the line fits the pattern |
| StatLine.ParseStatLine | src/main/java/net/gazzaniga/gittop/RepoAnalyzer.java:74-75 | group 1 is a non-empty run without whitespace, and group 2 is a non-empty run of digits |
| StatLine.ParsedLineHasSeparator | src/main/java/net/gazzaniga/gittop/RepoAnalyzer.java:69 | only a line that contains the separator bar can match |
| StatLine.WholeRunMatch | src/main/java/net/gazzaniga/gittop/RepoAnalyzer.java:69-75 | when group 1 covers the whole first non-blank run and the digit run is maximal, that split is the match |
| StatLine.BarLineMatches | src/main/java/net/gazzaniga/gittop/RepoAnalyzer.java:69-75 | for a "blanks, name, bar, digits, anything" line, group 1 is the name and group 2 is the maximal digit run |
| StatLine.BarLineFails | src/main/java/net/gazzaniga/gittop/RepoAnalyzer.java:69-73 | a "name, bar, rest" line whose rest does not start with a digit does not match |
| StatLine.ScenarioPlainLine | src/main/java/net/gazzaniga/gittop/RepoAnalyzer.java:69-75 | the line ` src/Foo.java`, bar, `12 ++++--------` yields `src/Foo.java` and `12` |
| StatLine.ScenarioShortLine | src/main/java/net/gazzaniga/gittop/RepoAnalyzer.java:69-75 | the line `a.txt`, bar, d, blank, anything, with one digit d yields `a.txt` and `d` |
| StatLine.ScenarioBinaryLine | src/main/java/net/gazzaniga/gittop/RepoAnalyzer.java:69-73 | a binary-file line (`README.md`, bar, `Bin 204 -> 300 bytes`) does not match |
| StatLine.ScenarioNonNumeric | src/main/java/net/gazzaniga/gittop/RepoAnalyzer.java:69-73 | a line with a non-numeric count does not match, so it is skipped rather than counted as 0 |
| StatLine.ScenarioBacktrackedName | src/main/java/net/gazzaniga/gittop/RepoAnalyzer.java:69-75 | `a`, bar, two blanks, `5`, matches with the name `a` after backtracking, and the count `5` |
| Numbers.ParseDigits | src/main/java/net/gazzaniga/gittop/RepoAnalyzer.java:92 | the digit loop succeeds exactly when the value fits in an int, and then gives the decimal value |
| Numbers.ParseInt | src/main/java/net/gazzaniga/gittop/RepoAnalyzer.java:92 | `Integer.parseInt` on digits: it succeeds exactly when the string is non-empty and at most 2147483647, and then gives its decimal value |
| Numbers.StringToInt | src/main/java/net/gazzaniga/gittop/RepoAnalyzer.java:90-96 | the result lies in 0..2147483647; it is the decimal value when that fits, and 0 for an empty string or an overflow |
| Numbers.PrefixValueBounded | src/main/java/net/gazzaniga/gittop/RepoAnalyzer.java:92 | a prefix of a digit string has no larger value than the whole string, so the early overflow exit is correct |
| Numbers.LeadingZeros | src/main/java/net/gazzaniga/gittop/RepoAnalyzer.java:92 | a leading zero does not change the value |
| Numbers.IntRangeEdge | src/main/java/net/gazzaniga/gittop/RepoAnalyzer.java:90-96 | `2147483647` converts to Integer.MAX_VALUE, and `2147483648` converts to 0 |
| Stats.Plus | src/main/java/net/gazzaniga/gittop/RepoAnalyzer.java:99-103 | the remapping lambda `a[0] += b[0]; a[1] += b[1]`, a componentwise sum; `Merge` states how it is applied |
| Stats.Merge | src/main/java/net/gazzaniga/gittop/RepoAnalyzer.java:98-104 | the keys become the old keys plus `key`; an absent key receives the value, a present key the componentwise sum; no other key changes |
| Stats.StatsTable.MapMerge | src/main/java/net/gazzaniga/gittop/RepoAnalyzer.java:98-104 | the in-place update leaves the table equal to `Merge` of its old contents |
| Stats.MergeCommutes | src/main/java/net/gazzaniga/gittop/RepoAnalyzer.java:98-104 | two merges give the same table in either order |
| Stats.MergeZero | src/test/java/net/gazzaniga/gittop/RepoAnalyzerTest.java:62-63 | merging `{0, 0}` into a present key changes nothing |
| Stats.MergeTestSequence | src/test/java/net/gazzaniga/gittop/RepoAnalyzerTest.java:47-65 | the unit test's merges give {1,1}, {2,11}, {4,13}, {2,11}, {2,11} |
| Stats.Accumulate | src/main/java/net/gazzaniga/gittop/RepoAnalyzer.java:67-79 | the map left after a sequence of `mapMerge` calls on an empty `HashMap`; `AccumulatePerKey` states what it holds |
| Stats.AccumulatePerKey | src/main/java/net/gazzaniga/gittop/RepoAnalyzer.java:67-79 | after a sequence of merges, a key is in the table exactly when some merge named it, and its value is the sum of the pairs merged under it |
| Stats.TallyPermutation | src/main/java/net/gazzaniga/gittop/RepoAnalyzer.java:98-104 | a key's sum depends only on which merges occur, not on their order |
| Stats.AccumulateOrderIndependent | src/main/java/net/gazzaniga/gittop/RepoAnalyzer.java:67-79 | any reordering of the merges leaves the same final table |
| Ranking.Insert | src/main/java/net/gazzaniga/gittop/RepoAnalyzer.java:65-66 | one insertion step adds exactly the new entry to the multiset of entries |
| Ranking.InsertSorted | src/main/java/net/gazzaniga/gittop/RepoAnalyzer.java:65-66 | inserting into a list sorted by changes, descending, keeps it sorted |
| Ranking.SortByChanges | src/main/java/net/gazzaniga/gittop/RepoAnalyzer.java:80 | sorting keeps the length and is a permutation of the entries |
| Ranking.SortSorted | src/main/java/net/gazzaniga/gittop/RepoAnalyzer.java:65-66 | after sorting, the changes never increase along the list, as the comparator `-a[0]` orders them |
| Ranking.CollectFirstWins | src/main/java/net/gazzaniga/gittop/RepoAnalyzer.java:80-81 | the collected entries have distinct names and exactly the names of the input |
| Ranking.CollectDistinct | src/main/java/net/gazzaniga/gittop/RepoAnalyzer.java:80-81 | a list whose names are already distinct is collected unchanged, in order |
| Ranking.SortEnumerates | src/main/java/net/gazzaniga/gittop/RepoAnalyzer.java:80 | sorting an enumeration of the table still lists each entry exactly once |
| Ranking.PrefixRanking | src/main/java/net/gazzaniga/gittop/RepoAnalyzer.java:80 | `limit(50)` applied to a sorted enumeration gives a ranking: min(50, table size) entries, and no dropped file has more changes than a kept one |
| Ranking.Rank | src/main/java/net/gazzaniga/gittop/RepoAnalyzer.java:80-81 | the `sorted(cmp).limit(50).collect(toMap(...))` chain; what it yields is stated by `RankIsRanking` |
| Ranking.RankIsRanking | src/main/java/net/gazzaniga/gittop/RepoAnalyzer.java:80-81 | sort, limit and collect together give a ranking: min(50, table size) entries of the table with their values, distinct names, changes non-increasing, and no omitted file changed more often than a listed one |
| Ranking.EnumerationSize | src/main/java/net/gazzaniga/gittop/RepoAnalyzer.java:80 | the entry set is as long as the table |
| Ranking.FirstIsMax | src/test/java/net/gazzaniga/gittop/RepoAnalyzerTest.java:67-85 | for a non-empty table the ranking is non-empty, and its first entry has the most changes of any file, as the unit test checks |
| Ranking.EmptyRanking | src/main/java/net/gazzaniga/gittop/RepoAnalyzer.java:80-81 | the ranking is empty exactly when the table is empty |
| Ranking.SmallTableComplete | src/main/java/net/gazzaniga/gittop/RepoAnalyzer.java:80 | a table of at most fifty files is listed whole |
| RepoAnalyzer.Contribution | src/main/java/net/gazzaniga/gittop/RepoAnalyzer.java:71-77 | a line contributes a merge exactly when it matches the pattern; the merge is `{1, n}` with n between 0 and 2147483647 |
| RepoAnalyzer.EntriesOf | src/main/java/net/gazzaniga/gittop/RepoAnalyzer.java:80 | the loop over the entry set returns every entry of the table, each exactly once and with its value |
| RepoAnalyzer.ProcessGitStats | src/main/java/net/gazzaniga/gittop/RepoAnalyzer.java:64-82 | the result is a ranking of the table the loop builds, with min(50, files named) entries; each entry is a file some line names, with the number of lines naming it and the sum of their counts |
| RepoAnalyzer.Parsed | src/main/java/net/gazzaniga/gittop/RepoAnalyzer.java:70-78 | the `mapMerge` calls that the loop's `if (matcher.matches())` makes, in order; `ParsedTally` states what they add up to per file |
| RepoAnalyzer.Totals | src/main/java/net/gazzaniga/gittop/RepoAnalyzer.java:67-79 | the map `ret` after the loop; `TotalsSnoc` states the loop step and `TotalsPerName` the value per file |
| RepoAnalyzer.TotalsSnoc | src/main/java/net/gazzaniga/gittop/RepoAnalyzer.java:70-79 | one more line merges its contribution into the table, or leaves the table unchanged when it does not match |
| RepoAnalyzer.ParsedTally | src/main/java/net/gazzaniga/gittop/RepoAnalyzer.java:70-79 | per file, the merges add up to the count and sum read directly off the lines |
| RepoAnalyzer.TotalsKeys | src/main/java/net/gazzaniga/gittop/RepoAnalyzer.java:70-79 | the table holds exactly the files that some matching line names |
| RepoAnalyzer.TotalsPerName | src/main/java/net/gazzaniga/gittop/RepoAnalyzer.java:70-79 | a file is in the table exactly when a line names it; its entry is the number of such lines and the sum of their counts, and has at least one change |
| RepoAnalyzer.MatchCountPositive | src/main/java/net/gazzaniga/gittop/RepoAnalyzer.java:70-79 | a file in the table was named by at least one line |
| RepoAnalyzer.SkippedLine | src/main/java/net/gazzaniga/gittop/RepoAnalyzer.java:73 | a line that does not match does not affect the table, wherever it stands |
| RepoAnalyzer.FilterKeepsTotals | src/main/java/net/gazzaniga/gittop/RepoAnalyzer.java:54-56 | the separator filter drops no line that the pattern would match, so filtering first does not change the merges |
| RepoAnalyzer.TotalsOrderIndependent | src/main/java/net/gazzaniga/gittop/RepoAnalyzer.java:67-79 | any reordering of the log lines leaves the same table |
| RepoAnalyzer.ParsedPermutation | src/main/java/net/gazzaniga/gittop/RepoAnalyzer.java:70-79 | reordering the lines reorders the merges they cause |
| RepoAnalyzer.ShortLineContribution | src/main/java/net/gazzaniga/gittop/RepoAnalyzer.java:71-77 | the line `a.txt`, bar, d, blank, anything, contributes `{1, d}` under `a.txt` |
| RepoAnalyzer.TwoMatchingLines | src/main/java/net/gazzaniga/gittop/RepoAnalyzer.java:70-79 | the table of two matching lines is their two merges, applied in order |
| RepoAnalyzer.TwoLinesSameFile | src/main/java/net/gazzaniga/gittop/RepoAnalyzer.java:70-79 | two lines for `a.txt` with counts 3 and 5 give `{2, 8}` |
| RepoAnalyzer.BinaryLineSkipped | src/main/java/net/gazzaniga/gittop/RepoAnalyzer.java:70-79 | a binary-file line anywhere in the log leaves the table as it would be without it |

## Left out

- `execGitLogStat` and the reading of its output by `getLogStatFromGit` (starting the `git` process, choosing the directory, `BufferedReader.lines()`) are I/O. The model starts from the list of lines. `FilterStatLines` models only the filter step of `getLogStatFromGit`.
- The unit tests that run `git` on the repository (`testGetLogStatFromGit`, `testProcessGitStats`) cannot be modelled without a repository. Their checks are stated instead as `FilterIdempotent`/`FilterStatLines` (every line kept contains `|`) and as `FirstIsMax`.
- ProcessGitStats: the sums are unbounded integers. Java's `a[0] += b[0]` and `a[1] += b[1]` wrap at 32 bits, and so does the comparator's `-a[0]`. A file changed more than 2147483647 times, or with that many changed lines in total, is outside the model.
- Numbers.ParseInt: models `Integer.parseInt` only on strings of ASCII digits, which is all the pattern's `\d+` group can hold. Signs and the non-ASCII digits that `parseInt` also accepts do not occur there.
- StatLine.ParseStatLine: the trailing `(.*)$` accepts any characters. Java's `.` does not match the line terminators `\n`, `\r`, `\u0085`, `\u2028` and `\u2029`, so Java skips a line that has one of them after the count (outside the whitespace before the tail), while the model matches it. `BufferedReader.lines()` splits on `\n` and `\r`, so those two cannot occur in a line. `\u0085`, `\u2028` and `\u2029` can, and for them this is a gap in the model.
- Ranking.RankIsRanking: which of several files with equal change counts comes first is not stated. It depends on the hash map's iteration order. `EntriesOf` lets that order be anything, and the ranking is proved for every order.
- Stats.StatsTable.MapMerge: Java's `merge` mutates the stored `Integer[]` array in place. The model replaces the map value, so aliasing of the array passed in is not modelled. `processGitStats` always passes a fresh array, so no caller can observe the difference.
- The returned `LinkedHashMap` is modelled as a sequence of entries with distinct names, in insertion order.
- A non-numeric count is not counted as 0: such a line does not match `(\d+)` and is skipped (`ScenarioNonNumeric`, `ScenarioBinaryLine`). `stringToInt` falls back to 0 only for an overflowing count; a count written `0` also gives 0.
