/** A hand-written matcher for the pattern that `processGitStats` applies to each line,
    `^\s*(\S+)\s*\|\s+(\d+)\s*(.*)$`, with `Matcher.matches()` semantics: the whole line
    must match, and the groups are those of the first match in backtracking order. */
module StatLine {
  import opened Wrappers
  import opened Chars

  /** Bounds of a match: group 1 (the file name) is s[a..b], the `|` sits at c,
      group 2 (the change count) is s[e..f]. */
  datatype Groups = Groups(a: nat, b: nat, c: nat, e: nat, f: nat)

  /** `s` matches the pattern with these bounds: `\s*` before a, `\S+` on [a, b), `\s*` on [b, c),
      `\|` at c, `\s+` on (c, e), `\d+` on [e, f), and anything after f. */
  ghost predicate Matches(s: string, g: Groups)
  {
    && g.a < g.b <= g.c < |s| && g.c + 1 < g.e < g.f <= |s|
    && (forall i :: 0 <= i < g.a ==> IsSpace(s[i]))
    && (forall i :: g.a <= i < g.b ==> !IsSpace(s[i]))
    && (forall i :: g.b <= i < g.c ==> IsSpace(s[i]))
    && s[g.c] == '|'
    && (forall i :: g.c < i < g.e ==> IsSpace(s[i]))
    && (forall i :: g.e <= i < g.f ==> IsDigit(s[i]))
  }

  /** The greedy `(\d+)` stops only at the end of the line or at a non-digit. */
  ghost predicate DigitRunEnds(s: string, f: nat)
  {
    f <= |s| && (f == |s| || !IsDigit(s[f]))
  }

  /** Greedy `\s*` from i: the first position at or after i that is not whitespace. */
  function SkipSpaces(s: string, i: nat): (j: nat)
    requires i <= |s|
    ensures i <= j <= |s|
    ensures forall k :: i <= k < j ==> IsSpace(s[k])
    ensures j < |s| ==> !IsSpace(s[j])
    decreases |s| - i
  {
    if i < |s| && IsSpace(s[i]) then SkipSpaces(s, i + 1) else i
  }

  /** Greedy `\S+` from i: the end of the run of non-whitespace characters starting at i. */
  function NonSpaceEnd(s: string, i: nat): (j: nat)
    requires i <= |s|
    ensures i <= j <= |s|
    ensures forall k :: i <= k < j ==> !IsSpace(s[k])
    ensures j < |s| ==> IsSpace(s[j])
    decreases |s| - i
  {
    if i < |s| && !IsSpace(s[i]) then NonSpaceEnd(s, i + 1) else i
  }

  /** Greedy `\d+` from i: the end of the run of digits starting at i. */
  function DigitEnd(s: string, i: nat): (j: nat)
    requires i <= |s|
    ensures i <= j <= |s|
    ensures forall k :: i <= k < j ==> IsDigit(s[k])
    ensures DigitRunEnds(s, j)
    decreases |s| - i
  {
    if i < |s| && IsDigit(s[i]) then DigitEnd(s, i + 1) else i
  }

  /** `\|\s+(\d+)\s*(.*)$` at position c: the bounds of the digit group, if it matches.
      `\s+` can only be taken greedily (a digit must follow it), and `\s*(.*)$` accepts
      whatever follows the greedy digit run. */
  function MatchTail(s: string, c: nat): Option<(nat, nat)>
    requires c <= |s|
  {
    if c < |s| && s[c] == '|' then
      var e := SkipSpaces(s, c + 1);
      if c + 1 < e < |s| && IsDigit(s[e]) then Some((e, DigitEnd(s, e))) else None
    else None
  }

  /** The backtracking of `(\S+)\s*`: group 1 is tried as s[a..b] for b from the end of the
      non-whitespace run down to a + 1, and the first b for which the rest matches wins. */
  function Backtrack(s: string, a: nat, b: nat): (r: Option<Groups>)
    requires a < b <= |s|
    requires forall i :: 0 <= i < a ==> IsSpace(s[i])
    requires forall i :: a <= i < b ==> !IsSpace(s[i])
    ensures r.Some? ==> Matches(s, r.value) && DigitRunEnds(s, r.value.f)
    ensures r.Some? ==> r.value.a == a && r.value.b <= b
    decreases b
  {
    var c := SkipSpaces(s, b);
    match MatchTail(s, c)
    case Some((e, f)) => Some(Groups(a, b, c, e, f))
    case None => if b - 1 > a then Backtrack(s, a, b - 1) else None
  }

  /** `Matcher.matches()` for the pattern: the groups of the first match, if any. */
  function MatchGroups(s: string): (r: Option<Groups>)
    ensures r.Some? ==> Matches(s, r.value) && DigitRunEnds(s, r.value.f)
  {
    var a := SkipSpaces(s, 0);
    var n := NonSpaceEnd(s, a);
    if n == a then None else Backtrack(s, a, n)
  }

  /** Groups 1 and 2 of the line: the file name and the change count, as text. */
  function ParseStatLine(s: string): (r: Option<(string, string)>)
    ensures r.Some? ==> 0 < |r.value.0| && (forall i :: 0 <= i < |r.value.0| ==> !IsSpace(r.value.0[i]))
    ensures r.Some? ==> 0 < |r.value.1| && AllDigits(r.value.1)
  {
    match MatchGroups(s)
    case None => None
    case Some(g) => Some((s[g.a..g.b], s[g.e..g.f]))
  }

  /** Every decomposition of the line that fits the pattern is found: a match exists,
      its name is at least as long as that of the decomposition, and when the names agree so do
      the separator and the start of the count, which the greedy `\d+` runs at least as far. */
  lemma {:induction false} MatchGroupsComplete(s: string, g: Groups)
    requires Matches(s, g)
    ensures MatchGroups(s).Some?
    ensures MatchGroups(s).value.a == g.a && g.b <= MatchGroups(s).value.b
    ensures MatchGroups(s).value.b == g.b ==>
              MatchGroups(s).value.c == g.c && MatchGroups(s).value.e == g.e && g.f <= MatchGroups(s).value.f
  {
    SkipForced(s, 0, g.a);
    var n := NonSpaceEnd(s, g.a);
    assert !IsSpace(s[g.a]);
    BacktrackComplete(s, g.a, n, g);
  }

  /** Greedy whitespace skipping from i stops exactly at j when [i, j) is white and s[j] is not. */
  lemma SkipForced(s: string, i: nat, j: nat)
    requires i <= j < |s|
    requires forall k :: i <= k < j ==> IsSpace(s[k])
    requires !IsSpace(s[j])
    ensures SkipSpaces(s, i) == j
    decreases j - i
  {
    if i < j {
      SkipForced(s, i + 1, j);
    }
  }

  lemma {:induction false} BacktrackComplete(s: string, a: nat, b: nat, g: Groups)
    requires Matches(s, g) && g.a == a && g.b <= b <= |s|
    requires forall i :: 0 <= i < a ==> IsSpace(s[i])
    requires forall i :: a <= i < b ==> !IsSpace(s[i])
    ensures Backtrack(s, a, b).Some?
    ensures g.b <= Backtrack(s, a, b).value.b
    ensures Backtrack(s, a, b).value.b == g.b ==>
              Backtrack(s, a, b).value.c == g.c && Backtrack(s, a, b).value.e == g.e && g.f <= Backtrack(s, a, b).value.f
    decreases b
  {
    if b == g.b {
      TailForced(s, g);
    } else if MatchTail(s, SkipSpaces(s, b)).None? {
      BacktrackComplete(s, a, b - 1, g);
    }
  }

  /** With group 1 ending where the decomposition ends it, the rest of the pattern is found
      at the decomposition's own positions. */
  lemma TailForced(s: string, g: Groups)
    requires Matches(s, g)
    ensures SkipSpaces(s, g.b) == g.c
    ensures MatchTail(s, g.c) == Some((g.e, DigitEnd(s, g.e)))
    ensures g.f <= DigitEnd(s, g.e)
  {
    SkipForced(s, g.b, g.c);
    SkipForced(s, g.c + 1, g.e);
    DigitsForced(s, g.e, g.f);
  }

  /** The greedy digit run from e reaches at least f when [e, f) is all digits. */
  lemma DigitsForced(s: string, e: nat, f: nat)
    requires e <= f <= |s|
    requires forall k :: e <= k < f ==> IsDigit(s[k])
    ensures f <= DigitEnd(s, e)
    decreases f - e
  {
    if e < f {
      DigitsForced(s, e + 1, f);
    }
  }

  /** A line is kept by `processGitStats` exactly when some decomposition fits the pattern. */
  lemma ParseStatLineIffMatches(s: string)
    ensures ParseStatLine(s).Some? <==> exists g :: Matches(s, g)
  {
    if exists g :: Matches(s, g) {
      var g :| Matches(s, g);
      MatchGroupsComplete(s, g);
    }
  }

  /** Only a line that contains the separator can match. */
  lemma ParsedLineHasSeparator(s: string)
    requires ParseStatLine(s).Some?
    ensures '|' in s
  {
    var g := MatchGroups(s).value;
    assert s[g.c] == '|';
  }

  /** Greedy `\S+` from i stops exactly at j when [i, j) holds no whitespace and s[j] is. */
  lemma NonSpaceForced(s: string, i: nat, j: nat)
    requires i <= j <= |s|
    requires forall k :: i <= k < j ==> !IsSpace(s[k])
    requires j < |s| ==> IsSpace(s[j])
    ensures NonSpaceEnd(s, i) == j
    decreases j - i
  {
    if i < j {
      NonSpaceForced(s, i + 1, j);
    }
  }

  /** Greedy `\d+` from e stops exactly at f when [e, f) is all digits and s[f] is not a digit. */
  lemma DigitEndForced(s: string, e: nat, f: nat)
    requires e <= f <= |s|
    requires forall k :: e <= k < f ==> IsDigit(s[k])
    requires f < |s| ==> !IsDigit(s[f])
    ensures DigitEnd(s, e) == f
    decreases f - e
  {
    if e < f {
      DigitEndForced(s, e + 1, f);
    }
  }

  /** When the name run holds no `|` after its first character, shortening group 1 cannot help:
      the match fails as soon as the rest fails after the whole run. */
  lemma NoInnerSeparator(s: string, a: nat, b: nat)
    requires a < b <= |s|
    requires forall i :: 0 <= i < a ==> IsSpace(s[i])
    requires forall i :: a <= i < b ==> !IsSpace(s[i])
    requires forall i :: a < i < b ==> s[i] != '|'
    requires MatchTail(s, SkipSpaces(s, b)).None?
    ensures Backtrack(s, a, b).None?
    decreases b
  {
    if b - 1 > a {
      NoInnerSeparator(s, a, b - 1);
    }
  }

  /** Group 1 never extends past the first run of non-whitespace characters. */
  lemma NameWithinRun(s: string, g: Groups)
    requires Matches(s, g)
    ensures g.b <= NonSpaceEnd(s, g.a)
  {
  }

  /** The usual case: when group 1 takes the whole first run and group 2 the whole digit run,
      that decomposition is the match. */
  lemma {:induction false} WholeRunMatch(s: string, g: Groups)
    requires Matches(s, g)
    requires g.b == NonSpaceEnd(s, g.a)
    requires DigitRunEnds(s, g.f)
    ensures MatchGroups(s) == Some(g)
  {
    MatchGroupsComplete(s, g);
    var r := MatchGroups(s).value;
    NameWithinRun(s, r);
  }

  /** When no `|` follows the first character of the name run and the rest does not match after
      the whole run, the line does not match. */
  lemma NoMatchAfterRun(s: string, a: nat, n: nat)
    requires SkipSpaces(s, 0) == a && NonSpaceEnd(s, a) == n && a < n
    requires forall i :: a < i < n ==> s[i] != '|'
    requires MatchTail(s, SkipSpaces(s, n)).None?
    ensures ParseStatLine(s) == None
  {
    NoInnerSeparator(s, a, n);
  }

  /** The shape of most `--stat` lines: optional leading blanks, a name free of blanks and of
      `|`, then " | " and the rest. */
  ghost predicate BarLine(s: string, lead: string, name: string, rest: string)
  {
    && s == lead + name + " | " + rest
    && (forall i :: 0 <= i < |lead| ==> IsSpace(lead[i]))
    && 0 < |name| && (forall i :: 0 <= i < |name| ==> !IsSpace(name[i]) && name[i] != '|')
    && 0 < |rest| && !IsSpace(rest[0])
  }

  /** Where the pieces of a bar line sit in it. */
  lemma BarLineLayout(s: string, lead: string, name: string, rest: string)
    requires BarLine(s, lead, name, rest)
    ensures var b := |lead| + |name|;
      && |s| == b + 3 + |rest|
      && (forall i :: 0 <= i < |lead| ==> s[i] == lead[i])
      && (forall i :: 0 <= i < |name| ==> s[|lead| + i] == name[i])
      && s[b] == ' ' && s[b + 1] == '|' && s[b + 2] == ' '
      && (forall i :: 0 <= i < |rest| ==> s[b + 3 + i] == rest[i])
  {
  }

  /** A bar line whose rest starts with `k` digits and no more matches: group 1 is the name,
      group 2 those digits. */
  lemma BarLineMatches(s: string, lead: string, name: string, rest: string, k: nat)
    requires BarLine(s, lead, name, rest)
    requires 0 < k <= |rest| && (forall i :: 0 <= i < k ==> IsDigit(rest[i]))
    requires k == |rest| || !IsDigit(rest[k])
    ensures ParseStatLine(s) == Some((name, rest[..k]))
  {
    var a := |lead|;
    var b := a + |name|;
    var g := Groups(a, b, b + 1, b + 3, b + 3 + k);
    BarLineGroups(s, lead, name, rest, k);
    NonSpaceForced(s, a, b);
    WholeRunMatch(s, g);
    BarLineSlices(s, lead, name, rest, k);
  }

  lemma BarLineSlices(s: string, lead: string, name: string, rest: string, k: nat)
    requires BarLine(s, lead, name, rest) && k <= |rest|
    ensures s[|lead|..|lead| + |name|] == name
    ensures s[|lead| + |name| + 3..|lead| + |name| + 3 + k] == rest[..k]
  {
    var b := |lead| + |name|;
    assert s == (lead + name) + (" | " + rest);
    assert (lead + name)[|lead|..] == name;
    assert s[b + 3..] == rest;
    assert s[b + 3..b + 3 + k] == s[b + 3..][..k];
  }

  /** The decomposition of a matching bar line. */
  lemma BarLineGroups(s: string, lead: string, name: string, rest: string, k: nat)
    requires BarLine(s, lead, name, rest)
    requires 0 < k <= |rest| && (forall i :: 0 <= i < k ==> IsDigit(rest[i]))
    requires k == |rest| || !IsDigit(rest[k])
    ensures var b := |lead| + |name|;
      Matches(s, Groups(|lead|, b, b + 1, b + 3, b + 3 + k)) && DigitRunEnds(s, b + 3 + k)
  {
    BarLineLayout(s, lead, name, rest);
  }

  /** A bar line whose rest does not start with a digit does not match at all. */
  lemma BarLineFails(s: string, lead: string, name: string, rest: string)
    requires BarLine(s, lead, name, rest)
    requires !IsDigit(rest[0])
    ensures ParseStatLine(s) == None
  {
    BarLineLayout(s, lead, name, rest);
    var a := |lead|;
    var b := a + |name|;
    SkipForced(s, 0, a);
    NonSpaceForced(s, a, b);
    SkipForced(s, b, b + 1);
    SkipForced(s, b + 2, b + 3);
    assert MatchTail(s, b + 1).None?;
    NoMatchAfterRun(s, a, b);
  }

  /** An ordinary per-file line: leading blank, name, count, change bar. */
  lemma ScenarioPlainLine(s: string)
    requires s == " " + "src/Foo.java" + " | " + "12 ++++--------"
    ensures ParseStatLine(s) == Some(("src/Foo.java", "12"))
  {
    assert BarLine(s, " ", "src/Foo.java", "12 ++++--------");
    BarLineMatches(s, " ", "src/Foo.java", "12 ++++--------", 2);
    assert "12 ++++--------"[..2] == "12";
  }

  /** A short line whose count has one digit. */
  lemma ScenarioShortLine(s: string, digit: char, bar: string)
    requires IsDigit(digit) && |bar| > 0 && bar[0] == ' '
    requires s == "" + "a.txt" + " | " + ([digit] + bar)
    ensures ParseStatLine(s) == Some(("a.txt", [digit]))
  {
    assert BarLine(s, "", "a.txt", [digit] + bar);
    BarLineMatches(s, "", "a.txt", [digit] + bar, 1);
    assert ([digit] + bar)[..1] == [digit];
  }

  /** A binary-file line has no digit after the whitespace that follows `|`: it is skipped. */
  lemma ScenarioBinaryLine(s: string)
    requires s == "" + "README.md" + " | " + "Bin 204 -> 300 bytes"
    ensures ParseStatLine(s) == None
  {
    assert BarLine(s, "", "README.md", "Bin 204 -> 300 bytes");
    BarLineFails(s, "", "README.md", "Bin 204 -> 300 bytes");
  }

  /** A non-numeric count does not match `\d+`: the whole line is skipped, it is not counted as 0. */
  lemma ScenarioNonNumeric(s: string)
    requires s == "" + "b.txt" + " | " + "xx ++"
    ensures ParseStatLine(s) == None
  {
    assert BarLine(s, "", "b.txt", "xx ++");
    BarLineFails(s, "", "b.txt", "xx ++");
  }

  /** A name that ends in `|` is shortened by backtracking: `a|  5` yields the name `a`. */
  lemma ScenarioBacktrackedName(s: string)
    requires s == "a|  5"
    ensures ParseStatLine(s) == Some(("a", "5"))
  {
    SkipForced(s, 0, 0);
    NonSpaceForced(s, 0, 2);
    SkipForced(s, 2, 4);
    SkipForced(s, 1, 1);
    DigitEndForced(s, 4, 5);
    assert MatchTail(s, 4).None?;
    assert MatchTail(s, 1) == Some((4, 5));
    assert Backtrack(s, 0, 1) == Some(Groups(0, 1, 1, 4, 5));
    assert MatchGroups(s) == Some(Groups(0, 1, 1, 4, 5));
    assert s[0..1] == "a" && s[4..5] == "5";
  }
}
