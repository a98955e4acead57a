/** The filter that `getLogStatFromGit` applies to the lines printed by `git log --stat`:
    only the per-file lines, recognised by the `|` separator, pass. */
module LineFilter {

  const Separator: char := '|'

  predicate HasSeparator(line: string)
  {
    Separator in line
  }

  /** The lines that contain the separator, in their original order and unchanged. */
  function FilterStatLines(lines: seq<string>): (kept: seq<string>)
    ensures |kept| <= |lines|
    ensures forall k :: 0 <= k < |kept| ==> HasSeparator(kept[k])
  {
    if |lines| == 0 then []
    else if HasSeparator(lines[0]) then [lines[0]] + FilterStatLines(lines[1..])
    else FilterStatLines(lines[1..])
  }

  /** `kept` is the order-preserving selection of `lines` at the increasing positions `idx`,
      and `idx` holds exactly the positions of the lines with a separator. */
  ghost predicate SelectsSeparatorLines(kept: seq<string>, lines: seq<string>, idx: seq<nat>)
  {
    && |idx| == |kept|
    && (forall k :: 0 <= k < |idx| ==> idx[k] < |lines| && kept[k] == lines[idx[k]])
    && (forall k, j :: 0 <= k < j < |idx| ==> idx[k] < idx[j])
    && (forall i :: 0 <= i < |lines| ==> (HasSeparator(lines[i]) <==> i in idx))
  }

  /** The filter output is exactly the subsequence of the input made of the separator lines. */
  lemma {:induction false} FilterSelects(lines: seq<string>) returns (idx: seq<nat>)
    ensures SelectsSeparatorLines(FilterStatLines(lines), lines, idx)
  {
    if |lines| == 0 {
      idx := [];
    } else {
      var rest := FilterSelects(lines[1..]);
      idx := SelectsCons(lines[0], lines[1..], FilterStatLines(lines[1..]), rest);
      assert [lines[0]] + lines[1..] == lines;
    }
  }

  /** One step of the selection: the positions for `[x] + tail` from those for `tail`. */
  lemma SelectsCons(x: string, tail: seq<string>, kept: seq<string>, rest: seq<nat>) returns (idx: seq<nat>)
    requires SelectsSeparatorLines(kept, tail, rest)
    ensures SelectsSeparatorLines(if HasSeparator(x) then [x] + kept else kept, [x] + tail, idx)
  {
    var shifted := Shift(x, tail, kept, rest);
    if HasSeparator(x) {
      idx := [0] + shifted;
      KeepFirst(x, tail, kept, shifted);
    } else {
      idx := shifted;
      forall i | 0 <= i < |[x] + tail|
        ensures HasSeparator(([x] + tail)[i]) <==> i in idx
      {
        if i == 0 {
          assert 0 !in shifted;
        }
      }
    }
  }

  /** The positions of the separator lines of `tail`, seen as positions in `[x] + tail`. */
  lemma Shift(x: string, tail: seq<string>, kept: seq<string>, rest: seq<nat>) returns (shifted: seq<nat>)
    requires SelectsSeparatorLines(kept, tail, rest)
    ensures |shifted| == |kept|
    ensures forall k :: 0 <= k < |shifted| ==> 0 < shifted[k] <= |tail| && kept[k] == ([x] + tail)[shifted[k]]
    ensures forall k, j :: 0 <= k < j < |shifted| ==> shifted[k] < shifted[j]
    ensures forall i :: 0 < i <= |tail| ==> (HasSeparator(([x] + tail)[i]) <==> i in shifted)
    ensures 0 !in shifted
  {
    shifted := seq(|rest|, k requires 0 <= k < |rest| => rest[k] + 1);
    forall i | 0 < i <= |tail|
      ensures HasSeparator(([x] + tail)[i]) <==> i in shifted
    {
      assert ([x] + tail)[i] == tail[i - 1];
      if i - 1 in rest {
        var k :| 0 <= k < |rest| && rest[k] == i - 1;
        assert shifted[k] == i;
      }
    }
  }

  /** Prepending a separator line puts position 0 in front of the shifted positions. */
  lemma KeepFirst(x: string, tail: seq<string>, kept: seq<string>, shifted: seq<nat>)
    requires HasSeparator(x)
    requires |shifted| == |kept|
    requires forall k :: 0 <= k < |shifted| ==> 0 < shifted[k] <= |tail| && kept[k] == ([x] + tail)[shifted[k]]
    requires forall k, j :: 0 <= k < j < |shifted| ==> shifted[k] < shifted[j]
    requires forall i :: 0 < i <= |tail| ==> (HasSeparator(([x] + tail)[i]) <==> i in shifted)
    ensures SelectsSeparatorLines([x] + kept, [x] + tail, [0] + shifted)
  {
    var idx: seq<nat> := [0] + shifted;
    forall k, j | 0 <= k < j < |idx|
      ensures idx[k] < idx[j]
    {
      assert idx[j] == shifted[j - 1];
      if k > 0 {
        assert idx[k] == shifted[k - 1];
      }
    }
    forall k | 0 <= k < |idx|
      ensures idx[k] < |[x] + tail| && ([x] + kept)[k] == ([x] + tail)[idx[k]]
    {
      if k > 0 {
        assert idx[k] == shifted[k - 1];
      }
    }
  }

  /** Filtering distributes over concatenation of line streams. */
  lemma {:induction false} FilterAppend(a: seq<string>, b: seq<string>)
    ensures FilterStatLines(a + b) == FilterStatLines(a) + FilterStatLines(b)
  {
    if |a| == 0 {
      assert a + b == b;
    } else {
      assert (a + b)[0] == a[0];
      assert (a + b)[1..] == a[1..] + b;
      FilterAppend(a[1..], b);
    }
  }

  /** Filtering an already filtered stream changes nothing. */
  lemma {:induction false} FilterIdempotent(lines: seq<string>)
    ensures FilterStatLines(FilterStatLines(lines)) == FilterStatLines(lines)
  {
    if |lines| > 0 {
      FilterIdempotent(lines[1..]);
      if HasSeparator(lines[0]) {
        var tail := FilterStatLines(lines[1..]);
        assert ([lines[0]] + tail)[1..] == tail;
      }
    }
  }
}
