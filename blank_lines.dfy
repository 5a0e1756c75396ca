/**
 * The blank-line normalisation both Plasma synchronisers apply to a note
 * (`_normalize_text` in lucy_notes_manager/modules/plasma_sync.py and
 * lucy_notes_manager/modules/plasma_todo_sync.py): line breaks unified,
 * blank lines at the start and the end dropped, every run of blank lines
 * inside the note collapsed to one empty line, and no blank line at all
 * between a line ending in ":" and a "- " item or between two items.
 *
 * A line is blank when it holds whitespace only (`line.strip() == ""`).
 */
module BlankLines {
  import opened Wrappers
  import opened Text
  import opened Lines

  // ------------------------------------------------------------ the lines

  /** The line holds whitespace only. */
  predicate Blank(s: string)
    decreases |s|
  {
    s == [] || (IsSpace(s[0]) && Blank(s[1..]))
  }

  /** A line is blank exactly when stripping it leaves nothing (`line.strip() == ""`). */
  lemma {:induction false} BlankIffStripped(s: string)
    ensures Blank(s) <==> Strip(s) == []
    decreases |s|
  {
    if s != [] {
      BlankIffStripped(s[1..]);
      assert IsBlank(s) <==> IsSpace(s[0]) && IsBlank(s[1..]) by {
        if IsSpace(s[0]) && IsBlank(s[1..]) {
          forall k | 0 <= k < |s| ensures IsSpace(s[k]) {
            if k > 0 { assert s[k] == s[1..][k - 1]; }
          }
        }
      }
    }
  }

  /** The lines from the first non-blank one on. */
  function SkipBlanks(ls: seq<string>): (r: seq<string>)
    ensures |r| <= |ls| && r == ls[|ls| - |r|..]
    ensures r != [] ==> !Blank(r[0])
    ensures forall i :: 0 <= i < |ls| - |r| ==> Blank(ls[i])
  {
    if ls != [] && Blank(ls[0]) then SkipBlanks(ls[1..]) else ls
  }

  predicate EndsColon(s: string) {
    s != [] && s[|s| - 1] == ':'
  }

  /** `s.startswith("- ")`. */
  predicate IsItem(s: string) {
    |s| >= 2 && s[0] == '-' && s[1] == ' '
  }

  /**
   * The blank lines between `prev` and `next` are all dropped: `prev`
   * (right-stripped) ends with ":" and `next` (left-stripped) is an item,
   * or both are items.
   */
  predicate Tight(prev: string, next: string) {
    var p := RStrip(prev);
    var n := LStrip(next);
    (EndsColon(p) && IsItem(n)) || (IsItem(LStrip(p)) && IsItem(n))
  }

  /** What stands for a run of blank lines between `prev` and `next`. */
  function Gap(prev: string, next: string): (r: seq<string>)
    ensures r == [] <==> Tight(prev, next)
    ensures r != [] ==> r == [""]
  {
    if Tight(prev, next) then [] else [""]
  }

  /**
   * What the main loop emits for the lines `rest`, `prev` being the last
   * non-blank line emitted: non-blank lines as they are, a run of blank
   * lines as its gap when a non-blank line follows, and nothing for
   * blank lines at the end.
   */
  function Tail(rest: seq<string>, prev: string): seq<string>
    decreases |rest|
  {
    if rest == [] then []
    else if !Blank(rest[0]) then [rest[0]] + Tail(rest[1..], rest[0])
    else
      var r := SkipBlanks(rest);
      if r == [] then [] else Gap(prev, r[0]) + [r[0]] + Tail(r[1..], r[0])
  }

  /** The normalised lines. */
  function Normalize(ls: seq<string>): seq<string> {
    Tail(SkipBlanks(ls), "")
  }

  /**
   * Normalised lines `rest` after the non-blank line `prev`: every blank
   * line is the empty line, stands between two non-blank lines and is
   * not a gap the rules drop.
   */
  predicate Settled(rest: seq<string>, prev: string)
    decreases |rest|
  {
    rest == []
    || (!Blank(rest[0]) && Settled(rest[1..], rest[0]))
    || (&& rest[0] == "" && |rest| >= 2 && !Blank(rest[1]) && !Tight(prev, rest[1])
        && Settled(rest[1..], prev))
  }

  /** A blank settled line is the empty line. */
  lemma {:induction false} SettledBlankIsEmpty(rest: seq<string>, prev: string, i: nat)
    requires Settled(rest, prev) && i < |rest|
    ensures Blank(rest[i]) ==> rest[i] == ""
    decreases i
  {
    if i > 0 {
      assert rest[i] == rest[1..][i - 1];
      if !Blank(rest[0]) {
        SettledBlankIsEmpty(rest[1..], rest[0], i - 1);
      } else {
        SettledBlankIsEmpty(rest[1..], prev, i - 1);
      }
    }
  }

  /** Normalised lines start and end with a non-blank line. */
  predicate Trimmed(ls: seq<string>) {
    ls == [] || (!Blank(ls[0]) && !Blank(ls[|ls| - 1]))
  }

  /** The emitted lines are settled. */
  lemma {:induction false} TailSettled(rest: seq<string>, prev: string)
    ensures Settled(Tail(rest, prev), prev)
    decreases |rest|
  {
    if rest != [] {
      if !Blank(rest[0]) {
        TailSettled(rest[1..], rest[0]);
        var t := Tail(rest[1..], rest[0]);
        assert ([rest[0]] + t)[1..] == t;
      } else {
        var r := SkipBlanks(rest);
        if r != [] {
          TailSettled(r[1..], r[0]);
          var t := Tail(r[1..], r[0]);
          SettledAfter(r[0], t, prev);
          if !Tight(prev, r[0]) {
            SettledGap(r[0], t, prev);
          }
        }
      }
    }
  }

  lemma SettledAfter(line: string, t: seq<string>, prev: string)
    requires !Blank(line) && Settled(t, line)
    ensures Settled([line] + t, prev)
  {
    assert ([line] + t)[1..] == t;
  }

  lemma SettledGap(line: string, t: seq<string>, prev: string)
    requires !Blank(line) && !Tight(prev, line) && Settled([line] + t, prev)
    ensures Settled([""] + [line] + t, prev)
  {
    assert ([""] + [line] + t)[1..] == [line] + t;
  }

  /** The emitted lines end with a non-blank line. */
  lemma {:induction false} TailTrimmed(rest: seq<string>, prev: string)
    ensures Tail(rest, prev) == [] || !Blank(Tail(rest, prev)[|Tail(rest, prev)| - 1])
    decreases |rest|
  {
    if rest != [] {
      if !Blank(rest[0]) {
        TailTrimmed(rest[1..], rest[0]);
      } else {
        var r := SkipBlanks(rest);
        if r != [] {
          TailTrimmed(r[1..], r[0]);
        }
      }
    }
  }

  /** Every emitted line is an input line or the empty line. */
  lemma {:induction false} TailFrom(rest: seq<string>, prev: string)
    ensures forall x :: x in Tail(rest, prev) ==> x == "" || x in rest
    decreases |rest|
  {
    if rest != [] {
      if !Blank(rest[0]) {
        TailFrom(rest[1..], rest[0]);
        LineFrom(rest, prev);
      } else {
        var r := SkipBlanks(rest);
        if r != [] {
          TailFrom(r[1..], r[0]);
          RunFrom(rest, prev);
        }
      }
    }
  }

  lemma LineFrom(rest: seq<string>, prev: string)
    requires rest != [] && !Blank(rest[0])
    requires forall x :: x in Tail(rest[1..], rest[0]) ==> x == "" || x in rest[1..]
    ensures forall x :: x in Tail(rest, prev) ==> x == "" || x in rest
  {
    TailOfLine(rest, prev);
    assert forall x :: x in rest[1..] ==> x in rest;
  }

  lemma RunFrom(rest: seq<string>, prev: string)
    requires rest != [] && Blank(rest[0]) && SkipBlanks(rest) != []
    requires var r := SkipBlanks(rest);
      forall x :: x in Tail(r[1..], r[0]) ==> x == "" || x in r[1..]
    ensures forall x :: x in Tail(rest, prev) ==> x == "" || x in rest
  {
    var r := SkipBlanks(rest);
    TailOfRun(rest, prev);
    PartsFrom(rest, r, Gap(prev, r[0]), Tail(r[1..], r[0]));
  }

  lemma PartsFrom(rest: seq<string>, r: seq<string>, g: seq<string>, t: seq<string>)
    requires g == [] || g == [""]
    requires r != [] && |r| <= |rest| && r == rest[|rest| - |r|..]
    requires forall x :: x in t ==> x == "" || x in r[1..]
    ensures forall x :: x in g + [r[0]] + t ==> x == "" || x in rest
  {
    forall x | x in g + [r[0]] + t
      ensures x == "" || x in rest
    {
      if x !in g && x != r[0] {
        assert x in t;
        if x != "" {
          var k :| 0 <= k < |r[1..]| && r[1..][k] == x;
          assert rest[|rest| - |r| + 1 + k] == x;
        }
      } else if x == r[0] {
        assert rest[|rest| - |r|] == x;
      }
    }
  }

  /** The normalised lines are trimmed and settled. */
  lemma NormalizeShape(ls: seq<string>)
    ensures Trimmed(Normalize(ls)) && Settled(Normalize(ls), "")
    ensures forall x :: x in Normalize(ls) ==> x == "" || x in ls
  {
    var s := SkipBlanks(ls);
    TailSettled(s, "");
    TailTrimmed(s, "");
    TailFrom(s, "");
    assert forall x :: x in s ==> x in ls;
  }

  /** Settled lines are their own tail. */
  lemma {:induction false} SettledTail(rest: seq<string>, prev: string)
    requires Settled(rest, prev)
    ensures Tail(rest, prev) == rest
    decreases |rest|
  {
    if rest != [] {
      if !Blank(rest[0]) {
        SettledTail(rest[1..], rest[0]);
      } else {
        assert SkipBlanks(rest) == rest[1..];
        SettledTail(rest[2..], rest[1]);
        assert rest == [""] + [rest[1]] + rest[2..];
      }
    }
  }

  /** Normalising normalised lines changes nothing. */
  lemma NormalizeIdempotent(ls: seq<string>)
    ensures Normalize(Normalize(ls)) == Normalize(ls)
  {
    var n := Normalize(ls);
    NormalizeShape(ls);
    assert SkipBlanks(n) == n;
    SettledTail(n, "");
  }

  /** The non-blank lines, in order. */
  function NonBlanks(ls: seq<string>): seq<string> {
    if ls == [] then []
    else (if Blank(ls[0]) then [] else [ls[0]]) + NonBlanks(ls[1..])
  }

  lemma {:induction false} NonBlanksAppend(a: seq<string>, b: seq<string>)
    ensures NonBlanks(a + b) == NonBlanks(a) + NonBlanks(b)
    decreases |a|
  {
    if a == [] {
      assert a + b == b;
    } else {
      assert (a + b)[1..] == a[1..] + b;
      NonBlanksAppend(a[1..], b);
      var h := if Blank(a[0]) then [] else [a[0]];
      assert h + (NonBlanks(a[1..]) + NonBlanks(b)) == h + NonBlanks(a[1..]) + NonBlanks(b);
    }
  }

  lemma {:induction false} NonBlanksSkip(ls: seq<string>)
    ensures NonBlanks(SkipBlanks(ls)) == NonBlanks(ls)
    decreases |ls|
  {
    if ls != [] && Blank(ls[0]) {
      NonBlanksSkip(ls[1..]);
      assert NonBlanks(ls) == [] + NonBlanks(ls[1..]);
    }
  }

  lemma NonBlanksLine(line: string, t: seq<string>)
    requires !Blank(line)
    ensures NonBlanks([line] + t) == [line] + NonBlanks(t)
  {
    assert ([line] + t)[1..] == t;
  }

  /** The emitted lines hold the same non-blank lines in the same order. */
  lemma {:induction false} TailKeeps(rest: seq<string>, prev: string)
    ensures NonBlanks(Tail(rest, prev)) == NonBlanks(rest)
    decreases |rest|
  {
    if rest != [] {
      if !Blank(rest[0]) {
        TailKeeps(rest[1..], rest[0]);
        LineKeeps(rest, prev);
      } else {
        var r := SkipBlanks(rest);
        if r != [] {
          TailKeeps(r[1..], r[0]);
        }
        RunKeeps(rest, prev);
      }
    }
  }

  /** A non-blank line keeps what its tail keeps. */
  lemma LineKeeps(rest: seq<string>, prev: string)
    requires rest != [] && !Blank(rest[0])
    requires NonBlanks(Tail(rest[1..], rest[0])) == NonBlanks(rest[1..])
    ensures NonBlanks(Tail(rest, prev)) == NonBlanks(rest)
  {
    TailOfLine(rest, prev);
    NonBlanksLine(rest[0], Tail(rest[1..], rest[0]));
    NonBlanksLine(rest[0], rest[1..]);
    assert rest == [rest[0]] + rest[1..];
  }

  /** A run of blank lines keeps what the tail after it keeps. */
  lemma RunKeeps(rest: seq<string>, prev: string)
    requires rest != [] && Blank(rest[0])
    requires var r := SkipBlanks(rest);
      r != [] ==> NonBlanks(Tail(r[1..], r[0])) == NonBlanks(r[1..])
    ensures NonBlanks(Tail(rest, prev)) == NonBlanks(rest)
  {
    var r := SkipBlanks(rest);
    NonBlanksSkip(rest);
    if r != [] {
      TailOfRun(rest, prev);
      GapKeeps(Gap(prev, r[0]), r, Tail(r[1..], r[0]));
    }
  }

  lemma GapKeeps(g: seq<string>, r: seq<string>, t: seq<string>)
    requires g == [] || g == [""]
    requires r != [] && !Blank(r[0]) && NonBlanks(t) == NonBlanks(r[1..])
    ensures NonBlanks(g + [r[0]] + t) == NonBlanks(r)
  {
    var line := r[0];
    NonBlanksLine(line, t);
    NonBlanksLine(line, r[1..]);
    assert r == [line] + r[1..];
    NonBlanksAppend(g, [line] + t);
    assert g + [line] + t == g + ([line] + t);
    if g != [] {
      assert NonBlanks(g) == [] + NonBlanks(g[1..]) && g[1..] == [];
    }
  }

  /** Normalisation only touches blank lines: the non-blank ones stay, in order. */
  lemma NormalizeKeepsContent(ls: seq<string>)
    ensures NonBlanks(Normalize(ls)) == NonBlanks(ls)
  {
    NonBlanksSkip(ls);
    TailKeeps(SkipBlanks(ls), "");
  }

  /** Every empty line doubled: what a reader that turns an empty paragraph into a line break sees. */
  function Widen(ls: seq<string>): (r: seq<string>)
    ensures |r| >= |ls|
    ensures forall x :: x in r ==> x == "" || x in ls
    ensures ls != [] && ls[|ls| - 1] != "" ==> r != [] && r[|r| - 1] == ls[|ls| - 1]
  {
    if ls == [] then []
    else (if ls[0] == "" then ["", ""] else [ls[0]]) + Widen(ls[1..])
  }

  /** Widened settled lines normalise back to themselves. */
  lemma {:induction false} WidenTail(rest: seq<string>, prev: string)
    requires Settled(rest, prev)
    ensures Tail(Widen(rest), prev) == rest
    decreases |rest|
  {
    if rest != [] {
      if !Blank(rest[0]) {
        WidenTail(rest[1..], rest[0]);
        WidenLine(rest, prev);
      } else {
        var x := rest[1];
        assert rest[1..][1..] == rest[2..];
        WidenTail(rest[2..], x);
        WidenEmpty(rest);
        GapOfWidened(x, Widen(rest[2..]), prev);
        assert rest == [""] + [x] + rest[2..];
      }
    }
  }

  /** Widened normalised lines normalise back to themselves. */
  lemma NormalizeWiden(ls: seq<string>)
    requires Trimmed(ls) && Settled(ls, "")
    ensures Normalize(Widen(ls)) == ls
  {
    if ls != [] {
      var w := Widen(ls);
      assert w == [ls[0]] + Widen(ls[1..]);
      assert SkipBlanks(w) == w;
    }
    WidenTail(ls, "");
  }

  lemma WidenLine(rest: seq<string>, prev: string)
    requires rest != [] && !Blank(rest[0])
    ensures Tail(Widen(rest), prev) == [rest[0]] + Tail(Widen(rest[1..]), rest[0])
  {
    var w := Widen(rest);
    assert w == [rest[0]] + Widen(rest[1..]);
    TailOfLine(w, prev);
    assert w[1..] == Widen(rest[1..]);
  }

  lemma WidenEmpty(rest: seq<string>)
    requires |rest| >= 2 && rest[0] == "" && !Blank(rest[1])
    ensures Widen(rest) == ["", ""] + ([rest[1]] + Widen(rest[2..]))
  {
    assert rest[1..][1..] == rest[2..];
    assert Widen(rest[1..]) == [rest[1]] + Widen(rest[2..]);
  }

  lemma GapOfWidened(x: string, u: seq<string>, prev: string)
    requires !Blank(x) && !Tight(prev, x)
    ensures Tail(["", ""] + ([x] + u), prev) == [""] + [x] + Tail(u, x)
  {
    var w := ["", ""] + ([x] + u);
    assert w[1..][1..] == [x] + u;
    assert Blank(w[0]) && Blank(w[1..][0]) && ([x] + u)[0] == x;
    assert SkipBlanks([x] + u) == [x] + u;
    assert SkipBlanks(w[1..]) == SkipBlanks([x] + u);
    assert SkipBlanks(w) == [x] + u;
    TailOfRun(w, prev);
    assert ([x] + u)[1..] == u;
  }

  // ------------------------------------------------------------ the loop

  /** `[""] * count`. */
  function Blanks(count: nat): (r: seq<string>)
    ensures |r| == count && forall i :: 0 <= i < count ==> r[i] == ""
  {
    if count == 0 then [] else [""] + Blanks(count - 1)
  }

  /** Skipping a blank line skips into the same place. */
  lemma SkipBlankStep(ls: seq<string>, i: nat)
    requires i < |ls| && Blank(ls[i])
    ensures SkipBlanks(ls[i..]) == SkipBlanks(ls[i + 1..])
  {
    assert ls[i..][1..] == ls[i + 1..];
  }

  /** The first loop of `_normalize_text`: the index of the first non-blank line. */
  method FirstNonBlank(lines: seq<string>) returns (i: nat)
    ensures i <= |lines| && lines[i..] == SkipBlanks(lines)
  {
    i := 0;
    while i < |lines| && Blank(lines[i])
      invariant i <= |lines| && SkipBlanks(lines[i..]) == SkipBlanks(lines)
    {
      SkipBlankStep(lines, i);
      i := i + 1;
    }
    assert lines[i..] == [] || !Blank(lines[i..][0]);
  }

  /** The index of the first non-blank line at or after `i`, or `|lines|`. */
  method SkipRun(lines: seq<string>, i: nat) returns (j: nat)
    requires i <= |lines|
    ensures i <= j <= |lines| && lines[j..] == SkipBlanks(lines[i..])
  {
    j := i;
    while j < |lines| && Blank(lines[j])
      invariant i <= j <= |lines| && SkipBlanks(lines[j..]) == SkipBlanks(lines[i..])
    {
      SkipBlankStep(lines, j);
      j := j + 1;
    }
    assert lines[j..] == [] || !Blank(lines[j..][0]);
  }

  /** The lines of `_normalize_text`, its loops in the source's order. */
  method NormalizeLines(lines: seq<string>) returns (result: seq<string>)
    ensures result == Normalize(lines)
  {
    var n := |lines|;
    var i := FirstNonBlank(lines);
    result := [];
    var last: Option<string> := None;
    ghost var goal := Normalize(lines);
    while i < n
      invariant i <= n
      invariant result + Tail(lines[i..], last.GetOr("")) == goal
    {
      var done;
      i, last, result, done := Emit(lines, i, last, result, goal);
      if done {
        break;
      }
    }
    assert result == goal by {
      if i == n {
        assert lines[i..] == [];
      }
    }
    result := DropTrailingBlanks(result);
    NormalizeKept(lines);
  }

  /** The normalised lines end with a non-blank line: the last loop pops nothing. */
  lemma NormalizeKept(lines: seq<string>)
    ensures RStripBlanks(Normalize(lines)) == Normalize(lines)
  {
    NormalizeShape(lines);
    TrimmedKept(Normalize(lines));
  }

  /**
   * One turn of the main loop of `_normalize_text` at line `i`: a non-blank
   * line is emitted, a run of blank lines followed by a non-blank line
   * emits its gap, and a run of blank lines up to the end stops the loop.
   */
  method Emit(lines: seq<string>, i: nat, last: Option<string>, result: seq<string>, ghost goal: seq<string>)
    returns (next: nat, last': Option<string>, result': seq<string>, done: bool)
    requires i < |lines| && result + Tail(lines[i..], last.GetOr("")) == goal
    ensures done ==> result' == goal
    ensures !done ==> i < next <= |lines| && result' + Tail(lines[next..], last'.GetOr("")) == goal
  {
    var line := lines[i];
    BlankIffStripped(line);
    if Strip(line) != [] {
      LineStep(lines, i, last.GetOr(""), result, goal);
      return i + 1, Some(line), result + [line], false;
    }
    var j, gap := BlankRun(lines, i, last.GetOr(""));
    if j == |lines| {
      RunAtEnd(lines, i, last.GetOr(""), result, goal);
      return j, last, result, true;
    }
    GapStep(lines, i, j, last.GetOr(""), result, goal);
    return j, last, result + gap, false;
  }

  /**
   * A run of blank lines from `i` after the last emitted line `last`: the
   * index `j` of the next non-blank line and the `[""] * keep` the loop
   * emits for the run.
   */
  method BlankRun(lines: seq<string>, i: nat, last: string) returns (j: nat, gap: seq<string>)
    requires i < |lines| && Blank(lines[i])
    ensures i < j <= |lines| && lines[j..] == SkipBlanks(lines[i..])
    ensures j < |lines| ==> gap == Gap(last, lines[j])
  {
    j := SkipRun(lines, i);
    if j == |lines| {
      return j, [];
    }
    var prev := RStrip(last);
    var nextStripped := LStrip(lines[j]);
    var keep: nat := 1;
    if EndsColon(prev) && IsItem(nextStripped) {
      keep := 0;
    } else if IsItem(LStrip(prev)) && IsItem(nextStripped) {
      keep := 0;
    }
    assert keep == 0 <==> Tight(last, lines[j]);
    BlanksOfKeep(keep, last, lines[j]);
    gap := Blanks(keep);
  }

  /** A non-blank line: emitted as it is, and it becomes the last line. */
  lemma LineStep(lines: seq<string>, i: nat, prev: string, result: seq<string>, goal: seq<string>)
    requires i < |lines| && !Blank(lines[i])
    requires result + Tail(lines[i..], prev) == goal
    ensures result + [lines[i]] + Tail(lines[i + 1..], lines[i]) == goal
  {
    var r := lines[i..];
    assert r[1..] == lines[i + 1..];
    TailOfLine(r, prev);
    SeqAssoc(result, [lines[i]], Tail(lines[i + 1..], lines[i]));
  }

  /** Blank lines up to the end emit nothing. */
  lemma RunAtEnd(lines: seq<string>, i: nat, prev: string, result: seq<string>, goal: seq<string>)
    requires i < |lines| && Blank(lines[i]) && SkipBlanks(lines[i..]) == []
    requires result + Tail(lines[i..], prev) == goal
    ensures result == goal
  {
  }

  /** One run of blank lines followed by a non-blank line: its gap, then that line's tail. */
  lemma GapStep(lines: seq<string>, i: nat, j: nat, prev: string, result: seq<string>, goal: seq<string>)
    requires i < j < |lines| && Blank(lines[i]) && lines[j..] == SkipBlanks(lines[i..])
    requires result + Tail(lines[i..], prev) == goal
    ensures result + Gap(prev, lines[j]) + Tail(lines[j..], prev) == goal
  {
    var r := lines[j..];
    assert r[0] == lines[j];
    TailOfLine(r, prev);
    TailOfRun(lines[i..], prev);
    SeqAssoc(Gap(prev, r[0]), [r[0]], Tail(r[1..], r[0]));
    SeqAssoc(result, Gap(prev, r[0]), Tail(r, prev));
  }

  lemma TailOfLine(r: seq<string>, prev: string)
    requires r != [] && !Blank(r[0])
    ensures Tail(r, prev) == [r[0]] + Tail(r[1..], r[0])
  {
  }

  lemma TailOfRun(rest: seq<string>, prev: string)
    requires rest != [] && Blank(rest[0]) && SkipBlanks(rest) != []
    ensures var r := SkipBlanks(rest);
      Tail(rest, prev) == Gap(prev, r[0]) + [r[0]] + Tail(r[1..], r[0])
  {
  }

  lemma SeqAssoc<T>(a: seq<T>, b: seq<T>, c: seq<T>)
    ensures a + b + c == a + (b + c)
  {
  }

  /** The keep count of `_normalize_text` is the gap's length. */
  lemma BlanksOfKeep(keep: nat, prev: string, next: string)
    requires keep == (if Tight(prev, next) then 0 else 1)
    ensures Blanks(keep) == Gap(prev, next)
  {
    if keep == 1 {
      assert Blanks(1) == [""] + Blanks(0);
    }
  }

  /** `ls` without its blank lines at the end. */
  function RStripBlanks(ls: seq<string>): (r: seq<string>)
    ensures |r| <= |ls| && r == ls[..|r|]
    ensures r != [] ==> !Blank(r[|r| - 1])
    ensures forall k :: |r| <= k < |ls| ==> Blank(ls[k])
  {
    if ls != [] && Blank(ls[|ls| - 1]) then RStripBlanks(ls[..|ls| - 1]) else ls
  }

  /** Lines that end with a non-blank line keep all of them. */
  lemma TrimmedKept(ls: seq<string>)
    requires Trimmed(ls)
    ensures RStripBlanks(ls) == ls
  {
  }

  /** The last loop of `_normalize_text`: blank lines popped off the end. */
  method DropTrailingBlanks(lines: seq<string>) returns (result: seq<string>)
    ensures result == RStripBlanks(lines)
  {
    result := lines;
    while result != [] && Blank(result[|result| - 1])
      invariant |result| <= |lines| && RStripBlanks(result) == RStripBlanks(lines)
    {
      result := result[..|result| - 1];
    }
  }

  // ------------------------------------------------------------ the text

  /** `s.replace("\r\n", "\n")`, scanning left to right. */
  function CrLfToLf(s: string): (r: string)
    ensures '\r' !in s ==> r == s
    decreases |s|
  {
    if s == [] then []
    else if |s| >= 2 && s[0] == '\r' && s[1] == '\n' then "\n" + CrLfToLf(s[2..])
    else [s[0]] + CrLfToLf(s[1..])
  }

  /** `s.replace("\r", "\n")`. */
  function CrToLf(s: string): (r: string)
    ensures |r| == |s| && '\r' !in r
    ensures forall i :: 0 <= i < |s| ==> r[i] == (if s[i] == '\r' then '\n' else s[i])
  {
    seq(|s|, i requires 0 <= i < |s| => if s[i] == '\r' then '\n' else s[i])
  }

  /** Every "\r\n" and every lone "\r" becomes "\n". */
  function UnifyBreaks(s: string): (r: string)
    ensures '\r' !in r
    ensures '\r' !in s ==> r == s
  {
    CrToLf(CrLfToLf(s))
  }

  /** `_normalize_text`: the normalised lines joined with "\n". */
  function NormalizedText(text: string): string {
    Join(Normalize(LinesOf(UnifyBreaks(text))), "\n")
  }

  /** `_normalize_text`, the string operations around the loops. */
  method NormalizeText(text: string) returns (r: string)
    ensures r == NormalizedText(text)
  {
    var lines := LinesOf(UnifyBreaks(text));
    var result := NormalizeLines(lines);
    r := Join(result, "\n");
  }

  /** A join of parts without `c`, by a separator without `c`, has no `c`. */
  lemma {:induction false} JoinWithout(parts: seq<string>, sep: string, c: char)
    requires forall i :: 0 <= i < |parts| ==> c !in parts[i]
    requires c !in sep
    ensures c !in Join(parts, sep)
  {
    if |parts| >= 2 {
      assert forall i :: 0 <= i < |parts| - 1 ==> parts[1..][i] == parts[i + 1];
      JoinWithout(parts[1..], sep, c);
    }
  }

  /**
   * The lines of normalised text are the normalised lines: no line break
   * inside a line, no blank line at either end, only empty lines standing
   * between non-blank lines where the rules keep one.
   */
  lemma NormalizedLines(text: string)
    ensures var ls := Normalize(LinesOf(UnifyBreaks(text)));
      && LinesOf(NormalizedText(text)) == ls
      && Trimmed(ls) && Settled(ls, "")
      && '\r' !in NormalizedText(text)
  {
    var input := LinesOf(UnifyBreaks(text));
    var ls := Normalize(input);
    NormalizeShape(input);
    forall i | 0 <= i < |ls| ensures Breakless(ls[i]) {
      assert ls[i] in ls;
    }
    forall i | 0 <= i < |ls| ensures '\r' !in ls[i] {
      assert Breakless(ls[i]);
    }
    if ls != [] {
      assert !Blank(ls[|ls| - 1]);
    }
    LinesOfJoin(ls);
    JoinWithout(ls, "\n", '\r');
  }

  /** Normalising normalised text changes nothing. */
  lemma NormalizedTextIdempotent(text: string)
    ensures NormalizedText(NormalizedText(text)) == NormalizedText(text)
  {
    var ls := Normalize(LinesOf(UnifyBreaks(text)));
    NormalizedLines(text);
    NormalizeIdempotent(LinesOf(UnifyBreaks(text)));
  }
}
