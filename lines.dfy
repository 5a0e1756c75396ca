/**
 * `str.splitlines(keepends=True)`: a text cut after each line break, the
 * breaks kept. The breaks are the ones Python's `str.splitlines` knows
 * ("\n", "\r", "\r\n", "\v", "\f", "\x1c", "\x1d", "\x1e", "\x85",
 * U+2028, U+2029). The cut lines join back to the text, and lines of the
 * right shape are exactly what a cut of their join gives back.
 */
module Lines {
  import opened Text

  /** A character `str.splitlines` breaks after ("\r\n" counts as one break). */
  predicate IsBreak(c: char) {
    var n := c as int;
    n == 0x0A || n == 0x0B || n == 0x0C || n == 0x0D || n == 0x1C || n == 0x1D || n == 0x1E
    || n == 0x85 || n == 0x2028 || n == 0x2029
  }

  /** Every line break is whitespace to `str.isspace` and to the regex class `\s`. */
  lemma BreakIsSpace(c: char)
    requires IsBreak(c)
    ensures IsSpace(c)
  {
  }

  predicate Breakless(s: string) {
    forall i :: 0 <= i < |s| ==> !IsBreak(s[i])
  }

  /** The first break at or after `i`, or `|s|`. */
  function FirstBreak(s: string, i: nat): (b: nat)
    requires i <= |s|
    ensures i <= b <= |s| && (b < |s| ==> IsBreak(s[b]))
    ensures forall j :: i <= j < b ==> !IsBreak(s[j])
    decreases |s| - i
  {
    if i == |s| || IsBreak(s[i]) then i else FirstBreak(s, i + 1)
  }

  /** The length of the first line of `s`, its break included. */
  function LineEnd(s: string): (k: nat)
    requires s != []
    ensures 0 < k <= |s|
  {
    var b := FirstBreak(s, 0);
    if b == |s| then |s|
    else if s[b] == '\r' && b + 1 < |s| && s[b + 1] == '\n' then b + 2
    else b + 1
  }

  /** `s.splitlines(keepends=True)`. */
  function SplitKeepEnds(s: string): (r: seq<string>)
    decreases |s|
  {
    if s == [] then [] else
      var k := LineEnd(s);
      [s[..k]] + SplitKeepEnds(s[k..])
  }

  /** The length of a line's break: 2 for "\r\n", 1 for another break, 0 for none. */
  function BreakLen(l: string): (n: nat)
    ensures n <= |l|
    ensures n > 0 ==> IsBreak(l[|l| - 1])
  {
    if |l| >= 2 && l[|l| - 2] == '\r' && l[|l| - 1] == '\n' then 2
    else if l != [] && IsBreak(l[|l| - 1]) then 1
    else 0
  }

  /**
   * `l` is a whole line of a text that goes on with `next`: no break before
   * its own, a line without a break is the last one, and a line ending in a
   * lone "\r" is not followed by "\n" (they would make one break).
   */
  predicate LineBefore(l: string, next: string) {
    && l != []
    && Breakless(l[..|l| - BreakLen(l)])
    && (BreakLen(l) == 0 ==> next == [])
    && (l[|l| - 1] == '\r' ==> next == [] || next[0] != '\n')
  }

  /** Every line is a whole line of the text the lines make. */
  predicate WellSplit(lines: seq<string>) {
    lines == [] || (LineBefore(lines[0], Concat(lines[1..])) && WellSplit(lines[1..]))
  }

  lemma LineEndBefore(l: string, next: string)
    requires LineBefore(l, next)
    ensures LineEnd(l + next) == |l|
  {
    var s := l + next;
    var body := |l| - BreakLen(l);
    assert forall j :: 0 <= j < body ==> s[j] == l[..body][j];
    FirstBreakSkips(s, 0, body);
    if BreakLen(l) == 1 && l[|l| - 1] == '\r' && next != [] {
      assert s[|l|] == next[0];
    }
  }

  lemma {:induction false} FirstBreakSkips(s: string, i: nat, b: nat)
    decreases b - i
    requires i <= b <= |s| && (b < |s| ==> IsBreak(s[b])) && forall j :: i <= j < b ==> !IsBreak(s[j])
    ensures FirstBreak(s, i) == b
  {
    if i < b {
      FirstBreakSkips(s, i + 1, b);
    }
  }

  /** Cutting a text and joining the lines gives the text back. */
  lemma {:induction false} ConcatSplit(s: string)
    ensures Concat(SplitKeepEnds(s)) == s
    decreases |s|
  {
    if s != [] {
      var k := LineEnd(s);
      ConcatSplit(s[k..]);
      assert s[..k] + s[k..] == s;
    }
  }

  /** The lines of a cut are whole lines. */
  lemma {:induction false} SplitWellSplit(s: string)
    ensures WellSplit(SplitKeepEnds(s))
    decreases |s|
  {
    if s != [] {
      var k := LineEnd(s);
      var r := SplitKeepEnds(s);
      SplitWellSplit(s[k..]);
      ConcatSplit(s[k..]);
      assert r[1..] == SplitKeepEnds(s[k..]);
      FirstLineWhole(s);
    }
  }

  lemma FirstLineWhole(s: string)
    requires s != []
    ensures LineBefore(s[..LineEnd(s)], s[LineEnd(s)..])
  {
    var k := LineEnd(s);
    var b := FirstBreak(s, 0);
    var l := s[..k];
    if b < |s| && !(s[b] == '\r' && b + 1 < |s| && s[b + 1] == '\n') && b > 0 {
      assert !IsBreak(s[b - 1]);
    }
    assert l[..|l| - BreakLen(l)] == s[..b];
  }

  /** Whole lines are exactly what a cut of their join gives back. */
  lemma {:induction false} SplitConcat(lines: seq<string>)
    requires WellSplit(lines)
    ensures SplitKeepEnds(Concat(lines)) == lines
  {
    if lines != [] {
      var l := lines[0];
      var next := Concat(lines[1..]);
      LineEndBefore(l, next);
      assert (l + next)[..|l|] == l;
      assert (l + next)[|l|..] == next;
      SplitConcat(lines[1..]);
    }
  }

  /** Each line passed through `f`. */
  function MapLines(f: string -> string, lines: seq<string>): (r: seq<string>)
    ensures |r| == |lines|
    ensures forall i :: 0 <= i < |lines| ==> r[i] == f(lines[i])
  {
    seq(|lines|, i requires 0 <= i < |lines| => f(lines[i]))
  }

  /** `l` has no break before its own. */
  predicate WholeLine(l: string) {
    l != [] && Breakless(l[..|l| - BreakLen(l)])
  }

  /** `r` is a whole line with the first and last characters and the break of `l`. */
  predicate LineKept(l: string, r: string)
    requires l != []
  {
    && r != [] && r[0] == l[0] && r[|r| - 1] == l[|l| - 1]
    && BreakLen(r) == BreakLen(l) && Breakless(r[..|r| - BreakLen(r)])
  }

  /** `f` turns a whole line into a whole line with the same ends and the same break. */
  predicate KeepsLine(f: string -> string, l: string) {
    WholeLine(l) ==> LineKept(l, f(l))
  }

  /** A line map that keeps every line whole keeps a text's lines whole. */
  lemma {:induction false} MapWellSplit(f: string -> string, lines: seq<string>)
    requires WellSplit(lines)
    requires forall l :: KeepsLine(f, l)
    ensures WellSplit(MapLines(f, lines))
    ensures Concat(MapLines(f, lines)) == [] <==> Concat(lines) == []
    ensures Concat(lines) != [] ==> Concat(MapLines(f, lines))[0] == Concat(lines)[0]
  {
    if lines != [] {
      var l := lines[0];
      var r := MapLines(f, lines);
      assert KeepsLine(f, l) && WholeLine(l);
      assert r[1..] == MapLines(f, lines[1..]);
      MapWellSplit(f, lines[1..]);
      assert Concat(r) == r[0] + Concat(r[1..]);
    }
  }

  /** A line without its break. */
  function DropBreak(l: string): string {
    l[..|l| - BreakLen(l)]
  }

  /** Whole lines are whole one by one. */
  lemma {:induction false} WellSplitWhole(lines: seq<string>)
    requires WellSplit(lines)
    ensures forall i :: 0 <= i < |lines| ==> WholeLine(lines[i])
  {
    if lines != [] {
      WellSplitWhole(lines[1..]);
      forall i | 1 <= i < |lines| ensures WholeLine(lines[i]) {
        assert lines[i] == lines[1..][i - 1];
      }
    }
  }

  /** `s.splitlines()`: the lines without their breaks. */
  function LinesOf(s: string): (r: seq<string>)
    ensures |r| == |SplitKeepEnds(s)|
    ensures forall i :: 0 <= i < |r| ==> Breakless(r[i])
  {
    SplitWellSplit(s);
    WellSplitWhole(SplitKeepEnds(s));
    MapLines(DropBreak, SplitKeepEnds(s))
  }

  /** A whole line in front of a text is the first line of the cut. */
  lemma SplitFirstLine(l: string, rest: string)
    requires LineBefore(l, rest)
    ensures SplitKeepEnds(l + rest) == [l] + SplitKeepEnds(rest)
  {
    LineEndBefore(l, rest);
    assert (l + rest)[..|l|] == l && (l + rest)[|l|..] == rest;
  }

  lemma MapCons(f: string -> string, l: string, rest: seq<string>)
    ensures MapLines(f, [l] + rest) == [f(l)] + MapLines(f, rest)
  {
  }

  /** Breakless lines, the last one not empty, are what `splitlines` gives back from their join with "\n". */
  lemma {:induction false} LinesOfJoin(ls: seq<string>)
    requires forall i :: 0 <= i < |ls| ==> Breakless(ls[i])
    requires ls == [] || ls[|ls| - 1] != []
    ensures LinesOf(Join(ls, "\n")) == ls
  {
    if |ls| == 1 {
      LastLine(ls[0]);
    } else if |ls| >= 2 {
      assert forall i :: 0 <= i < |ls| - 1 ==> ls[1..][i] == ls[i + 1];
      LinesOfJoin(ls[1..]);
      FirstLine(ls[0], Join(ls[1..], "\n"));
    }
  }

  /** A breakless non-empty text is one line. */
  lemma LastLine(x: string)
    requires Breakless(x) && x != []
    ensures LinesOf(x) == [x]
  {
    assert BreakLen(x) == 0;
    SplitFirstLine(x, []);
    assert x + [] == x;
  }

  /** A breakless line and "\n" in front of a text add that line in front of its lines. */
  lemma FirstLine(x: string, rest: string)
    requires Breakless(x)
    ensures LinesOf(x + "\n" + rest) == [x] + LinesOf(rest)
  {
    var l := x + "\n";
    assert l[..|l| - 1] == x;
    assert x != [] ==> !IsBreak(x[|x| - 1]);
    assert BreakLen(l) == 1;
    SplitFirstLine(l, rest);
    MapCons(DropBreak, l, SplitKeepEnds(rest));
  }
}
