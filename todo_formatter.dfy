/**
 * The checklist rewriter (lucy_notes_manager/modules/todo_formatter.py):
 * in a Markdown note whose arguments carry `--todo`, every list item
 * `indent- content` becomes an open checkbox `indent- [ ] content`, items
 * that already are checkboxes stay as they are, and every line keeps its
 * break. The line pattern is `^(\s*)-\s+(?!\[[ xX]\])(.+)$` under
 * Python's `re.match`, with its backtracking written out.
 *
 * Whether the path is a readable file is the parameter `file` (`None`
 * when `os.path.isfile` fails or the read raises), and whether the write
 * succeeds is the parameter `writeOk`.
 */
module TodoFormatter {
  import opened Wrappers
  import opened Text
  import opened Paths
  import opened Lines

  // ------------------------------------------------------------ the pattern

  /** The end of the run of whitespace starting at `i`. */
  function SpaceEnd(s: string, i: nat): (k: nat)
    requires i <= |s|
    ensures i <= k <= |s| && (k < |s| ==> !IsSpace(s[k]))
    ensures forall j :: i <= j < k ==> IsSpace(s[j])
    decreases |s| - i
  {
    if i == |s| || !IsSpace(s[i]) then i else SpaceEnd(s, i + 1)
  }

  /** The first "\n" at or after `i`, or `|s|`: where `.` stops. */
  function NewlineAt(s: string, i: nat): (k: nat)
    requires i <= |s|
    ensures i <= k <= |s| && (k < |s| ==> s[k] == '\n')
    ensures '\n' !in s[i..k]
    decreases |s| - i
  {
    if i == |s| || s[i] == '\n' then i
    else
      var k := NewlineAt(s, i + 1);
      assert s[i..k] == [s[i]] + s[i + 1..k];
      k
  }

  /** `\[[ xX]\]` matches at `p`. */
  predicate OpensBox(s: string, p: nat) {
    p + 3 <= |s| && s[p] == '[' && s[p + 1] in " xX" && s[p + 2] == ']'
  }

  /** `(?!\[[ xX]\])(.+)$` matches at `p`: `.+` takes every non-newline and `$` needs the end or a final newline. */
  predicate TailMatches(s: string, p: nat)
    requires p <= |s|
  {
    !OpensBox(s, p) && p < |s| && s[p] != '\n' && NewlineAt(s, p) >= |s| - 1
  }

  /**
   * The backtracking of `\s+` after the dash at `d`: the run of `j`
   * whitespace characters is tried first, then shorter ones down to one;
   * the result is where the content starts.
   */
  function Backtrack(s: string, d: nat, j: nat): (r: Option<nat>)
    requires d + 1 + j <= |s|
    ensures r.Some? ==> d + 2 <= r.value <= d + 1 + j && TailMatches(s, r.value)
    ensures r.Some? ==> forall k :: r.value < k <= d + 1 + j ==> !TailMatches(s, k)
    ensures r.None? ==> forall k :: d + 2 <= k <= d + 1 + j ==> !TailMatches(s, k)
  {
    if j == 0 then None
    else if TailMatches(s, d + 1 + j) then Some(d + 1 + j)
    else Backtrack(s, d, j - 1)
  }

  /** `pattern.match(line)`: the indent and content groups, or `None`. */
  function Match(line: string): Option<(string, string)> {
    var w := SpaceEnd(line, 0);
    if w == |line| || line[w] != '-' then None
    else
      var m := SpaceEnd(line, w + 1) - (w + 1);
      match Backtrack(line, w, m)
      case None => None
      case Some(p) => Some((line[..w], line[p..NewlineAt(line, p)]))
  }

  /**
   * What the pattern accepts, written without a search: the line is
   * whitespace up to the dash at `w`, whitespace from there up to `p`
   * (at least one), content from `p` to `q` that has no newline and that
   * the lookahead lets through, and then the end or one final newline.
   */
  predicate MatchesAt(line: string, w: nat, p: nat, q: nat) {
    && w + 2 <= p < q <= |line|
    && (forall j :: 0 <= j < w ==> IsSpace(line[j]))
    && line[w] == '-'
    && (forall j :: w < j < p ==> IsSpace(line[j]))
    && (forall j :: p <= j < q ==> line[j] != '\n')
    && !OpensBox(line, p)
    && (q == |line| || (q == |line| - 1 && line[q] == '\n'))
  }

  /** A match is a split of the line of that shape, with the groups it names. */
  lemma MatchSound(line: string)
    requires Match(line).Some?
    ensures exists p: nat, q: nat ::
      && MatchesAt(line, |Match(line).value.0|, p, q)
      && Match(line).value.0 == line[..|Match(line).value.0|]
      && Match(line).value.1 == line[p..q]
  {
    var w := SpaceEnd(line, 0);
    var m := SpaceEnd(line, w + 1) - (w + 1);
    var p := Backtrack(line, w, m).value;
    var q := NewlineAt(line, p);
    assert forall j :: p <= j < q ==> line[j] == line[p..q][j - p];
    assert MatchesAt(line, w, p, q);
  }

  /**
   * Any split of that shape makes the pattern match, with the same indent;
   * the content starts no earlier than in the split, since `\s+` is greedy.
   */
  lemma MatchComplete(line: string, w: nat, p: nat, q: nat)
    requires MatchesAt(line, w, p, q)
    ensures Match(line).Some? && Match(line).value.0 == line[..w]
    ensures |Match(line).value.1| <= q - p
  {
    SpaceEndOf(line, 0, w);
    ContentStart(line, w, p, q);
    var p' := Backtrack(line, w, SpaceEnd(line, w + 1) - (w + 1)).value;
    MatchOf(line, w, p');
  }

  /** The content the backtracking settles on starts at or after `p` and runs to `q`. */
  lemma ContentStart(line: string, w: nat, p: nat, q: nat)
    requires MatchesAt(line, w, p, q)
    ensures var r := Backtrack(line, w, SpaceEnd(line, w + 1) - (w + 1));
      r.Some? && p <= r.value <= q && NewlineAt(line, r.value) == q
  {
    var e := SpaceEnd(line, w + 1);
    TailOfMatch(line, w, p, q);
    BacktrackFinds(line, w, e - (w + 1), p - w - 1);
    var p' := Backtrack(line, w, e - (w + 1)).value;
    assert p <= p' <= q;
    NewlineAtSkips(line, p, p');
  }

  /** The groups `Match` reports once the dash and the content start are found. */
  lemma MatchOf(line: string, w: nat, p: nat)
    requires w < |line| && SpaceEnd(line, 0) == w && line[w] == '-'
    requires Backtrack(line, w, SpaceEnd(line, w + 1) - (w + 1)) == Some(p)
    ensures Match(line) == Some((line[..w], line[p..NewlineAt(line, p)]))
  {
  }

  lemma TailOfMatch(line: string, w: nat, p: nat, q: nat)
    requires MatchesAt(line, w, p, q)
    ensures p <= SpaceEnd(line, w + 1) && TailMatches(line, p) && NewlineAt(line, p) == q
  {
    SpaceEndPast(line, w + 1, p);
    NewlineAtPast(line, p, q);
  }

  lemma {:induction false} SpaceEndOf(s: string, i: nat, k: nat)
    requires i <= k < |s| && !IsSpace(s[k]) && forall j :: i <= j < k ==> IsSpace(s[j])
    ensures SpaceEnd(s, i) == k
    decreases k - i
  {
    if i < k {
      SpaceEndOf(s, i + 1, k);
    }
  }

  lemma SpaceEndPast(s: string, i: nat, k: nat)
    requires i <= k <= |s| && forall j :: i <= j < k ==> IsSpace(s[j])
    ensures k <= SpaceEnd(s, i)
  {
  }

  lemma NewlineAtPast(s: string, i: nat, k: nat)
    requires i <= k <= |s| && forall j :: i <= j < k ==> s[j] != '\n'
    ensures k <= NewlineAt(s, i)
  {
  }

  lemma {:induction false} NewlineAtSkips(s: string, i: nat, k: nat)
    requires i <= k <= |s| && k <= NewlineAt(s, i)
    ensures NewlineAt(s, k) == NewlineAt(s, i)
    decreases k - i
  {
    if i < k {
      NewlineAtSkips(s, i + 1, k);
    }
  }

  lemma {:induction false} BacktrackFinds(s: string, d: nat, j: nat, j0: nat)
    requires 1 <= j0 <= j && d + 1 + j <= |s| && TailMatches(s, d + 1 + j0)
    ensures Backtrack(s, d, j).Some?
    decreases j
  {
    if !TailMatches(s, d + 1 + j) {
      BacktrackFinds(s, d, j - 1, j0);
    }
  }

  /**
   * Two or more blanks between the dash and a checkbox: `\s+` gives the last
   * one back, so the line is an item whose content is that blank, the box
   * and the rest.
   */
  lemma GapBeforeBox(line: string, w: nat, e: nat)
    requires w + 3 <= e < |line| && OpensBox(line, e)
    requires (forall j :: 0 <= j < w ==> IsSpace(line[j])) && line[w] == '-'
    requires forall j :: w < j < e ==> IsSpace(line[j]) && line[j] != '\n'
    requires '\n' !in line[e..]
    ensures Match(line) == Some((line[..w], line[e - 1..]))
  {
    GapEnds(line, w, e);
    BacktrackAfterGap(line, w, e);
    MatchOf(line, w, e - 1);
  }

  lemma GapEnds(line: string, w: nat, e: nat)
    requires w < e < |line| && !IsSpace(line[w]) && !IsSpace(line[e])
    requires (forall j :: 0 <= j < w ==> IsSpace(line[j]))
    requires forall j :: w < j < e ==> IsSpace(line[j])
    ensures SpaceEnd(line, 0) == w && SpaceEnd(line, w + 1) == e
  {
    SpaceEndOf(line, 0, w);
    SpaceEndOf(line, w + 1, e);
  }

  lemma BacktrackAfterGap(line: string, w: nat, e: nat)
    requires w + 3 <= e < |line| && OpensBox(line, e)
    requires IsSpace(line[e - 1]) && line[e - 1] != '\n' && '\n' !in line[e..]
    ensures Backtrack(line, w, e - (w + 1)) == Some(e - 1)
    ensures line[e - 1..NewlineAt(line, e - 1)] == line[e - 1..]
  {
    TailAfterGap(line, e);
    var j := e - (w + 1);
    assert !TailMatches(line, w + 1 + j);
  }

  lemma TailAfterGap(line: string, e: nat)
    requires 1 <= e < |line| && !IsSpace(line[e]) && IsSpace(line[e - 1]) && line[e - 1] != '\n'
    requires '\n' !in line[e..]
    ensures TailMatches(line, e - 1) && NewlineAt(line, e - 1) == |line|
  {
    forall j | e - 1 <= j < |line|
      ensures line[j] != '\n'
    {
      if j >= e { assert line[j] == line[e..][j - e]; }
    }
    NewlineAtPast(line, e - 1, |line|);
    assert !OpensBox(line, e - 1);
  }

  /** A line whose dash is followed by one space and a checkbox never matches. */
  lemma NoMatchAfterBox(s: string, w: nat)
    requires w + 5 <= |s| && (forall j :: 0 <= j < w ==> IsSpace(s[j]))
    requires s[w] == '-' && s[w + 1] == ' ' && OpensBox(s, w + 2)
    ensures Match(s) == None
  {
    SpaceEndOf(s, 0, w);
    SpaceEndOf(s, w + 1, w + 2);
  }

  /** Checkboxes, open or ticked, are never items to rewrite. */
  lemma BoxesDoNotMatch(indent: string, mark: char, rest: string)
    requires (forall j :: 0 <= j < |indent| ==> IsSpace(indent[j])) && mark in " xX"
    ensures Match(indent + "- [" + [mark] + "]" + rest) == None
  {
    var s := indent + "- [" + [mark] + "]" + rest;
    var w := |indent|;
    assert forall j :: 0 <= j < w ==> s[j] == indent[j];
    assert s[w..w + 5] == "- [" + [mark] + "]";
    NoMatchAfterBox(s, w);
  }

  // ------------------------------------------------------------ one line

  /** The length of the break the source takes off a line: 2 for "\r\n", 1 for "\n", else 0. */
  function NewlineLen(l: string): (n: nat)
    ensures n <= |l|
  {
    if |l| >= 2 && l[|l| - 2] == '\r' && l[|l| - 1] == '\n' then 2
    else if l != [] && l[|l| - 1] == '\n' then 1
    else 0
  }

  /** The line's break as the source takes it off: "\r\n", "\n" or none. */
  function Newline(l: string): string {
    l[|l| - NewlineLen(l)..]
  }

  /** The line without that break. */
  function Body(l: string): string {
    l[..|l| - NewlineLen(l)]
  }

  lemma NewlineCases(l: string)
    ensures Newline(l) == "" || Newline(l) == "\n" || Newline(l) == "\r\n"
    ensures l == Body(l) + Newline(l)
  {
  }

  /** One line of the note after the rewrite. */
  function RewriteLine(l: string): string {
    match Match(Body(l))
    case None => l
    case Some((indent, content)) => indent + "- [ ] " + content + Newline(l)
  }

  /** A rewritten line is a checkbox, so the pattern no longer matches it. */
  lemma RewrittenIsBox(l: string)
    requires Match(Body(l)).Some?
    ensures Match(Body(RewriteLine(l))) == None
  {
    var (indent, content) := Match(Body(l)).value;
    MatchSound(Body(l));
    assert forall j :: 0 <= j < |indent| ==> indent[j] == Body(l)[j];
    NewlineCases(l);
    BoxedBody(indent, content, Newline(l));
    NoMatchAfterBox(Body(indent + "- [ ] " + content + Newline(l)), |indent|);
  }

  /** Without its break, a checkbox line still opens with its indent, "- " and a box. */
  lemma BoxedBody(indent: string, content: string, nl: string)
    requires forall j :: 0 <= j < |indent| ==> IsSpace(indent[j])
    requires content != [] && content[|content| - 1] != '\n'
    requires nl == "" || nl == "\n" || nl == "\r\n"
    ensures var b := Body(indent + "- [ ] " + content + nl);
      var w := |indent|;
      && w + 5 <= |b| && (forall j :: 0 <= j < w ==> IsSpace(b[j]))
      && b[w] == '-' && b[w + 1] == ' ' && OpensBox(b, w + 2)
  {
    var x := indent + "- [ ] " + content;
    var r := x + nl;
    assert indent + "- [ ] " + content + nl == r;
    assert x[|x| - 1] == content[|content| - 1];
    NewlineOfAppend(x, nl);
    var b := Body(r);
    assert b == r[..|b|];
    assert forall j :: 0 <= j < |indent| + 5 ==> b[j] == x[j];
    assert forall j :: 0 <= j < |indent| ==> x[j] == indent[j];
  }

  lemma NewlineOfAppend(x: string, nl: string)
    requires x != [] && x[|x| - 1] != '\n' && (nl == "" || nl == "\n" || nl == "\r\n")
    ensures NewlineLen(x + nl) <= |nl| + 1
  {
    var r := x + nl;
    if nl == "" {
      assert r[|r| - 1] == x[|x| - 1];
    } else if nl == "\n" {
      assert r[|r| - 1] == '\n';
    }
  }

  /** Rewriting a rewritten line changes nothing. */
  lemma RewriteLineIdempotent(l: string)
    ensures RewriteLine(RewriteLine(l)) == RewriteLine(l)
  {
    if Match(Body(l)).Some? {
      RewrittenIsBox(l);
    }
  }

  // ------------------------------------------------------------ the note

  /** Every line rewritten on its own. */
  function Converted(lines: seq<string>): (r: seq<string>)
    ensures |r| == |lines|
    ensures forall i :: 0 <= i < |lines| ==> r[i] == RewriteLine(lines[i])
  {
    MapLines(RewriteLine, lines)
  }

  /** One turn of the loop of `_convert_to_checklist`: the new line, and whether it differs. */
  method ConvertLine(original: string) returns (newLine: string, lineChanged: bool)
    ensures newLine == RewriteLine(original)
    ensures lineChanged <==> newLine != original
  {
    var nl := Newline(original);
    var m := Match(Body(original));
    newLine := original;
    lineChanged := false;
    if m.Some? {
      newLine := m.value.0 + "- [ ] " + m.value.1 + nl;
      if newLine != original {
        lineChanged := true;
      }
    }
  }

  /** The loop of `_convert_to_checklist`: the new lines, and whether any line changed. */
  method ConvertToChecklist(lines: seq<string>) returns (newLines: seq<string>, changed: bool)
    ensures newLines == Converted(lines)
    ensures changed <==> newLines != lines
  {
    newLines := [];
    changed := false;
    for i := 0 to |lines|
      invariant newLines == Converted(lines)[..i]
      invariant changed <==> newLines != lines[..i]
    {
      var newLine, lineChanged := ConvertLine(lines[i]);
      ChecklistStep(lines, Converted(lines), i, newLines, changed, newLine, lineChanged);
      changed := changed || lineChanged;
      newLines := newLines + [newLine];
    }
    assert lines[..|lines|] == lines;
  }

  /** One turn of the loop keeps its two invariants. */
  lemma ChecklistStep(lines: seq<string>, conv: seq<string>, i: nat, newLines: seq<string>, changed: bool,
                      newLine: string, lineChanged: bool)
    requires i < |lines| == |conv| && newLine == conv[i]
    requires newLines == conv[..i] && (changed <==> newLines != lines[..i])
    requires lineChanged <==> newLine != lines[i]
    ensures newLines + [newLine] == conv[..i + 1]
    ensures (changed || lineChanged) <==> newLines + [newLine] != lines[..i + 1]
  {
    AppendEqual(newLines, lines[..i], newLine, lines[i]);
    assert lines[..i + 1] == lines[..i] + [lines[i]];
  }

  lemma AppendEqual(a: seq<string>, b: seq<string>, x: string, y: string)
    requires |a| == |b|
    ensures a + [x] == b + [y] <==> a == b && x == y
  {
    if a + [x] == b + [y] {
      assert a == (a + [x])[..|a|] && b == (b + [y])[..|b|];
      assert x == (a + [x])[|a|];
    }
  }

  /** Converting converted lines changes nothing. */
  lemma ConvertedIdempotent(lines: seq<string>)
    ensures Converted(Converted(lines)) == Converted(lines)
  {
    forall i | 0 <= i < |lines|
      ensures Converted(Converted(lines))[i] == Converted(lines)[i]
    {
      RewriteLineIdempotent(lines[i]);
    }
  }

  // ------------------------------------------------------------ the hook

  /** The extension test: `os.path.splitext(path)[1].lstrip(".").lower() == "md"`. */
  predicate IsMarkdown(path: string) {
    Lower(LStripChar(SplitExt(Basename(path)).1, '.')) == "md"
  }

  /**
   * `created` and `modified`: nothing without `--todo`, for a path that is
   * not a readable Markdown file, when no line changes or when the write
   * fails; otherwise the new text and the path to ignore.
   */
  function Outcome(args: seq<string>, path: string, file: Option<string>, writeOk: bool)
    : Option<(string, seq<string>)>
  {
    if "--todo" !in args || file.None? || !IsMarkdown(path) then None
    else
      var lines := SplitKeepEnds(file.value);
      var newLines := Converted(lines);
      if newLines == lines || !writeOk then None
      else Some((Concat(newLines), [path]))
  }

  method ConvertFile(args: seq<string>, path: string, file: Option<string>, writeOk: bool)
    returns (r: Option<(string, seq<string>)>)
    ensures r == Outcome(args, path, file, writeOk)
  {
    if "--todo" !in args || file.None? || !IsMarkdown(path) {
      return None;
    }
    var lines := SplitKeepEnds(file.value);
    var newLines, changed := ConvertToChecklist(lines);
    if !changed || !writeOk {
      return None;
    }
    return Some((Concat(newLines), [path]));
  }

  /** The hooks: created and modified convert; the other events do nothing. */
  function OnEvent(kind: EventKind, args: seq<string>, path: string, file: Option<string>, writeOk: bool)
    : (r: Option<(string, seq<string>)>)
    ensures kind != Created && kind != Modified ==> r == None
    ensures kind == Created || kind == Modified ==> r == Outcome(args, path, file, writeOk)
  {
    if kind == Created || kind == Modified then Outcome(args, path, file, writeOk) else None
  }

  /**
   * The rewritten note keeps its line count and its breaks: cutting the
   * written text gives the rewritten lines, one per original line.
   */
  lemma OutcomeLines(args: seq<string>, path: string, text: string, writeOk: bool)
    requires Outcome(args, path, Some(text), writeOk).Some?
    ensures var written := Outcome(args, path, Some(text), writeOk).value.0;
      && SplitKeepEnds(written) == Converted(SplitKeepEnds(text))
      && |SplitKeepEnds(written)| == |SplitKeepEnds(text)|
      && Outcome(args, path, Some(text), writeOk).value.1 == [path]
  {
    var lines := SplitKeepEnds(text);
    SplitWellSplit(text);
    ConvertedWellSplit(lines);
    SplitConcat(Converted(lines));
  }

  /** The rewrite run over its own output finds nothing to change. */
  lemma OutcomeIdempotent(args: seq<string>, path: string, text: string, writeOk: bool, writeOk2: bool)
    requires Outcome(args, path, Some(text), writeOk).Some?
    ensures Outcome(args, path, Some(Outcome(args, path, Some(text), writeOk).value.0), writeOk2) == None
  {
    OutcomeLines(args, path, text, writeOk);
    ConvertedIdempotent(SplitKeepEnds(text));
  }

  // ------------------------------------------------------------ line shape

  /**
   * On a whole line, the rewrite puts "- [ ] " in the place of the dash
   * and the whitespace after it, and keeps the rest of the line, its break
   * included.
   */
  lemma RewriteSplices(l: string) returns (w: nat, p: nat)
    requires l != [] && Breakless(l[..|l| - BreakLen(l)])
    requires Match(Body(l)).Some?
    ensures w + 2 <= p < |l| && l[w] == '-'
    ensures forall j :: 0 <= j < p ==> !IsBreak(l[j])
    ensures p < |l| - BreakLen(l) || p == |l| - 1
    ensures RewriteLine(l) == l[..w] + "- [ ] " + l[p..]
  {
    MatchSound(Body(l));
    var (indent, content) := Match(Body(l)).value;
    w := |indent|;
    var q: nat;
    p, q :| MatchesAt(Body(l), w, p, q) && indent == Body(l)[..w] && content == Body(l)[p..q];
    SpliceOfMatch(l, w, p, q);
  }

  lemma SpliceOfMatch(l: string, w: nat, p: nat, q: nat)
    requires Breakless(l[..|l| - BreakLen(l)])
    requires MatchesAt(Body(l), w, p, q)
    ensures w + 2 <= p < |l| && l[w] == '-'
    ensures forall j :: 0 <= j < p ==> !IsBreak(l[j])
    ensures p < |l| - BreakLen(l) || p == |l| - 1
    ensures Body(l)[..w] + "- [ ] " + Body(l)[p..q] + Newline(l) == l[..w] + "- [ ] " + l[p..]
  {
    var body := Body(l);
    var nl := Newline(l);
    var k := |l| - BreakLen(l);
    assert |nl| == BreakLen(l) || (nl == "" && BreakLen(l) == 1);
    assert forall j :: 0 <= j < k ==> !IsBreak(l[j]) by {
      assert forall j :: 0 <= j < k ==> l[j] == l[..k][j];
    }
    assert forall j :: 0 <= j < |body| ==> body[j] == l[j];
    assert q == |body| by {
      if q < |body| {
        assert body[q] == '\n';
        assert IsBreak(l[q]);
      }
    }
    assert body[p..q] + nl == l[p..];
  }

  /** The splice keeps the line's first and last characters, its break, and puts no break before it. */
  lemma SplicedKeepsLine(l: string, w: nat, p: nat)
    requires l != [] && Breakless(l[..|l| - BreakLen(l)])
    requires w + 2 <= p < |l| && l[w] == '-'
    requires forall j :: 0 <= j < p ==> !IsBreak(l[j])
    requires p < |l| - BreakLen(l) || p == |l| - 1
    ensures LineKept(l, l[..w] + "- [ ] " + l[p..])
  {
    var r := l[..w] + "- [ ] " + l[p..];
    var d := w + 6 - p;
    assert |r| == |l| + d;
    assert forall j :: w + 6 <= j < |r| ==> r[j] == l[j - d];
    assert r[|r| - 1] == l[|l| - 1];
    assert BreakLen(r) == BreakLen(l) by {
      if p < |l| - 1 {
        assert r[|r| - 2] == l[|l| - 2];
      } else {
        assert r[|r| - 2] == ' ';
        assert !IsBreak(l[|l| - 2]);
      }
    }
    var k := |l| - BreakLen(l);
    forall j | 0 <= j < |r| - BreakLen(r)
      ensures !IsBreak(r[j])
    {
      if j < w {
        assert r[j] == l[j];
      } else if j < w + 6 {
        assert r[j] in "- [ ] ";
      } else {
        assert r[j] == l[j - d] && j - d < k;
        assert l[j - d] == l[..k][j - d];
      }
    }
  }

  /** A rewritten line keeps its first and last characters, its break, and has no break before it. */
  lemma RewriteKeepsLine(l: string)
    ensures KeepsLine(RewriteLine, l)
  {
    if WholeLine(l) && Match(Body(l)).Some? {
      var w, p := RewriteSplices(l);
      SplicedKeepsLine(l, w, p);
    }
  }

  lemma ConvertedWellSplit(lines: seq<string>)
    requires WellSplit(lines)
    ensures WellSplit(Converted(lines))
  {
    forall l {
      RewriteKeepsLine(l);
    }
    MapWellSplit(RewriteLine, lines);
  }
}
