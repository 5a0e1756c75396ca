/**
 * Reading the paths out of `git status --porcelain` (the short format of
 * git-status: two status letters, a space, then the path, or
 * "ORIG_PATH -> PATH" for a rename or copy). Both git modules of the
 * daemon use the same reading: lines shorter than four characters are
 * skipped, the text from column 3 on is the path, and for a rename the
 * part after the first " -> " is kept.
 */
module Porcelain {
  import opened Wrappers
  import opened Text
  import opened Lines

  const Arrow: string := " -> "

  /** The text after the first " -> " in `s`, if there is one (`s.split(" -> ", 1)[1]`). */
  function AfterArrow(s: string): (r: Option<string>)
    ensures r.Some? <==> Contains(s, Arrow)
    ensures r.Some? ==> EndsWith(s, r.value) && |r.value| + 4 <= |s|
    decreases |s|
  {
    if |s| < 4 then
      assert !Contains(s, Arrow) by { ShortHasNoArrow(s); }
      None
    else if s[..4] == Arrow then Some(s[4..])
    else AfterArrow(s[1..])
  }

  lemma {:induction false} ShortHasNoArrow(s: string)
    requires |s| < 4
    ensures !Contains(s, Arrow)
    decreases |s|
  {
    if s != [] { ShortHasNoArrow(s[1..]); }
  }

  /** The path a status line names: the destination for a rename, the whole tail otherwise. */
  function PathPart(tail: string): (r: string)
    ensures !Contains(tail, Arrow) ==> r == tail
    ensures Contains(tail, Arrow) ==> EndsWith(tail, r) && |r| + 4 <= |tail|
  {
    match AfterArrow(tail)
    case Some(after) => after
    case None => tail
  }

  /** One line of the listing: skipped when shorter than four characters. */
  function PathOfLine(line: string): (r: Option<string>)
    ensures r.Some? <==> |RStripChar(line, '\n')| >= 4
  {
    var trimmed := RStripChar(line, '\n');
    if |trimmed| < 4 then None else Some(PathPart(trimmed[3..]))
  }

  /** The paths of the lines that are long enough, in the order of the lines. */
  function PathsOf(lines: seq<string>): (r: seq<string>)
    ensures |r| <= |lines|
  {
    if lines == [] then []
    else
      match PathOfLine(lines[0])
      case Some(p) => [p] + PathsOf(lines[1..])
      case None => PathsOf(lines[1..])
  }

  /** `_parse_porcelain_paths` as a function of the whole listing. */
  function PorcelainPaths(text: string): seq<string> {
    PathsOf(LinesOf(text))
  }

  lemma {:induction false} PathsOfSnoc(lines: seq<string>, l: string)
    ensures PathsOf(lines + [l]) == PathsOf(lines) + (match PathOfLine(l) case Some(p) => [p] case None => [])
  {
    if lines != [] {
      assert (lines + [l])[1..] == lines[1..] + [l];
      PathsOfSnoc(lines[1..], l);
    } else {
      assert [l][1..] == [];
    }
  }

  lemma PathsOfPrefix(lines: seq<string>, k: nat)
    requires k < |lines|
    ensures PathsOf(lines[..k + 1]) == PathsOf(lines[..k]) + (match PathOfLine(lines[k]) case Some(p) => [p] case None => [])
  {
    assert lines[..k + 1] == lines[..k] + [lines[k]];
    PathsOfSnoc(lines[..k], lines[k]);
  }

  /** `_parse_porcelain_paths`: the loop over the listing's lines, appending one path per long-enough line. */
  method ParsePorcelainPaths(text: string) returns (paths: seq<string>)
    ensures paths == PorcelainPaths(text)
  {
    var lines := LinesOf(text);
    paths := [];
    for k := 0 to |lines|
      invariant paths == PathsOf(lines[..k])
    {
      PathsOfPrefix(lines, k);
      var trimmed := RStripChar(lines[k], '\n');
      if |trimmed| < 4 {
        continue;
      }
      var pathPart := trimmed[3..];
      var after := AfterArrow(pathPart);
      if after.Some? {
        pathPart := after.value;
      }
      paths := paths + [pathPart];
    }
    assert lines[..|lines|] == lines;
  }

  /** One entry of the listing: two status letters, the path, and the original path of a rename. */
  datatype StatusEntry = StatusEntry(code: string, path: string, from: Option<string>)

  /** The line git prints for an entry. */
  function Format(e: StatusEntry): string {
    match e.from
    case None => e.code + " " + e.path
    case Some(orig) => e.code + " " + orig + Arrow + e.path
  }

  /**
   * An entry whose line reads back unambiguously: two status letters, a
   * non-empty path, no line breaks, no " -> " in a plain path and none in
   * the original path of a rename (nor straddling its end).
   */
  predicate WellFormed(e: StatusEntry) {
    && |e.code| == 2 && Breakless(e.code)
    && e.path != [] && Breakless(e.path)
    && match e.from
       case None => !Contains(e.path, Arrow)
       case Some(orig) => Breakless(orig) && !Contains(orig + " ->", Arrow)
  }

  function Formatted(es: seq<StatusEntry>): (r: seq<string>)
    ensures |r| == |es|
  {
    if es == [] then [] else [Format(es[0])] + Formatted(es[1..])
  }

  function Targets(es: seq<StatusEntry>): (r: seq<string>)
    ensures |r| == |es|
  {
    if es == [] then [] else [es[0].path] + Targets(es[1..])
  }

  /** The first " -> " after a rename's original path is the one git put there. */
  lemma {:induction false} ArrowAfterOrig(orig: string, path: string)
    requires !Contains(orig + " ->", Arrow)
    ensures AfterArrow(orig + Arrow + path) == Some(path)
    decreases |orig|
  {
    var s := orig + Arrow + path;
    if orig == [] {
      assert s == Arrow + path;
      assert s[..4] == Arrow && s[4..] == path;
    } else {
      var t := orig + " ->";
      assert s[..4] == t[..4];
      assert !StartsWith(t, Arrow);
      assert s[1..] == orig[1..] + Arrow + path;
      assert t[1..] == orig[1..] + " ->";
      ArrowAfterOrig(orig[1..], path);
    }
  }

  lemma BreaklessJoin(a: string, b: string)
    requires Breakless(a) && Breakless(b)
    ensures Breakless(a + b)
  {
    assert forall i :: 0 <= i < |a + b| ==> (a + b)[i] == if i < |a| then a[i] else b[i - |a|];
  }

  /** A well-formed entry's line is breakless, long enough, and reads back as its path. */
  lemma FormatReads(e: StatusEntry)
    requires WellFormed(e)
    ensures Breakless(Format(e)) && Format(e) != []
    ensures PathOfLine(Format(e)) == Some(e.path)
  {
    var line := Format(e);
    BreaklessJoin(e.code, " ");
    match e.from {
      case None =>
        BreaklessJoin(e.code + " ", e.path);
        assert line[3..] == e.path;
      case Some(orig) =>
        BreaklessJoin(e.code + " ", orig);
        BreaklessJoin(e.code + " " + orig, Arrow);
        BreaklessJoin(e.code + " " + orig + Arrow, e.path);
        assert line[3..] == orig + Arrow + e.path;
        ArrowAfterOrig(orig, e.path);
    }
    assert line[|line| - 1] == e.path[|e.path| - 1];
    assert RStripChar(line, '\n') == line;
  }

  lemma {:induction false} PathsOfFormatted(es: seq<StatusEntry>)
    requires forall i :: 0 <= i < |es| ==> WellFormed(es[i])
    ensures PathsOf(Formatted(es)) == Targets(es)
  {
    if es != [] {
      FormatReads(es[0]);
      PathsOfFormatted(es[1..]);
      assert Formatted(es)[1..] == Formatted(es[1..]);
    }
  }

  lemma {:induction false} FormattedLines(es: seq<StatusEntry>)
    requires forall i :: 0 <= i < |es| ==> WellFormed(es[i])
    ensures forall i :: 0 <= i < |es| ==> Breakless(Formatted(es)[i]) && Formatted(es)[i] != []
  {
    if es != [] {
      FormatReads(es[0]);
      FormattedLines(es[1..]);
      assert forall i :: 1 <= i < |es| ==> Formatted(es)[i] == Formatted(es[1..])[i - 1];
    }
  }

  /**
   * Reading a listing recovers the path of every entry, destinations for
   * renames, in the order git printed them.
   */
  lemma PorcelainRoundTrip(es: seq<StatusEntry>)
    requires forall i :: 0 <= i < |es| ==> WellFormed(es[i])
    ensures PorcelainPaths(Join(Formatted(es), "\n")) == Targets(es)
  {
    FormattedLines(es);
    LinesOfJoin(Formatted(es));
    PathsOfFormatted(es);
  }

  /** Lines shorter than four characters add nothing. */
  lemma {:induction false} ShortLinesSkipped(lines: seq<string>, l: string)
    requires |l| < 4
    ensures PathsOf(lines + [l]) == PathsOf(lines)
  {
    PathsOfSnoc(lines, l);
    assert |RStripChar(l, '\n')| < 4;
  }
}
