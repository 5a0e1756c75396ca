/**
 * The line splice the in-place modules share (lucy_notes_manager/modules/
 * sys.py, sys_info.py, cmd.py): each site names a 1-based line, clamped
 * into the file; that line is replaced by a generated block, and what is
 * left of the line once its flags are removed is kept after the block
 * when it is not blank. Sites are processed from the bottom of the file
 * up, so a splice never moves a line a later site still has to find.
 *
 * Removing flags from a line (`delete_args_from_string`) is a parameter.
 */
module Splice {
  import opened Wrappers
  import opened Text

  /** `delete_args_from_string(line, flags)`. */
  type Deleter = (string, seq<string>) -> string

  /** `max(0, min(len(lines) - 1, lineno - 1))`. */
  function ClampIndex(lineno: int, n: nat): (idx: nat)
    requires n > 0
    ensures idx < n
    ensures 1 <= lineno <= n ==> idx == lineno - 1
    ensures lineno < 1 ==> idx == 0
    ensures lineno > n ==> idx == n - 1
  {
    if lineno - 1 > n - 1 then n - 1 else if lineno - 1 < 0 then 0 else lineno - 1
  }

  /** An empty file reads as one blank line. */
  function NonEmpty(lines: seq<string>): (r: seq<string>)
    ensures r != [] && (lines != [] ==> r == lines)
  {
    if lines == [] then ["\n"] else lines
  }

  /** How line 1 is treated: like any other line, or with the separated-block rule of `sys`. */
  datatype FirstLineRule = Plain | Separated

  /** One splice site: its 1-based line, the block to put there, the flags to remove from the line. */
  datatype Site = Site(lineno: int, block: seq<string>, flags: seq<string>)

  /** The separator line put before a block that follows text on line 1. */
  const SeparatorLine := "---\n"

  /**
   * What replaces one line. On line 1 under the separated rule: the block
   * alone when nothing else was on the line, else the cleaned line, a blank
   * line, the separator and the block. Otherwise: the block, then the
   * cleaned line when it is not blank.
   */
  function Piece(line: string, first: bool, s: Site, delete: Deleter, rule: FirstLineRule): (r: seq<string>)
    ensures |r| >= |s.block|
  {
    var cleaned := delete(line, s.flags);
    if first && rule == Separated then
      if IsBlank(cleaned) then s.block else [cleaned, "\n", SeparatorLine] + s.block
    else
      s.block + (if IsBlank(cleaned) then [] else [cleaned])
  }

  /** The file after the splice of one site. */
  function SpliceSite(lines: seq<string>, s: Site, delete: Deleter, rule: FirstLineRule): (r: seq<string>)
    requires lines != []
    ensures var idx := ClampIndex(s.lineno, |lines|);
      r == lines[..idx] + (Piece(lines[idx], idx == 0, s, delete, rule) + lines[idx + 1..])
  {
    var idx := ClampIndex(s.lineno, |lines|);
    lines[..idx] + (Piece(lines[idx], idx == 0, s, delete, rule) + lines[idx + 1..])
  }

  /** Every site's block has at least one line. */
  predicate BlocksNonEmpty(sites: seq<Site>) {
    sites == [] || (sites[0].block != [] && BlocksNonEmpty(sites[1..]))
  }

  /** The sites processed in the given order. */
  function SpliceAll(lines: seq<string>, sites: seq<Site>, delete: Deleter, rule: FirstLineRule): (r: seq<string>)
    requires lines != [] && BlocksNonEmpty(sites)
    ensures r != []
    decreases |sites|
  {
    if sites == [] then lines
    else
      var next := SpliceSite(lines, sites[0], delete, rule);
      assert |next| >= |lines| - 1 + |sites[0].block|;
      SpliceAll(next, sites[1..], delete, rule)
  }

  /** Line numbers strictly decreasing, each naming a line of a file of `n` lines. */
  predicate BottomUp(sites: seq<Site>, n: nat) {
    sites == [] || (1 <= sites[0].lineno <= n && BottomUp(sites[1..], sites[0].lineno - 1))
  }

  /** Every line number names a line of a file of `n` lines. */
  predicate Within(sites: seq<Site>, n: nat) {
    sites == [] || (1 <= sites[0].lineno <= n && Within(sites[1..], n))
  }

  lemma {:induction false} BottomUpWithin(sites: seq<Site>, n: nat)
    requires BottomUp(sites, n)
    ensures Within(sites, n)
    decreases |sites|
  {
    if sites != [] {
      BottomUpWithin(sites[1..], sites[0].lineno - 1);
      WithinMonotone(sites[1..], sites[0].lineno - 1, n);
    }
  }

  lemma {:induction false} WithinMonotone(sites: seq<Site>, m: nat, n: nat)
    requires Within(sites, m) && m <= n
    ensures Within(sites, n)
    decreases |sites|
  {
    if sites != [] {
      WithinMonotone(sites[1..], m, n);
    }
  }

  /**
   * The reference result for bottom-up sites: every named line of the
   * original file replaced by its piece, computed from that original line,
   * and every other line kept in place.
   */
  function Rebuilt(lines: seq<string>, sites: seq<Site>, delete: Deleter, rule: FirstLineRule): seq<string>
    requires BottomUp(sites, |lines|)
  {
    if sites == [] then lines
    else
      var idx := sites[0].lineno - 1;
      Rebuilt(lines[..idx], sites[1..], delete, rule)
        + (Piece(lines[idx], idx == 0, sites[0], delete, rule) + lines[idx + 1..])
  }

  /** A splice inside a prefix does not look at the rest of the file. */
  lemma {:induction false} SpliceAllPrefix(a: seq<string>, b: seq<string>, sites: seq<Site>,
                                           delete: Deleter, rule: FirstLineRule)
    requires a != [] && BlocksNonEmpty(sites)
    requires Within(sites, |a|)
    ensures SpliceAll(a + b, sites, delete, rule) == SpliceAll(a, sites, delete, rule) + b
    decreases |sites|
  {
    if sites != [] {
      var na := SpliceSite(a, sites[0], delete, rule);
      SiteInPrefix(a, b, sites[0], delete, rule);
      WithinMonotone(sites[1..], |a|, |na|);
      SpliceAllPrefix(na, b, sites[1..], delete, rule);
    }
  }

  /** A site inside a prefix splices the prefix alone. */
  lemma SiteInPrefix(a: seq<string>, b: seq<string>, s: Site, delete: Deleter, rule: FirstLineRule)
    requires 1 <= s.lineno <= |a| && s.block != []
    ensures SpliceSite(a + b, s, delete, rule) == SpliceSite(a, s, delete, rule) + b
    ensures |SpliceSite(a, s, delete, rule)| >= |a|
  {
    var idx := s.lineno - 1;
    var p := Piece(a[idx], idx == 0, s, delete, rule);
    assert (a + b)[idx] == a[idx];
    assert (a + b)[..idx] == a[..idx];
    assert (a + b)[idx + 1..] == a[idx + 1..] + b;
    Regroup(a[..idx], p, a[idx + 1..], b);
  }

  lemma Regroup(x: seq<string>, p: seq<string>, y: seq<string>, b: seq<string>)
    ensures x + (p + (y + b)) == (x + (p + y)) + b
  {
  }

  /** Splicing bottom-up gives the reference result: no site sees a line moved by another. */
  lemma {:induction false} BottomUpSplice(lines: seq<string>, sites: seq<Site>, delete: Deleter, rule: FirstLineRule)
    requires lines != [] && BlocksNonEmpty(sites) && BottomUp(sites, |lines|)
    ensures SpliceAll(lines, sites, delete, rule) == Rebuilt(lines, sites, delete, rule)
    decreases |sites|
  {
    if sites != [] {
      var idx := sites[0].lineno - 1;
      var above := lines[..idx];
      var below := Piece(lines[idx], idx == 0, sites[0], delete, rule) + lines[idx + 1..];
      SpliceAllFirst(lines, sites, delete, rule);
      if sites[1..] != [] {
        BottomUpWithin(sites[1..], idx);
        SpliceAllPrefix(above, below, sites[1..], delete, rule);
        BottomUpSplice(above, sites[1..], delete, rule);
      }
    }
  }

  /** The first site's splice, when its line is in the file. */
  lemma SpliceAllFirst(lines: seq<string>, sites: seq<Site>, delete: Deleter, rule: FirstLineRule)
    requires sites != [] && BlocksNonEmpty(sites) && 1 <= sites[0].lineno <= |lines|
    ensures var idx := sites[0].lineno - 1;
      && BlocksNonEmpty(sites[1..])
      && SpliceAll(lines, sites, delete, rule)
         == SpliceAll(lines[..idx] + (Piece(lines[idx], idx == 0, sites[0], delete, rule) + lines[idx + 1..]),
                      sites[1..], delete, rule)
  {
    var s := sites[0];
    assert ClampIndex(s.lineno, |lines|) == s.lineno - 1;
    var next := SpliceSite(lines, s, delete, rule);
    assert |next| >= |lines| - 1 + |s.block|;
    assert SpliceAll(lines, sites, delete, rule) == SpliceAll(next, sites[1..], delete, rule);
  }

  /** Line numbers that fall strictly, each naming a line of the file, are bottom-up. */
  lemma {:induction false} DescendingBottomUp(sites: seq<Site>, n: nat)
    requires sites != [] ==> sites[0].lineno <= n
    requires forall i :: 0 <= i < |sites| ==> sites[i].lineno >= 1
    requires forall i :: 0 < i < |sites| ==> sites[i].lineno < sites[i - 1].lineno
    ensures BottomUp(sites, n)
    decreases |sites|
  {
    if sites != [] {
      var rest := sites[1..];
      assert forall i :: 0 <= i < |rest| ==> rest[i] == sites[i + 1];
      DescendingBottomUp(rest, sites[0].lineno - 1);
    }
  }

  /** Sites at strictly falling lines of the file are bottom-up. */
  lemma KeyedBottomUp(sites: seq<Site>, keys: seq<int>, n: nat)
    requires |sites| == |keys| && forall i :: 0 <= i < |sites| ==> sites[i].lineno == keys[i]
    requires forall i :: 0 <= i < |keys| ==> 1 <= keys[i] <= n
    requires forall i :: 0 < i < |keys| ==> keys[i - 1] > keys[i]
    ensures BottomUp(sites, n)
  {
    DescendingBottomUp(sites, n);
  }

  /** Everything below the lowest site of a bottom-up splice is the original text. */
  lemma KeepsBelow(lines: seq<string>, sites: seq<Site>, delete: Deleter, rule: FirstLineRule)
    requires sites != [] && BottomUp(sites, |lines|)
    ensures var r := Rebuilt(lines, sites, delete, rule);
      var tail := lines[sites[0].lineno..];
      |r| >= |tail| && r[|r| - |tail|..] == tail
  {
  }

  /** Everything above the highest site of a bottom-up splice is the original text. */
  lemma {:induction false} KeepsAbove(lines: seq<string>, sites: seq<Site>, delete: Deleter, rule: FirstLineRule)
    requires sites != [] && BottomUp(sites, |lines|)
    ensures var r := Rebuilt(lines, sites, delete, rule);
      var top := sites[|sites| - 1].lineno - 1;
      0 <= top <= |lines| && |r| >= top && r[..top] == lines[..top]
    decreases |sites|
  {
    var idx := sites[0].lineno - 1;
    var rest := sites[1..];
    var above := lines[..idx];
    var tail := Piece(lines[idx], idx == 0, sites[0], delete, rule) + lines[idx + 1..];
    var r1 := Rebuilt(above, rest, delete, rule);
    assert Rebuilt(lines, sites, delete, rule) == r1 + tail;
    if rest != [] {
      KeepsAbove(above, rest, delete, rule);
      assert rest[|rest| - 1] == sites[|sites| - 1];
      PrefixThrough(lines, idx, r1, tail, rest[|rest| - 1].lineno - 1);
    } else {
      PrefixThrough(lines, idx, r1, tail, idx);
    }
  }

  lemma PrefixThrough(lines: seq<string>, idx: nat, r1: seq<string>, tail: seq<string>, top: nat)
    requires top <= idx <= |lines| && |r1| >= top && r1[..top] == lines[..idx][..top]
    ensures (r1 + tail)[..top] == lines[..top]
  {
    assert (r1 + tail)[..top] == r1[..top];
  }

  lemma {:induction false} BlocksSuffix(sites: seq<Site>, j: nat)
    requires BlocksNonEmpty(sites) && j <= |sites|
    ensures BlocksNonEmpty(sites[j..])
  {
    if j > 0 {
      BlocksSuffix(sites[1..], j - 1);
      assert sites[1..][j - 1..] == sites[j..];
    }
  }

  /** Sites whose every block has a line. */
  lemma {:induction false} AllBlocksNonEmpty(sites: seq<Site>)
    requires forall i :: 0 <= i < |sites| ==> sites[i].block != []
    ensures BlocksNonEmpty(sites)
    decreases |sites|
  {
    if sites != [] {
      var rest := sites[1..];
      assert forall i :: 0 <= i < |rest| ==> rest[i] == sites[i + 1];
      AllBlocksNonEmpty(rest);
    }
  }

  /** One step of a loop over the sites: splice site `j`, then the rest. */
  lemma SpliceAllStep(lines: seq<string>, sites: seq<Site>, j: nat, delete: Deleter, rule: FirstLineRule)
    requires lines != [] && BlocksNonEmpty(sites) && j < |sites|
    ensures BlocksNonEmpty(sites[j..]) && BlocksNonEmpty(sites[j + 1..])
    ensures SpliceAll(lines, sites[j..], delete, rule)
         == SpliceAll(SpliceSite(lines, sites[j], delete, rule), sites[j + 1..], delete, rule)
  {
    BlocksSuffix(sites, j);
    BlocksSuffix(sites, j + 1);
    assert sites[j..][1..] == sites[j + 1..];
  }

  /** The invariant of a loop that splices the sites one by one, carried over one step. */
  lemma SpliceLoopStep(file: seq<string>, lines: seq<string>, next: seq<string>, sites: seq<Site>, j: nat,
                       delete: Deleter, rule: FirstLineRule)
    requires file != [] && lines != [] && BlocksNonEmpty(sites) && j < |sites|
    requires BlocksNonEmpty(sites[j..])
    requires SpliceAll(lines, sites[j..], delete, rule) == SpliceAll(file, sites, delete, rule)
    requires next == SpliceSite(lines, sites[j], delete, rule)
    ensures next != [] && BlocksNonEmpty(sites[j + 1..])
    ensures SpliceAll(next, sites[j + 1..], delete, rule) == SpliceAll(file, sites, delete, rule)
  {
    SpliceAllStep(lines, sites, j, delete, rule);
  }

  /** What a site puts into the file: under the separated rule, text left on line 1 adds the separator. */
  function Inserted(lines: seq<string>, s: Site, delete: Deleter, rule: FirstLineRule): seq<string>
    requires lines != []
  {
    var idx := ClampIndex(s.lineno, |lines|);
    if idx == 0 && rule == Separated && !IsBlank(delete(lines[0], s.flags)) then [SeparatorLine] + s.block
    else s.block
  }

  /** The 1-based line where what a site inserts begins, as `sys_info` records it. */
  function StartLine(lines: seq<string>, s: Site, delete: Deleter, rule: FirstLineRule): (start: nat)
    requires lines != []
  {
    var idx := ClampIndex(s.lineno, |lines|);
    if idx == 0 && rule == Separated then
      if IsBlank(delete(lines[0], s.flags)) then 1 else 3
    else idx + 1
  }

  /** The start line is where the inserted text sits in the spliced file. */
  lemma StartLineSpec(lines: seq<string>, s: Site, delete: Deleter, rule: FirstLineRule)
    requires lines != []
    ensures var r := SpliceSite(lines, s, delete, rule);
      var start := StartLine(lines, s, delete, rule);
      var ins := Inserted(lines, s, delete, rule);
      1 <= start && start - 1 + |ins| <= |r| && r[start - 1..start - 1 + |ins|] == ins
  {
    var idx := ClampIndex(s.lineno, |lines|);
    var r := SpliceSite(lines, s, delete, rule);
    var p := Piece(lines[idx], idx == 0, s, delete, rule);
    assert r == lines[..idx] + (p + lines[idx + 1..]);
    if idx == 0 && rule == Separated && !IsBlank(delete(lines[0], s.flags)) {
      assert r[2..2 + 1 + |s.block|] == [SeparatorLine] + s.block;
    } else {
      assert r[idx..idx + |s.block|] == s.block;
    }
  }

  /**
   * One splice as the modules write it on their list of lines: the line is
   * cleaned, replaced by the block and, when text is left, the text kept;
   * under the separated rule line 1 keeps its text on top, followed by a
   * blank line and the separator. Also gives the start line.
   */
  method SpliceAt(lines: seq<string>, s: Site, delete: Deleter, rule: FirstLineRule)
    returns (r: seq<string>, start: nat)
    requires lines != []
    ensures r == SpliceSite(lines, s, delete, rule)
    ensures start == StartLine(lines, s, delete, rule)
  {
    var idx := ClampIndex(s.lineno, |lines|);
    r := lines;
    if idx == 0 && rule == Separated {
      var cleaned := delete(r[0], s.flags);
      if IsBlank(cleaned) {
        r := s.block + r[1..];
        start := 1;
        return;
      }
      r := [cleaned] + r[1..];
      // The cleaned line is not blank, so the blank line goes after it.
      r := r[..1] + ["\n"] + r[1..];
      assert r == [cleaned, "\n"] + lines[1..];
      r := r[..2] + ([SeparatorLine] + s.block) + r[2..];
      assert r == lines[..0] + ([cleaned, "\n", SeparatorLine] + s.block + lines[1..]);
      start := 3;
    } else {
      r := SpliceLine(lines, idx, s, delete);
      start := idx + 1;
    }
  }

  /** The splice of `SpliceAt` on a line other than line 1 under the separated rule. */
  method SpliceLine(lines: seq<string>, idx: nat, s: Site, delete: Deleter) returns (r: seq<string>)
    requires idx < |lines|
    ensures r == lines[..idx] + (s.block + (if IsBlank(delete(lines[idx], s.flags)) then [] else [delete(lines[idx], s.flags)]) + lines[idx + 1..])
  {
    var cleaned := delete(lines[idx], s.flags);
    r := lines[..idx] + s.block + lines[idx + 1..];
    if !IsBlank(cleaned) {
      var at := idx + |s.block|;
      assert r[..at] == lines[..idx] + s.block && r[at..] == lines[idx + 1..];
      r := r[..at] + [cleaned] + r[at..];
    }
  }

  // ------------------------------------------------------------ start line of the rewrite

  /** `x if m is None else min(m, x)`. */
  function MinWith(m: Option<int>, x: int): (r: int)
    ensures r <= x && (m.Some? ==> r <= m.value)
    ensures r == x || (m.Some? && r == m.value)
  {
    if m.None? then x else if x < m.value then x else m.value
  }

  /** The least start line the loop records, carried from `acc` over the remaining sites. */
  function MinFrom(acc: Option<int>, lines: seq<string>, sites: seq<Site>, delete: Deleter, rule: FirstLineRule): Option<int>
    requires lines != [] && BlocksNonEmpty(sites)
    decreases |sites|
  {
    if sites == [] then acc
    else
      var next := SpliceSite(lines, sites[0], delete, rule);
      assert |next| >= |lines| - 1 + |sites[0].block|;
      MinFrom(Some(MinWith(acc, StartLine(lines, sites[0], delete, rule))), next, sites[1..], delete, rule)
  }

  /** `min_from_line or 1`: where the rewrite of the file starts. */
  function FromLine(lines: seq<string>, sites: seq<Site>, delete: Deleter, rule: FirstLineRule): int
    requires lines != [] && BlocksNonEmpty(sites)
  {
    match MinFrom(None, lines, sites, delete, rule)
    case None => 1
    case Some(m) => if m == 0 then 1 else m
  }

  /** The loop's pair of invariants, carried over one step. */
  lemma MinFromStep(file: seq<string>, lines: seq<string>, sites: seq<Site>, j: nat, acc: Option<int>,
                    delete: Deleter, rule: FirstLineRule)
    requires file != [] && lines != [] && BlocksNonEmpty(sites) && j < |sites| && BlocksNonEmpty(sites[j..])
    requires MinFrom(acc, lines, sites[j..], delete, rule) == MinFrom(None, file, sites, delete, rule)
    ensures BlocksNonEmpty(sites[j + 1..])
    ensures var next := SpliceSite(lines, sites[j], delete, rule);
      next != [] &&
      MinFrom(Some(MinWith(acc, StartLine(lines, sites[j], delete, rule))), next, sites[j + 1..], delete, rule)
      == MinFrom(None, file, sites, delete, rule)
  {
    SpliceAllStep(lines, sites, j, delete, rule);
  }

  /**
   * Bottom-up sites whose highest line is not line 1: each starts at its
   * own line, so the least start is the highest site's line.
   */
  lemma {:induction false} MinFromTop(acc: Option<int>, lines: seq<string>, sites: seq<Site>, delete: Deleter,
                                      rule: FirstLineRule)
    requires lines != [] && BlocksNonEmpty(sites) && sites != [] && BottomUp(sites, |lines|)
    requires sites[|sites| - 1].lineno >= 2
    ensures MinFrom(acc, lines, sites, delete, rule) == Some(MinWith(acc, sites[|sites| - 1].lineno))
    decreases |sites|
  {
    var s := sites[0];
    var next := SpliceSite(lines, s, delete, rule);
    assert |next| >= |lines| by { assert |next| >= |lines| - 1 + |s.block|; }
    BottomUpWithin(sites, |lines|);
    if |sites| > 1 {
      var rest := sites[1..];
      assert rest[|rest| - 1] == sites[|sites| - 1];
      assert s.lineno >= 2 by { BottomUpTopAbove(sites, |lines|); }
      assert StartLine(lines, s, delete, rule) == s.lineno;
      BottomUpMonotone(rest, s.lineno - 1, |next|);
      MinFromTop(Some(MinWith(acc, s.lineno)), next, rest, delete, rule);
      BottomUpTopAbove(rest, s.lineno - 1);
    } else {
      assert StartLine(lines, s, delete, rule) == s.lineno;
    }
  }

  /** The first line of bottom-up sites is at or below every later one. */
  lemma {:induction false} BottomUpTopAbove(sites: seq<Site>, n: nat)
    requires sites != [] && BottomUp(sites, n)
    ensures sites[0].lineno >= sites[|sites| - 1].lineno
    ensures |sites| > 1 ==> sites[0].lineno > sites[|sites| - 1].lineno
    decreases |sites|
  {
    if |sites| > 1 {
      BottomUpTopAbove(sites[1..], sites[0].lineno - 1);
    }
  }

  lemma BottomUpMonotone(sites: seq<Site>, m: nat, n: nat)
    requires BottomUp(sites, m) && m <= n
    ensures BottomUp(sites, n)
  {
  }

  /**
   * The rewrite of bottom-up sites whose highest line is not line 1
   * starts at that line, and everything above it is the original text.
   */
  lemma FromLineTop(lines: seq<string>, sites: seq<Site>, delete: Deleter, rule: FirstLineRule)
    requires lines != [] && BlocksNonEmpty(sites) && sites != [] && BottomUp(sites, |lines|)
    requires sites[|sites| - 1].lineno >= 2
    ensures var from := FromLine(lines, sites, delete, rule);
      var r := Rebuilt(lines, sites, delete, rule);
      && from == sites[|sites| - 1].lineno
      && 1 <= from <= |lines| && |r| >= from - 1 && r[..from - 1] == lines[..from - 1]
  {
    MinFromTop(None, lines, sites, delete, rule);
    KeepsAbove(lines, sites, delete, rule);
    BottomUpWithin(sites, |lines|);
    WithinLast(sites, |lines|);
  }

  lemma {:induction false} WithinLast(sites: seq<Site>, n: nat)
    requires sites != [] && Within(sites, n)
    ensures 1 <= sites[|sites| - 1].lineno <= n
    decreases |sites|
  {
    if |sites| > 1 {
      WithinLast(sites[1..], n);
    }
  }
}
