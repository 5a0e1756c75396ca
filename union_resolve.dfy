/**
 * The "union" resolution of a file left with merge-conflict markers: each
 * conflict block ("<<<<<<< " line, our lines, "=======" line, their lines,
 * ">>>>>>> " line) is replaced by our lines followed by theirs, and every
 * other line is kept in place. A file without any "<<<<<<< " line, or with
 * a block that lacks its "=======" or ">>>>>>> " line, is not resolved.
 * Lines are those of `splitlines(keepends=True)`.
 */
module UnionResolve {
  import opened Wrappers
  import opened Text
  import opened Lines

  const OpenMarker: string := "<<<<<<< "
  const MidMarker: string := "======="
  const CloseMarker: string := ">>>>>>> "

  /** How many leading lines do not start with `marker`: the position of the first that does, or `|lines|`. */
  function Until(lines: seq<string>, marker: string): (k: nat)
    ensures k <= |lines|
  {
    if lines == [] || StartsWith(lines[0], marker) then 0 else 1 + Until(lines[1..], marker)
  }

  /** No line before `Until` starts with the marker, and the line at it, if any, does. */
  lemma {:induction false} UntilStops(lines: seq<string>, marker: string)
    ensures forall j :: 0 <= j < Until(lines, marker) ==> !StartsWith(lines[j], marker)
    ensures Until(lines, marker) < |lines| ==> StartsWith(lines[Until(lines, marker)], marker)
  {
    if lines != [] && !StartsWith(lines[0], marker) {
      UntilStops(lines[1..], marker);
      assert forall j :: 1 <= j < |lines| ==> lines[j] == lines[1..][j - 1];
    }
  }

  /** A scan that stops at `k` finds the first line starting with `marker`. */
  lemma {:induction false} UntilIs(lines: seq<string>, k: nat, marker: string)
    requires k <= |lines|
    requires forall j :: 0 <= j < k ==> !StartsWith(lines[j], marker)
    requires k < |lines| ==> StartsWith(lines[k], marker)
    ensures Until(lines, marker) == k
  {
    if k > 0 {
      assert forall j :: 0 <= j < k - 1 ==> lines[1..][j] == lines[j + 1];
      UntilIs(lines[1..], k - 1, marker);
    }
  }

  /** Lines without `marker` in front of others are skipped over. */
  lemma UntilPast(x: seq<string>, y: seq<string>, marker: string)
    requires forall j :: 0 <= j < |x| ==> !StartsWith(x[j], marker)
    requires y != [] && StartsWith(y[0], marker)
    ensures Until(x + y, marker) == |x|
  {
    UntilIs(x + y, |x|, marker);
  }

  /** Lines without `marker` are all skipped over. */
  lemma UntilNone(x: seq<string>, marker: string)
    requires forall j :: 0 <= j < |x| ==> !StartsWith(x[j], marker)
    ensures Until(x, marker) == |x|
  {
    UntilIs(x, |x|, marker);
  }

  /**
   * The "\n" put between the two sides: only when both are non-empty, our
   * last line does not end in "\n" and their first line does not start
   * with one.
   */
  predicate NeedsJoint(ours: seq<string>, theirs: seq<string>) {
    ours != [] && theirs != [] && !EndsWith(ours[|ours| - 1], "\n") && !StartsWith(theirs[0], "\n")
  }

  /** What a conflict block becomes: our lines, the joint if needed, their lines. */
  function Merged(ours: seq<string>, theirs: seq<string>): (r: seq<string>)
    ensures |r| == |ours| + |theirs| + (if NeedsJoint(ours, theirs) then 1 else 0)
    ensures r[..|ours|] == ours && r[|r| - |theirs|..] == theirs
    ensures NeedsJoint(ours, theirs) ==> r[|ours|] == "\n"
  {
    ours + (if NeedsJoint(ours, theirs) then ["\n"] else []) + theirs
  }

  /** `prefix` put in front of a result that may be missing. */
  function Then(prefix: seq<string>, o: Option<seq<string>>): Option<seq<string>> {
    match o
    case None => None
    case Some(t) => Some(prefix + t)
  }

  lemma ThenThen(a: seq<string>, b: seq<string>, o: Option<seq<string>>)
    ensures Then(a, Then(b, o)) == Then(a + b, o)
  {
    if o.Some? { assert a + (b + o.value) == (a + b) + o.value; }
  }

  predicate IsOpen(l: string) { StartsWith(l, OpenMarker) }

  /**
   * The resolved form of `lines`, or `None` when a block in them is
   * unterminated: a line that opens a block is replaced, with the block,
   * by the merged sides; any other line is kept.
   */
  function Resolve(lines: seq<string>): Option<seq<string>>
    decreases |lines|
  {
    if lines == [] then Some([])
    else if IsOpen(lines[0]) then Block(lines[1..])
    else Then([lines[0]], Resolve(lines[1..]))
  }

  /** The lines after an opening line: our side runs up to the first "=======" line, which must be there. */
  function Block(rest: seq<string>): Option<seq<string>>
    decreases |rest|
  {
    var m := Until(rest, MidMarker);
    if m == |rest| then None else Closing(rest[..m], rest[m + 1..])
  }

  /** The lines after the "=======" line: their side runs up to the first ">>>>>>> " line, which must be there. */
  function Closing(ours: seq<string>, tail: seq<string>): Option<seq<string>>
    decreases |tail|
  {
    var c := Until(tail, CloseMarker);
    if c == |tail| then None else Then(Merged(ours, tail[..c]), Resolve(tail[c + 1..]))
  }

  /** Some line opens a conflict block. */
  predicate Marked(lines: seq<string>) {
    exists j :: 0 <= j < |lines| && IsOpen(lines[j])
  }

  /** `_union_resolve_text`. */
  function UnionResolve(text: string): Option<string> {
    var lines := SplitKeepEnds(text);
    if !Marked(lines) then None
    else
      match Resolve(lines)
      case None => None
      case Some(out) => Some(Concat(out))
  }

  /**
   * `_union_resolve_text`: the scan over the lines, collecting each
   * block's two sides with `CollectUntil`.
   */
  method UnionResolveText(fileContent: string) returns (r: Option<string>)
    ensures r == UnionResolve(fileContent)
  {
    var lines := SplitKeepEnds(fileContent);
    var resolved: seq<string> := [];
    var idx := 0;
    var saw := false;
    ThenEmpty(Resolve(lines));
    assert lines[0..] == lines;
    while idx < |lines|
      invariant 0 <= idx <= |lines|
      invariant Resolve(lines) == Then(resolved, Resolve(lines[idx..]))
      invariant saw ==> Marked(lines)
      invariant !saw ==> forall j :: 0 <= j < idx ==> !IsOpen(lines[j])
      decreases |lines| - idx
    {
      var current := lines[idx];
      if StartsWith(current, OpenMarker) {
        saw := true;
        assert IsOpen(lines[idx]);
        var merged, next := ScanBlock(lines, idx);
        if merged.None? {
          return None;
        }
        ThenThen(resolved, merged.value, Resolve(lines[next..]));
        resolved := resolved + merged.value;
        idx := next;
        continue;
      }
      assert !IsOpen(lines[idx]);
      PlainStep(lines, idx, resolved);
      resolved := resolved + [current];
      idx := idx + 1;
    }
    if !saw {
      return None;
    }
    assert lines[|lines|..] == [] && resolved + [] == resolved;
    return Some(Concat(resolved));
  }

  /**
   * One conflict block, opened at `start`: our lines up to the "=======" line,
   * their lines up to the ">>>>>>> " line, and the joint between them when
   * needed; `None` when either marker line is missing.
   */
  method ScanBlock(lines: seq<string>, start: nat) returns (merged: Option<seq<string>>, next: nat)
    requires start < |lines| && IsOpen(lines[start])
    ensures merged.None? ==> Resolve(lines[start..]) == None
    ensures merged.Some? ==> start < next <= |lines| && Resolve(lines[start..]) == Then(merged.value, Resolve(lines[next..]))
  {
    next := start;
    var ours, m := CollectUntil(lines, start + 1, MidMarker);
    if m >= |lines| {
      OursUnterminated(lines, start);
      return None, next;
    }
    var theirs, c := CollectUntil(lines, m + 1, CloseMarker);
    if c >= |lines| {
      TheirsUnterminated(lines, start, m);
      return None, next;
    }
    var joint: seq<string> := [];
    if ours != [] && theirs != [] && !EndsWith(ours[|ours| - 1], "\n") && !StartsWith(theirs[0], "\n") {
      joint := ["\n"];
    }
    BlockStep(lines, start, ours, m, theirs, c, joint);
    merged := Some(ours + joint + theirs);
    next := c + 1;
  }

  lemma ThenEmpty(o: Option<seq<string>>)
    ensures Then([], o) == o
  {
    if o.Some? { assert [] + o.value == o.value; }
  }

  /** The lines from `start` up to the first one that starts with `marker`, and where that one is. */
  method CollectUntil(lines: seq<string>, start: nat, marker: string) returns (block: seq<string>, k: nat)
    requires start <= |lines|
    ensures k == start + Until(lines[start..], marker) && block == lines[start..k]
  {
    block := [];
    k := start;
    while k < |lines| && !StartsWith(lines[k], marker)
      invariant start <= k <= |lines| && block == lines[start..k]
      invariant forall j :: start <= j < k ==> !StartsWith(lines[j], marker)
      decreases |lines| - k
    {
      block := block + [lines[k]];
      k := k + 1;
    }
    UntilIs(lines[start..], k - start, marker);
  }

  /** A line that opens no block is copied and the scan goes on after it. */
  lemma PlainStep(lines: seq<string>, i: nat, resolved: seq<string>)
    requires i < |lines| && !IsOpen(lines[i])
    ensures Then(resolved, Resolve(lines[i..])) == Then(resolved + [lines[i]], Resolve(lines[i + 1..]))
  {
    assert lines[i..][1..] == lines[i + 1..];
    ThenThen(resolved, [lines[i]], Resolve(lines[i + 1..]));
  }

  /** Where the scan of a block that opens at `i` finds its "=======" line. */
  function MidOf(lines: seq<string>, i: nat): nat
    requires i < |lines|
  {
    i + 1 + Until(lines[i + 1..], MidMarker)
  }

  /** A block with no "=======" line after its opening leaves the lines unresolved. */
  lemma OursUnterminated(lines: seq<string>, i: nat)
    requires i < |lines| && IsOpen(lines[i]) && MidOf(lines, i) >= |lines|
    ensures Resolve(lines[i..]) == None
  {
    Drop2(lines, i, 1);
  }

  /** A block with no ">>>>>>> " line after its "=======" line leaves the lines unresolved. */
  lemma TheirsUnterminated(lines: seq<string>, i: nat, m: nat)
    requires i < |lines| && IsOpen(lines[i]) && m == MidOf(lines, i) && m < |lines|
    requires m + 1 + Until(lines[m + 1..], CloseMarker) >= |lines|
    ensures Resolve(lines[i..]) == None
  {
    Drop2(lines, i, 1);
    Drop2(lines, i + 1, m - i);
    assert Block(lines[i + 1..]) == Closing(lines[i + 1..m], lines[m + 1..]);
  }

  lemma Drop2(s: seq<string>, a: nat, b: nat)
    requires a + b <= |s|
    ensures s[a..][b..] == s[a + b..] && s[a..][..b] == s[a..a + b]
  {
  }

  lemma OpenUnfold(lines: seq<string>, i: nat)
    requires i < |lines| && IsOpen(lines[i])
    ensures Resolve(lines[i..]) == Block(lines[i + 1..])
  {
    Drop2(lines, i, 1);
  }

  lemma BlockUnfold(rest: seq<string>, k: nat)
    requires k == Until(rest, MidMarker) && k < |rest|
    ensures Block(rest) == Closing(rest[..k], rest[k + 1..])
  {
  }

  lemma ClosingUnfold(ours: seq<string>, tail: seq<string>, d: nat)
    requires d == Until(tail, CloseMarker) && d < |tail|
    ensures Closing(ours, tail) == Then(Merged(ours, tail[..d]), Resolve(tail[d + 1..]))
  {
  }

  /** From an opening line, our side runs up to the "=======" line at `m`. */
  lemma BlockAt(lines: seq<string>, i: nat, m: nat)
    requires i < |lines| && IsOpen(lines[i]) && m == MidOf(lines, i) && m < |lines|
    ensures Resolve(lines[i..]) == Closing(lines[i + 1..m], lines[m + 1..])
  {
    var rest := lines[i + 1..];
    OpenUnfold(lines, i);
    Drop2(lines, i + 1, m - i - 1);
    Drop2(lines, i + 1, m - i);
    BlockUnfoldAt(rest, m - i - 1, lines[i + 1..m], lines[m + 1..]);
  }

  lemma BlockUnfoldAt(rest: seq<string>, k: nat, ours: seq<string>, tail: seq<string>)
    requires k == Until(rest, MidMarker) && k < |rest|
    requires ours == rest[..k] && tail == rest[k + 1..]
    ensures Block(rest) == Closing(ours, tail)
  {
  }

  /** After the "=======" line at `m`, their side runs up to the ">>>>>>> " line at `c`. */
  lemma ClosingAt(lines: seq<string>, m: nat, c: nat, ours: seq<string>)
    requires m < c < |lines| && c == m + 1 + Until(lines[m + 1..], CloseMarker)
    ensures Closing(ours, lines[m + 1..]) == Then(Merged(ours, lines[m + 1..c]), Resolve(lines[c + 1..]))
  {
    ClosingUnfold(ours, lines[m + 1..], c - m - 1);
    Drop2(lines, m + 1, c - m - 1);
    Drop2(lines, m + 1, c - m);
  }

  /** A terminated block from line `i` resolves to its merged sides, then whatever follows its ">>>>>>> " line. */
  lemma BlockUnfolds(lines: seq<string>, i: nat, m: nat, c: nat)
    requires i < |lines| && IsOpen(lines[i]) && m == MidOf(lines, i) && m < |lines|
    requires c == m + 1 + Until(lines[m + 1..], CloseMarker) && c < |lines|
    ensures Resolve(lines[i..]) == Then(Merged(lines[i + 1..m], lines[m + 1..c]), Resolve(lines[c + 1..]))
  {
    BlockAt(lines, i, m);
    ClosingAt(lines, m, c, lines[i + 1..m]);
  }

  /** A terminated block from line `i` resolves to our side, the joint and their side, then whatever follows it. */
  lemma BlockStep(lines: seq<string>, i: nat, ours: seq<string>, m: nat, theirs: seq<string>, c: nat,
                  joint: seq<string>)
    requires i < |lines| && IsOpen(lines[i]) && m == MidOf(lines, i) && m < |lines| && ours == lines[i + 1..m]
    requires c == m + 1 + Until(lines[m + 1..], CloseMarker) && c < |lines| && theirs == lines[m + 1..c]
    requires joint == if NeedsJoint(ours, theirs) then ["\n"] else []
    ensures Resolve(lines[i..]) == Then(ours + joint + theirs, Resolve(lines[c + 1..]))
  {
    BlockUnfolds(lines, i, m, c);
    ThenMerged([], ours, theirs, joint, Resolve(lines[c + 1..]));
    ThenEmpty(Then(Merged(ours, theirs), Resolve(lines[c + 1..])));
    assert [] + ours + joint + theirs == ours + joint + theirs;
  }

  lemma ThenMerged(resolved: seq<string>, ours: seq<string>, theirs: seq<string>, joint: seq<string>,
                   o: Option<seq<string>>)
    requires joint == if NeedsJoint(ours, theirs) then ["\n"] else []
    ensures Then(resolved, Then(Merged(ours, theirs), o)) == Then(resolved + ours + joint + theirs, o)
  {
    ThenThen(resolved, Merged(ours, theirs), o);
    assert Merged(ours, theirs) == ours + joint + theirs;
    assert resolved + (ours + joint + theirs) == resolved + ours + joint + theirs;
  }

  /** Lines that open no block are copied as they are, in front of whatever the rest resolves to. */
  lemma {:induction false} SkipPlain(x: seq<string>, y: seq<string>)
    requires forall j :: 0 <= j < |x| ==> !IsOpen(x[j])
    ensures Resolve(x + y) == Then(x, Resolve(y))
  {
    if x == [] {
      assert [] + y == y;
      ThenEmpty(Resolve(y));
    } else {
      assert (x + y)[0] == x[0] && (x + y)[1..] == x[1..] + y;
      SkipPlain(x[1..], y);
      ThenThen([x[0]], x[1..], Resolve(y));
      assert [x[0]] + x[1..] == x;
    }
  }

  /** Lines with no block in them resolve to themselves. */
  lemma CopiesPlain(x: seq<string>)
    requires forall j :: 0 <= j < |x| ==> !IsOpen(x[j])
    ensures Resolve(x) == Some(x)
  {
    SkipPlain(x, []);
    assert x + [] == x;
  }

  /** The lines of one conflict block with the lines before and after it. */
  function Conflicted(before: seq<string>, o: string, ours: seq<string>, m: string,
                      theirs: seq<string>, c: string, after: seq<string>): seq<string> {
    before + ([o] + (ours + ([m] + (theirs + ([c] + after)))))
  }

  /** One well-delimited conflict block, with lines that open none before and after it. */
  predicate OneBlock(before: seq<string>, o: string, ours: seq<string>, m: string,
                     theirs: seq<string>, c: string, after: seq<string>) {
    && (forall j :: 0 <= j < |before| ==> !IsOpen(before[j]))
    && IsOpen(o)
    && (forall j :: 0 <= j < |ours| ==> !StartsWith(ours[j], MidMarker))
    && StartsWith(m, MidMarker)
    && (forall j :: 0 <= j < |theirs| ==> !StartsWith(theirs[j], CloseMarker))
    && StartsWith(c, CloseMarker)
    && (forall j :: 0 <= j < |after| ==> !IsOpen(after[j]))
  }

  /** The block itself, from its opening line on, resolves to the merged sides and the lines after it. */
  lemma BlockResolves(o: string, ours: seq<string>, m: string, theirs: seq<string>, c: string, after: seq<string>)
    requires OneBlock([], o, ours, m, theirs, c, after)
    ensures Resolve([o] + (ours + ([m] + (theirs + ([c] + after))))) == Some(Merged(ours, theirs) + after)
  {
    var t := theirs + ([c] + after);
    var rest := ours + ([m] + t);
    var s := [o] + rest;
    assert s[0] == o && s[1..] == rest;
    UntilPast(ours, [m] + t, MidMarker);
    assert rest[..|ours|] == ours && rest[|ours| + 1..] == t;
    assert Block(rest) == Closing(ours, t);
    UntilPast(theirs, [c] + after, CloseMarker);
    assert t[..|theirs|] == theirs && t[|theirs| + 1..] == after;
    CopiesPlain(after);
  }

  /**
   * A conflict block between lines that open none resolves to the lines
   * before it, our side and their side (with the joint), and the lines
   * after it; the marker lines are dropped.
   */
  lemma ResolveOneBlock(before: seq<string>, o: string, ours: seq<string>, m: string,
                        theirs: seq<string>, c: string, after: seq<string>)
    requires OneBlock(before, o, ours, m, theirs, c, after)
    ensures Resolve(Conflicted(before, o, ours, m, theirs, c, after)) == Some(before + Merged(ours, theirs) + after)
  {
    BlockResolves(o, ours, m, theirs, c, after);
    SkipPlain(before, [o] + (ours + ([m] + (theirs + ([c] + after)))));
    assert before + (Merged(ours, theirs) + after) == before + Merged(ours, theirs) + after;
  }

  /** On a text: one well-delimited block is resolved as `ResolveOneBlock` says. */
  lemma UnionResolvesOneBlock(before: seq<string>, o: string, ours: seq<string>, m: string,
                              theirs: seq<string>, c: string, after: seq<string>)
    requires OneBlock(before, o, ours, m, theirs, c, after)
    requires WellSplit(Conflicted(before, o, ours, m, theirs, c, after))
    ensures UnionResolve(Concat(Conflicted(before, o, ours, m, theirs, c, after)))
         == Some(Concat(before + Merged(ours, theirs) + after))
  {
    var L := Conflicted(before, o, ours, m, theirs, c, after);
    SplitConcat(L);
    ResolveOneBlock(before, o, ours, m, theirs, c, after);
    assert L[|before|] == o;
    assert Marked(L);
  }

  /** A block without its "=======" line leaves the lines unresolved. */
  lemma UnterminatedOurs(before: seq<string>, o: string, rest: seq<string>)
    requires forall j :: 0 <= j < |before| ==> !IsOpen(before[j])
    requires IsOpen(o)
    requires forall j :: 0 <= j < |rest| ==> !StartsWith(rest[j], MidMarker)
    ensures Resolve(before + ([o] + rest)) == None
  {
    SkipPlain(before, [o] + rest);
    assert ([o] + rest)[1..] == rest;
    UntilNone(rest, MidMarker);
  }

  /** An opening line in front hands the rest to `Block`. */
  lemma OpenFront(o: string, r: seq<string>)
    requires IsOpen(o)
    ensures Resolve([o] + r) == Block(r)
  {
    assert ([o] + r)[0] == o && ([o] + r)[1..] == r;
  }

  /** Our side up to a "=======" line, then their side with no ">>>>>>> " line: no result. */
  lemma OpenEnded(ours: seq<string>, m: string, rest: seq<string>)
    requires forall j :: 0 <= j < |ours| ==> !StartsWith(ours[j], MidMarker)
    requires StartsWith(m, MidMarker)
    requires forall j :: 0 <= j < |rest| ==> !StartsWith(rest[j], CloseMarker)
    ensures Block(ours + ([m] + rest)) == None
  {
    var r := ours + ([m] + rest);
    UntilPast(ours, [m] + rest, MidMarker);
    BlockUnfold(r, |ours|);
    assert r[..|ours|] == ours && r[|ours| + 1..] == rest;
    UntilNone(rest, CloseMarker);
  }

  /** A block without its ">>>>>>> " line leaves the lines unresolved. */
  lemma UnterminatedTheirs(before: seq<string>, o: string, ours: seq<string>, m: string, rest: seq<string>)
    requires forall j :: 0 <= j < |before| ==> !IsOpen(before[j])
    requires IsOpen(o)
    requires forall j :: 0 <= j < |ours| ==> !StartsWith(ours[j], MidMarker)
    requires StartsWith(m, MidMarker)
    requires forall j :: 0 <= j < |rest| ==> !StartsWith(rest[j], CloseMarker)
    ensures Resolve(before + ([o] + (ours + ([m] + rest)))) == None
  {
    SkipPlain(before, [o] + (ours + ([m] + rest)));
    OpenFront(o, ours + ([m] + rest));
    OpenEnded(ours, m, rest);
  }

  /**
   * Our last line is followed by the "=======" line, so it always ends in
   * a line break; the joint is put in only when that break is not "\n"
   * (a lone "\r", say).
   */
  lemma JointOnlyAfterOtherBreak(ours: seq<string>, theirs: seq<string>, next: string)
    requires ours != [] && LineBefore(ours[|ours| - 1], next) && next != []
    requires NeedsJoint(ours, theirs)
    ensures var l := ours[|ours| - 1]; IsBreak(l[|l| - 1]) && l[|l| - 1] != '\n'
  {
    var l := ours[|ours| - 1];
    assert BreakLen(l) > 0;
    assert l[|l| - 1..] == [l[|l| - 1]];
  }
}
