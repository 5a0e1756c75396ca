/**
 * `_PlasmaBoldAwareParser` (lucy_notes_manager/modules/plasma_sync.py):
 * reads the body of a Plasma note into lines of text fragments, each
 * fragment marked bold when it stands inside `<b>`, `<strong>`, or a
 * `<span>`, `<p>`, `<li>` or `<font>` whose style is bold. A `<br>` and
 * the end of a paragraph or list item start a new line; whitespace
 * outside blocks is dropped. `get_lines` then merges neighbouring
 * fragments of the same weight, drops blank lines at both ends and keeps
 * only the first of consecutive blank lines.
 */
module BoldParser {
  import opened Wrappers
  import opened Text
  import opened BlankLines
  import opened Html
  import opened BoldStyle

  /** A piece of a line's text and whether it is bold. */
  type Frag = (string, bool)

  // ------------------------------------------------------------ the reader

  /** The fields of `_PlasmaBoldAwareParser`. */
  datatype BoldState = BoldState(
    inBody: bool,
    inBlock: bool,
    depth: int,
    spans: seq<bool>,
    blockStyles: map<string, seq<bool>>,
    lines: seq<seq<Frag>>)

  const FreshBold := BoldState(false, false, 0, [], map["p" := [], "li" := [], "font" := []], [[]])

  /**
   * What every handler keeps: the bold depth is never negative, there is a
   * line to append to, and every block tag has its stack of style flags.
   */
  predicate Valid(s: BoldState) {
    s.depth >= 0 && s.lines != [] && "p" in s.blockStyles && "li" in s.blockStyles && "font" in s.blockStyles
  }

  /** `max(0, depth - 1)`. */
  function Decremented(depth: int): (r: int)
    ensures r >= 0 && (depth > 0 ==> r == depth - 1) && (depth <= 0 ==> r == 0)
  {
    if depth - 1 > 0 then depth - 1 else 0
  }

  /** The stack of style flags of the open `tag` blocks. */
  function Styles(s: BoldState, tag: string): seq<bool> {
    if tag in s.blockStyles then s.blockStyles[tag] else []
  }

  /** `_push_tag_style_bold`. */
  function PushStyle(s: BoldState, tag: string, bold: bool): (r: BoldState)
    ensures Styles(r, tag) == Styles(s, tag) + [bold]
    ensures r.depth == (if bold then s.depth + 1 else s.depth)
  {
    s.(blockStyles := s.blockStyles[tag := Styles(s, tag) + [bold]],
       depth := if bold then s.depth + 1 else s.depth)
  }

  /** `_pop_tag_style_bold`. */
  function PopStyle(s: BoldState, tag: string): (r: BoldState)
    ensures Styles(s, tag) == [] ==> r == s
    ensures Styles(s, tag) != [] ==> Styles(r, tag) == Styles(s, tag)[..|Styles(s, tag)| - 1]
    ensures s.depth >= 0 ==> r.depth >= 0
    ensures r.depth <= s.depth || r.depth == 0
  {
    var st := Styles(s, tag);
    if st == [] then s
    else
      s.(blockStyles := s.blockStyles[tag := st[..|st| - 1]],
         depth := if st[|st| - 1] then Decremented(s.depth) else s.depth)
  }

  /** `_newline`. */
  function NewLine(s: BoldState): BoldState {
    s.(lines := s.lines + [[]])
  }

  /** `_append`: non-empty text goes at the end of the last line, bold when the depth is positive. */
  function Append(s: BoldState, text: string): (r: BoldState)
    requires s.lines != []
    ensures r.lines != [] && |r.lines| == |s.lines|
    ensures text == "" ==> r == s
    ensures text != "" ==> r.lines[|r.lines| - 1] == s.lines[|s.lines| - 1] + [(text, s.depth > 0)]
  {
    if text == "" then s
    else
      var n := |s.lines|;
      s.(lines := s.lines[..n - 1] + [s.lines[n - 1] + [(text, s.depth > 0)]])
  }

  /** `handle_starttag`. */
  function OnStart(s: BoldState, tag: string, attrs: seq<Attr>): (r: BoldState)
    ensures Valid(s) ==> Valid(r)
  {
    var t := Lower(tag);
    if t == "body" then s.(inBody := true)
    else if !s.inBody then s
    else if t == "p" || t == "li" || t == "font" then
      PushStyle(s.(inBlock := true), t, StyleIsBold(StyleOf(attrs)))
    else if t == "b" || t == "strong" then s.(depth := s.depth + 1)
    else if t == "span" then
      var bold := StyleIsBold(StyleOf(attrs));
      s.(spans := s.spans + [bold], depth := if bold then s.depth + 1 else s.depth)
    else if t == "br" then NewLine(s)
    else s
  }

  /** `handle_endtag`. */
  function OnEnd(s: BoldState, tag: string): (r: BoldState)
    ensures Valid(s) ==> Valid(r)
  {
    var t := Lower(tag);
    if t == "body" then s.(inBody := false, inBlock := false)
    else if !s.inBody then s
    else if t == "b" || t == "strong" then s.(depth := Decremented(s.depth))
    else if t == "span" then
      if s.spans == [] then s
      else
        var was := s.spans[|s.spans| - 1];
        s.(spans := s.spans[..|s.spans| - 1], depth := if was then Decremented(s.depth) else s.depth)
    else if t == "p" || t == "li" || t == "font" then
      var popped := PopStyle(s, t);
      var broken := if t == "p" || t == "li" then NewLine(popped) else popped;
      broken.(inBlock := false)
    else s
  }

  /** `handle_data`. */
  function OnData(s: BoldState, data: string): (r: BoldState)
    requires s.lines != []
    ensures Valid(s) ==> Valid(r)
  {
    if !s.inBody then s
    else if !s.inBlock && Strip(data) == [] then s
    else Append(s, data)
  }

  function Step(s: BoldState, e: HtmlEvent): (r: BoldState)
    requires s.lines != []
    ensures Valid(s) ==> Valid(r)
  {
    match e
    case StartTag(tag, attrs) => OnStart(s, tag, attrs)
    case EndTag(tag) => OnEnd(s, tag)
    case Data(text) => OnData(s, text)
  }

  /** The state after feeding `events`: the depth never goes negative on the way. */
  function Run(s: BoldState, events: seq<HtmlEvent>): (r: BoldState)
    requires Valid(s)
    ensures Valid(r)
    decreases |events|
  {
    if events == [] then s else Run(Step(s, events[0]), events[1..])
  }

  /** `_PlasmaBoldAwareParser`, its fields updated in place. */
  class BoldAwareParser {
    var inBody: bool
    var inBlock: bool
    var depth: int
    var spans: seq<bool>
    var blockStyles: map<string, seq<bool>>
    var lines: seq<seq<Frag>>

    function State(): BoldState
      reads this
    {
      BoldState(inBody, inBlock, depth, spans, blockStyles, lines)
    }

    constructor()
      ensures State() == FreshBold
    {
      inBody := false;
      inBlock := false;
      depth := 0;
      spans := [];
      blockStyles := map["p" := [], "li" := [], "font" := []];
      lines := [[]];
    }

    method PushTagStyle(tag: string, attrs: seq<Attr>)
      modifies this
      ensures State() == PushStyle(old(State()), tag, StyleIsBold(StyleOf(attrs)))
    {
      var style := FindStyle(attrs);
      var bold := StyleIsBold(style);
      PushFlag(tag, bold);
    }

    /** The flag of a block tag pushed on its stack; a bold one opens a bold level. */
    method PushFlag(tag: string, bold: bool)
      modifies this
      ensures State() == PushStyle(old(State()), tag, bold)
    {
      var st := if tag in blockStyles then blockStyles[tag] else [];
      blockStyles := blockStyles[tag := st + [bold]];
      if bold {
        depth := depth + 1;
      }
    }

    method PopTagStyle(tag: string)
      modifies this
      ensures State() == PopStyle(old(State()), tag)
    {
      var st := if tag in blockStyles then blockStyles[tag] else [];
      if st == [] {
        return;
      }
      var was := st[|st| - 1];
      blockStyles := blockStyles[tag := st[..|st| - 1]];
      if was {
        depth := Decremented(depth);
      }
    }

    method HandleStartTag(tag: string, attrs: seq<Attr>)
      modifies this
      ensures State() == OnStart(old(State()), tag, attrs)
    {
      var t := Lower(tag);
      if t == "body" {
        inBody := true;
        return;
      }
      if !inBody {
        return;
      }
      if t == "p" || t == "li" || t == "font" {
        inBlock := true;
        PushTagStyle(t, attrs);
        return;
      }
      if t == "b" || t == "strong" {
        depth := depth + 1;
        return;
      }
      if t == "span" {
        var style := FindStyle(attrs);
        var bold := StyleIsBold(style);
        spans := spans + [bold];
        if bold {
          depth := depth + 1;
        }
        return;
      }
      if t == "br" {
        lines := lines + [[]];
      }
    }

    method HandleEndTag(tag: string)
      modifies this
      ensures State() == OnEnd(old(State()), tag)
    {
      var t := Lower(tag);
      if t == "body" {
        inBody := false;
        inBlock := false;
        return;
      }
      if !inBody {
        return;
      }
      if t == "b" || t == "strong" {
        depth := Decremented(depth);
        return;
      }
      if t == "span" {
        if spans != [] {
          var was := spans[|spans| - 1];
          spans := spans[..|spans| - 1];
          if was {
            depth := Decremented(depth);
          }
        }
        return;
      }
      if t == "p" || t == "li" || t == "font" {
        PopTagStyle(t);
        if t == "p" || t == "li" {
          lines := lines + [[]];
        }
        inBlock := false;
      }
    }

    method HandleData(data: string)
      requires lines != []
      modifies this
      ensures State() == OnData(old(State()), data)
    {
      if !inBody {
        return;
      }
      if !inBlock && Strip(data) == [] {
        return;
      }
      if data == "" {
        return;
      }
      var n := |lines|;
      lines := lines[..n - 1] + [lines[n - 1] + [(data, depth > 0)]];
    }

    /** `get_lines`, its loops written out. */
    method GetLines() returns (out: seq<seq<Frag>>)
      ensures out == MergedLines(lines)
    {
      var merged: seq<seq<Frag>> := [];
      for k := 0 to |lines|
        invariant merged == MergeAll(lines[..k])
      {
        assert lines[..k + 1][..k] == lines[..k];
        var m := MergeLine(lines[k]);
        merged := merged + [m];
      }
      assert lines[..|lines|] == lines;

      merged := SkipLeading(merged);
      merged := SkipTrailing(merged);
      out := CollapseBlanks(merged);
    }

    /** `feed`: every event to its handler, in order. */
    method Feed(events: seq<HtmlEvent>)
      requires Valid(State())
      modifies this
      ensures Valid(State()) && State() == Run(old(State()), events)
    {
      var i := 0;
      while i < |events|
        invariant i <= |events| && Valid(State())
        invariant Run(old(State()), events) == Run(State(), events[i..])
        decreases |events| - i
      {
        assert events[i..][1..] == events[i + 1..];
        match events[i] {
          case StartTag(tag, attrs) => HandleStartTag(tag, attrs);
          case EndTag(tag) => HandleEndTag(tag);
          case Data(text) => HandleData(text);
        }
        i := i + 1;
      }
    }
  }

  // ------------------------------------------------------------ get_lines

  /** The text of a line. */
  function LineText(ln: seq<Frag>): string {
    if ln == [] then [] else LineText(ln[..|ln| - 1]) + ln[|ln| - 1].0
  }

  /** `txt(ln).strip() == ""`. */
  predicate BlankLine(ln: seq<Frag>) {
    Blank(LineText(ln))
  }

  /** One step of the merge loop: empty text is skipped, text of the last fragment's weight joins it. */
  function MergeOne(merged: seq<Frag>, f: Frag): seq<Frag> {
    if f.0 == "" then merged
    else if merged != [] && merged[|merged| - 1].1 == f.1 then
      merged[..|merged| - 1] + [(merged[|merged| - 1].0 + f.0, f.1)]
    else merged + [f]
  }

  /** A line's fragments merged. */
  function Merge(line: seq<Frag>): seq<Frag> {
    if line == [] then [] else MergeOne(Merge(line[..|line| - 1]), line[|line| - 1])
  }

  /** No empty fragment, and neighbouring fragments differ in weight. */
  predicate MergedWell(m: seq<Frag>) {
    && (forall i :: 0 <= i < |m| ==> m[i].0 != "")
    && (forall i :: 0 < i < |m| ==> m[i - 1].1 != m[i].1)
  }

  /** Each character of a text with a weight. */
  function Weighted(t: string, bold: bool): (r: seq<(char, bool)>)
    ensures |r| == |t|
    decreases |t|
  {
    if t == [] then [] else Weighted(t[..|t| - 1], bold) + [(t[|t| - 1], bold)]
  }

  /** Each character of a line with its weight. */
  function Chars(line: seq<Frag>): seq<(char, bool)> {
    if line == [] then [] else Chars(line[..|line| - 1]) + Weighted(line[|line| - 1].0, line[|line| - 1].1)
  }

  /** Joining `a` and `b` of one weight weighs their characters alike. */
  lemma {:induction false} WeightedAppend(a: string, b: string, bold: bool)
    ensures Weighted(a + b, bold) == Weighted(a, bold) + Weighted(b, bold)
    decreases |b|
  {
    if b == [] {
      assert a + b == a;
    } else {
      var n := |b|;
      assert (a + b)[..|a + b| - 1] == a + b[..n - 1];
      WeightedAppend(a, b[..n - 1], bold);
    }
  }

  /** The characters and the text of `m` with `f` after it. */
  lemma AppendFrag(m: seq<Frag>, f: Frag)
    ensures Chars(m + [f]) == Chars(m) + Weighted(f.0, f.1)
    ensures LineText(m + [f]) == LineText(m) + f.0
  {
    assert (m + [f])[..|m|] == m;
  }

  /** Merging never leaves an empty fragment or two neighbours of the same weight. */
  lemma {:induction false} MergeWell(line: seq<Frag>)
    ensures MergedWell(Merge(line))
  {
    if line != [] {
      MergeWell(line[..|line| - 1]);
    }
  }

  /** Text joined to the last fragment of its weight keeps the characters and the text. */
  lemma JoinLast(m: seq<Frag>, last: Frag, t: string)
    ensures Chars(m + [(last.0 + t, last.1)]) == Chars(m + [last]) + Weighted(t, last.1)
    ensures LineText(m + [(last.0 + t, last.1)]) == LineText(m + [last]) + t
  {
    var joined := (last.0 + t, last.1);
    AppendFrag(m, last);
    AppendFrag(m, joined);
    var c, wa, wt := Chars(m), Weighted(last.0, last.1), Weighted(t, last.1);
    WeightedAppend(last.0, t, last.1);
    assert Chars(m + [joined]) == c + (wa + wt);
    SeqAssoc(c, wa, wt);
    var x := LineText(m);
    assert LineText(m + [joined]) == x + (last.0 + t);
    SeqAssoc(x, last.0, t);
  }

  /** One merge step adds the characters and the text of `f`. */
  lemma MergeOneKeeps(m: seq<Frag>, f: Frag)
    ensures Chars(MergeOne(m, f)) == Chars(m) + Weighted(f.0, f.1)
    ensures LineText(MergeOne(m, f)) == LineText(m) + f.0
  {
    if f.0 == "" {
      assert Weighted(f.0, f.1) == [];
    } else if m != [] && m[|m| - 1].1 == f.1 {
      var k := |m| - 1;
      assert m == m[..k] + [m[k]];
      JoinLast(m[..k], m[k], f.0);
    } else {
      AppendFrag(m, f);
    }
  }

  /** Merging keeps every character and its weight, and so the text of the line. */
  lemma {:induction false} MergeKeeps(line: seq<Frag>)
    ensures Chars(Merge(line)) == Chars(line)
    ensures LineText(Merge(line)) == LineText(line)
  {
    if line != [] {
      var n := |line|;
      var prev := line[..n - 1];
      MergeKeeps(prev);
      MergeOneKeeps(Merge(prev), line[n - 1]);
    }
  }

  /** Merging a merged line changes nothing. */
  lemma {:induction false} MergeSettled(m: seq<Frag>)
    requires MergedWell(m)
    ensures Merge(m) == m
  {
    if m != [] {
      var n := |m|;
      assert MergedWell(m[..n - 1]);
      MergeSettled(m[..n - 1]);
      assert m[..n - 1] + [m[n - 1]] == m;
    }
  }

  lemma MergeIdempotent(line: seq<Frag>)
    ensures Merge(Merge(line)) == Merge(line)
  {
    MergeWell(line);
    MergeSettled(Merge(line));
  }

  /** The merge loop over every line. */
  function MergeAll(lines: seq<seq<Frag>>): (r: seq<seq<Frag>>)
    ensures |r| == |lines|
    ensures forall k :: 0 <= k < |r| ==> r[k] == Merge(lines[k])
  {
    if lines == [] then [] else MergeAll(lines[..|lines| - 1]) + [Merge(lines[|lines| - 1])]
  }

  /** The leading blank lines dropped. */
  function DropLeading(ls: seq<seq<Frag>>): (r: seq<seq<Frag>>)
    ensures r == [] || !BlankLine(r[0])
    ensures |r| <= |ls| && r == ls[|ls| - |r|..]
    ensures forall k :: 0 <= k < |ls| - |r| ==> BlankLine(ls[k])
  {
    if ls == [] || !BlankLine(ls[0]) then ls else DropLeading(ls[1..])
  }

  /** The trailing blank lines dropped. */
  function DropTrailing(ls: seq<seq<Frag>>): (r: seq<seq<Frag>>)
    ensures r == [] || !BlankLine(r[|r| - 1])
    ensures |r| <= |ls| && r == ls[..|r|]
    ensures forall k :: |r| <= k < |ls| ==> BlankLine(ls[k])
  {
    if ls == [] || !BlankLine(ls[|ls| - 1]) then ls else DropTrailing(ls[..|ls| - 1])
  }

  /** The loop that keeps only the first of consecutive blank lines; `prevBlank` says the last kept one was blank. */
  function Collapse(ls: seq<seq<Frag>>, prevBlank: bool): seq<seq<Frag>> {
    if ls == [] then []
    else
      var blank := BlankLine(ls[0]);
      if blank && prevBlank then Collapse(ls[1..], true) else [ls[0]] + Collapse(ls[1..], blank)
  }

  /** `get_lines`. */
  function MergedLines(lines: seq<seq<Frag>>): seq<seq<Frag>> {
    Collapse(DropTrailing(DropLeading(MergeAll(lines))), false)
  }

  /** No two neighbouring lines are both blank. */
  predicate NoDoubleBlank(ls: seq<seq<Frag>>) {
    forall k :: 0 < k < |ls| ==> !(BlankLine(ls[k - 1]) && BlankLine(ls[k]))
  }

  /** The non-blank lines, in order. */
  function Solid(ls: seq<seq<Frag>>): seq<seq<Frag>> {
    if ls == [] then [] else (if BlankLine(ls[0]) then [] else [ls[0]]) + Solid(ls[1..])
  }

  /** Collapsing keeps the first line and, when it is not blank, the last one. */
  lemma {:induction false} CollapseEnds(ls: seq<seq<Frag>>, prevBlank: bool)
    requires ls != [] && !BlankLine(ls[|ls| - 1])
    ensures Collapse(ls, prevBlank) != []
    ensures Collapse(ls, prevBlank)[|Collapse(ls, prevBlank)| - 1] == ls[|ls| - 1]
    ensures !(prevBlank && BlankLine(ls[0])) ==> Collapse(ls, prevBlank)[0] == ls[0]
    decreases |ls|
  {
    if |ls| > 1 {
      CollapseEnds(ls[1..], BlankLine(ls[0]) || prevBlank);
    }
  }

  /** Collapsing leaves no two blank lines side by side, nor a blank first line after a blank one. */
  lemma {:induction false} CollapseSingles(ls: seq<seq<Frag>>, prevBlank: bool)
    ensures NoDoubleBlank(Collapse(ls, prevBlank))
    ensures prevBlank && Collapse(ls, prevBlank) != [] ==> !BlankLine(Collapse(ls, prevBlank)[0])
    decreases |ls|
  {
    if ls != [] {
      var blank := BlankLine(ls[0]);
      if blank && prevBlank {
        CollapseSingles(ls[1..], true);
      } else {
        CollapseSingles(ls[1..], blank);
      }
    }
  }

  /** Collapsing keeps every non-blank line. */
  lemma {:induction false} CollapseSolid(ls: seq<seq<Frag>>, prevBlank: bool)
    ensures Solid(Collapse(ls, prevBlank)) == Solid(ls)
    decreases |ls|
  {
    if ls != [] {
      var blank := BlankLine(ls[0]);
      if blank && prevBlank {
        CollapseSolid(ls[1..], true);
      } else {
        CollapseSolid(ls[1..], blank);
        var c := Collapse(ls, prevBlank);
        assert c[0] == ls[0] && c[1..] == Collapse(ls[1..], blank);
      }
    }
  }

  /** Dropping blank lines at the front keeps every non-blank line. */
  lemma {:induction false} DropLeadingSolid(ls: seq<seq<Frag>>)
    ensures Solid(DropLeading(ls)) == Solid(ls)
    decreases |ls|
  {
    if ls != [] && BlankLine(ls[0]) {
      DropLeadingSolid(ls[1..]);
    }
  }

  /** The non-blank lines of a concatenation. */
  lemma {:induction false} SolidAppend(a: seq<seq<Frag>>, b: seq<seq<Frag>>)
    ensures Solid(a + b) == Solid(a) + Solid(b)
    decreases |a|
  {
    if a == [] {
      assert a + b == b;
    } else {
      assert (a + b)[1..] == a[1..] + b;
      SolidAppend(a[1..], b);
    }
  }

  /** Dropping blank lines at the end keeps every non-blank line. */
  lemma {:induction false} DropTrailingSolid(ls: seq<seq<Frag>>)
    ensures Solid(DropTrailing(ls)) == Solid(ls)
    decreases |ls|
  {
    if ls != [] && BlankLine(ls[|ls| - 1]) {
      var n := |ls|;
      DropTrailingSolid(ls[..n - 1]);
      assert ls == ls[..n - 1] + [ls[n - 1]];
      SolidAppend(ls[..n - 1], [ls[n - 1]]);
      assert Solid([ls[n - 1]]) == [] + Solid([]);
    }
  }

  /** Every line of the trimmed and collapsed merge is merged. */
  lemma MergedLinesWell(lines: seq<seq<Frag>>)
    ensures forall k :: 0 <= k < |MergedLines(lines)| ==> MergedWell(MergedLines(lines)[k])
  {
    var merged := MergeAll(lines);
    var lead := DropLeading(merged);
    var trimmed := DropTrailing(lead);
    var out := Collapse(trimmed, false);
    forall k | 0 <= k < |out|
      ensures MergedWell(out[k])
    {
      CollapseFrom(trimmed, false, k);
      var j :| 0 <= j < |trimmed| && out[k] == trimmed[j];
      var i := |merged| - |lead| + j;
      assert out[k] == merged[i];
      MergeWell(lines[i]);
    }
  }

  /** The trimmed and collapsed lines begin and end with a non-blank line. */
  lemma MergedLinesEnds(lines: seq<seq<Frag>>)
    ensures MergedLines(lines) != [] ==> !BlankLine(MergedLines(lines)[0])
    ensures MergedLines(lines) != [] ==> !BlankLine(MergedLines(lines)[|MergedLines(lines)| - 1])
  {
    var lead := DropLeading(MergeAll(lines));
    var trimmed := DropTrailing(lead);
    if trimmed != [] {
      CollapseEnds(trimmed, false);
      assert trimmed[0] == lead[0];
    }
  }

  /**
   * What `get_lines` returns: every line merged, no blank line first or
   * last, no two blank lines side by side, and every non-blank line of the
   * merged input, in order.
   */
  lemma MergedLinesShape(lines: seq<seq<Frag>>)
    ensures forall k :: 0 <= k < |MergedLines(lines)| ==> MergedWell(MergedLines(lines)[k])
    ensures MergedLines(lines) != [] ==> !BlankLine(MergedLines(lines)[0])
    ensures MergedLines(lines) != [] ==> !BlankLine(MergedLines(lines)[|MergedLines(lines)| - 1])
    ensures NoDoubleBlank(MergedLines(lines))
    ensures Solid(MergedLines(lines)) == Solid(MergeAll(lines))
  {
    var merged := MergeAll(lines);
    var lead := DropLeading(merged);
    var trimmed := DropTrailing(lead);
    CollapseSingles(trimmed, false);
    CollapseSolid(trimmed, false);
    DropTrailingSolid(lead);
    DropLeadingSolid(merged);
    MergedLinesWell(lines);
    MergedLinesEnds(lines);
  }

  /** Every line collapsing keeps is one of its input. */
  lemma {:induction false} CollapseFrom(ls: seq<seq<Frag>>, prevBlank: bool, k: nat)
    requires k < |Collapse(ls, prevBlank)|
    ensures exists j :: 0 <= j < |ls| && Collapse(ls, prevBlank)[k] == ls[j]
    decreases |ls|
  {
    var blank := BlankLine(ls[0]);
    if blank && prevBlank {
      CollapseFrom(ls[1..], true, k);
      var j :| 0 <= j < |ls[1..]| && Collapse(ls[1..], true)[k] == ls[1..][j];
      assert ls[1..][j] == ls[j + 1];
    } else if k > 0 {
      CollapseFrom(ls[1..], blank, k - 1);
      var j :| 0 <= j < |ls[1..]| && Collapse(ls[1..], blank)[k - 1] == ls[1..][j];
      assert ls[1..][j] == ls[j + 1];
    } else {
      assert Collapse(ls, prevBlank)[0] == ls[0];
    }
  }

  /** A blank line stays blank, and a non-blank one stays non-blank, when merged. */
  lemma MergeBlank(line: seq<Frag>)
    ensures BlankLine(Merge(line)) <==> BlankLine(line)
  {
    MergeKeeps(line);
  }

  /** The merge loop of `get_lines` for one line. */
  method MergeLine(line: seq<Frag>) returns (merged: seq<Frag>)
    ensures merged == Merge(line)
  {
    merged := [];
    for k := 0 to |line|
      invariant merged == Merge(line[..k])
    {
      assert line[..k + 1][..k] == line[..k];
      var f := line[k];
      if f.0 != "" {
        if merged != [] && merged[|merged| - 1].1 == f.1 {
          merged := merged[..|merged| - 1] + [(merged[|merged| - 1].0 + f.0, f.1)];
        } else {
          merged := merged + [f];
        }
      }
    }
    assert line[..|line|] == line;
  }

  /** `txt(ln).strip() == ""`, as the source computes it. */
  method IsBlankLine(ln: seq<Frag>) returns (blank: bool)
    ensures blank == BlankLine(ln)
  {
    var text := "";
    for k := 0 to |ln|
      invariant text == LineText(ln[..k])
    {
      assert ln[..k + 1][..k] == ln[..k];
      text := text + ln[k].0;
    }
    assert ln[..|ln|] == ln;
    BlankIffStripped(text);
    blank := Strip(text) == [];
  }

  /** The first loop of `get_lines` after the merge. */
  method SkipLeading(merged: seq<seq<Frag>>) returns (r: seq<seq<Frag>>)
    ensures r == DropLeading(merged)
  {
    var i := 0;
    while i < |merged|
      invariant i <= |merged| && DropLeading(merged) == DropLeading(merged[i..])
    {
      var blank := IsBlankLine(merged[i]);
      if !blank {
        break;
      }
      assert merged[i..][1..] == merged[i + 1..];
      i := i + 1;
    }
    r := merged[i..];
  }

  /** The second loop of `get_lines` after the merge. */
  method SkipTrailing(merged: seq<seq<Frag>>) returns (r: seq<seq<Frag>>)
    ensures r == DropTrailing(merged)
  {
    var j := |merged| - 1;
    while j >= 0
      invariant -1 <= j < |merged| && DropTrailing(merged) == DropTrailing(merged[..j + 1])
    {
      var blank := IsBlankLine(merged[j]);
      if !blank {
        break;
      }
      assert merged[..j + 1][..j] == merged[..j];
      j := j - 1;
    }
    assert merged[..|merged|] == merged;
    r := merged[..j + 1];
  }

  /** The last loop of `get_lines`. */
  method CollapseBlanks(merged: seq<seq<Frag>>) returns (out: seq<seq<Frag>>)
    ensures out == Collapse(merged, false)
  {
    out := [];
    var prevBlank := false;
    for k := 0 to |merged|
      invariant out + Collapse(merged[k..], prevBlank) == Collapse(merged, false)
    {
      assert merged[k..][1..] == merged[k + 1..];
      var blank := IsBlankLine(merged[k]);
      if !(blank && prevBlank) {
        assert out + [merged[k]] + Collapse(merged[k + 1..], blank) == out + Collapse(merged[k..], prevBlank);
        out := out + [merged[k]];
        prevBlank := blank;
      }
    }
  }

  /** `_plasma_html_to_boldaware_lines`: the lines `get_lines` returns after feeding `events` to a fresh reader. */
  function BoldAwareLines(events: seq<HtmlEvent>): seq<seq<Frag>> {
    MergedLines(Run(FreshBold, events).lines)
  }

  method HtmlToBoldLines(events: seq<HtmlEvent>) returns (lines: seq<seq<Frag>>)
    ensures lines == BoldAwareLines(events)
  {
    var p := new BoldAwareParser();
    p.Feed(events);
    lines := p.GetLines();
  }
}
