/**
 * Bold runs in the lines of the bold-aware reader
 * (lucy_notes_manager/modules/plasma_sync.py): `_extract_bold_items_from_html`
 * takes every run of consecutive bold fragments of a line as one item,
 * `_items_hash` fingerprints a list of items, and
 * `_replace_bold_runs_in_lines` puts the k-th item in place of the k-th
 * bold run, unbolds the runs left over and appends the items left over as
 * bold lines of their own.
 */
module BoldRuns {
  import opened Text
  import opened BlankLines
  import opened Html
  import opened BoldParser

  /** A line cut where its weight changes: a plain fragment, or a run of consecutive bold fragments. */
  datatype Piece = Plain(text: string) | Run(parts: seq<string>)

  /** The number of bold fragments at the front of `line`. */
  function BoldPrefix(line: seq<Frag>): (n: nat)
    ensures n <= |line|
    ensures forall i :: 0 <= i < n ==> line[i].1
    ensures n < |line| ==> !line[n].1
    decreases |line|
  {
    if line == [] || !line[0].1 then 0 else 1 + BoldPrefix(line[1..])
  }

  /** A bold prefix followed by the end or a plain fragment is the whole bold prefix. */
  lemma BoldPrefixIs(line: seq<Frag>, n: nat)
    requires n <= |line| && (forall i :: 0 <= i < n ==> line[i].1) && (n < |line| ==> !line[n].1)
    ensures BoldPrefix(line) == n
  {
  }

  /** The texts of the fragments. */
  function Texts(line: seq<Frag>): (r: seq<string>)
    ensures |r| == |line|
    decreases |line|
  {
    if line == [] then [] else [line[0].0] + Texts(line[1..])
  }

  lemma {:induction false} TextsAppend(line: seq<Frag>, f: Frag)
    ensures Texts(line + [f]) == Texts(line) + [f.0]
    decreases |line|
  {
    if line != [] {
      assert (line + [f])[1..] == line[1..] + [f];
      TextsAppend(line[1..], f);
    }
  }

  /** The pieces of a line, in order. */
  function Pieces(line: seq<Frag>): seq<Piece>
    decreases |line|
  {
    if line == [] then []
    else if !line[0].1 then [Plain(line[0].0)] + Pieces(line[1..])
    else
      var n := BoldPrefix(line);
      [Run(Texts(line[..n]))] + Pieces(line[n..])
  }

  /** The fragments a piece stands for. */
  function Bolded(parts: seq<string>): (r: seq<Frag>)
    ensures |r| == |parts| && forall i :: 0 <= i < |r| ==> r[i] == (parts[i], true)
    decreases |parts|
  {
    if parts == [] then [] else [(parts[0], true)] + Bolded(parts[1..])
  }

  function Spread(ps: seq<Piece>): seq<Frag>
    decreases |ps|
  {
    if ps == [] then []
    else
      match ps[0]
      case Plain(t) => [(t, false)] + Spread(ps[1..])
      case Run(parts) => Bolded(parts) + Spread(ps[1..])
  }

  lemma BoldedTexts(line: seq<Frag>)
    requires forall i :: 0 <= i < |line| ==> line[i].1
    ensures Bolded(Texts(line)) == line
  {
    var t := Texts(line);
    forall i | 0 <= i < |line|
      ensures t[i] == line[i].0
    {
      TextsAt(line, i);
    }
  }

  lemma {:induction false} TextsAt(line: seq<Frag>, i: nat)
    requires i < |line|
    ensures Texts(line)[i] == line[i].0
    decreases i
  {
    if i > 0 {
      TextsAt(line[1..], i - 1);
    }
  }

  /** Cutting a line into pieces loses nothing: spreading the pieces gives the line back. */
  lemma {:induction false} PiecesSpread(line: seq<Frag>)
    ensures Spread(Pieces(line)) == line
    decreases |line|
  {
    if line != [] {
      if !line[0].1 {
        PiecesSpread(line[1..]);
        assert [Plain(line[0].0)] + Pieces(line[1..]) == Pieces(line);
      } else {
        var n := BoldPrefix(line);
        PiecesSpread(line[n..]);
        BoldedTexts(line[..n]);
        assert line == line[..n] + line[n..];
      }
    }
  }

  /** Every run holds at least one fragment, and no run follows another. */
  lemma {:induction false} PiecesMaximal(line: seq<Frag>)
    ensures forall i :: 0 <= i < |Pieces(line)| && Pieces(line)[i].Run? ==> Pieces(line)[i].parts != []
    ensures forall i :: 0 < i < |Pieces(line)| ==> !(Pieces(line)[i - 1].Run? && Pieces(line)[i].Run?)
    decreases |line|
  {
    if line != [] {
      if !line[0].1 {
        PiecesMaximal(line[1..]);
      } else {
        var n := BoldPrefix(line);
        PiecesMaximal(line[n..]);
        if n < |line| {
          assert Pieces(line[n..])[0].Plain?;
        }
      }
    }
  }

  // ------------------------------------------------------------ the items

  /** The item a run gives: its text joined and stripped, when that leaves anything. */
  function RunItem(parts: seq<string>): (r: seq<string>)
    ensures |r| <= 1
  {
    var s := Strip(Join(parts, ""));
    if s == [] then [] else [s]
  }

  /** The items of the runs among `ps`, in order. */
  function PieceItems(ps: seq<Piece>): seq<string>
    decreases |ps|
  {
    if ps == [] then []
    else (if ps[0].Run? then RunItem(ps[0].parts) else []) + PieceItems(ps[1..])
  }

  /** The items of every line, in order. */
  function Items(lines: seq<seq<Frag>>): seq<string>
    decreases |lines|
  {
    if lines == [] then [] else Items(lines[..|lines| - 1]) + PieceItems(Pieces(lines[|lines| - 1]))
  }

  /** A text that is not empty and has no whitespace to strip at either end. */
  predicate Clean(s: string) {
    s != [] && !IsSpace(s[0]) && !IsSpace(s[|s| - 1])
  }

  lemma RunItemClean(parts: seq<string>)
    ensures forall i :: 0 <= i < |RunItem(parts)| ==> Clean(RunItem(parts)[i])
  {
    var s := Strip(Join(parts, ""));
    if s != [] {
      assert Clean(s);
      assert RunItem(parts) == [s];
    }
  }

  lemma {:induction false} PieceItemsClean(ps: seq<Piece>)
    ensures forall i :: 0 <= i < |PieceItems(ps)| ==> Clean(PieceItems(ps)[i])
    decreases |ps|
  {
    if ps != [] {
      PieceItemsClean(ps[1..]);
      var head := if ps[0].Run? then RunItem(ps[0].parts) else [];
      if ps[0].Run? {
        RunItemClean(ps[0].parts);
      }
      CleanAppend(head, PieceItems(ps[1..]));
    }
  }

  lemma CleanAppend(a: seq<string>, b: seq<string>)
    requires forall i :: 0 <= i < |a| ==> Clean(a[i])
    requires forall i :: 0 <= i < |b| ==> Clean(b[i])
    ensures forall i :: 0 <= i < |a + b| ==> Clean((a + b)[i])
  {
  }

  /** Every extracted item is non-empty and stripped. */
  lemma {:induction false} ItemsClean(lines: seq<seq<Frag>>)
    ensures forall i :: 0 <= i < |Items(lines)| ==> Clean(Items(lines)[i])
    decreases |lines|
  {
    if lines != [] {
      ItemsClean(lines[..|lines| - 1]);
      PieceItemsClean(Pieces(lines[|lines| - 1]));
      CleanAppend(Items(lines[..|lines| - 1]), PieceItems(Pieces(lines[|lines| - 1])));
    }
  }

  /**
   * The items the per-line loop emits from `line` on, `cur` holding the
   * texts of the open run and `inBold` saying whether one is open.
   */
  function Scan(line: seq<Frag>, cur: seq<string>, inBold: bool): seq<string>
    decreases |line|
  {
    if line == [] then (if inBold then RunItem(cur) else [])
    else if line[0].1 then Scan(line[1..], cur + [line[0].0], true)
    else (if inBold then RunItem(cur) else []) + Scan(line[1..], [], false)
  }

  /** The loop with a run open emits that run, continued by the bold prefix, then the items of the rest. */
  lemma {:induction false} ScanRun(line: seq<Frag>, cur: seq<string>)
    ensures Scan(line, cur, true)
         == RunItem(cur + Texts(line[..BoldPrefix(line)])) + PieceItems(Pieces(line[BoldPrefix(line)..]))
    decreases |line|
  {
    if line == [] {
      assert cur + [] == cur;
    } else if !line[0].1 {
      ScanPieces(line[1..]);
      assert cur + Texts(line[..0]) == cur;
    } else {
      ScanRun(line[1..], cur + [line[0].0]);
      RunGrows(line, cur);
    }
  }

  /** A bold fragment in front of a line joins the open run: the bold prefix of the rest is one shorter. */
  lemma RunGrows(line: seq<Frag>, cur: seq<string>)
    requires line != [] && line[0].1
    ensures var n := BoldPrefix(line);
      && n >= 1 && BoldPrefix(line[1..]) == n - 1
      && cur + [line[0].0] + Texts(line[1..][..n - 1]) == cur + Texts(line[..n])
      && line[1..][n - 1..] == line[n..]
  {
    var n := BoldPrefix(line);
    assert line[1..][..n - 1] == line[..n][1..];
    assert Texts(line[..n]) == [line[0].0] + Texts(line[..n][1..]);
  }

  /** The per-line loop emits the items of the line's runs. */
  lemma {:induction false} ScanPieces(line: seq<Frag>)
    ensures Scan(line, [], false) == PieceItems(Pieces(line))
    decreases |line|
  {
    if line != [] {
      if !line[0].1 {
        ScanPieces(line[1..]);
      } else {
        var n := BoldPrefix(line);
        var t0 := line[0].0;
        assert [] + [t0] == [t0];
        assert Scan(line, [], false) == Scan(line[1..], [t0], true);
        ScanRun(line[1..], [t0]);
        RunGrows(line, []);
        assert [] + Texts(line[..n]) == Texts(line[..n]);
        assert PieceItems(Pieces(line)) == RunItem(Texts(line[..n])) + PieceItems(Pieces(line[n..]));
      }
    }
  }

  /** One pass of the per-line loop, as the source writes it. */
  method LineItems(line: seq<Frag>) returns (items: seq<string>)
    ensures items == PieceItems(Pieces(line))
  {
    items := [];
    var cur: seq<string> := [];
    var inBold := false;
    for i := 0 to |line|
      invariant !inBold ==> cur == []
      invariant items + Scan(line[i..], cur, inBold) == Scan(line, [], false)
    {
      items, cur, inBold := Feed(line, i, items, cur, inBold, Scan(line, [], false));
    }
    if inBold {
      var s := Strip(Join(cur, ""));
      if s != [] {
        items := items + [s];
      }
    }
    ScanPieces(line);
  }

  /** One turn of the per-line loop: a bold fragment extends the open run, a plain one closes it. */
  method Feed(line: seq<Frag>, i: nat, items: seq<string>, cur: seq<string>, inBold: bool, ghost goal: seq<string>)
    returns (items': seq<string>, cur': seq<string>, inBold': bool)
    requires i < |line| && (!inBold ==> cur == [])
    requires items + Scan(line[i..], cur, inBold) == goal
    ensures !inBold' ==> cur' == []
    ensures items' + Scan(line[i + 1..], cur', inBold') == goal
  {
    assert line[i..][1..] == line[i + 1..];
    items', cur', inBold' := items, cur, inBold;
    var (t, b) := line[i];
    if b {
      inBold' := true;
      cur' := cur + [t];
    } else if inBold {
      var s := Strip(Join(cur, ""));
      if s != [] {
        items' := items + [s];
      }
      cur' := [];
      inBold' := false;
    }
  }

  /** `_extract_bold_items_from_html`, over the lines the bold-aware reader returns. */
  method ExtractBoldItems(lines: seq<seq<Frag>>) returns (items: seq<string>)
    ensures items == Items(lines)
    ensures forall i :: 0 <= i < |items| ==> Clean(items[i])
  {
    items := [];
    for k := 0 to |lines|
      invariant items == Items(lines[..k])
    {
      assert lines[..k + 1][..k] == lines[..k];
      var more := LineItems(lines[k]);
      items := items + more;
    }
    assert lines[..|lines|] == lines;
    ItemsClean(lines);
  }

  /** The bold items of a note's HTML. */
  function HtmlBoldItems(events: seq<HtmlEvent>): seq<string> {
    Items(BoldAwareLines(events))
  }

  method ExtractBoldItemsFromHtml(events: seq<HtmlEvent>) returns (items: seq<string>)
    ensures items == HtmlBoldItems(events)
    ensures forall i :: 0 <= i < |items| ==> Clean(items[i])
  {
    var lines := HtmlToBoldLines(events);
    items := ExtractBoldItems(lines);
  }

  // ------------------------------------------------------------ item lists

  /** Stripping text without a carriage return leaves none. */
  lemma StripNoCr(s: string)
    requires '\r' !in s
    ensures '\r' !in Strip(s)
  {
  }

  /** An item as `_items_hash` keeps it: clean and free of carriage returns. */
  predicate Normal(it: string) {
    Clean(it) && '\r' !in it
  }

  /** `it.replace("\r\n", "\n").replace("\r", "\n").strip()`. */
  function NormItem(it: string): (r: string)
    ensures r == [] || Normal(r)
    ensures Normal(it) ==> r == it
  {
    NormalStripped(it);
    NormalKept(it);
    Strip(UnifyBreaks(it))
  }

  lemma NormalStripped(it: string)
    ensures var r := Strip(UnifyBreaks(it));
      r == [] || Normal(r)
  {
    StripNoCr(UnifyBreaks(it));
  }

  lemma NormalKept(it: string)
    ensures Normal(it) ==> Strip(UnifyBreaks(it)) == it
  {
    if Normal(it) {
      assert UnifyBreaks(it) == it;
      StripKeeps(it);
    }
  }

  /** The items normalised, empty ones dropped. */
  function NormItems(items: seq<string>): (r: seq<string>)
    ensures |r| <= |items|
    decreases |items|
  {
    if items == [] then []
    else (if NormItem(items[0]) != [] then [NormItem(items[0])] else []) + NormItems(items[1..])
  }

  predicate AllNormal(items: seq<string>) {
    forall i :: 0 <= i < |items| ==> Normal(items[i])
  }

  lemma NormalAppend(a: seq<string>, b: seq<string>)
    requires AllNormal(a) && AllNormal(b)
    ensures AllNormal(a + b)
  {
  }

  /** Every normalised item is non-empty, stripped and free of carriage returns. */
  lemma {:induction false} NormItemsClean(items: seq<string>)
    ensures AllNormal(NormItems(items))
    decreases |items|
  {
    if items != [] {
      NormItemsClean(items[1..]);
      var it := NormItem(items[0]);
      var head := if it != [] then [it] else [];
      assert AllNormal(head);
      NormalAppend(head, NormItems(items[1..]));
    }
  }

  /** Items that are already clean and free of carriage returns are their own normal form. */
  lemma {:induction false} NormItemsFixed(items: seq<string>)
    requires AllNormal(items)
    ensures NormItems(items) == items
    decreases |items|
  {
    if items != [] {
      var first, rest := items[0], items[1..];
      assert items == [first] + rest;
      assert Normal(first) && AllNormal(rest);
      NormItemsFixed(rest);
      assert NormItem(first) == first;
    }
  }

  lemma NormItemsIdempotent(items: seq<string>)
    ensures NormItems(NormItems(items)) == NormItems(items)
  {
    NormItemsClean(items);
    NormItemsFixed(NormItems(items));
  }

  /**
   * What `_items_hash` fingerprints: the normalised items joined with "\n".
   * The SHA-256 digest over it is taken as injective, so two item lists
   * have the same hash exactly when they have the same key.
   */
  function ItemsKey(items: seq<string>): string {
    Join(NormItems(items), "\n")
  }

  /** Re-normalising a list of items keeps its hash. */
  lemma ItemsKeyStable(items: seq<string>)
    ensures ItemsKey(NormItems(items)) == ItemsKey(items)
  {
    NormItemsIdempotent(items);
  }

  // ------------------------------------------------------------ replacing runs

  /** What a piece becomes when `k` items have been used. */
  function ReplacePiece(p: Piece, items: seq<string>, k: nat): (r: (Frag, nat))
  {
    match p
    case Plain(t) => ((t, false), k)
    case Run(parts) => if k < |items| then ((items[k], true), k + 1) else ((Join(parts, ""), false), k)
  }

  /** The new fragments of a line's pieces, and how many items are used after them. */
  function ReplaceLine(ps: seq<Piece>, items: seq<string>, k: nat): (r: (seq<Frag>, nat))
    ensures |r.0| == |ps|
    decreases |ps|
  {
    if ps == [] then ([], k)
    else
      var (f, k1) := ReplacePiece(ps[0], items, k);
      var (rest, k2) := ReplaceLine(ps[1..], items, k1);
      ([f] + rest, k2)
  }

  /** The number of runs among `ps`. */
  function RunCount(ps: seq<Piece>): nat
    decreases |ps|
  {
    if ps == [] then 0 else (if ps[0].Run? then 1 else 0) + RunCount(ps[1..])
  }

  function Min(a: nat, b: nat): nat {
    if a <= b then a else b
  }

  /**
   * The piece at `m` becomes: a plain fragment itself, unbolded; a run its
   * item when one is left (the run's number counting from `k`), and
   * otherwise its own text unbolded. The items used grow by the runs,
   * up to the number of items.
   */
  lemma {:induction false} ReplaceLineAt(ps: seq<Piece>, items: seq<string>, k: nat, m: nat)
    requires k <= |items| && m < |ps|
    ensures ps[m].Plain? ==> ReplaceLine(ps, items, k).0[m] == (ps[m].text, false)
    ensures ps[m].Run? && k + RunCount(ps[..m]) < |items|
            ==> ReplaceLine(ps, items, k).0[m] == (items[k + RunCount(ps[..m])], true)
    ensures ps[m].Run? && k + RunCount(ps[..m]) >= |items|
            ==> ReplaceLine(ps, items, k).0[m] == (Join(ps[m].parts, ""), false)
    decreases m
  {
    if m > 0 {
      var k1 := ReplacePiece(ps[0], items, k).1;
      ReplaceLineAt(ps[1..], items, k1, m - 1);
      assert ps[..m][1..] == ps[1..][..m - 1];
      assert ps[1..][m - 1] == ps[m];
    } else {
      assert ps[..0] == [];
    }
  }

  /** After a line the items used are the runs so far, up to the number of items. */
  lemma {:induction false} ReplaceLineUses(ps: seq<Piece>, items: seq<string>, k: nat)
    requires k <= |items|
    ensures ReplaceLine(ps, items, k).1 == Min(k + RunCount(ps), |items|)
    decreases |ps|
  {
    if ps != [] {
      ReplaceLineUses(ps[1..], items, ReplacePiece(ps[0], items, k).1);
    }
  }

  /** Every line's new fragments, and the items they use. */
  function ReplaceLines(lines: seq<seq<Frag>>, items: seq<string>): (r: (seq<seq<Frag>>, nat))
    ensures |r.0| == |lines|
    decreases |lines|
  {
    if lines == [] then ([], 0)
    else
      var (out, k) := ReplaceLines(lines[..|lines| - 1], items);
      var (ln, k1) := ReplaceLine(Pieces(lines[|lines| - 1]), items, k);
      (out + [ln], k1)
  }

  /** The runs of every line. */
  function Runs(lines: seq<seq<Frag>>): nat
    decreases |lines|
  {
    if lines == [] then 0 else Runs(lines[..|lines| - 1]) + RunCount(Pieces(lines[|lines| - 1]))
  }

  /** The items left over after `k`, one bold line each. */
  function Surplus(items: seq<string>, k: nat): (r: seq<seq<Frag>>)
    ensures |r| == |items| - Min(k, |items|)
    ensures forall j :: 0 <= j < |r| ==> r[j] == [(items[k + j], true)]
    decreases |items| - k
  {
    if k >= |items| then [] else [[(items[k], true)]] + Surplus(items, k + 1)
  }

  /** `_replace_bold_runs_in_lines`. */
  function ReplaceAll(mainLines: seq<seq<Frag>>, newItems: seq<string>): seq<seq<Frag>> {
    var items := NormItems(newItems);
    var (out, k) := ReplaceLines(mainLines, items);
    out + Surplus(items, k)
  }

  /** Line `l` is replaced with the items counted by the runs of the lines before it. */
  lemma {:induction false} ReplaceLinesAt(lines: seq<seq<Frag>>, items: seq<string>, l: nat)
    requires l < |lines|
    ensures ReplaceLines(lines, items).0[l] == ReplaceLine(Pieces(lines[l]), items, Min(Runs(lines[..l]), |items|)).0
    decreases |lines|
  {
    var n := |lines|;
    ReplaceLinesUses(lines[..n - 1], items);
    if l < n - 1 {
      ReplaceLinesAt(lines[..n - 1], items, l);
      assert lines[..n - 1][..l] == lines[..l];
    } else {
      assert lines[..l] == lines[..n - 1];
    }
  }

  /** All lines use the items counted by all their runs, up to the number of items. */
  lemma {:induction false} ReplaceLinesUses(lines: seq<seq<Frag>>, items: seq<string>)
    ensures ReplaceLines(lines, items).1 == Min(Runs(lines), |items|)
    decreases |lines|
  {
    if lines != [] {
      var n := |lines|;
      ReplaceLinesUses(lines[..n - 1], items);
      ReplaceLineUses(Pieces(lines[n - 1]), items, ReplaceLines(lines[..n - 1], items).1);
    }
  }

  /**
   * The shape of `_replace_bold_runs_in_lines`: one new line per line of
   * the note, each from its pieces with the items its runs are due, then
   * one bold line for every item no run took.
   */
  lemma ReplaceAllShape(mainLines: seq<seq<Frag>>, newItems: seq<string>)
    ensures |ReplaceAll(mainLines, newItems)|
            == |mainLines| + |NormItems(newItems)| - Min(Runs(mainLines), |NormItems(newItems)|)
    ensures forall l :: 0 <= l < |mainLines| ==>
              ReplaceAll(mainLines, newItems)[l]
              == ReplaceLine(Pieces(mainLines[l]), NormItems(newItems), Min(Runs(mainLines[..l]), |NormItems(newItems)|)).0
    ensures ReplaceAll(mainLines, newItems)[|mainLines|..]
            == Surplus(NormItems(newItems), Min(Runs(mainLines), |NormItems(newItems)|))
  {
    var items := NormItems(newItems);
    ReplaceLinesUses(mainLines, items);
    var out := ReplaceLines(mainLines, items).0;
    assert ReplaceAll(mainLines, newItems) == out + Surplus(items, Min(Runs(mainLines), |items|));
    forall l | 0 <= l < |mainLines|
      ensures out[l] == ReplaceLine(Pieces(mainLines[l]), items, Min(Runs(mainLines[..l]), |items|)).0
    {
      ReplaceLinesAt(mainLines, items, l);
    }
  }

  /** The inner loop of `_replace_bold_runs_in_lines` over one line. */
  method ReplaceRunsInLine(line: seq<Frag>, items: seq<string>, k0: nat) returns (newLine: seq<Frag>, k: nat)
    ensures (newLine, k) == ReplaceLine(Pieces(line), items, k0)
  {
    newLine := [];
    k := k0;
    var i := 0;
    assert line[0..] == line;
    assert [] + ReplaceLine(Pieces(line), items, k0).0 == ReplaceLine(Pieces(line), items, k0).0;
    while i < |line|
      invariant i <= |line|
      invariant Continued(newLine, ReplaceLine(Pieces(line[i..]), items, k)) == ReplaceLine(Pieces(line), items, k0)
      decreases |line| - i
    {
      var (t, b) := line[i];
      if !b {
        PlainStep(line, i, items, k, newLine);
        newLine := newLine + [(t, false)];
        i := i + 1;
      } else {
        var j, parts := ConsumeRun(line, i);
        RunStep(line, i, j, items, k, newLine);
        if k < |items| {
          newLine := newLine + [(items[k], true)];
          k := k + 1;
        } else {
          newLine := newLine + [(Join(parts, ""), false)];
        }
        i := j;
      }
    }
    assert line[i..] == [];
    assert newLine + [] == newLine;
  }

  /** The loop that consumes a whole bold run from `i` on. */
  method ConsumeRun(line: seq<Frag>, i: nat) returns (j: nat, parts: seq<string>)
    requires i < |line| && line[i].1
    ensures i < j <= |line| && (forall x :: i <= x < j ==> line[x].1) && (j < |line| ==> !line[j].1)
    ensures parts == Texts(line[i..j])
  {
    j := i;
    parts := [];
    while j < |line| && line[j].1
      invariant i <= j <= |line|
      invariant forall x :: i <= x < j ==> line[x].1
      invariant parts == Texts(line[i..j])
    {
      assert line[i..j + 1] == line[i..j] + [line[j]];
      TextsAppend(line[i..j], line[j]);
      parts := parts + [line[j].0];
      j := j + 1;
    }
  }

  /** The fragments done so far, followed by what the rest of the line gives. */
  function Continued(done: seq<Frag>, rest: (seq<Frag>, nat)): (seq<Frag>, nat) {
    (done + rest.0, rest.1)
  }

  lemma PlainStep(line: seq<Frag>, i: nat, items: seq<string>, k: nat, done: seq<Frag>)
    requires i < |line| && !line[i].1
    ensures Continued(done, ReplaceLine(Pieces(line[i..]), items, k))
         == Continued(done + [(line[i].0, false)], ReplaceLine(Pieces(line[i + 1..]), items, k))
  {
    assert line[i..][1..] == line[i + 1..];
    SeqAssoc(done, [(line[i].0, false)], ReplaceLine(Pieces(line[i + 1..]), items, k).0);
  }

  lemma RunStep(line: seq<Frag>, i: nat, j: nat, items: seq<string>, k: nat, done: seq<Frag>)
    requires i < j <= |line| && (forall x :: i <= x < j ==> line[x].1) && (j < |line| ==> !line[j].1)
    ensures var (f, k1) := ReplacePiece(Run(Texts(line[i..j])), items, k);
            Continued(done, ReplaceLine(Pieces(line[i..]), items, k))
            == Continued(done + [f], ReplaceLine(Pieces(line[j..]), items, k1))
  {
    RunAt(line, i, j);
    var (f, k1) := ReplacePiece(Run(Texts(line[i..j])), items, k);
    SeqAssoc(done, [f], ReplaceLine(Pieces(line[j..]), items, k1).0);
  }

  /** The pieces from a bold fragment at `i` on: the run up to `j`, then the pieces after it. */
  lemma RunAt(line: seq<Frag>, i: nat, j: nat)
    requires i < j <= |line| && (forall x :: i <= x < j ==> line[x].1) && (j < |line| ==> !line[j].1)
    ensures Pieces(line[i..]) == [Run(Texts(line[i..j]))] + Pieces(line[j..])
  {
    var rest := line[i..];
    BoldPrefixIs(rest, j - i);
    assert rest[..j - i] == line[i..j];
    assert rest[j - i..] == line[j..];
  }

  /** `_replace_bold_runs_in_lines`, its loops written out. */
  method ReplaceBoldRuns(mainLines: seq<seq<Frag>>, newItems: seq<string>) returns (out: seq<seq<Frag>>)
    ensures out == ReplaceAll(mainLines, newItems)
  {
    var items := NormItems(newItems);
    out := [];
    var k: nat := 0;
    for l := 0 to |mainLines|
      invariant (out, k) == ReplaceLines(mainLines[..l], items)
    {
      assert mainLines[..l + 1][..l] == mainLines[..l];
      var newLine;
      newLine, k := ReplaceRunsInLine(mainLines[l], items, k);
      out := out + [newLine];
    }
    assert mainLines[..|mainLines|] == mainLines;
    while k < |items|
      invariant out + Surplus(items, k) == ReplaceAll(mainLines, newItems)
      decreases |items| - k
    {
      SeqAssoc(out, [[(items[k], true)]], Surplus(items, k + 1));
      out := out + [[(items[k], true)]];
      k := k + 1;
    }
    assert out + [] == out;
  }
}
