/**
 * `PlasmaNotesSync` (lucy_notes_manager/modules/plasma_todo_sync.py): keeps
 * a Markdown TODO file and one Plasma sticky note (a Qt rich-text HTML
 * file) in step. Its own writes are swallowed through a per-path counter of
 * events to ignore; the last synchronised text is kept as normalised text
 * and its hash. The HTML writer is the one of `PlasmaHtml`; the reader here
 * is the module's own `_PlasmaHTMLParser`, which, unlike the one in
 * plasma_sync.py, keeps every piece of text inside the body.
 */
module PlasmaTodoSync {
  import opened Wrappers
  import opened Text
  import opened Values
  import opened Lines
  import opened BlankLines
  import opened Html
  import opened Paths
  import opened Sorting
  import PlasmaHtml
  import PlasmaSync

  const DefaultPlasmaNotesDir := "/home/user/.local/share/plasma_notes"
  const DefaultTodoFile := "/home/user/notes/todo.md"
  const DefaultPlasmaNoteId := "bfe86b19-c35c-489b-bed7-3d561471f8"

  /** `_NOTIFY_MIN_INTERVAL_SEC`, the cool-down of `_notify_throttled` (see `Throttle`). */
  const NotifyMinInterval: real := 10.0

  // ------------------------------------------------------------ ignore counters

  /** `_IGNORE_NEXT_EVENT.get(path, 0)`. */
  function Count(m: map<string, int>, path: string): int {
    if path in m then m[path] else 0
  }

  /** Every stored count is positive. */
  predicate AllPositive(m: map<string, int>) {
    forall p :: p in m ==> m[p] > 0
  }

  /** `_mark_ignore`: one more event on `path` to swallow. */
  function Marked(m: map<string, int>, path: string): (r: map<string, int>)
    ensures Count(r, path) == Count(m, path) + 1
    ensures forall q :: q != path ==> Count(r, q) == Count(m, q)
    ensures AllPositive(m) ==> AllPositive(r)
  {
    m[path := Count(m, path) + 1]
  }

  /**
   * `_should_ignore`: whether the event on `path` is swallowed, and the
   * counters afterwards. A swallowed event uses up one count, and the key
   * goes when its last count is used.
   */
  function Checked(m: map<string, int>, path: string): (r: (bool, map<string, int>))
    ensures r.0 <==> Count(m, path) != 0
    ensures !r.0 ==> r.1 == m
    ensures r.0 ==> Count(r.1, path) == Count(m, path) - 1
    ensures r.0 && Count(m, path) == 1 ==> path !in r.1
    ensures forall q :: q != path ==> Count(r.1, q) == Count(m, q)
    ensures AllPositive(m) ==> AllPositive(r.1)
  {
    var count := Count(m, path);
    if count == 0 then (false, m)
    else if count == 1 then (true, m - {path})
    else (true, m[path := count - 1])
  }

  /** A mark is used up by exactly the next event on its path, which leaves the counters as they were. */
  lemma MarkThenCheck(m: map<string, int>, path: string)
    requires AllPositive(m)
    ensures Checked(Marked(m, path), path) == (true, m)
  {
    var r := Checked(Marked(m, path), path).1;
    if path in m {
      assert r == m[path := m[path]];
    } else {
      assert r == m[path := 1] - {path};
    }
    assert r == m;
  }

  // ------------------------------------------------------------ files

  /** The files the module reads and writes: path to content. */
  type Files = map<string, string>

  /** `_read_file`: the content, "" for a missing file. */
  function ReadFile(files: Files, path: string): string {
    if path in files then files[path] else ""
  }

  /** How a write that is attempted ends: `os.makedirs` fails before the mark, `open` after it. */
  datatype WriteOutcome = WriteSucceeds | MakedirsFails | OpenFails

  /** The ignore counters and the files, the state `_write_if_changed` works on. */
  datatype Disk = Disk(ignoreNext: map<string, int>, files: Files)

  /**
   * `_write_if_changed`: content equal to what the file holds is neither
   * written nor marked; otherwise the path is marked to be ignored before
   * the write, and only a completed write reports `True`.
   */
  function WriteResult(d: Disk, path: string, content: string, outcome: WriteOutcome): (r: (Disk, bool))
    ensures ReadFile(d.files, path) == content ==> r == (d, false)
    ensures r.1 <==> ReadFile(d.files, path) != content && outcome == WriteSucceeds
    ensures r.1 ==> r.0 == Disk(Marked(d.ignoreNext, path), d.files[path := content])
    ensures ReadFile(d.files, path) != content && outcome == OpenFails ==> r.0 == Disk(Marked(d.ignoreNext, path), d.files)
    ensures outcome == MakedirsFails ==> r.0 == d
  {
    if ReadFile(d.files, path) == content then (d, false)
    else
      match outcome
      case MakedirsFails => (d, false)
      case OpenFails => (d.(ignoreNext := Marked(d.ignoreNext, path)), false)
      case WriteSucceeds => (Disk(Marked(d.ignoreNext, path), d.files[path := content]), true)
  }

  /** After a completed write the file holds the content, and the event the write raises is swallowed. */
  lemma OwnWriteIgnored(d: Disk, path: string, content: string)
    requires AllPositive(d.ignoreNext)
    requires WriteResult(d, path, content, WriteSucceeds).1
    ensures var after := WriteResult(d, path, content, WriteSucceeds).0;
      ReadFile(after.files, path) == content && Checked(after.ignoreNext, path) == (true, d.ignoreNext)
  {
    MarkThenCheck(d.ignoreNext, path);
  }

  /** Writing the same content again writes nothing and marks nothing, however the write would end. */
  lemma WriteTwice(d: Disk, path: string, content: string, outcome: WriteOutcome, again: WriteOutcome)
    requires WriteResult(d, path, content, outcome).1
    ensures var after := WriteResult(d, path, content, outcome).0;
      WriteResult(after, path, content, again) == (after, false)
  {
  }

  // ------------------------------------------------------------ the reader as written

  /** The fields of this module's `_PlasmaHTMLParser`. */
  datatype Reader = Reader(inBody: bool, current: Option<string>, lines: seq<string>)

  const Unread := Reader(false, None, [])

  /** The lines with the open text added, when there is one. */
  function Flushed(s: Reader): (r: seq<string>)
    ensures s.current.Some? ==> r == s.lines + [s.current.value]
    ensures s.current.None? ==> r == s.lines
  {
    if s.current.Some? then s.lines + [s.current.value] else s.lines
  }

  /** `handle_starttag`. */
  function OnStart(s: Reader, tag: string): Reader {
    var t := Lower(tag);
    if t == "body" then s.(inBody := true)
    else if !s.inBody then s
    else if t == "p" || t == "li" then Reader(true, Some(""), Flushed(s))
    else if t == "br" then s.(current := Some(s.current.GetOr("") + "\n"))
    else s
  }

  /** `handle_endtag`. */
  function OnEnd(s: Reader, tag: string): Reader {
    var t := Lower(tag);
    if t == "body" then Reader(false, None, Flushed(s))
    else if !s.inBody then s
    else if t == "p" || t == "li" then Reader(true, None, s.lines + [s.current.GetOr("")])
    else s
  }

  /** `handle_data`: inside the body every piece of text is kept, whitespace between blocks included. */
  function OnData(s: Reader, data: string): Reader {
    if !s.inBody then s
    else s.(current := Some(s.current.GetOr("") + data))
  }

  function Step(s: Reader, e: HtmlEvent): Reader {
    match e
    case StartTag(tag, _) => OnStart(s, tag)
    case EndTag(tag) => OnEnd(s, tag)
    case Data(text) => OnData(s, text)
  }

  function Run(s: Reader, events: seq<HtmlEvent>): Reader
    decreases |events|
  {
    if events == [] then s else Run(Step(s, events[0]), events[1..])
  }

  /** `get_text`. */
  function TextOf(s: Reader): string {
    Join(Flushed(s), "\n")
  }

  /** The reader's text of a document, before normalisation. */
  function RawText(events: seq<HtmlEvent>): string {
    TextOf(Run(Unread, events))
  }

  /** `_html_to_text` of this module. */
  function HtmlText(events: seq<HtmlEvent>): string {
    NormalizedText(RawText(events))
  }

  /** `_PlasmaHTMLParser` of this module, its fields updated in place. */
  class TodoParser {
    var inBody: bool
    var current: Option<string>
    var lines: seq<string>

    function State(): Reader
      reads this
    {
      Reader(inBody, current, lines)
    }

    constructor()
      ensures State() == Unread
    {
      inBody := false;
      current := None;
      lines := [];
    }

    method HandleStartTag(tag: string)
      modifies this
      ensures State() == OnStart(old(State()), tag)
    {
      var t := Lower(tag);
      if t == "body" {
        inBody := true;
        return;
      }
      if !inBody {
        return;
      }
      if t == "p" || t == "li" {
        if current.Some? {
          lines := lines + [current.value];
        }
        current := Some("");
      } else if t == "br" {
        if current.None? {
          current := Some("");
        }
        current := Some(current.value + "\n");
      }
    }

    method HandleEndTag(tag: string)
      modifies this
      ensures State() == OnEnd(old(State()), tag)
    {
      var t := Lower(tag);
      if t == "body" {
        if current.Some? {
          lines := lines + [current.value];
          current := None;
        }
        inBody := false;
        return;
      }
      if !inBody {
        return;
      }
      if t == "p" || t == "li" {
        if current.None? {
          current := Some("");
        }
        lines := lines + [current.value];
        current := None;
      }
    }

    method HandleData(data: string)
      modifies this
      ensures State() == OnData(old(State()), data)
    {
      if !inBody {
        return;
      }
      if current.None? {
        current := Some("");
      }
      current := Some(current.value + data);
    }

    method Handle(e: HtmlEvent)
      modifies this
      ensures State() == Step(old(State()), e)
    {
      match e
      case StartTag(tag, _) => HandleStartTag(tag);
      case EndTag(tag) => HandleEndTag(tag);
      case Data(text) => HandleData(text);
    }

    method Feed(events: seq<HtmlEvent>)
      modifies this
      ensures State() == Run(old(State()), events)
    {
      var i := 0;
      while i < |events|
        invariant i <= |events| && Run(old(State()), events) == Run(State(), events[i..])
      {
        assert events[i..][1..] == events[i + 1..];
        Handle(events[i]);
        i := i + 1;
      }
    }

    method GetText() returns (text: string)
      modifies this
      ensures text == TextOf(old(State()))
      ensures State() == Reader(old(inBody), None, Flushed(old(State())))
    {
      if current.Some? {
        lines := lines + [current.value];
        current := None;
      }
      text := Join(lines, "\n");
    }
  }

  /** `_html_to_text` of this module: a fresh parser fed the document, its text normalised. */
  method HtmlToText(events: seq<HtmlEvent>) returns (text: string)
    ensures text == HtmlText(events)
  {
    var parser := new TodoParser();
    parser.Feed(events);
    var raw := parser.GetText();
    text := NormalizeText(raw);
  }

  // ------------------------------------------------------------ reading a written document back

  lemma {:induction false} RunAppend(s: Reader, a: seq<HtmlEvent>, b: seq<HtmlEvent>)
    ensures Run(s, a + b) == Run(Run(s, a), b)
    decreases |a|
  {
    if a == [] {
      assert a + b == b;
    } else {
      assert (a + b)[1..] == a[1..] + b;
      RunAppend(Step(s, a[0]), a[1..], b);
    }
  }

  lemma RunCons(s: Reader, e: HtmlEvent, rest: seq<HtmlEvent>)
    ensures Run(s, [e] + rest) == Run(Step(s, e), rest)
  {
    assert ([e] + rest)[1..] == rest;
  }

  lemma {:induction false} RunIdle(s: Reader, events: seq<HtmlEvent>)
    requires forall i :: 0 <= i < |events| ==> Step(s, events[i]) == s
    ensures Run(s, events) == s
    decreases |events|
  {
    if events != [] {
      assert forall i :: 0 <= i < |events| - 1 ==> events[1..][i] == events[i + 1];
      RunIdle(s, events[1..]);
    }
  }

  /** Inside the body with the lines `ls` read and the text `cur` open. */
  function Reading(ls: seq<string>, cur: string): Reader {
    Reader(true, Some(cur), ls)
  }

  /** What the reader keeps of each line's paragraph: the line break before it, then the line. */
  function Spaced(ls: seq<string>): (r: seq<string>)
    ensures |r| == 2 * |ls|
  {
    if ls == [] then [] else ["\n", PlasmaHtml.BlockText(ls[0])] + Spaced(ls[1..])
  }

  /** The header leaves the reader in the body with the line break after `<body>` open as text. */
  lemma HeaderRead()
    ensures Run(Unread, PlasmaHtml.Header()) == Reading([], "\n")
  {
    var pre := PlasmaHtml.Prelude();
    var rest := [StartTag("body", [("style", Some(PlasmaHtml.BodyStyle))]), Data("\n")];
    HeaderSplit();
    RunAppend(Unread, pre, rest);
    PreludeIdle();
    BodyOpens();
  }

  lemma HeaderSplit()
    ensures PlasmaHtml.Header()
      == PlasmaHtml.Prelude() + [StartTag("body", [("style", Some(PlasmaHtml.BodyStyle))]), Data("\n")]
  {
  }

  /** `<body>` and the line break after it: the line break is open text. */
  lemma BodyOpens()
    ensures Run(Unread, [StartTag("body", [("style", Some(PlasmaHtml.BodyStyle))]), Data("\n")]) == Reading([], "\n")
  {
    LowerBlockTags();
    var body := StartTag("body", [("style", Some(PlasmaHtml.BodyStyle))]);
    RunCons(Unread, body, [Data("\n")]);
    assert [body] + [Data("\n")] == [body, Data("\n")];
    RunCons(Step(Unread, body), Data("\n"), []);
    assert "" + "\n" == "\n";
  }

  /** Before `<body>` nothing is read. */
  lemma PreludeIdle()
    ensures Run(Unread, PlasmaHtml.Prelude()) == Unread
  {
    LowerBlockTags();
    LowerHeadTags();
    var pre := PlasmaHtml.Prelude();
    assert forall i :: 0 <= i < |pre| ==> Step(Unread, pre[i]) == Unread;
    RunIdle(Unread, pre);
  }

  lemma Run4(s: Reader, e1: HtmlEvent, e2: HtmlEvent, e3: HtmlEvent, e4: HtmlEvent)
    ensures Run(s, [e1, e2, e3, e4]) == Step(Step(Step(Step(s, e1), e2), e3), e4)
  {
    var s1 := Step(s, e1);
    var s2 := Step(s1, e2);
    var s3 := Step(s2, e3);
    RunCons(s, e1, [e2, e3, e4]);
    RunCons(s1, e2, [e3, e4]);
    RunCons(s2, e3, [e4]);
    RunCons(s3, e4, []);
    assert [e1] + [e2, e3, e4] == [e1, e2, e3, e4];
    assert [e2] + [e3, e4] == [e2, e3, e4];
    assert [e3] + [e4] == [e3, e4];
    assert [e4] + [] == [e4];
  }

  lemma Run5(s: Reader, e1: HtmlEvent, e2: HtmlEvent, e3: HtmlEvent, e4: HtmlEvent, e5: HtmlEvent)
    ensures Run(s, [e1, e2, e3, e4, e5]) == Step(Step(Step(Step(Step(s, e1), e2), e3), e4), e5)
  {
    RunCons(s, e1, [e2, e3, e4, e5]);
    assert [e1] + [e2, e3, e4, e5] == [e1, e2, e3, e4, e5];
    Run4(Step(s, e1), e2, e3, e4, e5);
  }

  /** A paragraph holding text: the open line break becomes a line, then the text does. */
  lemma TextParagraphRead(ls: seq<string>, line: string, attrs: seq<Attr>)
    ensures Run(Reading(ls, "\n"), [StartTag("p", attrs), Data(line), EndTag("p"), Data("\n")])
      == Reading(ls + ["\n", line], "\n")
  {
    LowerBlockTags();
    Run4(Reading(ls, "\n"), StartTag("p", attrs), Data(line), EndTag("p"), Data("\n"));
    assert "" + line == line && "" + "\n" == "\n";
    assert ls + ["\n"] + [line] == ls + ["\n", line];
  }

  /** An empty paragraph: the open line break becomes a line, then the `<br />`'s "\n" does. */
  lemma EmptyParagraphRead(ls: seq<string>, attrs: seq<Attr>)
    ensures Run(Reading(ls, "\n"), [StartTag("p", attrs), StartTag("br", []), EndTag("br"), EndTag("p"), Data("\n")])
      == Reading(ls + ["\n", "\n"], "\n")
  {
    LowerBlockTags();
    Run5(Reading(ls, "\n"), StartTag("p", attrs), StartTag("br", []), EndTag("br"), EndTag("p"), Data("\n"));
    assert "" + "\n" == "\n";
    assert ls + ["\n"] + ["\n"] == ls + ["\n", "\n"];
  }

  lemma ParagraphRead(ls: seq<string>, line: string)
    ensures Run(Reading(ls, "\n"), PlasmaHtml.Paragraph(line)) == Reading(ls + ["\n", PlasmaHtml.BlockText(line)], "\n")
  {
    if line != "" {
      TextParagraphRead(ls, line, [("style", Some(PlasmaHtml.BaseStyle))]);
    } else {
      EmptyParagraphRead(ls, [("style", Some("-qt-paragraph-type:empty;" + PlasmaHtml.BaseStyle))]);
    }
  }

  lemma {:induction false} ParagraphsRead(ls: seq<string>, lines: seq<string>)
    ensures Run(Reading(ls, "\n"), PlasmaHtml.Paragraphs(lines)) == Reading(ls + Spaced(lines), "\n")
    decreases |lines|
  {
    if lines == [] {
      assert ls + [] == ls;
    } else {
      var kept := ["\n", PlasmaHtml.BlockText(lines[0])];
      ParagraphsRead(ls + kept, lines[1..]);
      ParagraphsCons(ls, lines[0], lines[1..], Spaced(lines[1..]));
    }
  }

  /** One paragraph read, then the rest as the induction hypothesis says. */
  lemma ParagraphsCons(ls: seq<string>, x: string, rest: seq<string>, sp: seq<string>)
    requires Run(Reading(ls + ["\n", PlasmaHtml.BlockText(x)], "\n"), PlasmaHtml.Paragraphs(rest))
      == Reading(ls + ["\n", PlasmaHtml.BlockText(x)] + sp, "\n")
    ensures Run(Reading(ls, "\n"), PlasmaHtml.Paragraph(x) + PlasmaHtml.Paragraphs(rest))
      == Reading(ls + (["\n", PlasmaHtml.BlockText(x)] + sp), "\n")
  {
    RunAppend(Reading(ls, "\n"), PlasmaHtml.Paragraph(x), PlasmaHtml.Paragraphs(rest));
    ParagraphRead(ls, x);
    assert ls + ["\n", PlasmaHtml.BlockText(x)] + sp == ls + (["\n", PlasmaHtml.BlockText(x)] + sp);
  }

  /** `</body>` turns the open line break into a last line; nothing after it is read. */
  lemma FooterRead(ls: seq<string>)
    ensures Run(Reading(ls, "\n"), PlasmaHtml.Footer()) == Reader(false, None, ls + ["\n"])
  {
    LowerBlockTags();
    LowerHeadTags();
    var closed := Reader(false, None, ls + ["\n"]);
    RunCons(Reading(ls, "\n"), EndTag("body"), [EndTag("html"), Data("\n")]);
    assert [EndTag("body")] + [EndTag("html"), Data("\n")] == PlasmaHtml.Footer();
    RunCons(closed, EndTag("html"), [Data("\n")]);
    assert [EndTag("html")] + [Data("\n")] == [EndTag("html"), Data("\n")];
    RunCons(closed, Data("\n"), []);
  }

  /**
   * The text this module's reader takes from the document written for a
   * text: every line break between paragraphs comes back as a line of its
   * own, one before each line and one after the last.
   */
  lemma DocumentRawText(text: string)
    ensures RawText(PlasmaHtml.PlasmaDocument(text)) == Join(Spaced(LinesOf(NormalizedText(text))) + ["\n"], "\n")
  {
    var ls := LinesOf(NormalizedText(text));
    var h, p, f := PlasmaHtml.Header(), PlasmaHtml.Paragraphs(ls), PlasmaHtml.Footer();
    HeaderRead();
    ParagraphsRead([], ls);
    assert [] + Spaced(ls) == Spaced(ls);
    FooterRead(Spaced(ls));
    RunAppend(Unread, h, p);
    RunAppend(Unread, h + p, f);
  }

  /** The lines `splitlines` finds in the reader's text for two lines `x` and `y`. */
  function Spread(x: string, y: string): seq<string> {
    [""] + ([""] + ([x] + ([""] + ([""] + ([y] + [""])))))
  }

  /** Two blank lines in front of a non-blank one are skipped. */
  lemma SkipTwoBlanks(r: seq<string>)
    requires r != [] && !Blank(r[0])
    ensures SkipBlanks([""] + ([""] + r)) == r
  {
    assert Blank("");
    assert ([""] + ([""] + r))[1..] == [""] + r;
    assert ([""] + r)[1..] == r;
  }

  /** What `_normalize_text` makes of the spread: the two lines with one empty line between them. */
  lemma NormalizeSpread(x: string, y: string)
    requires !Blank(x) && !Blank(y) && !Tight(x, y)
    ensures Normalize(Spread(x, y)) == [x] + ([""] + [y])
  {
    var b := [""] + ([""] + ([y] + [""]));
    var a := [x] + b;
    SkipTwoBlanks(a);
    TailOfLine(a, "");
    assert a[1..] == b;
    GapBeforeLast(x, y);
  }

  /** A blank run, then `y` and a blank line at the end: the gap and `y`. */
  lemma GapBeforeLast(x: string, y: string)
    requires !Blank(y) && !Tight(x, y)
    ensures Tail([""] + ([""] + ([y] + [""])), x) == [""] + [y]
  {
    var d := [""];
    var c := [y] + d;
    var b := [""] + ([""] + c);
    SkipTwoBlanks(c);
    TailOfRun(b, x);
    assert c[1..] == d;
    assert Blank("");
    assert SkipBlanks(d) == [];
    assert Tail(d, y) == [];
  }

  /**
   * The round trip that fails: two non-blank lines that `_normalize_text`
   * keeps apart by one line break come back from the document written for
   * them with an empty line between them.
   */
  lemma BlankLineInserted(x: string, y: string)
    requires !Blank(x) && !Blank(y) && !Tight(x, y) && Breakless(x) && Breakless(y)
    ensures NormalizedText(x + "\n" + y) == x + "\n" + y
    ensures HtmlText(PlasmaHtml.PlasmaDocument(x + "\n" + y)) == x + "\n\n" + y
  {
    var doc := PlasmaHtml.PlasmaDocument(x + "\n" + y);
    var raw := Join(["\n", x, "\n", y, "\n"], "\n");
    TwoLinesSettled(x, y);
    AsWrittenRaw(x, y);
    assert HtmlText(doc) == NormalizedText(raw);
    RawSpread(x, y);
    assert UnifyBreaks(raw) == raw;
    assert NormalizedText(raw) == Join(Normalize(Spread(x, y)), "\n");
    NormalizeSpread(x, y);
    JoinSpaced(x, y);
  }

  lemma JoinSpaced(x: string, y: string)
    ensures Join([x] + ([""] + [y]), "\n") == x + "\n\n" + y
  {
    assert [x] + ([""] + [y]) == [x, "", y];
    JoinThree(x, "", y);
    assert x + "\n" + "" + "\n" + y == x + "\n\n" + y;
  }

  /** The reader's raw text for the document of two lines one line break apart. */
  lemma AsWrittenRaw(x: string, y: string)
    requires !Blank(x) && !Blank(y) && Breakless(x) && Breakless(y)
    ensures RawText(PlasmaHtml.PlasmaDocument(x + "\n" + y)) == Join(["\n", x, "\n", y, "\n"], "\n")
  {
    TwoLinesSettled(x, y);
    DocumentRawText(x + "\n" + y);
    assert x != "" && y != "";
    SpacedTwo(x, y);
  }

  /** Two non-blank lines one line break apart are normalised text already. */
  lemma TwoLinesSettled(x: string, y: string)
    requires !Blank(x) && !Blank(y) && Breakless(x) && Breakless(y)
    ensures LinesOf(NormalizedText(x + "\n" + y)) == [x, y]
    ensures NormalizedText(x + "\n" + y) == x + "\n" + y
  {
    var text := x + "\n" + y;
    assert x != "" && y != "";
    FirstLine(x, y);
    LastLine(y);
    BreaklessNoCr(x);
    BreaklessNoCr(y);
    var two := [x, y];
    assert LinesOf(UnifyBreaks(text)) == two;
    assert Settled(two, "") by {
      assert two[1..] == [y];
      assert [y][1..] == [];
    }
    assert SkipBlanks(two) == two;
    SettledTail(two, "");
    JoinTwo(x, y);
  }

  lemma JoinTwo(x: string, y: string)
    ensures Join([x, y], "\n") == x + "\n" + y
  {
    assert [x, y][1..] == [y];
  }

  lemma JoinThree(x: string, m: string, y: string)
    ensures Join([x, m, y], "\n") == x + "\n" + m + "\n" + y
  {
    assert [x, m, y][1..] == [m, y];
    JoinTwo(m, y);
  }

  lemma SpacedTwo(x: string, y: string)
    requires x != "" && y != ""
    ensures Spaced([x, y]) + ["\n"] == ["\n", x, "\n", y, "\n"]
  {
    assert [x, y][1..] == [y];
    assert [y][1..] == [];
  }

  /** A leading line break is an empty first line. */
  lemma LinesOfBreak(s: string)
    ensures LinesOf("\n" + s) == [""] + LinesOf(s)
  {
    assert "" + "\n" + s == "\n" + s;
    FirstLine("", s);
  }

  /** `Join` with more than one part: the first part, the separator, the join of the rest. */
  lemma JoinCons(a: string, rest: seq<string>)
    requires rest != []
    ensures Join([a] + rest, "\n") == a + "\n" + Join(rest, "\n")
  {
    assert ([a] + rest)[1..] == rest;
  }

  /** The reader's text for two lines, as the breaks `splitlines` sees. */
  lemma RawSpread(x: string, y: string)
    requires Breakless(x) && Breakless(y)
    ensures LinesOf(Join(["\n", x, "\n", y, "\n"], "\n")) == Spread(x, y)
    ensures '\r' !in Join(["\n", x, "\n", y, "\n"], "\n")
  {
    var t := RawJoined(x, y);
    RawLines(x, y, t);
    BreaklessNoCr(x);
    BreaklessNoCr(y);
  }

  /** The joined parts, nested from the right. */
  lemma RawJoined(x: string, y: string) returns (t: string)
    ensures t == "\n" + ("\n" + (x + "\n" + ("\n" + ("\n" + (y + "\n" + ("\n" + ""))))))
    ensures Join(["\n", x, "\n", y, "\n"], "\n") == t
  {
    var j4 := y + "\n" + "\n";
    JoinCons(y, ["\n"]);
    assert [y] + ["\n"] == [y, "\n"];
    var j3 := "\n" + "\n" + j4;
    JoinCons("\n", [y, "\n"]);
    assert ["\n"] + [y, "\n"] == ["\n", y, "\n"];
    var j2 := x + "\n" + j3;
    JoinCons(x, ["\n", y, "\n"]);
    assert [x] + ["\n", y, "\n"] == [x, "\n", y, "\n"];
    JoinCons("\n", [x, "\n", y, "\n"]);
    assert ["\n"] + [x, "\n", y, "\n"] == ["\n", x, "\n", y, "\n"];
    t := "\n" + ("\n" + (x + "\n" + ("\n" + ("\n" + (y + "\n" + ("\n" + ""))))));
  }

  /** `splitlines` on the nested text, one line at a time. */
  lemma RawLines(x: string, y: string, t: string)
    requires Breakless(x) && Breakless(y)
    requires t == "\n" + ("\n" + (x + "\n" + ("\n" + ("\n" + (y + "\n" + ("\n" + ""))))))
    ensures LinesOf(t) == Spread(x, y)
  {
    var t6 := "\n" + "";
    LinesOfBreak("");
    var t5 := y + "\n" + t6;
    FirstLine(y, t6);
    var t4 := "\n" + t5;
    LinesOfBreak(t5);
    var t3 := "\n" + t4;
    LinesOfBreak(t4);
    var t2 := x + "\n" + t3;
    FirstLine(x, t3);
    var t1 := "\n" + t2;
    LinesOfBreak(t2);
    LinesOfBreak(t1);
  }

  /** '\r' is a line break, so a breakless line holds none. */
  lemma BreaklessNoCr(s: string)
    requires Breakless(s)
    ensures '\r' !in s
  {
    forall i | 0 <= i < |s|
      ensures s[i] != '\r'
    {
      assert !IsBreak(s[i]);
    }
  }

  /** The input that shows it: "a" and "b" on two lines come back from the note as "a", an empty line, "b". */
  lemma AsWrittenRoundTripFails()
    ensures NormalizedText("a\nb") == "a\nb"
    ensures HtmlText(PlasmaHtml.PlasmaDocument("a\nb")) == "a\n\nb"
    ensures PlasmaHtml.HtmlText(PlasmaHtml.PlasmaDocument("a\nb")) == "a\nb"
  {
    LettersApart();
    SpelledOut();
    BlankLineInserted("a", "b");
    PlasmaHtml.RoundTrip("a\nb");
  }

  /** "a" and "b" are non-blank, breakless, and not list items: `_normalize_text` keeps one break between them. */
  lemma LettersApart()
    ensures !Blank("a") && !Blank("b") && !Tight("a", "b") && Breakless("a") && Breakless("b")
  {
    Letter("a");
    Letter("b");
    NotItem("a", "b");
  }

  /** A line that is not a list item is never tight after anything. */
  lemma NotItem(prev: string, next: string)
    requires LStrip(next) == next && |next| < 2
    ensures !Tight(prev, next)
  {
  }

  /** A one-letter line. */
  lemma Letter(s: string)
    requires |s| == 1 && 'a' <= s[0] <= 'z'
    ensures !Blank(s) && Breakless(s) && LStrip(s) == s
  {
    assert !IsSpace(s[0]) && !IsBreak(s[0]);
  }

  lemma SpelledOut()
    ensures "a" + "\n" + "b" == "a\nb" && "a" + "\n\n" + "b" == "a\n\nb"
  {
  }

  // ------------------------------------------------------------ configuration

  /** The settings `_cfg` returns: the Plasma notes directory, the TODO file and the note's id. */
  datatype TodoConfig = TodoConfig(plasmaDir: string, todoFile: string, noteId: string)

  /** `v and isinstance(v[0], str) and v[0]`: the flag's first value, when it is a non-empty string. */
  function Override(known: map<string, Value>, key: string): (r: Option<string>)
    ensures r.Some? ==> r.value != "" && Item0(Get(known, key)) == Some(VStr(r.value))
    ensures r.None? ==> Item0(Get(known, key)).None? || !Item0(Get(known, key)).value.VStr?
                        || Item0(Get(known, key)).value.s == ""
  {
    match Item0(Get(known, key))
    case Some(VStr(s)) => if s != "" then Some(s) else None
    case _ => None
  }

  /** `_cfg`: each default is kept unless its flag's first value is a non-empty string. */
  function Cfg(known: map<string, Value>): (r: TodoConfig)
    ensures r.plasmaDir != "" && r.todoFile != "" && r.noteId != ""
    ensures r.plasmaDir == Override(known, "plasma_notes_dir").GetOr(DefaultPlasmaNotesDir)
    ensures r.todoFile == Override(known, "todo_file").GetOr(DefaultTodoFile)
    ensures r.noteId == Override(known, "plasma_note_id").GetOr(DefaultPlasmaNoteId)
  {
    TodoConfig(Override(known, "plasma_notes_dir").GetOr(DefaultPlasmaNotesDir),
               Override(known, "todo_file").GetOr(DefaultTodoFile),
               Override(known, "plasma_note_id").GetOr(DefaultPlasmaNoteId))
  }

  /** Without any of its flags, `_cfg` gives the defaults. */
  lemma CfgDefaults(known: map<string, Value>)
    requires "plasma_notes_dir" !in known && "todo_file" !in known && "plasma_note_id" !in known
    ensures Cfg(known) == TodoConfig(DefaultPlasmaNotesDir, DefaultTodoFile, DefaultPlasmaNoteId)
  {
  }

  /** A flag given as a list whose first value is a non-empty string takes that value; an empty one keeps the default. */
  lemma CfgFirstValue(known: map<string, Value>, s: string, rest: seq<Value>)
    requires Get(known, "todo_file") == VList([VStr(s)] + rest)
    ensures Cfg(known).todoFile == (if s != "" then s else DefaultTodoFile)
  {
  }

  // ------------------------------------------------------------ the primary note

  /** A name starting with ".", skipped when no note has the configured id. */
  predicate Hidden(name: string) {
    StartsWith(name, ".")
  }

  function VisibleNames(names: set<string>): set<string> {
    set n | n in names && !Hidden(n)
  }

  /** The loop of `_find_primary_note`: the index of the first entry not starting with ".", or the length. */
  function FirstVisibleAt(entries: seq<string>): (k: nat)
    ensures k <= |entries|
    ensures forall i :: 0 <= i < k ==> Hidden(entries[i])
    ensures k < |entries| ==> !Hidden(entries[k])
  {
    if entries == [] then 0
    else if !Hidden(entries[0]) then 0
    else 1 + FirstVisibleAt(entries[1..])
  }

  /** In sorted order, the first entry not starting with "." is the least such name. */
  lemma FirstVisibleIsLeast(names: set<string>)
    ensures var entries := SortedStrings(names);
      var k := FirstVisibleAt(entries);
      && (k < |entries| <==> VisibleNames(names) != {})
      && (k < |entries| ==> entries[k] == Least(VisibleNames(names)))
  {
    var entries := SortedStrings(names);
    var vis := VisibleNames(names);
    FirstVisibleFound(entries, names, vis, FirstVisibleAt(entries));
    if FirstVisibleAt(entries) < |entries| {
      FirstVisibleLeast(entries, names, vis, FirstVisibleAt(entries));
    }
  }

  /** A visible name is in the listing, so the scan stops before its end. */
  lemma FirstVisibleFound(entries: seq<string>, names: set<string>, vis: set<string>, k: nat)
    requires forall x :: x in entries <==> x in names
    requires vis == VisibleNames(names)
    requires k <= |entries| && (forall i :: 0 <= i < k ==> Hidden(entries[i]))
    requires k < |entries| ==> !Hidden(entries[k])
    ensures k < |entries| <==> vis != {}
  {
    if vis != {} {
      var n :| n in vis;
      assert n in entries;
      var j :| 0 <= j < |entries| && entries[j] == n;
      assert k <= j;
    }
    if k < |entries| {
      assert entries[k] in vis;
    }
  }

  /** Sorted entries: the first visible one comes before every other visible name. */
  lemma FirstVisibleLeast(entries: seq<string>, names: set<string>, vis: set<string>, k: nat)
    requires StrictlyIncreasing(entries) && forall x :: x in entries <==> x in names
    requires vis == VisibleNames(names)
    requires k < |entries| && (forall i :: 0 <= i < k ==> Hidden(entries[i])) && !Hidden(entries[k])
    ensures vis != {} && entries[k] == Least(vis)
  {
    var m := entries[k];
    assert m in vis;
    forall y | y in vis && y != m
      ensures StrLt(m, y)
    {
      assert y in entries;
      var j :| 0 <= j < |entries| && entries[j] == y;
      assert !Hidden(entries[j]);
      assert j > k;
    }
    assert IsLeast(m, vis);
    LeastUnique(vis);
  }

  /**
   * `_find_primary_note`: `listing` is what `os.listdir` gives for the
   * directory, `None` when listing it fails. The note with the configured
   * id wins; otherwise the first name in sorted order not starting with ".".
   */
  function FindPrimaryNote(listing: Option<set<string>>, dir: string, noteId: string): (r: Option<string>)
    ensures listing.None? ==> r.None?
    ensures listing.Some? && noteId in listing.value ==> r == Some(JoinPath(dir, noteId))
    ensures listing.Some? && noteId !in listing.value ==> (r.Some? <==> VisibleNames(listing.value) != {})
    ensures listing.Some? && noteId !in listing.value && VisibleNames(listing.value) != {}
      ==> r == Some(JoinPath(dir, Least(VisibleNames(listing.value))))
  {
    match listing
    case None => None
    case Some(names) =>
      var entries := SortedStrings(names);
      if noteId in entries then Some(JoinPath(dir, noteId))
      else
        var k := FirstVisibleAt(entries);
        FirstVisibleIsLeast(names);
        if k < |entries| then Some(JoinPath(dir, entries[k])) else None
  }

  /** `_ensure_primary_note`: the note found, else the path of a note with the configured id. */
  function EnsurePrimaryNote(listing: Option<set<string>>, dir: string, noteId: string): (r: string)
    ensures FindPrimaryNote(listing, dir, noteId).Some? ==> Some(r) == FindPrimaryNote(listing, dir, noteId)
    ensures FindPrimaryNote(listing, dir, noteId).None? ==> r == JoinPath(dir, noteId)
  {
    match FindPrimaryNote(listing, dir, noteId)
    case Some(path) => path
    case None => JoinPath(dir, noteId)
  }

  // ------------------------------------------------------------ routing

  /**
   * `os.path.commonpath([path, dir]) == dir` for absolute, normalised
   * paths: `path` is `dir` or lies below it.
   */
  predicate Within(path: string, dir: string) {
    path == dir || (|path| > |dir| && path[..|dir|] == dir && (EndsWith(dir, "/") || path[|dir|] == '/'))
  }

  /** A name as a directory listing gives it: not empty, without a '/'. */
  predicate PlainName(name: string) {
    name != "" && '/' !in name
  }

  lemma JoinWithin(dir: string, name: string)
    requires dir != "" && PlainName(name)
    ensures Within(JoinPath(dir, name), dir)
  {
    assert name[0] != '/';
  }

  /** Whichever note `_ensure_primary_note` settles on lies in the Plasma directory. */
  lemma PrimaryNoteWithin(listing: Option<set<string>>, dir: string, noteId: string)
    requires dir != "" && PlainName(noteId)
    requires listing.Some? ==> forall n :: n in listing.value ==> PlainName(n)
    ensures Within(EnsurePrimaryNote(listing, dir, noteId), dir)
  {
    var found := FindPrimaryNote(listing, dir, noteId);
    if found.Some? && noteId !in listing.value {
      var least := Least(VisibleNames(listing.value));
      JoinWithin(dir, least);
    } else {
      JoinWithin(dir, noteId);
    }
  }

  /** Where `_handle_event` sends a change. */
  datatype Direction = ToPlasma | ToTodo | Elsewhere

  /** The TODO file syncs toward Plasma; anything in the Plasma directory syncs toward the TODO file. */
  function Direct(path: string, cfg: TodoConfig): (r: Direction)
    ensures r == ToPlasma <==> path == cfg.todoFile
    ensures r == ToTodo <==> path != cfg.todoFile && Within(path, cfg.plasmaDir)
    ensures r == Elsewhere <==> path != cfg.todoFile && !Within(path, cfg.plasmaDir)
  {
    if path == cfg.todoFile then ToPlasma
    else if Within(path, cfg.plasmaDir) then ToTodo
    else Elsewhere
  }

  /** The path `_handle_event` looks at: a move's destination when it has one, else the source. */
  function EventPath(e: Event): string {
    if e.kind == Moved && e.dest != "" then e.dest else e.src
  }

  /** What becomes of an event: dropped before the ignore check, swallowed by it, or sent on. */
  datatype Outcome = Dropped | Swallowed | Routed(direction: Direction)

  /**
   * `created`, `modified`, `moved` and `deleted`: a deletion is dropped
   * untouched, so is an event without a path; otherwise a pending ignore
   * count swallows the event, and only an event that is not swallowed is
   * routed.
   */
  function Dispatch(m: map<string, int>, e: Event, cfg: TodoConfig): (r: (Outcome, map<string, int>))
    ensures e.kind == Deleted || EventPath(e) == "" ==> r == (Dropped, m)
    ensures e.kind != Deleted && EventPath(e) != "" ==>
      && (r.0 == Swallowed <==> Count(m, EventPath(e)) != 0)
      && r.1 == Checked(m, EventPath(e)).1
    ensures r.0.Routed? ==> r.0.direction == Direct(EventPath(e), cfg) && r.1 == m
  {
    if e.kind == Deleted then (Dropped, m)
    else
      var path := EventPath(e);
      if path == "" then (Dropped, m)
      else
        var (ignored, after) := Checked(m, path);
        if ignored then (Swallowed, after) else (Routed(Direct(path, cfg)), after)
  }

  /** The event raised by the module's own completed write is swallowed, and uses up the mark the write left. */
  lemma EchoSwallowed(d: Disk, path: string, content: string, cfg: TodoConfig)
    requires AllPositive(d.ignoreNext) && path != ""
    requires WriteResult(d, path, content, WriteSucceeds).1
    ensures var after := WriteResult(d, path, content, WriteSucceeds).0;
      Dispatch(after.ignoreNext, Event(Modified, false, path, ""), cfg) == (Swallowed, d.ignoreNext)
  {
    OwnWriteIgnored(d, path, content);
  }

  /** A change to the note the module writes, when nothing is pending for it, goes toward the TODO file. */
  lemma NoteChangeGoesToTodo(listing: Option<set<string>>, cfg: TodoConfig, m: map<string, int>)
    requires cfg.plasmaDir != "" && PlainName(cfg.noteId)
    requires listing.Some? ==> forall n :: n in listing.value ==> PlainName(n)
    requires EnsurePrimaryNote(listing, cfg.plasmaDir, cfg.noteId) != cfg.todoFile
    requires Count(m, EnsurePrimaryNote(listing, cfg.plasmaDir, cfg.noteId)) == 0
    ensures var note := EnsurePrimaryNote(listing, cfg.plasmaDir, cfg.noteId);
      Dispatch(m, Event(Modified, false, note, ""), cfg) == (Routed(ToTodo), m)
  {
    PrimaryNoteWithin(listing, cfg.plasmaDir, cfg.noteId);
  }

  // ------------------------------------------------------------ the module's state

  /** The module's globals: the ignore counters, the current text and its hash, and the files it works on. */
  class TodoSync {
    var ignoreNext: map<string, int>
    var files: Files
    var currentText: Option<string>
    var currentHash: Option<string>

    function DiskState(): Disk
      reads this
    {
      Disk(ignoreNext, files)
    }

    /** The current text and hash, in the shape `PlasmaSync.Update` works on. */
    function Current(): PlasmaSync.SyncState
      reads this
    {
      PlasmaSync.SyncState(currentText, currentHash, None, None, false)
    }

    constructor(initial: Files)
      ensures DiskState() == Disk(map[], initial) && currentText.None? && currentHash.None?
    {
      ignoreNext := map[];
      files := initial;
      currentText := None;
      currentHash := None;
    }

    /** `_mark_ignore`. */
    method MarkIgnore(path: string)
      modifies this
      ensures ignoreNext == Marked(old(ignoreNext), path)
      ensures files == old(files) && Current() == old(Current())
    {
      var count := if path in ignoreNext then ignoreNext[path] else 0;
      ignoreNext := ignoreNext[path := count + 1];
    }

    /** `_should_ignore`. */
    method ShouldIgnore(path: string) returns (ignore: bool)
      modifies this
      ensures (ignore, ignoreNext) == Checked(old(ignoreNext), path)
      ensures files == old(files) && Current() == old(Current())
    {
      var count := if path in ignoreNext then ignoreNext[path] else 0;
      if count == 0 {
        return false;
      }
      if count == 1 {
        ignoreNext := ignoreNext - {path};
      } else {
        ignoreNext := ignoreNext[path := count - 1];
      }
      ignore := true;
    }

    /** `_write_if_changed`; `outcome` says how the write would end. */
    method WriteIfChanged(path: string, content: string, outcome: WriteOutcome) returns (written: bool)
      modifies this
      ensures (DiskState(), written) == WriteResult(old(DiskState()), path, content, outcome)
      ensures Current() == old(Current())
    {
      var old_ := if path in files then files[path] else "";
      if old_ == content {
        return false;
      }
      if outcome == MakedirsFails {
        return false;
      }
      MarkIgnore(path);
      if outcome == OpenFails {
        return false;
      }
      files := files[path := content];
      written := true;
    }

    /** `_update_state_from_text`, the hash taken as the normalised text itself. */
    method UpdateStateFromText(text: string) returns (changed: bool)
      modifies this
      ensures (Current(), changed) == PlasmaSync.Update(old(Current()), text)
      ensures DiskState() == old(DiskState())
    {
      var norm := NormalizeText(text);
      var newHash := norm;
      if currentHash == Some(newHash) {
        return false;
      }
      currentText := Some(norm);
      currentHash := Some(newHash);
      changed := true;
    }

    /** The event handlers up to `_handle_event`'s choice of direction. */
    method HandleEvent(e: Event, cfg: TodoConfig) returns (outcome: Outcome)
      modifies this
      ensures (outcome, ignoreNext) == Dispatch(old(ignoreNext), e, cfg)
      ensures files == old(files) && Current() == old(Current())
    {
      if e.kind == Deleted {
        return Dropped;
      }
      var path := if e.kind == Moved && e.dest != "" then e.dest else e.src;
      if path == "" {
        return Dropped;
      }
      var ignored := ShouldIgnore(path);
      if ignored {
        return Swallowed;
      }
      outcome := Routed(Direct(path, cfg));
    }
  }
}
