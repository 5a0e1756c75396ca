/**
 * Plain text to Plasma's rich-text HTML and back, as plasma_sync does it
 * (lucy_notes_manager/modules/plasma_sync.py): `_text_to_plasma_html`
 * writes one paragraph per normalised line, an empty line as a paragraph
 * holding a `<br />`; `_PlasmaHTMLParser` reads the paragraphs and list
 * items of the body back into lines, ignoring the whitespace between
 * blocks; `_html_to_text` normalises what it read.
 *
 * The parser is a state machine over the events of `Html`; the document
 * `_text_to_plasma_html` writes is given as the events a reader of it
 * produces. `html.escape` and the reader's resolution of character
 * references cancel out, so a line travels as its own text.
 */
module PlasmaHtml {
  import opened Wrappers
  import opened Text
  import opened Lines
  import opened BlankLines
  import opened Html

  // ------------------------------------------------------------ the reader

  /** The fields of `_PlasmaHTMLParser`. */
  datatype ParseState = ParseState(inBody: bool, inBlock: bool, current: Option<string>, lines: seq<string>)

  const Fresh := ParseState(false, false, None, [])

  /** The lines with the open block's text added, when a block is open. */
  function Flushed(s: ParseState): (r: seq<string>)
    ensures s.current.Some? && s.inBlock ==> r == s.lines + [s.current.value]
    ensures !(s.current.Some? && s.inBlock) ==> r == s.lines
  {
    if s.current.Some? && s.inBlock then s.lines + [s.current.value] else s.lines
  }

  /** `handle_starttag`. */
  function OnStart(s: ParseState, tag: string): ParseState {
    var t := Lower(tag);
    if t == "body" then s.(inBody := true)
    else if !s.inBody then s
    else if t == "p" || t == "li" then ParseState(s.inBody, true, Some(""), Flushed(s))
    else if !s.inBlock then s
    else if t == "br" then s.(current := Some(s.current.GetOr("") + "\n"))
    else s
  }

  /** `handle_endtag`. */
  function OnEnd(s: ParseState, tag: string): ParseState {
    var t := Lower(tag);
    if t == "body" then ParseState(false, false, None, Flushed(s))
    else if !s.inBody then s
    else if t == "p" || t == "li" then ParseState(s.inBody, false, None, s.lines + [s.current.GetOr("")])
    else s
  }

  /** `handle_data`: whitespace outside a block, or before any text of a block, is dropped. */
  function OnData(s: ParseState, data: string): ParseState {
    if !s.inBody then s
    else if !s.inBlock && Strip(data) == [] then s
    else if s.current.None? && Strip(data) == [] then s
    else s.(current := Some(s.current.GetOr("") + data))
  }

  function Step(s: ParseState, e: HtmlEvent): ParseState {
    match e
    case StartTag(tag, _) => OnStart(s, tag)
    case EndTag(tag) => OnEnd(s, tag)
    case Data(text) => OnData(s, text)
  }

  /** The state after feeding `events`. */
  function Run(s: ParseState, events: seq<HtmlEvent>): ParseState
    decreases |events|
  {
    if events == [] then s else Run(Step(s, events[0]), events[1..])
  }

  /** `get_text`: the lines, the open block's text flushed, joined with "\n". */
  function TextOf(s: ParseState): string {
    Join(Flushed(s), "\n")
  }

  /** `_html_to_text`. */
  function HtmlText(events: seq<HtmlEvent>): string {
    NormalizedText(TextOf(Run(Fresh, events)))
  }

  /** `_PlasmaHTMLParser`, its fields updated in place. */
  class PlasmaParser {
    var inBody: bool
    var inBlock: bool
    var current: Option<string>
    var lines: seq<string>

    function State(): ParseState
      reads this
    {
      ParseState(inBody, inBlock, current, lines)
    }

    constructor()
      ensures State() == Fresh
    {
      inBody := false;
      inBlock := false;
      current := None;
      lines := [];
    }

    method HandleStartTag(tag: string)
      modifies this
      ensures State() == OnStart(old(State()), tag)
    {
      var t := Lower(tag);
      if t == "body" {
        inBody := true;
        return;
      }
      if !inBody {
        return;
      }
      if t == "p" || t == "li" {
        if current.Some? && inBlock {
          lines := lines + [current.value];
        }
        current := Some("");
        inBlock := true;
        return;
      }
      if !inBlock {
        return;
      }
      if t == "br" {
        if current.None? {
          current := Some("");
        }
        current := Some(current.value + "\n");
      }
    }

    method HandleEndTag(tag: string)
      modifies this
      ensures State() == OnEnd(old(State()), tag)
    {
      var t := Lower(tag);
      if t == "body" {
        if current.Some? && inBlock {
          lines := lines + [current.value];
        }
        current := None;
        inBody := false;
        inBlock := false;
        return;
      }
      if !inBody {
        return;
      }
      if t == "p" || t == "li" {
        if current.None? {
          current := Some("");
        }
        lines := lines + [current.value];
        current := None;
        inBlock := false;
      }
    }

    method HandleData(data: string)
      modifies this
      ensures State() == OnData(old(State()), data)
    {
      if !inBody {
        return;
      }
      if !inBlock && Strip(data) == [] {
        return;
      }
      if current.None? {
        if Strip(data) == [] {
          return;
        }
        current := Some("");
      }
      current := Some(current.value + data);
    }

    method Handle(e: HtmlEvent)
      modifies this
      ensures State() == Step(old(State()), e)
    {
      match e
      case StartTag(tag, _) => HandleStartTag(tag);
      case EndTag(tag) => HandleEndTag(tag);
      case Data(text) => HandleData(text);
    }

    /** `feed`: every event to its handler, in order. */
    method Feed(events: seq<HtmlEvent>)
      modifies this
      ensures State() == Run(old(State()), events)
    {
      var i := 0;
      while i < |events|
        invariant i <= |events| && Run(old(State()), events) == Run(State(), events[i..])
      {
        assert events[i..][1..] == events[i + 1..];
        Handle(events[i]);
        i := i + 1;
      }
    }

    method GetText() returns (text: string)
      modifies this
      ensures text == TextOf(old(State()))
      ensures State() == ParseState(old(inBody), false, None, Flushed(old(State())))
    {
      if current.Some? && inBlock {
        lines := lines + [current.value];
      }
      current := None;
      inBlock := false;
      text := Join(lines, "\n");
    }
  }

  /** `_html_to_text`: a fresh parser fed the document, its text normalised. */
  method HtmlToText(events: seq<HtmlEvent>) returns (text: string)
    ensures text == HtmlText(events)
  {
    var parser := new PlasmaParser();
    parser.Feed(events);
    var raw := parser.GetText();
    text := NormalizeText(raw);
  }

  // ------------------------------------------------------------ the writer

  const BaseStyle := " margin-top:0px; margin-bottom:0px; margin-left:0px; margin-right:0px; -qt-block-indent:0; text-indent:0px;"

  const Css := "\np, li { white-space: pre-wrap; }\nhr { height: 1px; border-width: 0; }\nli.unchecked::marker { content: \"\\2610\"; }\nli.checked::marker { content: \"\\2612\"; }\n"

  const BodyStyle := " font-family:'Noto Sans'; font-size:10pt; font-weight:400; font-style:normal;"

  /** The events of the header, from the line break after the document type declaration to the one after `<body>`. */
  function Header(): seq<HtmlEvent> {
    [ Data("\n"), StartTag("html", []), StartTag("head", []),
      StartTag("meta", [("name", Some("qrichtext")), ("content", Some("1"))]), EndTag("meta"),
      StartTag("meta", [("charset", Some("utf-8"))]), EndTag("meta"),
      StartTag("style", [("type", Some("text/css"))]), Data(Css), EndTag("style"), EndTag("head"),
      StartTag("body", [("style", Some(BodyStyle))]), Data("\n") ]
  }

  /** `</body></html>\n`. */
  function Footer(): seq<HtmlEvent> {
    [EndTag("body"), EndTag("html"), Data("\n")]
  }

  /** One line's paragraph and the line break after it. */
  function Paragraph(line: string): seq<HtmlEvent> {
    if line != "" then
      [StartTag("p", [("style", Some(BaseStyle))]), Data(line), EndTag("p"), Data("\n")]
    else
      [StartTag("p", [("style", Some("-qt-paragraph-type:empty;" + BaseStyle))]),
       StartTag("br", []), EndTag("br"), EndTag("p"), Data("\n")]
  }

  function Paragraphs(ls: seq<string>): seq<HtmlEvent> {
    if ls == [] then [] else Paragraph(ls[0]) + Paragraphs(ls[1..])
  }

  /** `_text_to_plasma_html`: header, one paragraph per line of the normalised text, footer. */
  function PlasmaDocument(text: string): seq<HtmlEvent> {
    Header() + Paragraphs(LinesOf(NormalizedText(text))) + Footer()
  }

  // ------------------------------------------------------------ the round trip

  /** What the reader keeps of a line's paragraph: the line, or the `<br />`'s "\n" for an empty one. */
  function BlockText(line: string): string {
    if line == "" then "\n" else line
  }

  function BlockTexts(ls: seq<string>): (r: seq<string>)
    ensures |r| == |ls|
  {
    if ls == [] then [] else [BlockText(ls[0])] + BlockTexts(ls[1..])
  }

  /** Between blocks of the body, with the lines `ls` read. */
  function Open(ls: seq<string>): ParseState {
    ParseState(true, false, None, ls)
  }

  lemma {:induction false} RunAppend(s: ParseState, a: seq<HtmlEvent>, b: seq<HtmlEvent>)
    ensures Run(s, a + b) == Run(Run(s, a), b)
    decreases |a|
  {
    if a == [] {
      assert a + b == b;
    } else {
      assert (a + b)[1..] == a[1..] + b;
      RunAppend(Step(s, a[0]), a[1..], b);
    }
  }

  lemma RunCons(s: ParseState, e: HtmlEvent, rest: seq<HtmlEvent>)
    ensures Run(s, [e] + rest) == Run(Step(s, e), rest)
  {
    assert ([e] + rest)[1..] == rest;
  }

  /** Events that leave a state alone leave it alone together. */
  lemma {:induction false} RunIdle(s: ParseState, events: seq<HtmlEvent>)
    requires forall i :: 0 <= i < |events| ==> Step(s, events[i]) == s
    ensures Run(s, events) == s
    decreases |events|
  {
    if events != [] {
      assert forall i :: 0 <= i < |events| - 1 ==> events[1..][i] == events[i + 1];
      RunIdle(s, events[1..]);
    }
  }

  /** The events of the header before `<body>`. */
  function Prelude(): seq<HtmlEvent> {
    [ Data("\n"), StartTag("html", []), StartTag("head", []),
      StartTag("meta", [("name", Some("qrichtext")), ("content", Some("1"))]), EndTag("meta"),
      StartTag("meta", [("charset", Some("utf-8"))]), EndTag("meta"),
      StartTag("style", [("type", Some("text/css"))]), Data(Css), EndTag("style"), EndTag("head") ]
  }

  /** The header leaves the reader in the body, outside any block, with nothing read. */
  lemma HeaderOpensBody()
    ensures Run(Fresh, Header()) == Open([])
  {
    var pre := Prelude();
    var rest := [StartTag("body", [("style", Some(BodyStyle))]), Data("\n")];
    assert Header() == pre + rest;
    RunAppend(Fresh, pre, rest);
    PreludeIdle();
    BodyOpens();
  }

  /** Before `<body>` nothing is read. */
  lemma PreludeIdle()
    ensures Run(Fresh, Prelude()) == Fresh
  {
    LowerBlockTags();
    LowerHeadTags();
    var pre := Prelude();
    assert forall i :: 0 <= i < |pre| ==> Step(Fresh, pre[i]) == Fresh;
    RunIdle(Fresh, pre);
  }

  /** `<body>` and the line break after it. */
  lemma BodyOpens()
    ensures Run(Fresh, [StartTag("body", [("style", Some(BodyStyle))]), Data("\n")]) == Open([])
  {
    LowerBlockTags();
    var body := StartTag("body", [("style", Some(BodyStyle))]);
    RunCons(Fresh, body, [Data("\n")]);
    assert [body] + [Data("\n")] == [body, Data("\n")];
    assert Step(Fresh, body) == Open([]);
    NewlineIsBlank();
    RunCons(Open([]), Data("\n"), []);
  }

  lemma NewlineIsBlank()
    ensures Strip("\n") == []
  {
    assert IsBlank("\n");
  }

  lemma Run4(s: ParseState, e1: HtmlEvent, e2: HtmlEvent, e3: HtmlEvent, e4: HtmlEvent)
    ensures Run(s, [e1, e2, e3, e4]) == Step(Step(Step(Step(s, e1), e2), e3), e4)
  {
    var s1 := Step(s, e1);
    var s2 := Step(s1, e2);
    var s3 := Step(s2, e3);
    RunCons(s, e1, [e2, e3, e4]);
    RunCons(s1, e2, [e3, e4]);
    RunCons(s2, e3, [e4]);
    RunCons(s3, e4, []);
    assert [e1] + [e2, e3, e4] == [e1, e2, e3, e4];
    assert [e2] + [e3, e4] == [e2, e3, e4];
    assert [e3] + [e4] == [e3, e4];
    assert [e4] + [] == [e4];
  }

  lemma Run5(s: ParseState, e1: HtmlEvent, e2: HtmlEvent, e3: HtmlEvent, e4: HtmlEvent, e5: HtmlEvent)
    ensures Run(s, [e1, e2, e3, e4, e5]) == Step(Step(Step(Step(Step(s, e1), e2), e3), e4), e5)
  {
    RunCons(s, e1, [e2, e3, e4, e5]);
    assert [e1] + [e2, e3, e4, e5] == [e1, e2, e3, e4, e5];
    Run4(Step(s, e1), e2, e3, e4, e5);
  }

  lemma OpenBlock(ls: seq<string>, attrs: seq<Attr>)
    ensures Step(Open(ls), StartTag("p", attrs)) == ParseState(true, true, Some(""), ls)
  {
    LowerBlockTags();
  }

  lemma TextInBlock(ls: seq<string>, cur: string, line: string)
    requires Strip(line) != []
    ensures Step(ParseState(true, true, Some(cur), ls), Data(line)) == ParseState(true, true, Some(cur + line), ls)
  {
  }

  lemma BreakInBlock(ls: seq<string>, cur: string)
    ensures Step(ParseState(true, true, Some(cur), ls), StartTag("br", [])) == ParseState(true, true, Some(cur + "\n"), ls)
  {
    LowerBlockTags();
  }

  lemma EndBreak(st: ParseState)
    requires st.inBody
    ensures Step(st, EndTag("br")) == st
  {
    LowerBlockTags();
  }

  lemma CloseBlock(ls: seq<string>, cur: string)
    ensures Step(ParseState(true, true, Some(cur), ls), EndTag("p")) == Open(ls + [cur])
  {
    LowerBlockTags();
  }

  lemma NewlineBetween(ls: seq<string>)
    ensures Step(Open(ls), Data("\n")) == Open(ls)
  {
    NewlineIsBlank();
  }

  /** A paragraph holding a non-blank line adds the line. */
  lemma TextParagraphRead(ls: seq<string>, line: string, attrs: seq<Attr>)
    requires Strip(line) != []
    ensures Run(Open(ls), [StartTag("p", attrs), Data(line), EndTag("p"), Data("\n")]) == Open(ls + [line])
  {
    Run4(Open(ls), StartTag("p", attrs), Data(line), EndTag("p"), Data("\n"));
    OpenBlock(ls, attrs);
    TextInBlock(ls, "", line);
    assert "" + line == line;
    CloseBlock(ls, line);
    NewlineBetween(ls + [line]);
  }

  /** A paragraph holding only a line break adds "\n". */
  lemma EmptyParagraphRead(ls: seq<string>, attrs: seq<Attr>)
    ensures Run(Open(ls), [StartTag("p", attrs), StartTag("br", []), EndTag("br"), EndTag("p"), Data("\n")])
      == Open(ls + ["\n"])
  {
    Run5(Open(ls), StartTag("p", attrs), StartTag("br", []), EndTag("br"), EndTag("p"), Data("\n"));
    OpenBlock(ls, attrs);
    BreakInBlock(ls, "");
    assert "" + "\n" == "\n";
    EndBreak(ParseState(true, true, Some("\n"), ls));
    CloseBlock(ls, "\n");
    NewlineBetween(ls + ["\n"]);
  }

  /** A line's paragraph adds what the reader keeps of the line. */
  lemma ParagraphRead(ls: seq<string>, line: string)
    requires !Blank(line) || line == ""
    ensures Run(Open(ls), Paragraph(line)) == Open(ls + [BlockText(line)])
  {
    BlankIffStripped(line);
    if line != "" {
      TextParagraphRead(ls, line, [("style", Some(BaseStyle))]);
    } else {
      EmptyParagraphRead(ls, [("style", Some("-qt-paragraph-type:empty;" + BaseStyle))]);
    }
  }

  /** The paragraphs of lines add what the reader keeps of each line. */
  lemma {:induction false} ParagraphsRead(ls: seq<string>, lines: seq<string>)
    requires forall i :: 0 <= i < |lines| ==> !Blank(lines[i]) || lines[i] == ""
    ensures Run(Open(ls), Paragraphs(lines)) == Open(ls + BlockTexts(lines))
    decreases |lines|
  {
    if lines != [] {
      assert forall i :: 0 <= i < |lines| - 1 ==> lines[1..][i] == lines[i + 1];
      ParagraphsRead(ls + [BlockText(lines[0])], lines[1..]);
      ParagraphsCons(ls, lines[0], lines[1..], BlockTexts(lines[1..]));
    }
  }

  /** One paragraph read, then the rest as the induction hypothesis says. */
  lemma ParagraphsCons(ls: seq<string>, x: string, rest: seq<string>, kept: seq<string>)
    requires !Blank(x) || x == ""
    requires Run(Open(ls + [BlockText(x)]), Paragraphs(rest)) == Open(ls + [BlockText(x)] + kept)
    ensures Run(Open(ls), Paragraph(x) + Paragraphs(rest)) == Open(ls + ([BlockText(x)] + kept))
  {
    ParagraphRead(ls, x);
    RunAppend(Open(ls), Paragraph(x), Paragraphs(rest));
    assert ls + [BlockText(x)] + kept == ls + ([BlockText(x)] + kept);
  }

  /** The footer closes the body and flushes nothing. */
  lemma FooterCloses(ls: seq<string>)
    ensures Flushed(Run(Open(ls), Footer())) == ls
  {
    LowerBlockTags();
    var closed := ParseState(false, false, None, ls);
    assert Footer() == [EndTag("body")] + [EndTag("html"), Data("\n")];
    RunCons(Open(ls), EndTag("body"), [EndTag("html"), Data("\n")]);
    assert Step(Open(ls), EndTag("body")) == closed;
    RunIdle(closed, [EndTag("html"), Data("\n")]);
  }

  /** Joining an empty line's "\n" is joining two empty lines. */
  lemma {:induction false} JoinBlockTexts(ls: seq<string>)
    ensures Join(BlockTexts(ls), "\n") == Join(Widen(ls), "\n")
    decreases |ls|
  {
    if ls != [] {
      var x := ls[0];
      var m := BlockTexts(ls);
      var w := Widen(ls);
      var mr := BlockTexts(ls[1..]);
      var wr := Widen(ls[1..]);
      JoinBlockTexts(ls[1..]);
      assert m == [BlockText(x)] + mr;
      assert |mr| == |ls| - 1 && |wr| >= |ls| - 1;
      if x == "" {
        assert w == ["", ""] + wr;
        if wr == [] {
          assert Join(w, "\n") == "" + "\n" + "";
        } else {
          assert w[1..] == [""] + wr && w[1..][1..] == wr;
          assert Join(w[1..], "\n") == "" + "\n" + Join(wr, "\n");
        }
      } else {
        assert w == [x] + wr && w[1..] == wr;
      }
    }
  }

  /** Widening adds only empty lines. */
  lemma {:induction false} WidenBreakless(ls: seq<string>)
    requires forall i :: 0 <= i < |ls| ==> Breakless(ls[i])
    ensures forall i :: 0 <= i < |Widen(ls)| ==> Breakless(Widen(ls)[i]) && '\r' !in Widen(ls)[i]
    decreases |ls|
  {
    if ls != [] {
      assert forall i :: 0 <= i < |ls| - 1 ==> ls[1..][i] == ls[i + 1];
      WidenBreakless(ls[1..]);
      assert Breakless(ls[0]);
    }
  }

  /** The lines the reader keeps of normalised lines, read back, are the widened lines. */
  lemma ReadBack(ls: seq<string>)
    requires Trimmed(ls) && forall i :: 0 <= i < |ls| ==> Breakless(ls[i])
    ensures LinesOf(UnifyBreaks(Join(BlockTexts(ls), "\n"))) == Widen(ls)
  {
    JoinBlockTexts(ls);
    LinesOfWidened(ls);
  }

  lemma LinesOfWidened(ls: seq<string>)
    requires Trimmed(ls) && forall i :: 0 <= i < |ls| ==> Breakless(ls[i])
    ensures LinesOf(UnifyBreaks(Join(Widen(ls), "\n"))) == Widen(ls)
  {
    var w := Widen(ls);
    WidenBreakless(ls);
    if ls != [] {
      assert !Blank(ls[|ls| - 1]);
    }
    JoinWithout(w, "\n", '\r');
    LinesOfJoin(w);
  }

  /** The reader's text of the document written for settled lines. */
  lemma DocumentRead(ls: seq<string>)
    requires forall i :: 0 <= i < |ls| ==> !Blank(ls[i]) || ls[i] == ""
    ensures TextOf(Run(Fresh, Header() + Paragraphs(ls) + Footer())) == Join(BlockTexts(ls), "\n")
  {
    HeaderOpensBody();
    ParagraphsRead([], ls);
    FooterCloses([] + BlockTexts(ls));
    ComposeRuns(Header(), Paragraphs(ls), Footer(), [] + BlockTexts(ls));
    assert [] + BlockTexts(ls) == BlockTexts(ls);
  }

  lemma ComposeRuns(h: seq<HtmlEvent>, p: seq<HtmlEvent>, f: seq<HtmlEvent>, read: seq<string>)
    requires Run(Fresh, h) == Open([]) && Run(Open([]), p) == Open(read)
    requires Flushed(Run(Open(read), f)) == read
    ensures TextOf(Run(Fresh, h + p + f)) == Join(read, "\n")
  {
    RunAppend(Fresh, h, p);
    RunAppend(Fresh, h + p, f);
  }

  /**
   * Reading back the document written for a text gives the normalised
   * text: nothing of the header, the line breaks between paragraphs or
   * the footer turns into content.
   */
  lemma RoundTrip(text: string)
    ensures HtmlText(PlasmaDocument(text)) == NormalizedText(text)
  {
    var ls := LinesOf(NormalizedText(text));
    NormalizedLines(text);
    forall i | 0 <= i < |ls| ensures !Blank(ls[i]) || ls[i] == "" {
      SettledBlankIsEmpty(ls, "", i);
    }
    DocumentRead(ls);
    ReadBack(ls);
    NormalizeWiden(ls);
  }
}
