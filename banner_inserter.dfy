/**
 * The older banner hook (lucy_notes_manager/modules/banner_inserter.py):
 * on a modification event whose arguments carry `--banner <text>`, a
 * separator, a blank line and the text rendered as an ASCII banner go in
 * under the note's first line, and `--banner` is removed from that line.
 *
 * The renderer is the parameter `figlet`, the date the parameter `today`,
 * `parse_args` the parameter `parse`, and the note's lines the parameter
 * `file` (`None` when the note is gone, which the source catches).
 */
module BannerInserter {
  import opened Wrappers
  import opened Text
  import opened Values
  import opened Paths
  import opened Args

  /** `banner_vals[0]` on a value that cannot be indexed. */
  datatype InserterError = NotIndexable

  /** The rendered banner with its trailing whitespace replaced by one newline. */
  function AsciiText(rendered: string): (r: string)
    ensures r != [] && r[|r| - 1] == '\n'
    ensures |r| >= 2 ==> !IsSpace(r[|r| - 2])
    ensures r[..|r| - 1] == RStrip(rendered)
  {
    RStrip(rendered) + "\n"
  }

  /** The three lines that go in under the first line. */
  function BannerBlock(ascii: string): seq<string> {
    ["---\n", "\n", ascii]
  }

  /**
   * The block goes in at line 2 by a slice assignment to `[1:2]`: with
   * two or more lines the block takes the place of the second line; one
   * line is extended; an empty note becomes a blank line and the block.
   */
  function Inserted(lines: seq<string>, block: seq<string>): (r: seq<string>)
    ensures |lines| >= 2 ==> r == lines[..1] + block + lines[2..]
    ensures |lines| == 1 ==> r == lines + block
    ensures lines == [] ==> r == ["\n"] + block
  {
    if |lines| >= 2 then lines[..1] + block + lines[2..]
    else if |lines| == 1 then lines + block
    else ["\n"] + block
  }

  /**
   * With two or more lines, the insertion loses exactly the note's second
   * line: what it holds, with that line put back, is the note and the block.
   */
  lemma {:induction false} InsertedReplacesSecondLine(lines: seq<string>, block: seq<string>)
    requires |lines| >= 2
    ensures multiset(Inserted(lines, block)) + multiset{lines[1]} == multiset(lines) + multiset(block)
  {
    assert lines == lines[..1] + [lines[1]] + lines[2..];
  }

  /** `clean_args_from_line(first, ["--banner"]).rstrip("\n") + "\n"`. */
  function CleanFirst(first: string): (r: string)
    ensures r != [] && r[|r| - 1] == '\n' && (|r| >= 2 ==> r[|r| - 2] != '\n')
    ensures r[..|r| - 1] == RStripChar(CleanLine(first, {"--banner"}), '\n')
  {
    RStripChar(CleanLine(first, {"--banner"}), '\n') + "\n"
  }

  /** The note after the rewrite. */
  function Rewritten(lines: seq<string>, ascii: string): seq<string> {
    var r := Inserted(lines, BannerBlock(ascii));
    r[0 := CleanFirst(r[0])]
  }

  /** The list operations of `modified`, in the source's order. */
  method Rewrite(lines: seq<string>, ascii: string) returns (r: seq<string>)
    ensures r == Rewritten(lines, ascii)
  {
    var block := BannerBlock(ascii);
    r := lines;
    if |r| >= 2 {
      r := r[..1] + block + r[2..];
    } else if |r| == 1 {
      r := r + block;
    } else {
      r := ["\n"] + block;
    }
    var first := r[0];
    r := r[0 := CleanFirst(first)];
  }

  /**
   * The first line is cleaned and ends with exactly one newline, the block
   * follows it, and the lines from the third on follow the block; the
   * note grows by two lines (by three when it had a single line, and an
   * empty note becomes four lines).
   */
  lemma RewrittenFrame(lines: seq<string>, ascii: string)
    ensures var r := Rewritten(lines, ascii);
      && |r| == (if |lines| >= 2 then |lines| + 2 else 4)
      && r[0] == CleanFirst(if lines == [] then "\n" else lines[0])
      && r[1..4] == ["---\n", "\n", ascii]
      && r[4..] == (if |lines| >= 2 then lines[2..] else [])
  {
    var first := if lines == [] then "\n" else lines[0];
    var rest := if |lines| >= 2 then lines[2..] else [];
    RewrittenIs(lines, ascii, first, rest);
    FrameParts(Rewritten(lines, ascii), CleanFirst(first), ascii, rest);
  }

  lemma RewrittenIs(lines: seq<string>, ascii: string, first: string, rest: seq<string>)
    requires first == if lines == [] then "\n" else lines[0]
    requires rest == if |lines| >= 2 then lines[2..] else []
    ensures Rewritten(lines, ascii) == [CleanFirst(first)] + BannerBlock(ascii) + rest
  {
    var block := BannerBlock(ascii);
    var ins := Inserted(lines, block);
    if |lines| >= 2 {
      assert lines[..1] == [first];
    }
    assert ins == [first] + (block + rest);
    HeadUpdate(ins, first, CleanFirst(ins[0]), block + rest);
  }

  lemma HeadUpdate(s: seq<string>, x: string, y: string, tail: seq<string>)
    requires s == [x] + tail
    ensures s[0 := y] == [y] + tail
  {
  }

  lemma FrameParts(r: seq<string>, first: string, ascii: string, rest: seq<string>)
    requires r == [first] + BannerBlock(ascii) + rest
    ensures |r| == |rest| + 4 && r[0] == first && r[1..4] == ["---\n", "\n", ascii] && r[4..] == rest
  {
  }

  /**
   * What `modified` does: nothing when `--banner` is absent or falsy, when
   * the event has no source path or the note is gone; an error when the
   * value cannot be indexed; otherwise the rewritten note and its path.
   * "date" stands for today.
   */
  function Outcome(args: seq<string>, event: Event, parse: Parser, today: string,
                   figlet: string -> string, file: Option<seq<string>>)
    : Result<Option<(seq<string>, seq<string>)>, InserterError>
  {
    var known := parse(args).known;
    var vals := if "banner" in known then known["banner"] else VNone;
    if !Truthy(vals) then Success(None)
    else
      match Item0(vals)
      case None => Failure(NotIndexable)
      case Some(v) =>
        var text := if v == VStr("date") then today else Show(v);
        if event.src == [] || file.None? then Success(None)
        else Success(Some((Rewritten(file.value, AsciiText(figlet(text))), [event.src])))
  }

  method Modified(args: seq<string>, event: Event, parse: Parser, today: string,
                  figlet: string -> string, file: Option<seq<string>>)
    returns (r: Result<Option<(seq<string>, seq<string>)>, InserterError>)
    ensures r == Outcome(args, event, parse, today, figlet, file)
    ensures r.Success? && r.value.Some? ==>
      && event.src != [] && file.Some?
      && r.value.value.1 == [event.src]
      && |r.value.value.0| == (if |file.value| >= 2 then |file.value| + 2 else 4)
  {
    var known := parse(args).known;
    var vals := if "banner" in known then known["banner"] else VNone;
    if !Truthy(vals) {
      return Success(None);
    }
    var item := Item0(vals);
    if item.None? {
      return Failure(NotIndexable);
    }
    var text := Show(item.value);
    if item.value == VStr("date") {
      text := today;
    }
    if event.src == [] || file.None? {
      return Success(None);
    }
    var lines := Rewrite(file.value, AsciiText(figlet(text)));
    RewrittenFrame(file.value, AsciiText(figlet(text)));
    return Success(Some((lines, [event.src])));
  }

  /** A second run over the hook's own output keeps everything from the old banner on. */
  lemma RewriteKeepsBanner(lines: seq<string>, ascii: string, ascii2: string)
    ensures var once := Rewritten(lines, ascii);
      |once| >= 4 && |Rewritten(once, ascii2)| >= 4 && Rewritten(once, ascii2)[4..] == once[2..]
  {
    var once := Rewritten(lines, ascii);
    RewrittenFrame(lines, ascii);
    assert |once| >= 4;
    RewrittenFrame(once, ascii2);
    assert Rewritten(once, ascii2)[4..] == once[2..];
  }

  /** An absent or falsy `--banner` leaves the note alone. */
  lemma NoBannerNoChange(args: seq<string>, event: Event, parse: Parser, today: string,
                         figlet: string -> string, file: Option<seq<string>>)
    requires "banner" !in parse(args).known || !Truthy(parse(args).known["banner"])
    ensures Outcome(args, event, parse, today, figlet, file) == Success(None)
  {
  }
}
