/**
 * The banner splicer (lucy_notes_manager/modules/banner.py): the line of
 * a note holding `--banner <text>` gives way to the text rendered as a
 * large ASCII banner. On the first line the banner goes below the line,
 * after a separator; on any other line it takes the line's place.
 *
 * The renderer (`pyfiglet.figlet_format`) is the parameter `figlet`, the
 * date is the parameter `today`, removing `--banner` from a line is the
 * parameter `delete`, and the note's lines are the parameter `file`
 * (`None` when the note cannot be opened).
 */
module Banner {
  import opened Wrappers
  import opened Text
  import opened Values
  import opened Pipeline
  import opened Splice

  const Template: seq<TemplateEntry> := [
    TemplateEntry("--banner", "str", VNone, ""),
    TemplateEntry("--separator", "str", VList([VStr("---")]), "")
  ]

  const BannerModule := Module("banner", 5, Template)

  /** What `_apply` raises: a missing key, a value that cannot be indexed, a missing note. */
  datatype BannerError = MissingKey(key: string) | NotIndexable(key: string) | NoLine | FileMissing

  /** What the flags ask for: the banner text, the separator line and the 1-based line. */
  datatype Request = Request(text: string, sepLine: string, lineno: int)

  /** `sep + "\n"` unless `sep` already ends with a newline. */
  function SepLine(sep: string): string {
    sep + (if sep != [] && sep[|sep| - 1] == '\n' then "" else "\n")
  }

  /** A stripped separator gets one newline at its end and never a second one. */
  lemma SepLineOfStripped(s: string)
    ensures var r := SepLine(Strip(s));
      && r == Strip(s) + "\n"
      && (|r| >= 2 ==> r[|r| - 2] != '\n')
  {
    var t := Strip(s);
    assert IsSpace('\n');
    if t != [] {
      assert !IsSpace(t[|t| - 1]);
    }
  }

  /**
   * The settings `_apply` reads, in the source's order: the banner values
   * (a falsy value means nothing to do), their first item stripped, with
   * "date" standing for today; the separator's first item stripped; the
   * first recorded line of `--banner`.
   */
  function ReadRequest(config: map<string, Value>, argLines: map<string, seq<int>>, today: string)
    : Result<Option<Request>, BannerError>
  {
    if "banner" !in config then Failure(MissingKey("banner"))
    else if !Truthy(config["banner"]) then Success(None)
    else
      match Item0(config["banner"])
      case None => Failure(NotIndexable("banner"))
      case Some(first) =>
        var t := Strip(Show(first));
        var text := if t == "date" then today else t;
        if "separator" !in config then Failure(MissingKey("separator"))
        else
          match Item0(config["separator"])
          case None => Failure(NotIndexable("separator"))
          case Some(s) =>
            if "banner" !in argLines || argLines["banner"] == [] then Failure(NoLine)
            else Success(Some(Request(text, SepLine(Strip(Show(s))), argLines["banner"][0])))
  }

  /** The rendered banner with its trailing newlines replaced by exactly one. */
  function AsciiBanner(rendered: string): (r: string)
    ensures r != [] && r[|r| - 1] == '\n' && (|r| >= 2 ==> r[|r| - 2] != '\n')
    ensures r[..|r| - 1] == RStripChar(rendered, '\n')
  {
    RStripChar(rendered, '\n') + "\n"
  }

  /**
   * The note after the banner goes in. On line 1: the cleaned line (or a
   * blank line when nothing is left of it), a blank line when text was
   * left, the separator and the banner, then the rest. Elsewhere: the
   * banner in the line's place, then the cleaned line when not blank.
   */
  function Bannered(lines: seq<string>, lineno: int, sepLine: string, ascii: string, delete: Deleter): seq<string>
    requires lines != []
  {
    var idx := ClampIndex(lineno, |lines|);
    var c := delete(lines[idx], ["--banner"]);
    if idx == 0 then
      (if IsBlank(c) then ["\n"] else [c, "\n"]) + [sepLine, ascii] + lines[1..]
    else
      lines[..idx] + [ascii] + (if IsBlank(c) then [] else [c]) + lines[idx + 1..]
  }

  /** The list surgery of `_apply`: assignment to line 1, `insert`, slice assignment. */
  method InsertBanner(lines: seq<string>, lineno: int, sepLine: string, ascii: string, delete: Deleter)
    returns (r: seq<string>)
    requires lines != []
    ensures r == Bannered(lines, lineno, sepLine, ascii, delete)
  {
    r := lines;
    var idx := ClampIndex(lineno, |r|);
    if idx == 0 {
      r := r[0 := delete(r[0], ["--banner"])];
      var insertPos: nat;
      if !IsBlank(r[0]) {
        r := r[..1] + ["\n"] + r[1..];
        insertPos := 2;
      } else {
        r := r[0 := "\n"];
        insertPos := 1;
      }
      r := r[..insertPos] + [sepLine, ascii] + r[insertPos..];
    } else {
      var cleaned := delete(r[idx], ["--banner"]);
      r := r[..idx] + [ascii] + r[idx + 1..];
      if !IsBlank(cleaned) {
        r := r[..idx + 1] + [cleaned] + r[idx + 1..];
      }
    }
  }

  /**
   * Nothing but the target line changes: on a later line, the lines above
   * and below are the original ones, the banner sits on the target line
   * and the leftover text, if any, right after it; on line 1, the original
   * lines follow the separator and the banner.
   */
  lemma BanneredFrame(lines: seq<string>, lineno: int, sepLine: string, ascii: string, delete: Deleter)
    requires lines != []
    ensures var idx := ClampIndex(lineno, |lines|);
      var c := delete(lines[idx], ["--banner"]);
      var r := Bannered(lines, lineno, sepLine, ascii, delete);
      var extra := if IsBlank(c) then 0 else 1;
      && |r| == |lines| + (if idx == 0 then 2 else 0) + extra
      && (idx > 0 ==>
            && r[..idx] == lines[..idx]
            && r[idx] == ascii
            && (extra == 1 ==> r[idx + 1] == c)
            && r[idx + 1 + extra..] == lines[idx + 1..])
      && (idx == 0 ==>
            && r[extra] == "\n"
            && (extra == 1 ==> r[0] == c)
            && r[1 + extra..3 + extra] == [sepLine, ascii]
            && r[3 + extra..] == lines[1..])
  {
  }

  /**
   * `_apply`: nothing when the banner value is falsy; the error `_apply`
   * raises on a missing or unindexable setting or a missing note;
   * otherwise the note with the banner in, and the note's path.
   */
  method Apply(path: string, config: map<string, Value>, argLines: map<string, seq<int>>,
               file: Option<seq<string>>, today: string, figlet: string -> string, delete: Deleter)
    returns (r: Result<Option<(seq<string>, seq<string>)>, BannerError>)
    ensures match ReadRequest(config, argLines, today)
      case Failure(e) => r == Failure(e)
      case Success(None) => r == Success(None)
      case Success(Some(q)) =>
        if file.None? then r == Failure(FileMissing)
        else r == Success(Some((Bannered(NonEmpty(file.value), q.lineno, q.sepLine, AsciiBanner(figlet(q.text)), delete),
                                [path])))
  {
    var request := ReadRequest(config, argLines, today);
    if request.Failure? {
      return Failure(request.error);
    }
    if request.value.None? {
      return Success(None);
    }
    var q := request.value.value;
    if file.None? {
      return Failure(FileMissing);
    }
    var lines := NonEmpty(file.value);
    var ascii := AsciiBanner(figlet(q.text));
    lines := InsertBanner(lines, q.lineno, q.sepLine, ascii, delete);
    return Success(Some((lines, [path])));
  }

  /** A falsy banner value asks for nothing. */
  lemma NoBannerNoChange(config: map<string, Value>, argLines: map<string, seq<int>>, today: string)
    requires "banner" in config && !Truthy(config["banner"])
    ensures ReadRequest(config, argLines, today) == Success(None)
  {
  }

  /** "date" stands for today; the separator line is the stripped separator and one newline. */
  lemma RequestText(config: map<string, Value>, argLines: map<string, seq<int>>, today: string)
    requires ReadRequest(config, argLines, today).Success? && ReadRequest(config, argLines, today).value.Some?
    ensures var q := ReadRequest(config, argLines, today).value.value;
      var t := Strip(Show(Item0(config["banner"]).value));
      && q.text == (if t == "date" then today else t)
      && q.sepLine == Strip(Show(Item0(config["separator"]).value)) + "\n"
      && q.lineno == argLines["banner"][0]
  {
    SepLineOfStripped(Show(Item0(config["separator"]).value));
  }
}
