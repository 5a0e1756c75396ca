/**
 * Flag utilities of the daemon (lucy_notes_manager/lib/args.py): merging
 * of parsed-argument dictionaries, the config-file and first-line token
 * filters, start-up argument assembly, the flag-likeness heuristic and the
 * greedy flag remover used to clean a note's first line.
 *
 * `argparse` is a parameter of the model (`Parser`); `shlex.split` and
 * `shlex.join` are modelled as a split on whitespace and a join with one
 * space, so quoting is not modelled.
 */
module Args {
  import opened Wrappers
  import opened Text
  import opened Values

  type ArgMap = map<string, Value>

  /** `(known_args_dict, unknown_args_list)`. */
  datatype Parsed = Parsed(known: ArgMap, unknown: seq<string>)

  /** `parse_args(template, args)` for one fixed template. */
  type Parser = seq<string> -> Parsed

  const NoArgs: Parsed := Parsed(map[], [])

  /** `flag.lstrip("-").replace("-", "_")`: the argparse destination of a flag. */
  function FlagDest(flag: string): (d: string)
    ensures '-' !in d
    ensures |d| == |LStripChar(flag, '-')|
    ensures forall i :: 0 <= i < |d| ==> (d[i] == '_' <==> LStripChar(flag, '-')[i] in "-_")
  {
    DashesToUnderscores(LStripChar(flag, '-'))
  }

  function DashesToUnderscores(s: string): (r: string)
    ensures |r| == |s| && '-' !in r
    ensures forall i :: 0 <= i < |s| ==> r[i] == if s[i] == '-' then '_' else s[i]
  {
    if s == [] then [] else [if s[0] == '-' then '_' else s[0]] + DashesToUnderscores(s[1..])
  }

  /** A destination name maps to itself: `FlagDest` is idempotent. */
  lemma FlagDestIdempotent(flag: string)
    ensures FlagDest(FlagDest(flag)) == FlagDest(flag)
  {
    var d := FlagDest(flag);
    assert LStripChar(d, '-') == d by {
      if d != [] { assert d[0] != '-'; }
    }
  }

  // ---------------------------------------------------------------- merge_args

  /** A value `merge_args` treats as "not provided": `None` or `""`. */
  predicate Unset(v: Value) {
    v == VNone || v == VStr("")
  }

  /** The dictionary `merge_args(base, over)` returns. */
  function Merged(base: ArgMap, over: ArgMap): (m: ArgMap)
    ensures forall k :: k in m <==> k in base || (k in over && !Unset(over[k]))
  {
    map k | k in base.Keys + over.Keys && (k in base || !Unset(over[k]))
      :: if k in over && !Unset(over[k]) then over[k] else base[k]
  }

  /**
   * `merge_args`: a copy of `base` in which every key of `over` whose value
   * is provided is overwritten; unset override values never replace or add.
   */
  method MergeArgs(base: ArgMap, over: ArgMap) returns (merged: ArgMap)
    ensures forall k :: k in merged <==> k in base || (k in over && !Unset(over[k]))
    ensures forall k :: k in over && !Unset(over[k]) ==> merged[k] == over[k]
    ensures forall k :: k in base && (k !in over || Unset(over[k])) ==> merged[k] == base[k]
    ensures merged == Merged(base, over)
  {
    ghost var done: set<string> := {};
    merged := base;
    var todo := over.Keys;
    while todo != {}
      invariant todo + done == over.Keys && todo !! done
      invariant forall k :: k in merged <==> k in base || (k in done && !Unset(over[k]))
      invariant forall k :: k in done && !Unset(over[k]) ==> merged[k] == over[k]
      invariant forall k :: k in base && (k !in done || Unset(over[k])) ==> merged[k] == base[k]
      decreases |todo|
    {
      var key :| key in todo;
      if !Unset(over[key]) {
        merged := merged[key := over[key]];
      }
      todo := todo - {key};
      done := done + {key};
    }
    MergedIsUnique(base, over, merged);
  }

  lemma MergedIsUnique(base: ArgMap, over: ArgMap, m: ArgMap)
    requires forall k :: k in m <==> k in base || (k in over && !Unset(over[k]))
    requires forall k :: k in over && !Unset(over[k]) ==> m[k] == over[k]
    requires forall k :: k in base && (k !in over || Unset(over[k])) ==> m[k] == base[k]
    ensures m == Merged(base, over)
  {
  }

  // ------------------------------------------------------- config and first line

  /** A config line that `get_config_args` skips: blank or a `#` comment. */
  predicate IsSkippedLine(line: string) {
    var t := Strip(line);
    t == [] || StartsWith(t, "#")
  }

  /** The tokens `get_config_args` collects from the lines of a config file. */
  function ConfigTokens(lines: seq<string>): seq<string> {
    if lines == [] then []
    else (if IsSkippedLine(lines[0]) then [] else Words(Strip(lines[0]))) + ConfigTokens(lines[1..])
  }

  /** The token list of a config file is the concatenation of its lines' tokens. */
  lemma {:induction false} ConfigTokensAppend(a: seq<string>, b: seq<string>)
    ensures ConfigTokens(a + b) == ConfigTokens(a) + ConfigTokens(b)
  {
    if a == [] {
      assert a + b == b;
    } else {
      assert (a + b)[0] == a[0];
      assert (a + b)[1..] == a[1..] + b;
      ConfigTokensAppend(a[1..], b);
    }
  }

  /** Blank and comment lines contribute no tokens, wherever they stand. */
  lemma SkippedLineContributesNothing(a: seq<string>, line: string, b: seq<string>)
    requires IsSkippedLine(line)
    ensures ConfigTokens(a + [line] + b) == ConfigTokens(a + b)
  {
    ConfigTokensAppend(a + [line], b);
    ConfigTokensAppend(a, [line]);
    ConfigTokensAppend(a, b);
  }

  /** `get_config_args`: the loop over the file's lines, then `parse_args`. */
  method ConfigArgs(parse: Parser, lines: seq<string>) returns (p: Parsed)
    ensures p == parse(ConfigTokens(lines))
  {
    var tokens: seq<string> := [];
    var i := 0;
    while i < |lines|
      invariant 0 <= i <= |lines|
      invariant tokens == ConfigTokens(lines[..i])
    {
      ConfigTokensAppend(lines[..i], [lines[i]]);
      assert lines[..i + 1] == lines[..i] + [lines[i]];
      assert ConfigTokens([lines[i]]) == if IsSkippedLine(lines[i]) then [] else Words(Strip(lines[i])) by {
        assert [lines[i]][1..] == [];
      }
      if !IsSkippedLine(lines[i]) {
        tokens := tokens + Words(Strip(lines[i]));
      }
      i := i + 1;
    }
    assert lines[..i] == lines;
    p := parse(tokens);
  }

  /**
   * `get_args_from_first_file_line`: `firstLine` is what `readline()` gave,
   * or `None` when the file does not exist.
   */
  function FirstLineArgs(parse: Parser, firstLine: Option<string>): (p: Parsed)
    ensures firstLine.None? ==> p == NoArgs
    ensures firstLine.Some? && IsSkippedLine(firstLine.value) ==> p == NoArgs
    ensures firstLine.Some? && !IsSkippedLine(firstLine.value)
      ==> p == parse(Words(Strip(firstLine.value)))
  {
    match firstLine
    case None => NoArgs
    case Some(line) =>
      var t := Strip(line);
      if t == [] || StartsWith(t, "#") then NoArgs else parse(Words(t))
  }

  // ---------------------------------------------------------------- setup_args

  /** What `open(config_path)` raises besides `FileNotFoundError`. */
  datatype SetupError = PathNotAString

  /** Reading the config at `path`, then merging: the `try` body of `setup_args`. */
  function LoadAndMerge(parse: Parser, startup: Parsed, readConfig: string -> Option<seq<string>>,
                        path: string): (r: Parsed)
    ensures readConfig(path).None? ==> r == startup
    ensures readConfig(path).Some? ==>
      var config := parse(ConfigTokens(readConfig(path).value));
      r == Parsed(Merged(config.known, startup.known), config.unknown + startup.unknown)
  {
    match readConfig(path)
    case None => startup
    case Some(lines) =>
      var config := parse(ConfigTokens(lines));
      Parsed(Merged(config.known, startup.known), config.unknown + startup.unknown)
  }

  /**
   * `setup_args` as written: `known.get("config_path") or default` is
   * handed to `open`. argparse stores every flag with `nargs="+"`, so a
   * given `--config_path` arrives as a list and `open` raises `TypeError`.
   */
  function SetupArgsAsWritten(parse: Parser, argv: seq<string>,
                              readConfig: string -> Option<seq<string>>,
                              defaultPath: string): Result<Parsed, SetupError>
  {
    var startup := parse(argv);
    var given := Get(startup.known, "config_path");
    if !Truthy(given) then Success(LoadAndMerge(parse, startup, readConfig, defaultPath))
    else if given.VStr? then Success(LoadAndMerge(parse, startup, readConfig, given.s))
    else Failure(PathNotAString)
  }

  /** A `--config_path x` on the command line makes `setup_args` fail. */
  lemma SetupArgsAsWrittenRejectsGivenPath(parse: Parser, argv: seq<string>,
                                           readConfig: string -> Option<seq<string>>,
                                           defaultPath: string, path: string)
    requires Get(parse(argv).known, "config_path") == VList([VStr(path)])
    ensures SetupArgsAsWritten(parse, argv, readConfig, defaultPath).Failure?
  {
  }

  /** The config path `setup_args` evidently means: the flag's first value, else the default. */
  function ConfigPath(given: Value, defaultPath: string): string {
    match given
    case VStr(s) => if s != [] then s else defaultPath
    case VList(items) => if items != [] && items[0].VStr? then items[0].s else defaultPath
    case _ => defaultPath
  }

  /**
   * `setup_args` with the path taken from the list: start-up known args
   * override config known args, and unknown args are the config's followed
   * by the start-up ones; without a config file only start-up args count.
   */
  function SetupArgs(parse: Parser, argv: seq<string>,
                     readConfig: string -> Option<seq<string>>,
                     defaultPath: string): (r: Parsed)
    ensures var startup := parse(argv);
      var path := ConfigPath(Get(startup.known, "config_path"), defaultPath);
      && (readConfig(path).None? ==> r == startup)
      && (readConfig(path).Some? ==>
            var config := parse(ConfigTokens(readConfig(path).value));
            && r.unknown == config.unknown + startup.unknown
            && (forall k :: k in startup.known && !Unset(startup.known[k])
                 ==> k in r.known && r.known[k] == startup.known[k])
            && (forall k :: k in config.known && (k !in startup.known || Unset(startup.known[k]))
                 ==> k in r.known && r.known[k] == config.known[k])
            && (forall k :: k in r.known ==> k in config.known || k in startup.known))
  {
    var startup := parse(argv);
    var path := ConfigPath(Get(startup.known, "config_path"), defaultPath);
    var r := LoadAndMerge(parse, startup, readConfig, path);
    assert readConfig(path).Some? ==>
      r.known == Merged(parse(ConfigTokens(readConfig(path).value)).known, startup.known);
    r
  }

  /** When the path is given, the corrected `setup_args` reads that file. */
  lemma SetupArgsReadsGivenPath(parse: Parser, argv: seq<string>,
                                readConfig: string -> Option<seq<string>>,
                                defaultPath: string, path: string)
    requires Get(parse(argv).known, "config_path") == VList([VStr(path)])
    ensures SetupArgs(parse, argv, readConfig, defaultPath)
            == LoadAndMerge(parse, parse(argv), readConfig, path)
  {
  }

  // ----------------------------------------------------------- flag heuristic

  /** `_looks_like_flag`. */
  function LooksLikeFlag(token: string): (r: bool)
    ensures r <==> |token| >= 2 && token[0] == '-' && !IsDigit(token[1]) && token[1] != '.'
  {
    if StartsWith(token, "--") && |token| > 2 then true
    else if StartsWith(token, "-") && |token| > 1 then !(IsDigit(token[1]) || token[1] == '.')
    else false
  }

  /** A token not starting with "-", or the lone "-", is never a flag; nor is a negative number. */
  lemma NonFlags(token: string)
    ensures (token == [] || token[0] != '-' || token == "-") ==> !LooksLikeFlag(token)
    ensures |token| >= 2 && token[0] == '-' && (IsDigit(token[1]) || token[1] == '.') ==> !LooksLikeFlag(token)
  {
  }

  // ---------------------------------------------------- clean_args_from_line

  /** The part of a token that is compared with the flags to remove. */
  function Head(tok: string): (h: string)
    ensures StartsWith(tok, "-") ==> '=' !in h && StartsWith(tok, h)
    ensures !StartsWith(tok, "-") ==> h == tok
  {
    if StartsWith(tok, "-") then BeforeFirst(tok, '=') else tok
  }

  /** The first index at or after `i` holding a flag-like token (or the end). */
  function SkipValues(tokens: seq<string>, i: nat): (j: nat)
    requires i <= |tokens|
    ensures i <= j <= |tokens|
    ensures forall k :: i <= k < j ==> !LooksLikeFlag(tokens[k])
    ensures j < |tokens| ==> LooksLikeFlag(tokens[j])
    decreases |tokens| - i
  {
    if i < |tokens| && !LooksLikeFlag(tokens[i]) then SkipValues(tokens, i + 1) else i
  }

  /** The tokens `clean_args_from_line` keeps. */
  function Cleaned(tokens: seq<string>, remove: set<string>): seq<string>
    decreases |tokens|
  {
    if tokens == [] then []
    else if Head(tokens[0]) in remove then
      if '=' in tokens[0] then Cleaned(tokens[1..], remove)
      else Cleaned(tokens[SkipValues(tokens, 1)..], remove)
    else [tokens[0]] + Cleaned(tokens[1..], remove)
  }

  /** The token loop of `clean_args_from_line`. */
  method CleanTokens(tokens: seq<string>, remove: set<string>) returns (out: seq<string>)
    ensures out == Cleaned(tokens, remove)
  {
    out := [];
    var i := 0;
    while i < |tokens|
      invariant 0 <= i <= |tokens|
      invariant out + Cleaned(tokens[i..], remove) == Cleaned(tokens, remove)
      decreases |tokens| - i
    {
      var tok := tokens[i];
      var head := if StartsWith(tok, "-") then BeforeFirst(tok, '=') else tok;
      if head in remove {
        var start := i;
        i := i + 1;
        if '=' in tok {
          assert tokens[start..][1..] == tokens[i..];
          continue;
        }
        i := SkipFlagValues(tokens, start);
        continue;
      }
      assert tokens[i..][1..] == tokens[i + 1..];
      out := out + [tok];
      i := i + 1;
    }
  }

  /** The values after a removed flag at `start`: the index of the next flag-like token, or the end. */
  method SkipFlagValues(tokens: seq<string>, start: nat) returns (i: nat)
    requires start < |tokens|
    ensures start + 1 <= i <= |tokens| && i - start == SkipValues(tokens[start..], 1)
    ensures tokens[start..][i - start..] == tokens[i..]
  {
    i := start + 1;
    while i < |tokens| && !LooksLikeFlag(tokens[i])
      invariant start + 1 <= i <= |tokens|
      invariant SkipValues(tokens[start..], i - start) == SkipValues(tokens[start..], 1)
      decreases |tokens| - i
    {
      assert tokens[start..][i - start] == tokens[i];
      i := i + 1;
    }
    assert SkipValues(tokens[start..], i - start) == i - start by {
      if i < |tokens| { assert tokens[start..][i - start] == tokens[i]; }
    }
  }

  /** `clean_args_from_line`, as a function of the line and the flags. */
  function CleanLine(line: string, flags: set<string>): string {
    var newline := if EndsWith(line, "\n") then "\n" else "";
    var raw := if newline != "" then line[..|line| - 1] else line;
    Join(Cleaned(Words(raw), flags), " ") + newline
  }

  /** `clean_args_from_line`. */
  method CleanArgsFromLine(line: string, flags: set<string>) returns (r: string)
    ensures r == CleanLine(line, flags)
    ensures EndsWith(r, "\n") <==> EndsWith(line, "\n")
  {
    var newline := if EndsWith(line, "\n") then "\n" else "";
    var raw := if newline != "" then line[..|line| - 1] else line;
    var out := CleanTokens(Words(raw), flags);
    r := (if out != [] then Join(out, " ") else "") + newline;
    CleanLineKeepsNewline(line, flags);
  }

  /** `a` is obtained from `b` by deleting elements. */
  predicate IsSubsequence(a: seq<string>, b: seq<string>)
    decreases |b|
  {
    a == [] || (b != [] && ((a[0] == b[0] && IsSubsequence(a[1..], b[1..])) || IsSubsequence(a, b[1..])))
  }

  lemma {:induction false} SubsequenceOfSuffix(a: seq<string>, b: seq<string>, k: nat)
    requires k <= |b| && IsSubsequence(a, b[k..])
    ensures IsSubsequence(a, b)
    decreases k
  {
    if k > 0 {
      assert b[k - 1..][1..] == b[k..];
      SubsequenceOfSuffix(a, b, k - 1);
    }
  }

  lemma {:induction false} SubsequenceMembers(a: seq<string>, b: seq<string>)
    requires IsSubsequence(a, b)
    ensures forall x :: x in a ==> x in b
    decreases |b|
  {
    if a != [] {
      if a[0] == b[0] && IsSubsequence(a[1..], b[1..]) {
        SubsequenceMembers(a[1..], b[1..]);
        assert a == [a[0]] + a[1..];
      } else {
        SubsequenceMembers(a, b[1..]);
      }
    }
  }

  /**
   * The kept tokens are a subsequence of the input, none of them has its
   * head in the removal set, and with nothing to remove nothing changes.
   */
  lemma {:induction false} CleanedProperties(tokens: seq<string>, remove: set<string>)
    ensures IsSubsequence(Cleaned(tokens, remove), tokens)
    ensures forall i :: 0 <= i < |Cleaned(tokens, remove)| ==> Head(Cleaned(tokens, remove)[i]) !in remove
    ensures (forall i :: 0 <= i < |tokens| ==> Head(tokens[i]) !in remove) ==> Cleaned(tokens, remove) == tokens
    decreases |tokens|
  {
    if tokens != [] {
      if Head(tokens[0]) in remove {
        var j := if '=' in tokens[0] then 1 else SkipValues(tokens, 1);
        CleanedProperties(tokens[j..], remove);
        SubsequenceOfSuffix(Cleaned(tokens, remove), tokens, j);
      } else {
        CleanedProperties(tokens[1..], remove);
        assert tokens == [tokens[0]] + tokens[1..];
        var rest := Cleaned(tokens[1..], remove);
        assert Cleaned(tokens, remove)[1..] == rest;
        assert (forall i :: 0 <= i < |tokens| ==> Head(tokens[i]) !in remove)
          ==> (forall i :: 0 <= i < |tokens[1..]| ==> Head(tokens[1..][i]) !in remove);
      }
    }
  }

  /** A removed bare flag takes every following non-flag token with it. */
  lemma CleanedDropsValues(tokens: seq<string>, remove: set<string>)
    requires tokens != [] && Head(tokens[0]) in remove && '=' !in tokens[0]
    ensures var j := SkipValues(tokens, 1);
      && (forall k :: 1 <= k < j ==> !LooksLikeFlag(tokens[k]))
      && (j < |tokens| ==> LooksLikeFlag(tokens[j]))
      && Cleaned(tokens, remove) == Cleaned(tokens[j..], remove)
  {
  }

  /** A removed `--flag=value` token goes alone. */
  lemma CleanedDropsAssignment(tokens: seq<string>, remove: set<string>)
    requires tokens != [] && Head(tokens[0]) in remove && '=' in tokens[0]
    ensures Cleaned(tokens, remove) == Cleaned(tokens[1..], remove)
  {
  }

  lemma {:induction false} JoinEndsWithLastWord(words: seq<string>)
    requires forall i :: 0 <= i < |words| ==> words[i] != []
    ensures words == [] <==> Join(words, " ") == []
    ensures words != [] ==> Join(words, " ")[|Join(words, " ")| - 1] == words[|words| - 1][|words[|words| - 1]| - 1]
  {
    if |words| > 1 {
      JoinEndsWithLastWord(words[1..]);
    }
  }

  /** The cleaned line ends with "\n" exactly when the input line did. */
  lemma CleanLineKeepsNewline(line: string, flags: set<string>)
    ensures EndsWith(CleanLine(line, flags), "\n") <==> EndsWith(line, "\n")
  {
    var newline := if EndsWith(line, "\n") then "\n" else "";
    var raw := if newline != "" then line[..|line| - 1] else line;
    var words := Words(raw);
    var out := Cleaned(words, flags);
    CleanedProperties(words, flags);
    SubsequenceMembers(out, words);
    forall i | 0 <= i < |out| ensures out[i] != [] && HasNoSpace(out[i]) {
      assert out[i] in words;
    }
    JoinEndsWithLastWord(out);
    if newline == "" && out != [] {
      var last := out[|out| - 1];
      assert !IsSpace(last[|last| - 1]);
    }
  }
}
