/**
 * The command runner (lucy_notes_manager/modules/cmd.py): every line of a
 * note carrying `--c <command...>` is replaced by a block holding the
 * command's output, and whatever else was written on that line is kept
 * after the block.
 *
 * Running a command is the parameter `exec` (tokens, working directory
 * and timeout to exit code, stdout and stderr), removing `--c ...` from a
 * line is the parameter `delete`, and the note's lines are the parameter
 * `file` (`None` when the note cannot be opened).
 */
module Cmd {
  import opened Wrappers
  import opened Text
  import opened Values
  import opened Pipeline
  import opened Paths
  import opened Sorting
  import opened Grouping
  import opened Splice

  /** The module's own flags, with their defaults. */
  const Template: seq<TemplateEntry> := [
    TemplateEntry("--c", "str", VNone, ""),
    TemplateEntry("--cmd-timeout", "int", VList([VInt(5)]), ""),
    TemplateEntry("--cmd-max-bytes", "int", VList([VInt(20000)]), ""),
    TemplateEntry("--cmd-show-stderr", "bool", VBool(true), ""),
    TemplateEntry("--cmd-show-stdout", "bool", VBool(true), "")
  ]

  const CmdModule := Module("cmd", 50, Template)

  /** One command to run: the 1-based line it was written on and its tokens. */
  datatype CmdRun = CmdRun(lineno: int, tokens: seq<string>)

  // ------------------------------------------------------------ collecting the runs

  /**
   * The `zip` of the values of `--c` with the lines they were written on,
   * each token as the flag of an occurrence on its line; nothing when the
   * values are missing, empty or not a list, or no line was recorded.
   */
  function TokenAdds(ctx: Context): (r: seq<Add>)
    ensures var v := Get(ctx.config, "c");
      var ls := LinesOf(ctx, "c");
      if Truthy(v) && v.VList? && ls != [] then
        && |r| == (if |v.items| < |ls| then |v.items| else |ls|)
        && forall i :: 0 <= i < |r| ==> r[i] == Add(ls[i], "c", Show(v.items[i]))
      else r == []
  {
    var v := Get(ctx.config, "c");
    var ls := LinesOf(ctx, "c");
    if !Truthy(v) || ls == [] || !v.VList? then []
    else
      var n := if |v.items| < |ls| then |v.items| else |ls|;
      seq(n, i requires 0 <= i < n => Add(ls[i], "c", Show(v.items[i])))
  }

  /** The tokens written on line `l`, in the order they were given. */
  function TokensOn(ctx: Context, l: int): seq<string> {
    FlagsAt(TokenAdds(ctx), l)
  }

  /** `[t for t in tokens if t != ""]`. */
  function NonEmptyTokens(ts: seq<string>): (r: seq<string>)
    ensures forall i :: 0 <= i < |r| ==> r[i] != "" && r[i] in ts
    ensures forall t :: t in ts && t != "" ==> t in r
  {
    if ts == [] then []
    else NonEmptyTokens(ts[..|ts| - 1]) + (if ts[|ts| - 1] != "" then [ts[|ts| - 1]] else [])
  }

  /** One run per key, in key order, for the keys whose non-empty tokens remain. */
  function RunsOver(keys: seq<int>, g: Groups): seq<CmdRun>
    requires forall k :: k in keys ==> k in g.flags
  {
    if keys == [] then []
    else
      var k := keys[|keys| - 1];
      var tokens := NonEmptyTokens(g.flags[k]);
      RunsOver(keys[..|keys| - 1], g) + (if tokens != [] then [CmdRun(k, tokens)] else [])
  }

  /** Every sorted key is a key of the grouping. */
  lemma SortedKeysKnown(g: Groups)
    requires WellFormed(g)
    ensures forall k :: k in SortAscending(g.lines) ==> k in g.flags
  {
    forall k | k in SortAscending(g.lines) ensures k in g.flags {
      assert k in multiset(SortAscending(g.lines));
    }
  }

  /** The runs `_collect_runs` returns. */
  function CollectedRuns(ctx: Context): seq<CmdRun> {
    var g := Grouped(TokenAdds(ctx));
    SortedKeysKnown(g);
    RunsOver(SortAscending(g.lines), g)
  }

  /**
   * `_collect_runs`: the tokens are grouped by their line, the lines taken
   * in ascending order, and a line gives a run when a non-empty token is
   * left on it.
   */
  method CollectRuns(ctx: Context) returns (runs: seq<CmdRun>)
    ensures runs == CollectedRuns(ctx)
  {
    var values := Get(ctx.config, "c");
    var lineNums := LinesOf(ctx, "c");
    if !Truthy(values) || lineNums == [] {
      return [];
    }
    if !values.VList? {
      return [];
    }
    var byLine := AddEach(NoGroups, TokenAdds(ctx));
    var keys := SortAscending(byLine.lines);
    SortedKeysKnown(byLine);
    runs := [];
    var i := 0;
    while i < |keys|
      invariant 0 <= i <= |keys|
      invariant runs == RunsOver(keys[..i], byLine)
    {
      assert keys[..i + 1][..i] == keys[..i];
      var tokens := NonEmptyTokens(byLine.flags[keys[i]]);
      if tokens != [] {
        runs := runs + [CmdRun(keys[i], tokens)];
      }
      i := i + 1;
    }
    assert keys[..i] == keys;
  }

  /** Line numbers strictly increasing. */
  predicate RunsRising(runs: seq<CmdRun>) {
    forall i :: 0 < i < |runs| ==> runs[i - 1].lineno < runs[i].lineno
  }

  /** Each run over a list of keys is a key with its non-empty tokens, at least one. */
  lemma {:induction false} RunsOverFacts(keys: seq<int>, g: Groups)
    requires forall k :: k in keys ==> k in g.flags
    ensures forall i :: 0 <= i < |RunsOver(keys, g)| ==>
      && RunsOver(keys, g)[i].lineno in keys
      && RunsOver(keys, g)[i].tokens == NonEmptyTokens(g.flags[RunsOver(keys, g)[i].lineno])
      && RunsOver(keys, g)[i].tokens != []
  {
    if keys != [] {
      var init := keys[..|keys| - 1];
      var k := keys[|keys| - 1];
      var tokens := NonEmptyTokens(g.flags[k]);
      RunsOverFacts(init, g);
      var before := RunsOver(init, g);
      var runs := RunsOver(keys, g);
      assert runs == before + (if tokens != [] then [CmdRun(k, tokens)] else []);
      forall i | 0 <= i < |runs| ensures runs[i].lineno in keys {
        if i < |before| {
          assert runs[i] == before[i] && before[i].lineno in init;
        }
      }
    }
  }

  /** Every key with a non-empty token gives a run. */
  lemma {:induction false} RunsOverCovers(keys: seq<int>, g: Groups, k: int)
    requires forall k :: k in keys ==> k in g.flags
    requires k in keys && NonEmptyTokens(g.flags[k]) != []
    ensures exists i :: 0 <= i < |RunsOver(keys, g)| && RunsOver(keys, g)[i].lineno == k
  {
    var init := keys[..|keys| - 1];
    var last := keys[|keys| - 1];
    var tokens := NonEmptyTokens(g.flags[last]);
    var before := RunsOver(init, g);
    var runs := RunsOver(keys, g);
    assert runs == before + (if tokens != [] then [CmdRun(last, tokens)] else []);
    if k == last {
      assert runs[|runs| - 1].lineno == k;
    } else {
      assert keys == init + [last];
      assert k in init;
      RunsOverCovers(init, g, k);
      var i :| 0 <= i < |before| && before[i].lineno == k;
      assert runs[i] == before[i];
    }
  }

  /** Rising keys give rising runs, none past the last key. */
  lemma {:induction false} RunsOverRising(keys: seq<int>, g: Groups)
    requires forall k :: k in keys ==> k in g.flags
    requires forall i :: 0 < i < |keys| ==> keys[i - 1] < keys[i]
    ensures RunsRising(RunsOver(keys, g))
    ensures keys != [] ==> forall i :: 0 <= i < |RunsOver(keys, g)| ==> RunsOver(keys, g)[i].lineno <= keys[|keys| - 1]
  {
    if keys != [] {
      var init := keys[..|keys| - 1];
      var k := keys[|keys| - 1];
      var tokens := NonEmptyTokens(g.flags[k]);
      RunsOverRising(init, g);
      var before := RunsOver(init, g);
      var runs := RunsOver(keys, g);
      assert runs == before + (if tokens != [] then [CmdRun(k, tokens)] else []);
      if init != [] {
        assert init[|init| - 1] < k;
      }
    }
  }

  /** A line some token is written on is named by an occurrence. */
  lemma TokensOnSome(adds: seq<Add>, l: int)
    requires FlagsAt(adds, l) != []
    ensures exists i :: 0 <= i < |adds| && adds[i].line == l
  {
    if forall i :: 0 <= i < |adds| ==> adds[i].line != l {
      FlagsAtAbsent(adds, l);
    }
  }

  /** The collected runs rise strictly by line. */
  lemma CollectedRunsRising(ctx: Context)
    ensures RunsRising(CollectedRuns(ctx))
  {
    var g := Grouped(TokenAdds(ctx));
    assert Distinct(g.lines);
    SortedKeysKnown(g);
    SortedKeysRising(g.lines);
    RunsOverRising(SortAscending(g.lines), g);
  }

  /** Each collected run holds exactly the non-empty tokens written on its line, at least one. */
  lemma CollectedRunsTokens(ctx: Context)
    ensures forall i :: 0 <= i < |CollectedRuns(ctx)| ==>
      && CollectedRuns(ctx)[i].tokens == NonEmptyTokens(TokensOn(ctx, CollectedRuns(ctx)[i].lineno))
      && CollectedRuns(ctx)[i].tokens != []
  {
    var adds := TokenAdds(ctx);
    var g := Grouped(adds);
    var keys := SortAscending(g.lines);
    var runs := CollectedRuns(ctx);
    SortedKeysKnown(g);
    RunsOverFacts(keys, g);
    forall i | 0 <= i < |runs|
      ensures runs[i].tokens == NonEmptyTokens(TokensOn(ctx, runs[i].lineno))
    {
      var l := runs[i].lineno;
      assert l in multiset(keys);
      assert l in g.lines;
      GroupedFlags(adds, l);
    }
  }

  /** Every line holding a non-empty token gives a collected run. */
  lemma CollectedRunsCover(ctx: Context, l: int)
    requires NonEmptyTokens(TokensOn(ctx, l)) != []
    ensures exists i :: 0 <= i < |CollectedRuns(ctx)| && CollectedRuns(ctx)[i].lineno == l
  {
    var adds := TokenAdds(ctx);
    var g := Grouped(adds);
    var keys := SortAscending(g.lines);
    SortedKeysKnown(g);
    TokensOnSome(adds, l);
    var i :| 0 <= i < |adds| && adds[i].line == l;
    GroupedHas(adds, i);
    GroupedFlags(adds, l);
    assert l in multiset(g.lines);
    assert l in keys;
    RunsOverCovers(keys, g, l);
    assert CollectedRuns(ctx) == RunsOver(keys, g);
  }

  /** Missing, empty or non-list values, or no recorded lines, give no runs. */
  lemma CollectedRunsNone(ctx: Context)
    requires var v := Get(ctx.config, "c");
      !Truthy(v) || !v.VList? || LinesOf(ctx, "c") == []
    ensures CollectedRuns(ctx) == []
  {
    assert TokenAdds(ctx) == [];
    assert Grouped([]) == NoGroups;
  }

  /** Every run's line is a line `--c` was recorded on. */
  lemma RunLinesRecorded(ctx: Context)
    ensures forall i :: 0 <= i < |CollectedRuns(ctx)| ==> CollectedRuns(ctx)[i].lineno in LinesOf(ctx, "c")
  {
    var runs := CollectedRuns(ctx);
    var adds := TokenAdds(ctx);
    CollectedRunsTokens(ctx);
    forall i | 0 <= i < |runs| ensures runs[i].lineno in LinesOf(ctx, "c") {
      TokensOnSome(adds, runs[i].lineno);
      var k :| 0 <= k < |adds| && adds[k].line == runs[i].lineno;
      assert LinesOf(ctx, "c")[k] == adds[k].line;
    }
  }

  // ------------------------------------------------------------ clipping output to a byte budget

  /** Bytes of a code point in UTF-8. */
  function Utf8Len(c: char): (n: nat)
    ensures 1 <= n <= 4
  {
    if c as int < 0x80 then 1 else if c as int < 0x800 then 2 else if c as int < 0x1_0000 then 3 else 4
  }

  /** `len(s.encode("utf-8"))`. */
  function EncodedLen(s: string): nat {
    if s == [] then 0 else Utf8Len(s[0]) + EncodedLen(s[1..])
  }

  lemma {:induction false} EncodedLenAppend(a: string, b: string)
    ensures EncodedLen(a + b) == EncodedLen(a) + EncodedLen(b)
  {
    if a != [] {
      assert (a + b)[1..] == a[1..] + b;
      EncodedLenAppend(a[1..], b);
    } else {
      assert a + b == b;
    }
  }

  /** How many leading code points fit in `budget` bytes: the longest prefix that does. */
  function FitCount(s: string, budget: nat): (k: nat)
    ensures k <= |s| && EncodedLen(s[..k]) <= budget
    ensures k < |s| ==> EncodedLen(s[..k + 1]) > budget
  {
    if s == [] || Utf8Len(s[0]) > budget then
      assert s != [] ==> EncodedLen(s[..1]) == Utf8Len(s[0]) by {
        if s != [] {
          assert s[..1][1..] == [];
        }
      }
      0
    else
      var k := 1 + FitCount(s[1..], budget - Utf8Len(s[0]));
      assert s[..k] == [s[0]] + s[1..][..k - 1];
      EncodedLenAppend([s[0]], s[1..][..k - 1]);
      if k < |s| then
        assert s[..k + 1] == [s[0]] + s[1..][..k];
        EncodedLenAppend([s[0]], s[1..][..k]);
        k
      else k
  }

  const ClipMarker: string := "\n\U{2026}(clipped)\U{2026}\n"

  /** What a UTF-8 decoder in replace mode puts for a cut-off character. */
  const Replacement: char := '\U{FFFD}'

  /**
   * `_clip`: the first `maxBytes` bytes of the UTF-8 text decoded back,
   * a character cut in the middle becoming one replacement character,
   * followed by the clipping marker.
   */
  function Clip(s: string, maxBytes: int): (r: string) {
    if maxBytes <= 0 then ""
    else if EncodedLen(s) <= maxBytes then s
    else
      var k := FitCount(s, maxBytes);
      s[..k] + (if EncodedLen(s[..k]) < maxBytes then [Replacement] else []) + ClipMarker
  }

  /**
   * No budget gives nothing; text that fits is kept whole; otherwise the
   * result is the longest prefix whose encoding fits, one replacement
   * character exactly when the cut falls inside a character, and the
   * marker, so it ends with a newline.
   */
  lemma ClipSpec(s: string, maxBytes: int)
    ensures maxBytes <= 0 ==> Clip(s, maxBytes) == ""
    ensures maxBytes > 0 && EncodedLen(s) <= maxBytes ==> Clip(s, maxBytes) == s
    ensures maxBytes > 0 && EncodedLen(s) > maxBytes ==>
      exists k: nat, cut: string ::
        && k < |s| && EncodedLen(s[..k]) <= maxBytes < EncodedLen(s[..k + 1])
        && (cut == [Replacement] <==> EncodedLen(s[..k]) < maxBytes)
        && (cut == [] <==> EncodedLen(s[..k]) == maxBytes)
        && Clip(s, maxBytes) == s[..k] + cut + ClipMarker
    ensures maxBytes > 0 && EncodedLen(s) > maxBytes ==> EndsNewline(Clip(s, maxBytes))
  {
    if maxBytes > 0 && EncodedLen(s) > maxBytes {
      var k := FitCount(s, maxBytes);
      assert k < |s| by {
        assert s[..|s|] == s;
      }
      var cut := if EncodedLen(s[..k]) < maxBytes then [Replacement] else [];
      assert Clip(s, maxBytes) == s[..k] + cut + ClipMarker;
      var r := Clip(s, maxBytes);
      assert r[|r| - 1..] == "\n";
    }
  }

  // ------------------------------------------------------------ the output block

  /** The block's title line: the command's first token, or "cmd". */
  function Header(tokens: seq<string>): string {
    "--- " + (if tokens != [] then tokens[0] else "cmd") + " ---\n"
  }

  /** A piece of output as lines of the block: a newline is added when it lacks one. */
  predicate EndsNewline(c: string) {
    c != [] && c[|c| - 1] == '\n'
  }

  function Terminated(c: string): (r: seq<string>)
    ensures 1 <= |r| <= 2 && r[0] == c && EndsNewline(r[|r| - 1])
  {
    if EndsNewline(c) then [c] else [c, "\n"]
  }

  /** An output stream's lines when it is shown and not empty, else nothing. */
  function Shown(show: bool, text: string, maxBytes: int): seq<string> {
    if show && text != "" then Terminated(Clip(text, maxBytes)) else []
  }

  /**
   * The block around the shown streams: the title, then stdout, a blank
   * line when stdout's last line is not blank and stderr follows, stderr,
   * or "(empty)" when neither is shown; then a closing blank line.
   */
  function Layout(tokens: seq<string>, o: seq<string>, e: seq<string>): (r: seq<string>)
    ensures |r| >= 3 && r[0] == Header(tokens) && r[|r| - 1] == "\n"
  {
    [Header(tokens)] + (if o == [] && e == [] then ["(empty)\n"] else o + Parting(o, e) + e) + ["\n"]
  }

  /** The blank line between the streams: both shown and stdout's last line not blank. */
  function Parting(o: seq<string>, e: seq<string>): seq<string> {
    if o != [] && e != [] && !IsBlank(o[|o| - 1]) then ["\n"] else []
  }

  /** `_build_block` described by its parts. */
  function Block(tokens: seq<string>, out: string, err: string, showOut: bool, showErr: bool, maxBytes: int): (r: seq<string>)
    ensures |r| >= 3 && r[0] == Header(tokens) && r[|r| - 1] == "\n"
  {
    Layout(tokens, Shown(showOut, out, maxBytes), Shown(showErr, err, maxBytes))
  }

  /** `out.append(_clip(text))`, then a newline when the clipped text lacks one. */
  method AppendClipped(out: seq<string>, text: string, maxBytes: int) returns (r: seq<string>)
    ensures r == out + Terminated(Clip(text, maxBytes))
  {
    r := out + [Clip(text, maxBytes)];
    if !EndsNewline(r[|r| - 1]) {
      r := r + ["\n"];
    }
  }

  /**
   * `_build_block` as the source writes it, appending to a list and
   * looking back at its last line.
   */
  method BuildBlock(tokens: seq<string>, stdout: string, stderr: string, showOut: bool, showErr: bool, maxBytes: int)
    returns (out: seq<string>)
    ensures out == Block(tokens, stdout, stderr, showOut, showErr, maxBytes)
  {
    ghost var o := Shown(showOut, stdout, maxBytes);
    ghost var e := Shown(showErr, stderr, maxBytes);
    var wroteAny;
    out, wroteAny := AppendOut([Header(tokens)], stdout, showOut, maxBytes);
    out, wroteAny := AppendErr(out, wroteAny, stderr, showErr, maxBytes, [Header(tokens)], o);
    out := CloseBlock(out, wroteAny, tokens, o, e);
  }

  /** The stdout half of `_build_block`: the clipped stdout when it is shown and not empty. */
  method AppendOut(out: seq<string>, stdout: string, showOut: bool, maxBytes: int) returns (out': seq<string>, wrote: bool)
    ensures out' == out + Shown(showOut, stdout, maxBytes) && (wrote <==> Shown(showOut, stdout, maxBytes) != [])
  {
    out', wrote := out, false;
    if showOut && stdout != "" {
      out' := AppendClipped(out, stdout, maxBytes);
      wrote := true;
    }
  }

  /** The end of `_build_block`: "(empty)" when nothing was written, then the closing blank line. */
  method CloseBlock(out: seq<string>, wroteAny: bool, ghost tokens: seq<string>, ghost o: seq<string>, ghost e: seq<string>)
    returns (out': seq<string>)
    requires out == [Header(tokens)] + o + Parting(o, e) + e && (wroteAny <==> o != [] || e != [])
    ensures out' == Layout(tokens, o, e)
  {
    out' := out;
    if !wroteAny {
      assert out == [Header(tokens)];
      out' := out' + ["(empty)\n"];
    }
    out' := out' + ["\n"];
  }

  /** The stderr half of `_build_block`: the parting blank line when needed, then the clipped stderr. */
  method AppendErr(out: seq<string>, wroteAny: bool, stderr: string, showErr: bool, maxBytes: int,
                   ghost head: seq<string>, ghost o: seq<string>)
    returns (out': seq<string>, wrote: bool)
    requires head != [] && out == head + o && (wroteAny <==> o != [])
    ensures var e := Shown(showErr, stderr, maxBytes);
      out' == head + o + Parting(o, e) + e && (wrote <==> o != [] || e != [])
  {
    ghost var e := Shown(showErr, stderr, maxBytes);
    out', wrote := out, wroteAny;
    if showErr && stderr != "" {
      assert e == Terminated(Clip(stderr, maxBytes));
      if wroteAny && !IsBlank(out[|out| - 1]) {
        assert out[|out| - 1] == o[|o| - 1];
        out' := out + ["\n"];
      }
      out' := AppendClipped(out', stderr, maxBytes);
      wrote := true;
    }
  }

  /**
   * The block opens with the title and closes with a blank line; with
   * nothing to show it reads "(empty)"; shown stdout comes right after the
   * title, shown stderr right before the closing line (with its added
   * newline), and a blank line parts them exactly when stdout's last line
   * is not blank.
   */
  lemma BlockSpec(tokens: seq<string>, out: string, err: string, showOut: bool, showErr: bool, maxBytes: int)
    ensures var r := Block(tokens, out, err, showOut, showErr, maxBytes);
      var o := Shown(showOut, out, maxBytes);
      var e := Shown(showErr, err, maxBytes);
      && r[0] == "--- " + (if tokens != [] then tokens[0] else "cmd") + " ---\n"
      && r[|r| - 1] == "\n"
      && (o == [] && e == [] ==> r == [r[0], "(empty)\n", "\n"])
      && (showOut && out != "" ==> r[1] == Clip(out, maxBytes))
      && (showErr && err != "" ==> |r| - 1 - |e| >= 1 && r[|r| - 1 - |e|] == Clip(err, maxBytes))
      && (o != [] && e != [] ==>
            r[1..|r| - 1] == o + (if IsBlank(o[|o| - 1]) then [] else ["\n"]) + e)
  {
  }

  // ------------------------------------------------------------ applying the runs

  /** `int(...)` raised on a setting. */
  datatype CmdError = NotAnInteger(key: string)

  /**
   * `int(x[0]) if x is a list else int(x)` where `x` is the setting, or
   * `[default]` when the setting is falsy.
   */
  function IntSetting(config: map<string, Value>, key: string, default: int): (r: Result<int, CmdError>)
    ensures !Truthy(Get(config, key)) ==> r == Success(default)
    ensures Get(config, key) == VInt(default) ==> r == Success(default)
    ensures r.Failure? ==> r.error == NotAnInteger(key)
    ensures var raw := Get(config, key); Truthy(raw) && raw.VInt? ==> r == Success(raw.i)
    ensures var raw := Get(config, key); Truthy(raw) && raw.VBool? ==> r == Success(1)
    ensures var raw := Get(config, key); Truthy(raw) && raw.VStr? ==>
      (r.Success? <==> IsSignedGroup(Strip(raw.s))) && (r.Success? ==> ParseInt(raw.s) == Some(r.value))
    ensures var raw := Get(config, key); Truthy(raw) && raw.VList? ==>
      (r.Success? <==> IntOf(raw.items[0]).Some?) && (r.Success? ==> IntOf(raw.items[0]) == Some(r.value))
    ensures var raw := Get(config, key); Truthy(raw) && raw.VFloat? ==> r.Failure?
  {
    var raw := Get(config, key);
    var v := if Truthy(raw) then raw else VList([VInt(default)]);
    var x := if v.VList? then v.items[0] else v;
    match IntOf(x)
    case Some(i) => Success(i)
    case None => Failure(NotAnInteger(key))
  }

  /** A setting holding an integer's decimal text, alone or first in a list, reads back as that integer. */
  lemma IntSettingReadsPrinted(config: map<string, Value>, key: string, n: int, rest: seq<Value>, default: int)
    requires key in config
    requires config[key] == VStr(IntToString(n)) || config[key] == VList([VStr(IntToString(n))] + rest)
    ensures IntSetting(config, key, default) == Success(n)
  {
    var v := VStr(IntToString(n));
    PrintedIntOf(n);
    if config[key] == v {
      assert Truthy(v) && IntSetting(config, key, default) == Success(n);
    } else {
      assert config[key].items[0] == v;
    }
  }

  lemma PrintedIntOf(n: int)
    ensures Truthy(VStr(IntToString(n))) && IntOf(VStr(IntToString(n))) == Some(n)
  {
    ParseIntRoundTrip(n);
  }

  /** What `_apply` reads from the config before touching the note. */
  datatype Settings = Settings(timeout: int, maxBytes: int, showOut: bool, showErr: bool)

  /** The timeout is read first, so its error wins. */
  function ReadSettings(config: map<string, Value>): Result<Settings, CmdError> {
    match IntSetting(config, "cmd_timeout", 5)
    case Failure(e) => Failure(e)
    case Success(timeout) =>
      match IntSetting(config, "cmd_max_bytes", 20000)
      case Failure(e) => Failure(e)
      case Success(maxBytes) =>
        Success(Settings(timeout, maxBytes, Truthy(Get(config, "cmd_show_stdout")), Truthy(Get(config, "cmd_show_stderr"))))
  }

  /** `_run_cmd`: tokens, working directory and timeout to exit code, stdout and stderr. */
  type Executor = (seq<string>, string, int) -> (int, string, string)

  /** The splice site of one run: its line, its output block, and `--c` to remove. */
  function RunSite(run: CmdRun, exec: Executor, cwd: string, st: Settings): (s: Site)
    ensures s.lineno == run.lineno && s.block != [] && s.flags == ["--c"]
  {
    var (_, out, err) := exec(run.tokens, cwd, st.timeout);
    Site(run.lineno, Block(run.tokens, out, err, st.showOut, st.showErr, st.maxBytes), ["--c"])
  }

  /** The sites of the runs from the last line up: `sorted(runs, reverse=True)` on rising lines. */
  function CmdSites(runs: seq<CmdRun>, exec: Executor, cwd: string, st: Settings): (sites: seq<Site>)
    ensures |sites| == |runs| && BlocksNonEmpty(sites)
    ensures forall i :: 0 <= i < |sites| ==> sites[i] == RunSite(runs[|runs| - 1 - i], exec, cwd, st)
  {
    var sites := seq(|runs|, i requires 0 <= i < |runs| => RunSite(runs[|runs| - 1 - i], exec, cwd, st));
    AllBlocksNonEmpty(sites);
    sites
  }

  /**
   * What `_apply` gives: nothing without runs; the error of a setting that
   * is not an integer; nothing when the note cannot be opened; otherwise
   * the note with every run's line spliced, bottom-up, and one event to
   * swallow for it.
   */
  function Outcome(ctx: Context, file: Option<seq<string>>, exec: Executor, delete: Deleter)
    : Result<Option<(seq<string>, IgnoreMap)>, CmdError>
  {
    var runs := CollectedRuns(ctx);
    if runs == [] then Success(None)
    else
      match ReadSettings(ctx.config)
      case Failure(e) => Failure(e)
      case Success(st) =>
        if file.None? then Success(None)
        else
          var sites := CmdSites(runs, exec, Dirname(ctx.path), st);
          Success(Some((SpliceAll(NonEmpty(file.value), sites, delete, Plain), map[ctx.path := 1])))
  }

  /** `_apply`: runs every command from the bottom of the note up and splices its block in. */
  method Apply(ctx: Context, file: Option<seq<string>>, exec: Executor, delete: Deleter)
    returns (r: Result<Option<(seq<string>, IgnoreMap)>, CmdError>)
    ensures r == Outcome(ctx, file, exec, delete)
  {
    var runs := CollectRuns(ctx);
    if runs == [] {
      return Success(None);
    }
    var timeout := IntSetting(ctx.config, "cmd_timeout", 5);
    if timeout.Failure? {
      return Failure(timeout.error);
    }
    var maxBytes := IntSetting(ctx.config, "cmd_max_bytes", 20000);
    if maxBytes.Failure? {
      return Failure(maxBytes.error);
    }
    var showOut := Truthy(Get(ctx.config, "cmd_show_stdout"));
    var showErr := Truthy(Get(ctx.config, "cmd_show_stderr"));
    if file.None? {
      return Success(None);
    }
    var st := Settings(timeout.value, maxBytes.value, showOut, showErr);
    var lines := SpliceRuns(NonEmpty(file.value), runs, exec, Dirname(ctx.path), st, delete);
    return Success(Some((lines, map[ctx.path := 1])));
  }

  /** The loop of `_apply`: each run, from the last one up, executed and its block spliced in. */
  method SpliceRuns(file: seq<string>, runs: seq<CmdRun>, exec: Executor, cwd: string, st: Settings, delete: Deleter)
    returns (lines: seq<string>)
    requires file != []
    ensures lines == SpliceAll(file, CmdSites(runs, exec, cwd, st), delete, Plain)
  {
    lines := file;
    ghost var sites := CmdSites(runs, exec, cwd, st);
    BlocksSuffix(sites, 0);
    var j := 0;
    while j < |runs|
      invariant 0 <= j <= |runs| && lines != [] && BlocksNonEmpty(sites[j..])
      invariant SpliceAll(lines, sites[j..], delete, Plain) == SpliceAll(file, sites, delete, Plain)
    {
      var site := BuildSite(runs[|runs| - 1 - j], exec, cwd, st);
      var next, _ := SpliceAt(lines, site, delete, Plain);
      SpliceLoopStep(file, lines, next, sites, j, delete, Plain);
      lines := next;
      j := j + 1;
    }
    assert sites[j..] == [];
  }

  /** One run: the command is executed and its output block built. */
  method BuildSite(run: CmdRun, exec: Executor, cwd: string, st: Settings) returns (site: Site)
    ensures site == RunSite(run, exec, cwd, st)
  {
    var (_, out, err) := exec(run.tokens, cwd, st.timeout);
    var block := BuildBlock(run.tokens, out, err, st.showOut, st.showErr, st.maxBytes);
    site := Site(run.lineno, block, ["--c"]);
  }

  /** The module's event hooks: a deleted note is gone, every other event applies the runs. */
  method OnEvent(kind: EventKind, ctx: Context, file: Option<seq<string>>, exec: Executor, delete: Deleter)
    returns (r: Result<Option<(seq<string>, IgnoreMap)>, CmdError>)
    ensures kind == Deleted ==> r == Success(None)
    ensures kind != Deleted ==> r == Outcome(ctx, file, exec, delete)
  {
    if kind == Deleted {
      return Success(None);
    }
    r := Apply(ctx, file, exec, delete);
  }

  /**
   * When every `--c` sits on a line of the note, the runs are spliced
   * from the bottom up, so the result is the reference one: every run's
   * line replaced by its block (and its leftover text), every other line
   * kept.
   */
  lemma CmdBottomUp(ctx: Context, file: seq<string>, exec: Executor, st: Settings, delete: Deleter)
    requires forall l :: l in LinesOf(ctx, "c") ==> 1 <= l <= |NonEmpty(file)|
    ensures var sites := CmdSites(CollectedRuns(ctx), exec, Dirname(ctx.path), st);
      && BottomUp(sites, |NonEmpty(file)|)
      && SpliceAll(NonEmpty(file), sites, delete, Plain) == Rebuilt(NonEmpty(file), sites, delete, Plain)
  {
    var runs := CollectedRuns(ctx);
    var sites := CmdSites(runs, exec, Dirname(ctx.path), st);
    var n := |NonEmpty(file)|;
    CollectedRunsRising(ctx);
    RunLinesRecorded(ctx);
    ReversedBottomUp(runs, sites, n);
    BottomUpSplice(NonEmpty(file), sites, delete, Plain);
  }

  /** Sites at the lines of rising runs, taken in reverse, are bottom-up. */
  lemma ReversedBottomUp(runs: seq<CmdRun>, sites: seq<Site>, n: nat)
    requires RunsRising(runs) && forall i :: 0 <= i < |runs| ==> 1 <= runs[i].lineno <= n
    requires |sites| == |runs| && forall i :: 0 <= i < |sites| ==> sites[i].lineno == runs[|runs| - 1 - i].lineno
    ensures BottomUp(sites, n)
  {
    var keys := seq(|sites|, i requires 0 <= i < |sites| => sites[i].lineno);
    forall i | 0 < i < |keys| ensures keys[i - 1] > keys[i] {
      assert keys[i - 1] == runs[|runs| - i].lineno;
      assert keys[i] == runs[|runs| - 1 - i].lineno;
    }
    KeyedBottomUp(sites, keys, n);
  }

  /**
   * A result is written exactly when there are runs, the settings are
   * integers and the note exists; it then names the note once.
   */
  lemma OutcomeSpec(ctx: Context, file: Option<seq<string>>, exec: Executor, delete: Deleter)
    ensures var r := Outcome(ctx, file, exec, delete);
      && (r.Failure? <==> CollectedRuns(ctx) != [] && ReadSettings(ctx.config).Failure?)
      && (r.Success? && r.value.Some? <==>
            CollectedRuns(ctx) != [] && ReadSettings(ctx.config).Success? && file.Some?)
      && (r.Success? && r.value.Some? ==> r.value.value.1 == map[ctx.path := 1])
  {
  }
}
