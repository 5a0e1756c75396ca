/**
 * The `sys` module (lucy_notes_manager/modules/sys.py): flags written in a
 * note (`--mods`, `--config`, `--help`, `--sys-event`, `--man <what>`) are
 * replaced in place by a report block. Options are grouped per line,
 * lines are processed bottom-up, and line 1 keeps its remaining text
 * above a separator.
 *
 * The clock (`datetime.now`) is the parameter `now`; removing flags from a
 * line (`delete_args_from_string`) is the parameter `delete`; the note's
 * lines are the parameter `file` (empty when the note is missing).
 */
module SysModule {
  import opened Wrappers
  import opened Text
  import opened Values
  import opened Args
  import opened Pipeline
  import opened Reports
  import opened Grouping
  import opened Sorting
  import opened Splice

  /** The module's own flags. */
  const Template: seq<TemplateEntry> := [
    TemplateEntry("--mods", "bool", VBool(false), "Print loaded modules and their priorities."),
    TemplateEntry("--config", "bool", VBool(false), "Print config values that differ from defaults (and where they were set)."),
    TemplateEntry("--man", "str", VNone, "Argument manual. Use: --man list OR --man full OR --man <name> (example: --man todo)."),
    TemplateEntry("--help", "bool", VBool(false), "Print SysInfo commands help: --mods, --man, --config."),
    TemplateEntry("--sys-event", "bool", VBool(false), "Print current filesystem event details.")
  ]

  const CommandHelp: seq<string> := [
    "* --mods: print loaded modules and their priorities\n",
    "* --config: print config values that differ from defaults\n",
    "* --man list: print all arguments (no descriptions)\n",
    "* --man full: print all arguments with descriptions\n",
    "* --man <name>: print one argument with description (example: --man todo)\n"
  ]

  // ------------------------------------------------------------ names

  predicate NoUpper(s: string) {
    forall i :: 0 <= i < |s| ==> !('A' <= s[i] <= 'Z')
  }

  /** `_normalize_arg_name`: strip, drop leading dashes, strip again, lower-case. */
  function NormalizeArgName(raw: string): (r: string)
    ensures IsBlank(raw) ==> r == ""
    ensures r != [] ==> !IsSpace(r[0]) && !IsSpace(r[|r| - 1])
    ensures NoUpper(r)
  {
    var text := Strip(raw);
    if text == [] then ""
    else
      var t := Strip(LStripChar(text, '-'));
      LowerShape(t);
      Lower(t)
  }

  lemma LowerCharKeepsSpace(c: char)
    ensures IsSpace(LowerChar(c)) == IsSpace(c)
    ensures !('A' <= LowerChar(c) <= 'Z')
  {
  }

  /** Lower-casing keeps where the spaces are and leaves no upper-case letter. */
  lemma LowerShape(t: string)
    requires t != [] ==> !IsSpace(t[0]) && !IsSpace(t[|t| - 1])
    ensures var r := Lower(t);
      && (r != [] ==> !IsSpace(r[0]) && !IsSpace(r[|r| - 1]))
      && NoUpper(r)
  {
    var r := Lower(t);
    forall i | 0 <= i < |r| ensures !('A' <= r[i] <= 'Z') && (IsSpace(r[i]) == IsSpace(t[i])) {
      LowerCharKeepsSpace(t[i]);
    }
  }

  lemma LowerKeeps(s: string)
    requires NoUpper(s)
    ensures Lower(s) == s
  {
  }

  lemma NormalizeSteps(raw: string, name: string)
    requires Strip(raw) != [] && LStripChar(Strip(raw), '-') == name
    requires Strip(name) == name && Lower(name) == name
    ensures NormalizeArgName(raw) == name
  {
  }

  lemma DropDashes(name: string)
    requires name != [] && name[0] != '-'
    ensures LStripChar(name, '-') == name
    ensures LStripChar("--" + name, '-') == name
  {
    var flag := "--" + name;
    assert flag[1..] == "-" + name && flag[2..] == name;
  }

  lemma PlainNameStrips(name: string)
    requires name != [] && HasNoSpace(name)
    ensures Strip(name) == name && Strip("--" + name) == "--" + name
  {
    assert !IsSpace(name[0]) && !IsSpace(name[|name| - 1]);
    StripKeeps(name);
    var flag := "--" + name;
    assert flag[|flag| - 1] == name[|name| - 1];
    StripKeeps(flag);
  }

  /** A plain lower-case name is found both as itself and as its flag `--name`. */
  lemma NormalizeFlagName(name: string)
    requires name != [] && name[0] != '-' && HasNoSpace(name) && NoUpper(name)
    ensures NormalizeArgName(name) == name
    ensures NormalizeArgName("--" + name) == name
  {
    PlainNameStrips(name);
    DropDashes(name);
    LowerKeeps(name);
    NormalizeSteps(name, name);
    NormalizeSteps("--" + name, name);
  }

  /** The non-empty names, in order. */
  function NonEmptyOnly(names: seq<string>): (r: seq<string>)
    ensures forall x :: x in r <==> x in names && x != ""
  {
    if names == [] then []
    else
      assert names == [names[0]] + names[1..];
      (if names[0] != "" then [names[0]] else []) + NonEmptyOnly(names[1..])
  }

  function NormalizeAll(requests: seq<string>): (r: seq<string>)
    ensures |r| == |requests| && forall i :: 0 <= i < |r| ==> r[i] == NormalizeArgName(requests[i])
  {
    seq(|requests|, i requires 0 <= i < |requests| => NormalizeArgName(requests[i]))
  }

  /** The non-empty normalised names, in order. */
  function Normalized(requests: seq<string>): seq<string> {
    NonEmptyOnly(NormalizeAll(requests))
  }

  // ------------------------------------------------------------ manual

  const NoArgs := "* (no args)\n"
  const MissingName := "* (missing name)\n"
  const MissingMode := "* (missing man mode: list/full/name)\n"

  function UnknownArg(requested: seq<string>): string {
    "* (unknown arg: " + Join(requested, ", ") + ")\n"
  }

  /** A row answers a request by its dash-less flag or its destination name, ignoring case. */
  predicate Matches(e: TemplateEntry, requested: seq<string>) {
    Lower(LStripChar(e.flag, '-')) in requested || Lower(FlagDest(e.flag)) in requested
  }

  /** How many flags are set. */
  function SetCount(keep: seq<bool>): nat {
    if keep == [] then 0 else (if keep[0] then 1 else 0) + SetCount(keep[1..])
  }

  /**
   * The lines whose flag is set, in order: one line per set flag, and the
   * line of the i-th set flag sits after those of the set flags before it.
   */
  function Select(lines: seq<string>, keep: seq<bool>): (r: seq<string>)
    requires |lines| == |keep|
    ensures |r| == SetCount(keep)
    ensures forall i :: 0 <= i < |keep| && keep[i] ==> SetCount(keep[..i]) < |r| && r[SetCount(keep[..i])] == lines[i]
    ensures r == [] <==> forall i :: 0 <= i < |keep| ==> !keep[i]
  {
    if lines == [] then []
    else
      var rest := Select(lines[1..], keep[1..]);
      SelectStep(lines, keep, rest);
      (if keep[0] then [lines[0]] else []) + rest
  }

  lemma SelectStep(lines: seq<string>, keep: seq<bool>, rest: seq<string>)
    requires |lines| == |keep| > 0
    requires |rest| == SetCount(keep[1..])
    requires forall i :: 0 <= i < |keep[1..]| && keep[1..][i] ==> SetCount(keep[1..][..i]) < |rest| && rest[SetCount(keep[1..][..i])] == lines[1..][i]
    requires rest == [] <==> forall i :: 0 <= i < |keep[1..]| ==> !keep[1..][i]
    ensures var r := (if keep[0] then [lines[0]] else []) + rest;
      && |r| == SetCount(keep)
      && (forall i :: 0 <= i < |keep| && keep[i] ==> SetCount(keep[..i]) < |r| && r[SetCount(keep[..i])] == lines[i])
      && (r == [] <==> forall i :: 0 <= i < |keep| ==> !keep[i])
  {
    var r := (if keep[0] then [lines[0]] else []) + rest;
    var d := if keep[0] then 1 else 0;
    forall i | 0 <= i < |keep| && keep[i]
      ensures SetCount(keep[..i]) < |r| && r[SetCount(keep[..i])] == lines[i]
    {
      if i > 0 {
        assert keep[..i][1..] == keep[1..][..i - 1];
        assert keep[1..][i - 1] && lines[1..][i - 1] == lines[i];
        assert SetCount(keep[..i]) == d + SetCount(keep[1..][..i - 1]);
      } else {
        assert keep[..0] == [];
      }
    }
    if r == [] {
      assert !keep[0];
      forall i | 0 <= i < |keep| ensures !keep[i] {
        if i > 0 { assert keep[i] == keep[1..][i - 1]; }
      }
    }
    if !keep[0] && rest != [] {
      var i :| 0 <= i < |keep[1..]| && keep[1..][i];
      assert keep[i + 1];
    }
  }

  /** The full lines of the rows that match: one per matching row, in template order. */
  function MatchedLines(template: seq<TemplateEntry>, requested: seq<string>): (r: seq<string>)
    ensures |r| == SetCount(MatchFlags(template, requested))
    ensures forall i :: 0 <= i < |template| && Matches(template[i], requested) ==>
      var at := SetCount(MatchFlags(template, requested)[..i]); at < |r| && r[at] == FullLine(template[i])
    ensures r == [] <==> forall i :: 0 <= i < |template| ==> !Matches(template[i], requested)
  {
    var full := FullLines(template);
    var keep := MatchFlags(template, requested);
    Select(full, keep)
  }

  /** Whether each row answers the requests. */
  function MatchFlags(template: seq<TemplateEntry>, requested: seq<string>): (r: seq<bool>)
    ensures |r| == |template| && forall i :: 0 <= i < |r| ==> (r[i] <==> Matches(template[i], requested))
  {
    seq(|template|, i requires 0 <= i < |template| => Matches(template[i], requested))
  }

  /** `_man_list_lines` and `_man_full_lines`: one line per row, or the no-args line. */
  function OrNoArgs(lines: seq<string>): (r: seq<string>)
    ensures r != []
    ensures lines != [] ==> r == lines
    ensures lines == [] ==> r == [NoArgs]
  {
    if lines == [] then [NoArgs] else lines
  }

  /**
   * `_man_one_lines`: the full lines of every matching row; a single
   * "unknown arg" line naming the requests when none matches; a "missing
   * name" line when no request is left after normalising.
   */
  function ManOneLines(template: seq<TemplateEntry>, requestedNames: seq<string>): (r: seq<string>)
    ensures r != []
    ensures var req := Normalized(requestedNames);
      && (req == [] ==> r == [MissingName])
      && (req != [] ==> forall i :: 0 <= i < |template| && Matches(template[i], req) ==> FullLine(template[i]) in r)
      && (req != [] && (forall i :: 0 <= i < |template| ==> !Matches(template[i], req)) ==> r == [UnknownArg(req)])
      && (req != [] && (exists i :: 0 <= i < |template| && Matches(template[i], req)) ==> r == MatchedLines(template, req))
  {
    var req := Normalized(requestedNames);
    if req == [] then [MissingName]
    else
      var matched := MatchedLines(template, req);
      if matched != [] then matched else [UnknownArg(req)]
  }

  /** `_man_lines`: the first normalised request picks list, full or a per-name lookup. */
  function ManLines(template: seq<TemplateEntry>, requests: seq<string>): (r: seq<string>)
    ensures r != []
    ensures Normalized(requests) == [] ==> r == [MissingMode]
    ensures Normalized(requests) != [] && Normalized(requests)[0] == "list" ==> r == OrNoArgs(ListLines(template))
    ensures Normalized(requests) != [] && Normalized(requests)[0] == "full" ==> r == OrNoArgs(FullLines(template))
    ensures Normalized(requests) != [] && Normalized(requests)[0] != "list" && Normalized(requests)[0] != "full"
      ==> r == ManOneLines(template, Normalized(requests))
  {
    var req := Normalized(requests);
    if req == [] then [MissingMode]
    else if req[0] == "list" then OrNoArgs(ListLines(template))
    else if req[0] == "full" then OrNoArgs(FullLines(template))
    else ManOneLines(template, req)
  }

  lemma NormalizeAllSingle(request: string)
    ensures NormalizeAll([request]) == [NormalizeArgName(request)]
  {
  }

  lemma NonEmptyOnlySingle(x: string)
    requires x != ""
    ensures NonEmptyOnly([x]) == [x]
  {
    assert [x][1..] == [];
  }

  /** `--man todo` (or `--man --todo`) prints the manual line of the `--todo` row. */
  lemma ManFindsFlag(template: seq<TemplateEntry>, i: nat, name: string, request: string)
    requires i < |template| && template[i].flag == "--" + name
    requires name != [] && name[0] != '-' && HasNoSpace(name) && NoUpper(name)
    requires name != "list" && name != "full"
    requires request == name || request == "--" + name
    ensures FullLine(template[i]) in ManLines(template, [request])
  {
    NormalizedToName(name, request);
    DropDashes(name);
    LowerKeeps(name);
    assert Matches(template[i], [name]);
    assert ManLines(template, [request]) == ManOneLines(template, [name]);
  }

  lemma NormalizedToName(name: string, request: string)
    requires name != [] && name[0] != '-' && HasNoSpace(name) && NoUpper(name)
    requires request == name || request == "--" + name
    ensures Normalized([request]) == [name] && Normalized([name]) == [name]
  {
    NormalizeFlagName(name);
    NormalizeAllSingle(request);
    NormalizeAllSingle(name);
    NonEmptyOnlySingle(name);
  }

  // ------------------------------------------------------------ block

  /** The report sections of `_build_block`, in printing order. */
  datatype Part = HelpPart | ModsPart | ManPart | ConfigPart | EventPart

  const SysParts: seq<Part> := [HelpPart, ModsPart, ManPart, ConfigPart, EventPart]

  /** One section, printed only when its option is selected, closed by a blank line. */
  function PartLines(p: Part, system: System, ctx: Context, selected: set<string>, path: string,
                     manRequests: seq<string>): (r: seq<string>)
    ensures EndsBlank(r)
  {
    match p
    case HelpPart => Section("help" in selected, CommandHelp)
    case ModsPart => Section("mods" in selected, ModLines(system.modules))
    case ManPart => Section("man" in selected, ManLines(system.globalTemplate, manRequests))
    case ConfigPart =>
      ConfigSectionCloses(ctx, system.globalTemplate);
      Closed("config" in selected, ConfigSection(ctx, system.globalTemplate))
    case EventPart => Closed("event" in selected, EventLines(system.event, path))
  }

  function PartsLines(parts: seq<Part>, system: System, ctx: Context, selected: set<string>, path: string,
                      manRequests: seq<string>): (r: seq<string>)
    ensures EndsBlank(r)
  {
    if parts == [] then []
    else
      var first := PartLines(parts[0], system, ctx, selected, path, manRequests);
      var rest := PartsLines(parts[1..], system, ctx, selected, path, manRequests);
      EndsBlankAppend(first, rest);
      first + rest
  }

  /** `_build_block`: the opening lines, then the sections; it always ends with a blank line. */
  function Block(system: System, ctx: Context, selected: set<string>, path: string,
                 manRequests: seq<string>, now: string): (r: seq<string>)
    ensures |r| >= 2 && r[|r| - 1] == "\n"
  {
    Assemble(Opening(Title(SysOrder, selected), "event" in selected, now),
             PartsLines(SysParts, system, ctx, selected, path, manRequests))
  }

  /**
   * The block opens with its title line, then the time when the event is
   * shown, else a blank line.
   */
  lemma BlockOpens(system: System, ctx: Context, selected: set<string>, path: string,
                   manRequests: seq<string>, now: string)
    ensures var r := Block(system, ctx, selected, path, manRequests, now);
      && r[0] == Header(Title(SysOrder, selected))
      && r[1] == if "event" in selected then TimeLine(now) else "\n"
  {
  }

  // ------------------------------------------------------------ collection

  /** `ctx.config.get("man") or []`, when it is a list. */
  function ManValues(ctx: Context): seq<Value> {
    ListOrEmpty(Get(ctx.config, "man"))
  }

  /** How many `(value, line)` pairs `zip` yields for `--man`. */
  function ManCount(ctx: Context): nat {
    var vs, ls := ManValues(ctx), LinesOf(ctx, "man");
    if |vs| < |ls| then |vs| else |ls|
  }

  function ManAdds(ctx: Context): seq<Add> {
    Occurrences(LinesOf(ctx, "man")[..ManCount(ctx)], "man", "--man")
  }

  /** The occurrences of the four boolean options, in the order `_apply` adds them. */
  function SysFlagAdds(ctx: Context): seq<Add> {
    FlagAdds(ctx, "mods", "mods", "--mods")
    + FlagAdds(ctx, "config", "config", "--config")
    + FlagAdds(ctx, "help", "help", "--help")
    + FlagAdds(ctx, "sys_event", "event", "--sys-event")
  }

  /** Every occurrence, in the order `_apply` adds them. */
  function SysAdds(ctx: Context): seq<Add> {
    SysFlagAdds(ctx) + ManAdds(ctx)
  }

  /** A `--man` value asks for something when it is not None and not blank. */
  predicate Asks(v: Value) {
    v != VNone && !IsBlank(Show(v))
  }

  /** The stripped `--man` values written on line `l`, in order. */
  function ManRequests(vs: seq<Value>, ls: seq<int>, l: int): seq<string>
    requires |vs| == |ls|
  {
    if vs == [] then []
    else
      var n := |vs| - 1;
      ManRequests(vs[..n], ls[..n], l) + (if ls[n] == l && Asks(vs[n]) then [Strip(Show(vs[n]))] else [])
  }

  /** The requests after pair `i` are those before it, then pair `i`'s. */
  lemma ManRequestsStep(vs: seq<Value>, ls: seq<int>, i: nat, l: int)
    requires |vs| == |ls| && i < |vs|
    ensures ManRequests(vs[..i + 1], ls[..i + 1], l)
         == ManRequests(vs[..i], ls[..i], l) + (if ls[i] == l && Asks(vs[i]) then [Strip(Show(vs[i]))] else [])
  {
    assert vs[..i + 1][..i] == vs[..i] && ls[..i + 1][..i] == ls[..i];
  }

  /** One pass of the `zip` loop keeps the recorded requests equal to the reference. */
  lemma RequestsStep(before: map<int, seq<string>>, after: map<int, seq<string>>, vs: seq<Value>, ls: seq<int>, i: nat)
    requires |vs| == |ls| && i < |vs|
    requires forall l :: RequestsAt(before, l) == ManRequests(vs[..i], ls[..i], l)
    requires after == if Asks(vs[i]) then before[ls[i] := RequestsAt(before, ls[i]) + [Strip(Show(vs[i]))]] else before
    ensures forall l :: RequestsAt(after, l) == ManRequests(vs[..i + 1], ls[..i + 1], l)
  {
    forall l ensures RequestsAt(after, l) == ManRequests(vs[..i + 1], ls[..i + 1], l) {
      ManRequestsStep(vs, ls, i, l);
    }
  }

  function ManRequestsOf(ctx: Context, l: int): seq<string> {
    ManRequests(ManValues(ctx)[..ManCount(ctx)], LinesOf(ctx, "man")[..ManCount(ctx)], l)
  }

  function RequestsAt(requests: map<int, seq<string>>, l: int): seq<string> {
    if l in requests then requests[l] else []
  }

  /** The four boolean options' `add_option` loops. */
  method CollectFlags(ctx: Context) returns (g: Groups)
    ensures g == Grouped(SysFlagAdds(ctx))
  {
    var a1 := FlagAdds(ctx, "mods", "mods", "--mods");
    var a2 := FlagAdds(ctx, "config", "config", "--config");
    var a3 := FlagAdds(ctx, "help", "help", "--help");
    var a4 := FlagAdds(ctx, "sys_event", "event", "--sys-event");
    g := AddFlag(NoGroups, ctx, "mods", "mods", "--mods");
    g := AddFlag(g, ctx, "config", "config", "--config");
    AddAllAppend(NoGroups, a1, a2);
    g := AddFlag(g, ctx, "help", "help", "--help");
    AddAllAppend(NoGroups, a1 + a2, a3);
    g := AddFlag(g, ctx, "sys_event", "event", "--sys-event");
    AddAllAppend(NoGroups, a1 + a2 + a3, a4);
  }

  /**
   * The `zip(man_values, man_lines)` loop: every pair adds `man` to its
   * line, and a value that asks for something is recorded, stripped.
   */
  method CollectMan(g0: Groups, vs: seq<Value>, ls: seq<int>) returns (g: Groups, requests: map<int, seq<string>>)
    requires WellFormed(g0) && |vs| == |ls|
    ensures g == AddAll(g0, Occurrences(ls, "man", "--man"))
    ensures forall l :: RequestsAt(requests, l) == ManRequests(vs, ls, l)
  {
    ghost var man := Occurrences(ls, "man", "--man");
    g := g0;
    requests := map[];
    var i := 0;
    while i < |vs|
      invariant 0 <= i <= |vs| && WellFormed(g)
      invariant g == AddAll(g0, man[..i])
      invariant forall l :: RequestsAt(requests, l) == ManRequests(vs[..i], ls[..i], l)
    {
      assert man[i] == Add(ls[i], "man", "--man");
      g, requests := ManPair(g, requests, vs, ls, i, g0, man);
      i := i + 1;
    }
    assert man[..i] == man && vs[..i] == vs && ls[..i] == ls;
  }

  /** One pass of the `zip` loop: `man` added to the pair's line, its value recorded when it asks. */
  method ManPair(g: Groups, requests: map<int, seq<string>>, vs: seq<Value>, ls: seq<int>, i: nat,
                 ghost g0: Groups, ghost man: seq<Add>)
    returns (g': Groups, requests': map<int, seq<string>>)
    requires |vs| == |ls| && i < |vs| && i < |man| && man[i] == Add(ls[i], "man", "--man")
    requires WellFormed(g0) && g == AddAll(g0, man[..i])
    requires forall l :: RequestsAt(requests, l) == ManRequests(vs[..i], ls[..i], l)
    ensures WellFormed(g') && g' == AddAll(g0, man[..i + 1])
    ensures forall l :: RequestsAt(requests', l) == ManRequests(vs[..i + 1], ls[..i + 1], l)
  {
    AddAllStep(g0, man, i);
    g' := AddOption(g, Add(ls[i], "man", "--man"));
    requests' := RecordRequest(requests, vs[i], ls[i]);
    RequestsStep(requests, requests', vs, ls, i);
  }

  /** A `--man` value that asks for something is appended, stripped, to its line's requests. */
  method RecordRequest(requests: map<int, seq<string>>, value: Value, line: int) returns (r: map<int, seq<string>>)
    ensures r == if Asks(value) then requests[line := RequestsAt(requests, line) + [Strip(Show(value))]] else requests
  {
    r := requests;
    if value != VNone && Strip(Show(value)) != "" {
      r := requests[line := RequestsAt(requests, line) + [Strip(Show(value))]];
    }
  }

  /** The collection half of `_apply`: `line_to_opts`, `line_to_remove_flags`, `line_to_man_requests`. */
  method Collect(ctx: Context) returns (g: Groups, requests: map<int, seq<string>>)
    ensures g == Grouped(SysAdds(ctx))
    ensures forall l :: RequestsAt(requests, l) == ManRequestsOf(ctx, l)
  {
    g := CollectFlags(ctx);
    var n := ManCount(ctx);
    g, requests := CollectMan(g, ManValues(ctx)[..n], LinesOf(ctx, "man")[..n]);
    AddAllAppend(NoGroups, SysFlagAdds(ctx), ManAdds(ctx));
  }

  // ------------------------------------------------------------ splice

  /** The site of line `l`: its block, and the flags written on it. */
  function SiteOf(system: System, ctx: Context, now: string, g: Groups, l: int): Site {
    Site(l, Block(system, ctx, OptsAt(g, l), ctx.path, ManRequestsOf(ctx, l), now), FlagsOf(g, l))
  }

  function SitesFor(system: System, ctx: Context, now: string, g: Groups, keys: seq<int>): (r: seq<Site>)
    ensures |r| == |keys| && BlocksNonEmpty(r)
    ensures forall i :: 0 <= i < |r| ==> r[i] == SiteOf(system, ctx, now, g, keys[i])
  {
    if keys == [] then []
    else
      var first := SiteOf(system, ctx, now, g, keys[0]);
      var rest := SitesFor(system, ctx, now, g, keys[1..]);
      assert ([first] + rest)[1..] == rest;
      [first] + rest
  }

  /** Each site sits at its key. */
  lemma SitesAtKeys(system: System, ctx: Context, now: string, g: Groups, keys: seq<int>)
    ensures var r := SitesFor(system, ctx, now, g, keys);
      forall i :: 0 <= i < |r| ==> r[i].lineno == keys[i]
  {
    var r := SitesFor(system, ctx, now, g, keys);
    forall i | 0 <= i < |r| ensures r[i].lineno == keys[i] {
      assert r[i] == SiteOf(system, ctx, now, g, keys[i]);
    }
  }

  /** The sites of a run, from the bottom line up. */
  function SysSites(system: System, ctx: Context, now: string): (r: seq<Site>)
    ensures BlocksNonEmpty(r)
  {
    var g := Grouped(SysAdds(ctx));
    SitesFor(system, ctx, now, g, SortDescending(g.lines))
  }

  /** The site the loop builds for key `j` is the reference site. */
  lemma SiteAt(system: System, ctx: Context, now: string, g: Groups, requests: map<int, seq<string>>,
               keys: seq<int>, j: nat)
    requires g == Grouped(SysAdds(ctx)) && keys == SortDescending(g.lines) && j < |keys|
    requires forall l :: RequestsAt(requests, l) == ManRequestsOf(ctx, l)
    ensures |SysSites(system, ctx, now)| == |keys|
    ensures SysSites(system, ctx, now)[j]
         == Site(keys[j], Block(system, ctx, OptsAt(g, keys[j]), ctx.path, RequestsAt(requests, keys[j]), now),
                 FlagsOf(g, keys[j]))
  {
    assert RequestsAt(requests, keys[j]) == ManRequestsOf(ctx, keys[j]);
  }

  /** The block of one line, with the flags to remove from it. */
  method BuildSite(system: System, ctx: Context, now: string, g: Groups, requests: map<int, seq<string>>,
                   keys: seq<int>, j: nat) returns (site: Site)
    requires g == Grouped(SysAdds(ctx)) && keys == SortDescending(g.lines) && j < |keys|
    requires forall l :: RequestsAt(requests, l) == ManRequestsOf(ctx, l)
    ensures |SysSites(system, ctx, now)| == |keys| && site == SysSites(system, ctx, now)[j]
  {
    var l := keys[j];
    var block := Block(system, ctx, OptsAt(g, l), ctx.path, RequestsAt(requests, l), now);
    site := Site(l, block, FlagsOf(g, l));
    SiteAt(system, ctx, now, g, requests, keys, j);
  }

  /**
   * The `for lineno in sorted(line_to_opts, reverse=True)` loop: each
   * line's block is built and spliced in, from the bottom line up.
   */
  method SpliceLines(system: System, ctx: Context, now: string, g: Groups, requests: map<int, seq<string>>,
                     file: seq<string>, delete: Deleter) returns (lines: seq<string>)
    requires g == Grouped(SysAdds(ctx))
    requires forall l :: RequestsAt(requests, l) == ManRequestsOf(ctx, l)
    requires file != []
    ensures lines == SpliceAll(file, SysSites(system, ctx, now), delete, Separated)
  {
    lines := file;
    var keys := SortDescending(g.lines);
    ghost var sites := SysSites(system, ctx, now);
    var j := 0;
    while j < |keys|
      invariant 0 <= j <= |keys| && lines != [] && |sites| == |keys|
      invariant BlocksNonEmpty(sites[j..])
      invariant SpliceAll(lines, sites[j..], delete, Separated) == SpliceAll(file, sites, delete, Separated)
    {
      var site := BuildSite(system, ctx, now, g, requests, keys, j);
      var next, start := SpliceAt(lines, site, delete, Separated);
      SpliceLoopStep(file, lines, next, sites, j, delete, Separated);
      lines := next;
      j := j + 1;
    }
    assert sites[j..] == [];
  }

  /**
   * `_apply`: nothing to do (None) exactly when no option is selected;
   * otherwise the note after every site is spliced, bottom-up, and one
   * event to swallow for the note.
   */
  method Apply(ctx: Context, system: System, file: seq<string>, now: string, delete: Deleter)
    returns (r: Option<(seq<string>, IgnoreMap)>)
    ensures r.None? <==> SysAdds(ctx) == []
    ensures r.Some? ==> r.value == (SpliceAll(NonEmpty(file), SysSites(system, ctx, now), delete, Separated),
                                    map[ctx.path := 1])
  {
    var g, requests := Collect(ctx);
    GroupedEmpty(SysAdds(ctx));
    if g.lines == [] {
      return None;
    }
    var lines := SpliceLines(system, ctx, now, g, requests, NonEmpty(file), delete);
    return Some((lines, map[ctx.path := 1]));
  }

  /**
   * When every flag sits on a line of the note, the bottom-up loop gives
   * the reference result: each named line of the original note replaced
   * by its piece, every other line kept where it was.
   */
  lemma SysBottomUp(system: System, ctx: Context, now: string, file: seq<string>, delete: Deleter)
    requires forall a :: a in SysAdds(ctx) ==> 1 <= a.line <= |NonEmpty(file)|
    ensures BottomUp(SysSites(system, ctx, now), |NonEmpty(file)|)
    ensures SpliceAll(NonEmpty(file), SysSites(system, ctx, now), delete, Separated)
         == Rebuilt(NonEmpty(file), SysSites(system, ctx, now), delete, Separated)
  {
    var adds := SysAdds(ctx);
    var g := Grouped(adds);
    var n := |NonEmpty(file)|;
    var sites := SysSites(system, ctx, now);
    forall i | 0 <= i < |adds| ensures 1 <= adds[i].line <= n {
      assert adds[i] in adds;
    }
    SitesAtKeys(system, ctx, now, g, SortDescending(g.lines));
    GroupedBottomUp(adds, sites, n);
    BottomUpSplice(NonEmpty(file), sites, delete, Separated);
  }
}
