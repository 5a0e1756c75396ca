/**
 * The `sys_info` variant of the report module
 * (lucy_notes_manager/modules/sys_info.py): the flags `--mods`, `--help`,
 * `--sys-event` and `--config` written in a note are replaced in place by a
 * report block, as in `sys`, but without the manual; a single option names
 * its own block, and with `--sys-slow-print` the file is handed to a slow
 * writer together with the first line the rewrite touched.
 *
 * The clock is the parameter `now`, removing flags from a line is the
 * parameter `delete`, and the note's lines are the parameter `file`.
 */
module SysInfo {
  import opened Wrappers
  import opened Values
  import opened Pipeline
  import opened Reports
  import opened Grouping
  import opened Sorting
  import opened Splice

  /** The module's own flags; its rows carry no description. */
  const Template: seq<TemplateEntry> := [
    TemplateEntry("--mods", "bool", VBool(false), ""),
    TemplateEntry("--help", "bool", VBool(false), ""),
    TemplateEntry("--sys-event", "bool", VBool(false), ""),
    TemplateEntry("--config", "bool", VBool(false), ""),
    TemplateEntry("--sys-slow-print", "bool", VBool(false), "")
  ]

  // ------------------------------------------------------------ block

  /** The report sections of `_build_block`, in printing order. */
  datatype Part = ModsPart | HelpPart | ConfigPart | EventPart

  const InfoParts: seq<Part> := [ModsPart, HelpPart, ConfigPart, EventPart]

  /** One section, printed only when its option is selected, closed by a blank line. */
  function PartLines(p: Part, system: System, ctx: Context, selected: set<string>, path: string): (r: seq<string>)
    ensures EndsBlank(r)
  {
    match p
    case ModsPart => Section("mods" in selected, ModLines(system.modules))
    case HelpPart => Section("help" in selected, ListLines(system.globalTemplate))
    case ConfigPart =>
      ConfigSectionCloses(ctx, system.globalTemplate);
      Closed("config" in selected, ConfigSection(ctx, system.globalTemplate))
    case EventPart => Closed("event" in selected, EventLines(system.event, path))
  }

  function PartsLines(parts: seq<Part>, system: System, ctx: Context, selected: set<string>, path: string): (r: seq<string>)
    ensures EndsBlank(r)
  {
    if parts == [] then []
    else
      var first := PartLines(parts[0], system, ctx, selected, path);
      var rest := PartsLines(parts[1..], system, ctx, selected, path);
      EndsBlankAppend(first, rest);
      first + rest
  }

  /** `_build_block`: the opening lines, then the sections; it always ends with a blank line. */
  function Block(system: System, ctx: Context, selected: set<string>, path: string, now: string): (r: seq<string>)
    ensures |r| >= 2 && r[|r| - 1] == "\n"
  {
    Assemble(Opening(InfoTitle(selected), "event" in selected, now),
             PartsLines(InfoParts, system, ctx, selected, path))
  }

  /**
   * The block opens with its title line, then the time when the event is
   * shown, else a blank line; a block for one option is titled by it.
   */
  lemma BlockOpens(system: System, ctx: Context, selected: set<string>, path: string, now: string)
    ensures var r := Block(system, ctx, selected, path, now);
      && r[0] == Header(InfoTitle(selected))
      && r[1] == (if "event" in selected then TimeLine(now) else "\n")
      && (forall x :: x in InfoOrder && selected == {x} ==> r[0] == Header(x))
  {
    forall x | x in InfoOrder && selected == {x} ensures InfoTitle(selected) == x {
      InfoTitleSingle(x);
    }
  }

  // ------------------------------------------------------------ collection

  /** Every occurrence, in the order of `key_to_opt`. */
  function InfoAdds(ctx: Context): seq<Add> {
    FlagAdds(ctx, "mods", "mods", "--mods")
    + FlagAdds(ctx, "help", "help", "--help")
    + FlagAdds(ctx, "sys_event", "event", "--sys-event")
    + FlagAdds(ctx, "config", "config", "--config")
  }

  /** The collection loop: `occurrences` and `flags_on_line`. */
  method Collect(ctx: Context) returns (g: Groups)
    ensures g == Grouped(InfoAdds(ctx))
  {
    var a1 := FlagAdds(ctx, "mods", "mods", "--mods");
    var a2 := FlagAdds(ctx, "help", "help", "--help");
    var a3 := FlagAdds(ctx, "sys_event", "event", "--sys-event");
    var a4 := FlagAdds(ctx, "config", "config", "--config");
    g := AddFlag(NoGroups, ctx, "mods", "mods", "--mods");
    g := AddFlag(g, ctx, "help", "help", "--help");
    AddAllAppend(NoGroups, a1, a2);
    g := AddFlag(g, ctx, "sys_event", "event", "--sys-event");
    AddAllAppend(NoGroups, a1 + a2, a3);
    g := AddFlag(g, ctx, "config", "config", "--config");
    AddAllAppend(NoGroups, a1 + a2 + a3, a4);
  }

  // ------------------------------------------------------------ splice

  /** The site of line `l`: its block, and the flags written on it. */
  function SiteOf(system: System, ctx: Context, now: string, g: Groups, l: int): Site {
    Site(l, Block(system, ctx, OptsAt(g, l), ctx.path, now), FlagsOf(g, l))
  }

  function SitesFor(system: System, ctx: Context, now: string, g: Groups, keys: seq<int>): (r: seq<Site>)
    ensures |r| == |keys| && BlocksNonEmpty(r)
    ensures forall i :: 0 <= i < |r| ==> r[i] == SiteOf(system, ctx, now, g, keys[i])
  {
    if keys == [] then []
    else
      var first := SiteOf(system, ctx, now, g, keys[0]);
      var rest := SitesFor(system, ctx, now, g, keys[1..]);
      assert ([first] + rest)[1..] == rest;
      [first] + rest
  }

  /** Each site sits at its key. */
  lemma SitesAtKeys(system: System, ctx: Context, now: string, g: Groups, keys: seq<int>)
    ensures var r := SitesFor(system, ctx, now, g, keys);
      forall i :: 0 <= i < |r| ==> r[i].lineno == keys[i]
  {
    var r := SitesFor(system, ctx, now, g, keys);
    forall i | 0 <= i < |r| ensures r[i].lineno == keys[i] {
      assert r[i] == SiteOf(system, ctx, now, g, keys[i]);
    }
  }

  /** The sites of a run, from the bottom line up. */
  function InfoSites(system: System, ctx: Context, now: string): (r: seq<Site>)
    ensures BlocksNonEmpty(r)
  {
    var g := Grouped(InfoAdds(ctx));
    SitesFor(system, ctx, now, g, SortDescending(g.lines))
  }

  /** The block of one line, with the flags to remove from it. */
  method BuildSite(system: System, ctx: Context, now: string, g: Groups, keys: seq<int>, j: nat)
    returns (site: Site)
    requires g == Grouped(InfoAdds(ctx)) && keys == SortDescending(g.lines) && j < |keys|
    ensures |InfoSites(system, ctx, now)| == |keys| && site == InfoSites(system, ctx, now)[j]
  {
    var l := keys[j];
    var block := Block(system, ctx, OptsAt(g, l), ctx.path, now);
    site := Site(l, block, FlagsOf(g, l));
  }

  /**
   * The bottom-up loop: each line's block is built and spliced in, and
   * the least line where something was inserted is recorded.
   */
  method SpliceLines(system: System, ctx: Context, now: string, g: Groups, file: seq<string>, delete: Deleter)
    returns (lines: seq<string>, fromLine: int)
    requires g == Grouped(InfoAdds(ctx)) && file != []
    ensures lines == SpliceAll(file, InfoSites(system, ctx, now), delete, Separated)
    ensures fromLine == FromLine(file, InfoSites(system, ctx, now), delete, Separated)
  {
    lines := file;
    var minFrom: Option<int> := None;
    var keys := SortDescending(g.lines);
    ghost var sites := InfoSites(system, ctx, now);
    var j := 0;
    while j < |keys|
      invariant 0 <= j <= |keys| && lines != [] && |sites| == |keys|
      invariant BlocksNonEmpty(sites[j..])
      invariant SpliceAll(lines, sites[j..], delete, Separated) == SpliceAll(file, sites, delete, Separated)
      invariant MinFrom(minFrom, lines, sites[j..], delete, Separated) == MinFrom(None, file, sites, delete, Separated)
    {
      var site := BuildSite(system, ctx, now, g, keys, j);
      var next, start := SpliceAt(lines, site, delete, Separated);
      SpliceLoopStep(file, lines, next, sites, j, delete, Separated);
      MinFromStep(file, lines, sites, j, minFrom, delete, Separated);
      minFrom := Some(if minFrom.None? then start else if start < minFrom.value then start else minFrom.value);
      lines := next;
      j := j + 1;
    }
    assert sites[j..] == [];
    fromLine := match minFrom case None => 1 case Some(m) => if m == 0 then 1 else m;
  }

  /** What `_apply` does with the rewritten lines. */
  datatype Outcome =
    | Written(lines: seq<string>, ignore: IgnoreMap)
    | SlowPrint(lines: seq<string>, fromLine: int)

  /**
   * `_apply`: nothing to do (None) exactly when no option is selected;
   * otherwise the lines after every site is spliced, bottom-up, either
   * written with one event to swallow for the note, or handed to the slow
   * writer from the first rewritten line.
   */
  method Apply(ctx: Context, system: System, file: seq<string>, now: string, delete: Deleter)
    returns (r: Option<Outcome>)
    ensures r.None? <==> InfoAdds(ctx) == []
    ensures r.Some? ==>
      var sites := InfoSites(system, ctx, now);
      var lines := SpliceAll(NonEmpty(file), sites, delete, Separated);
      r.value == if Truthy(Get(ctx.config, "sys_slow_print"))
                 then SlowPrint(lines, FromLine(NonEmpty(file), sites, delete, Separated))
                 else Written(lines, map[ctx.path := 1])
  {
    var g := Collect(ctx);
    GroupedEmpty(InfoAdds(ctx));
    if g.lines == [] {
      return None;
    }
    var lines, fromLine := SpliceLines(system, ctx, now, g, NonEmpty(file), delete);
    if Truthy(Get(ctx.config, "sys_slow_print")) {
      return Some(SlowPrint(lines, fromLine));
    }
    return Some(Written(lines, map[ctx.path := 1]));
  }

  /**
   * When every flag sits on a line of the note, the sites come bottom-up
   * and the loop gives the reference result.
   */
  lemma InfoBottomUp(system: System, ctx: Context, now: string, file: seq<string>, delete: Deleter)
    requires forall a :: a in InfoAdds(ctx) ==> 1 <= a.line <= |NonEmpty(file)|
    ensures BottomUp(InfoSites(system, ctx, now), |NonEmpty(file)|)
    ensures SpliceAll(NonEmpty(file), InfoSites(system, ctx, now), delete, Separated)
         == Rebuilt(NonEmpty(file), InfoSites(system, ctx, now), delete, Separated)
  {
    InfoSitesBottomUp(system, ctx, now, |NonEmpty(file)|);
    BottomUpSplice(NonEmpty(file), InfoSites(system, ctx, now), delete, Separated);
  }

  lemma InfoSitesBottomUp(system: System, ctx: Context, now: string, n: nat)
    requires forall a :: a in InfoAdds(ctx) ==> 1 <= a.line <= n
    ensures BottomUp(InfoSites(system, ctx, now), n)
  {
    var adds := InfoAdds(ctx);
    var g := Grouped(adds);
    forall i | 0 <= i < |adds| ensures 1 <= adds[i].line <= n {
      assert adds[i] in adds;
    }
    SitesAtKeys(system, ctx, now, g, SortDescending(g.lines));
    GroupedBottomUp(adds, InfoSites(system, ctx, now), n);
  }

  /**
   * When no flag sits on line 1, the slow writer starts at the highest
   * line holding a flag, and everything above it is the original text.
   */
  lemma InfoTop(system: System, ctx: Context, now: string, file: seq<string>, delete: Deleter)
    requires forall a :: a in InfoAdds(ctx) ==> 1 <= a.line <= |NonEmpty(file)|
    requires InfoAdds(ctx) != [] && forall a :: a in InfoAdds(ctx) ==> a.line >= 2
    ensures BottomUp(InfoSites(system, ctx, now), |NonEmpty(file)|)
    ensures var from := FromLine(NonEmpty(file), InfoSites(system, ctx, now), delete, Separated);
      var r := Rebuilt(NonEmpty(file), InfoSites(system, ctx, now), delete, Separated);
      && (exists a :: a in InfoAdds(ctx) && a.line == from)
      && (forall a :: a in InfoAdds(ctx) ==> a.line >= from)
      && 1 <= from <= |NonEmpty(file)| && from <= |r| + 1 && r[..from - 1] == NonEmpty(file)[..from - 1]
  {
    var adds := InfoAdds(ctx);
    var g := Grouped(adds);
    var sites := InfoSites(system, ctx, now);
    InfoSitesBottomUp(system, ctx, now, |NonEmpty(file)|);
    SitesAtKeys(system, ctx, now, g, SortDescending(g.lines));
    LowestTop(adds, sites);
    FromLineTop(NonEmpty(file), sites, delete, Separated);
  }

  /** The highest site sits at the lowest line any occurrence names. */
  lemma LowestTop(adds: seq<Add>, sites: seq<Site>)
    requires adds != []
    requires var keys := SortDescending(Grouped(adds).lines);
      |sites| == |keys| && forall i :: 0 <= i < |sites| ==> sites[i].lineno == keys[i]
    ensures sites != []
    ensures (exists a :: a in adds && a.line == sites[|sites| - 1].lineno)
    ensures forall a :: a in adds ==> a.line >= sites[|sites| - 1].lineno
  {
    LowestKey(adds);
    var keys := SortDescending(Grouped(adds).lines);
    var i :| 0 <= i < |adds| && adds[i].line == keys[|keys| - 1];
    assert adds[i] in adds;
    forall a | a in adds ensures a.line >= sites[|sites| - 1].lineno {
      var k :| 0 <= k < |adds| && adds[k] == a;
    }
  }
}
