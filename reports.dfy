/**
 * The report pieces the two `sys` modules print into a note
 * (lucy_notes_manager/modules/sys.py and sys_info.py): the defaults of the
 * flag template, the block title, the module list, the template listing,
 * the config-versus-defaults diff and the event details.
 */
module Reports {
  import opened Text
  import opened Values
  import opened Sorting
  import opened Paths
  import opened Args
  import opened Pipeline

  // ------------------------------------------------------------ defaults

  /** `_defaults_map`: each template row's default under its destination name. */
  function DefaultsMap(template: seq<TemplateEntry>): map<string, Value> {
    Assign(Dests(template), seq(|template|, i requires 0 <= i < |template| => template[i].default))
  }

  /** The destination name of each template row. */
  function Dests(template: seq<TemplateEntry>): (r: seq<string>)
    ensures |r| == |template| && forall i :: 0 <= i < |r| ==> r[i] == FlagDest(template[i].flag)
  {
    seq(|template|, i requires 0 <= i < |template| => FlagDest(template[i].flag))
  }

  /** `out[keys[i]] = vals[i]` for each `i` in turn. */
  function Assign(keys: seq<string>, vals: seq<Value>): map<string, Value>
    requires |keys| == |vals|
  {
    if keys == [] then map[]
    else Assign(keys[..|keys| - 1], vals[..|keys| - 1])[keys[|keys| - 1] := vals[|keys| - 1]]
  }

  /** A name is assigned exactly when it is one of the keys. */
  lemma {:induction false} AssignKeys(keys: seq<string>, vals: seq<Value>, k: string)
    requires |keys| == |vals|
    ensures k in Assign(keys, vals) <==> k in keys
  {
    if keys != [] {
      var n := |keys| - 1;
      AssignKeys(keys[..n], vals[..n], k);
      assert keys == keys[..n] + [keys[n]];
    }
  }

  /** The value of a name is the one given with its last occurrence: later rows win. */
  lemma {:induction false} AssignLast(keys: seq<string>, vals: seq<Value>, i: nat)
    requires |keys| == |vals| && i < |keys|
    requires keys[i] !in keys[i + 1..]
    ensures keys[i] in Assign(keys, vals) && Assign(keys, vals)[keys[i]] == vals[i]
  {
    var n := |keys| - 1;
    if i < n {
      assert keys[n] in keys[i + 1..];
      assert keys[..n][i + 1..] == keys[i + 1..n];
      AssignLast(keys[..n], vals[..n], i);
    }
  }

  /**
   * A name has a default exactly when some row has that destination, and
   * the default of the last such row is the one kept.
   */
  lemma DefaultsMapSpec(template: seq<TemplateEntry>, k: string, i: nat)
    ensures k in DefaultsMap(template) <==> k in Dests(template)
    ensures i < |template| && Dests(template)[i] == k && k !in Dests(template)[i + 1..]
            ==> k in DefaultsMap(template) && DefaultsMap(template)[k] == template[i].default
  {
    var vals := seq(|template|, j requires 0 <= j < |template| => template[j].default);
    AssignKeys(Dests(template), vals, k);
    if i < |template| && Dests(template)[i] == k && k !in Dests(template)[i + 1..] {
      AssignLast(Dests(template), vals, i);
    }
  }

  // ------------------------------------------------------------ title

  /** The title order of `sys`. */
  const SysOrder: seq<string> := ["mods", "help", "man", "config", "event"]

  /** The title order of `sys_info`. */
  const InfoOrder: seq<string> := ["mods", "help", "config", "event"]

  /** The options of `order` that are selected, in that order. */
  function TitleParts(order: seq<string>, selected: set<string>): seq<string> {
    if order == [] then []
    else (if order[0] in selected then [order[0]] else []) + TitleParts(order[1..], selected)
  }

  lemma {:induction false} TitlePartsSpec(order: seq<string>, selected: set<string>, x: string)
    ensures x in TitleParts(order, selected) <==> x in order && x in selected
  {
    if order != [] {
      TitlePartsSpec(order[1..], selected, x);
      assert order == [order[0]] + order[1..];
    }
  }

  /** `"+".join(parts) if parts else "sys"`. */
  function Title(order: seq<string>, selected: set<string>): string {
    var parts := TitleParts(order, selected);
    if parts == [] then "sys" else Join(parts, "+")
  }

  /** `title_from_opts` of `sys_info`: a single option names itself. */
  function InfoTitle(selected: set<string>): string {
    if |selected| == 1 then Least(selected) else Title(InfoOrder, selected)
  }

  /** An option listed once in the order is the only part of its own title. */
  lemma {:induction false} TitlePartsOnly(order: seq<string>, x: string)
    requires x in order
    requires forall i, j :: 0 <= i < j < |order| ==> order[i] != order[j]
    ensures TitleParts(order, {x}) == [x]
  {
    var rest := order[1..];
    assert forall i, j :: 0 <= i < j < |rest| ==> rest[i] != rest[j] by {
      forall i, j | 0 <= i < j < |rest| ensures rest[i] != rest[j] {
        assert rest[i] == order[i + 1] && rest[j] == order[j + 1];
      }
    }
    if order[0] == x {
      var t := TitleParts(rest, {x});
      if t != [] {
        TitlePartsSpec(rest, {x}, t[0]);
        assert false;
      }
    } else {
      assert x in rest by { var j :| 0 <= j < |order| && order[j] == x; assert rest[j - 1] == x; }
      TitlePartsOnly(rest, x);
    }
  }

  /** For the options `sys_info` can select, the single-option rule agrees with the ordered join. */
  lemma InfoTitleSingle(x: string)
    requires x in InfoOrder
    ensures InfoTitle({x}) == Title(InfoOrder, {x}) == x
  {
    assert IsLeast(x, {x});
    TitlePartsOnly(InfoOrder, x);
  }

  function Header(title: string): string {
    "--- " + title + " ---\n"
  }

  function TimeLine(now: string): string {
    "time: " + now + "\n"
  }

  // ------------------------------------------------------------ listings

  /** `* name (priority)` for one module. */
  function ModLine(m: Module): string {
    "* " + m.name + " (" + IntToString(m.priority) + ")\n"
  }

  /** One line per module, in pipeline order. */
  function ModLines(modules: seq<Module>): (r: seq<string>)
    ensures |r| == |modules| && forall i :: 0 <= i < |r| ==> r[i] == ModLine(modules[i])
  {
    seq(|modules|, i requires 0 <= i < |modules| => ModLine(modules[i]))
  }

  /** `* flag type=… default=…`. */
  function ListLine(e: TemplateEntry): string {
    "* " + e.flag + " type=" + e.typeName + " default=" + Show(e.default) + "\n"
  }

  /** `* flag: description (type=…, default=…)`. */
  function FullLine(e: TemplateEntry): string {
    "* " + e.flag + ": " + Strip(e.desc) + " (type=" + e.typeName + ", default=" + Show(e.default) + ")\n"
  }

  /** One listing line per template row, in template order. */
  function ListLines(template: seq<TemplateEntry>): (r: seq<string>)
    ensures |r| == |template| && forall i :: 0 <= i < |r| ==> r[i] == ListLine(template[i])
  {
    seq(|template|, i requires 0 <= i < |template| => ListLine(template[i]))
  }

  function FullLines(template: seq<TemplateEntry>): (r: seq<string>)
    ensures |r| == |template| && forall i :: 0 <= i < |r| ==> r[i] == FullLine(template[i])
  {
    seq(|template|, i requires 0 <= i < |template| => FullLine(template[i]))
  }

  // ------------------------------------------------------------ config diff

  /** A key is left out of the diff exactly when it has a default and equals it. */
  predicate Differs(config: map<string, Value>, defaults: map<string, Value>, key: string)
    requires key in config
  {
    !(key in defaults && PyEq(config[key], defaults[key]))
  }

  /** The keys of `keys` the diff prints, in the same order. */
  function DiffKeys(keys: seq<string>, config: map<string, Value>, defaults: map<string, Value>): (r: seq<string>)
    ensures forall k :: k in r <==> k in keys && k in config && Differs(config, defaults, k)
  {
    if keys == [] then []
    else
      var k := keys[0];
      assert keys == [k] + keys[1..];
      (if k in config && Differs(config, defaults, k) then [k] else []) + DiffKeys(keys[1..], config, defaults)
  }

  /** A filter keeps the order of a sorted list. */
  lemma {:induction false} DiffKeysIncreasing(keys: seq<string>, config: map<string, Value>, defaults: map<string, Value>)
    requires StrictlyIncreasing(keys)
    ensures StrictlyIncreasing(DiffKeys(keys, config, defaults))
  {
    if keys != [] {
      var rest := keys[1..];
      assert StrictlyIncreasing(rest) by {
        forall i, j | 0 <= i < j < |rest| ensures StrLt(rest[i], rest[j]) {
          assert rest[i] == keys[i + 1] && rest[j] == keys[j + 1];
        }
      }
      DiffKeysIncreasing(rest, config, defaults);
      var tail := DiffKeys(rest, config, defaults);
      forall y | y in tail ensures StrLt(keys[0], y) {
        var j :| 0 <= j < |rest| && rest[j] == y;
        assert keys[j + 1] == y;
      }
    }
  }

  /** The keys the config section prints, in sorted order. */
  function PrintedKeys(ctx: Context, template: seq<TemplateEntry>): seq<string> {
    DiffKeys(SortedStrings(ctx.config.Keys), ctx.config, DefaultsMap(template))
  }

  /**
   * The config section prints exactly the keys that are not at their
   * default (keys with no template row always count), in sorted order.
   */
  lemma PrintedKeysSpec(ctx: Context, template: seq<TemplateEntry>, k: string)
    ensures var printed := PrintedKeys(ctx, template);
      && StrictlyIncreasing(printed)
      && (k in printed <==> k in ctx.config && Differs(ctx.config, DefaultsMap(template), k))
      && (k in ctx.config && k !in DefaultsMap(template) ==> k in printed)
  {
    DiffKeysIncreasing(SortedStrings(ctx.config.Keys), ctx.config, DefaultsMap(template));
  }

  function IntStrings(ns: seq<int>): (r: seq<string>)
    ensures |r| == |ns| && forall i :: 0 <= i < |r| ==> r[i] == IntToString(ns[i])
  {
    seq(|ns|, i requires 0 <= i < |ns| => IntToString(ns[i]))
  }

  /** Where a key was set: the lines of the note that wrote it, or the config/defaults. */
  function Source(ctx: Context, key: string): string {
    if key in ctx.argLines then "file:" + Join(IntStrings(ctx.argLines[key]), ",") else "config/default"
  }

  function ConfigLine(ctx: Context, defaults: map<string, Value>, key: string): string {
    "* " + key + " = " + Show(Get(ctx.config, key))
      + " (default=" + Show(Get(defaults, key)) + ", src=" + Source(ctx, key) + ")\n"
  }

  const NoDifferences := "* (no differences from defaults)\n"

  /** The config section with its closing blank line. */
  function ConfigSection(ctx: Context, template: seq<TemplateEntry>): (r: seq<string>)
    ensures var keys := PrintedKeys(ctx, template);
      && (keys == [] ==> r == [NoDifferences, "\n"])
      && (keys != [] ==> |r| == |keys| + 1 && r[|keys|] == "\n"
                         && forall i :: 0 <= i < |keys| ==> r[i] == ConfigLine(ctx, DefaultsMap(template), keys[i]))
  {
    var defaults := DefaultsMap(template);
    var keys := PrintedKeys(ctx, template);
    (if keys == [] then [NoDifferences]
     else seq(|keys|, i requires 0 <= i < |keys| => ConfigLine(ctx, defaults, keys[i])))
    + ["\n"]
  }

  // ------------------------------------------------------------ event

  /** watchdog's `event_type`. */
  function KindName(k: EventKind): string {
    match k
    case Created => "created"
    case Modified => "modified"
    case Moved => "moved"
    case Deleted => "deleted"
  }

  /** The event section with its closing blank line. */
  function EventLines(ev: Event, path: string): seq<string> {
    [ "* type: " + KindName(ev.kind) + "\n",
      "* is_directory: " + (if ev.isDirectory then "True" else "False") + "\n",
      "* src_path: " + ev.src + "\n",
      "* dest_path: " + ev.dest + "\n",
      "* ctx.path: " + path + "\n",
      "\n" ]
  }

  // ------------------------------------------------------------ layout

  /** A section is empty or closed by a blank line. */
  predicate EndsBlank(s: seq<string>) {
    s == [] || s[|s| - 1] == "\n"
  }

  lemma EndsBlankAppend(a: seq<string>, b: seq<string>)
    requires EndsBlank(a) && EndsBlank(b)
    ensures EndsBlank(a + b)
  {
    if b == [] { assert a + b == a; }
  }

  /** A section printed only when its option is selected, closed by a blank line. */
  function Section(on: bool, lines: seq<string>): (r: seq<string>)
    ensures EndsBlank(r)
  {
    if on then lines + ["\n"] else []
  }

  /** A section that brings its own closing blank line. */
  function Closed(on: bool, lines: seq<string>): (r: seq<string>)
    requires EndsBlank(lines)
    ensures EndsBlank(r)
  {
    if on then lines else []
  }

  lemma ConfigSectionCloses(ctx: Context, template: seq<TemplateEntry>)
    ensures EndsBlank(ConfigSection(ctx, template))
  {
  }

  /** The title line, the time line when the event is shown, and a blank line. */
  function Opening(title: string, withTime: bool, now: string): (r: seq<string>)
    ensures |r| >= 2 && r[0] == Header(title) && r[|r| - 1] == "\n"
    ensures r[1] == if withTime then TimeLine(now) else "\n"
  {
    [Header(title)] + (if withTime then [TimeLine(now), "\n"] else ["\n"])
  }

  /** The block: the opening, then the sections. */
  function Assemble(opening: seq<string>, sections: seq<string>): (r: seq<string>)
    requires |opening| >= 2 && opening[|opening| - 1] == "\n" && EndsBlank(sections)
    ensures |r| >= 2 && r[0] == opening[0] && r[1] == opening[1] && r[|r| - 1] == "\n"
  {
    opening + sections
  }
}
