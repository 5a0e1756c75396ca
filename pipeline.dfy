/**
 * The shapes every processing module shares
 * (lucy_notes_manager/modules/abstract_module.py): a module's name,
 * priority and flag template, the per-run `Context`, the runtime `System`
 * and the `IgnoreMap` a module returns (path to number of writes).
 */
module Pipeline {
  import opened Values
  import opened Paths

  /**
   * One template row: the flag, the name of its argument type, its default
   * value and its manual text. Rows written with fewer fields in the
   * source carry `VNone` and "" for the missing ones.
   */
  datatype TemplateEntry = TemplateEntry(flag: string, typeName: string, default: Value, desc: string)

  /** A processing module: name, priority (lower runs earlier) and the flags it adds. */
  datatype Module = Module(name: string, priority: int, template: seq<TemplateEntry>)

  /** The resolved args of one file and, per arg, the 1-based lines it was written on. */
  datatype Context = Context(path: string, config: map<string, Value>, argLines: map<string, seq<int>>)

  /** The triggering event, the full template and the modules in pipeline order. */
  datatype System = System(event: Event, globalTemplate: seq<TemplateEntry>, modules: seq<Module>)

  /** Path to the number of events the daemon should swallow for it. */
  type IgnoreMap = map<string, int>

  /** `ctx.arg_lines.get(key) or []`. */
  function LinesOf(ctx: Context, key: string): seq<int> {
    if key in ctx.argLines then ctx.argLines[key] else []
  }
}
