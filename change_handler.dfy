/**
 * The dispatching event handler (lucy_notes_manager/change_handler.py):
 * modules in stable priority order, per-file `--exclude`/`--force`
 * selection, and a one-shot ignore set for files a module just rewrote.
 *
 * What each module's handler returns is a parameter (`changed`): whether
 * the module reported a change for this event.
 *
 * As written, the handler fails in two ways: a handler built without args
 * never stores them, so reading them raises; and hooks are called with
 * `args=` and `event=`, which raises for every hook taking `(ctx, system)`.
 * `EventArgsAsWritten`, `DispatchAsWritten` and `DeletedAsWritten` show
 * these failures. The class `ChangeHandler` models the handler with both
 * repaired: missing args read as empty, and every hook accepts the call.
 */
module ChangeHandling {
  import opened Wrappers
  import opened Text
  import opened Values
  import opened Sorting
  import opened Paths
  import opened Args
  import opened Pipeline

  /** A module is skipped exactly when it is excluded and not forced. */
  predicate Skipped(name: string, force: seq<Value>, exclude: seq<Value>) {
    VStr(name) in exclude && VStr(name) !in force
  }

  /** The names of the modules that run, in pipeline order. */
  function Selected(modules: seq<Module>, force: seq<Value>, exclude: seq<Value>): (r: seq<string>)
    ensures |r| <= |modules|
    ensures forall n :: n in r ==> !Skipped(n, force, exclude)
  {
    if modules == [] then []
    else
      var rest := Selected(modules[1..], force, exclude);
      if Skipped(modules[0].name, force, exclude) then rest else [modules[0].name] + rest
  }

  /** Every module that is not skipped is selected, and only modules are. */
  lemma {:induction false} SelectedExactly(modules: seq<Module>, force: seq<Value>, exclude: seq<Value>, n: string)
    ensures n in Selected(modules, force, exclude)
            <==> !Skipped(n, force, exclude) && exists i :: 0 <= i < |modules| && modules[i].name == n
  {
    if modules != [] {
      SelectedExactly(modules[1..], force, exclude, n);
      if exists i :: 0 <= i < |modules| && modules[i].name == n {
        var i :| 0 <= i < |modules| && modules[i].name == n;
        if i > 0 { assert modules[1..][i - 1].name == n; }
      }
      if exists i :: 0 <= i < |modules[1..]| && modules[1..][i].name == n {
        var i :| 0 <= i < |modules[1..]| && modules[1..][i].name == n;
        assert modules[i + 1].name == n;
      }
    }
  }

  /** A forced module always runs, whatever `--exclude` says. */
  lemma ForceOverridesExclude(modules: seq<Module>, force: seq<Value>, exclude: seq<Value>, i: nat)
    requires i < |modules| && VStr(modules[i].name) in force
    ensures modules[i].name in Selected(modules, force, exclude)
  {
    SelectedExactly(modules, force, exclude, modules[i].name);
  }

  /**
   * `self.system_args` or `self.modules_args` read on a handler that never
   * stored them (`AttributeError`), or a hook called with `args=` and
   * `event=` that takes `(ctx, system)` instead (`TypeError`).
   */
  datatype HandlerError = MissingAttribute | WrongHookArguments(moduleName: string)

  /**
   * The merged system args and the module args of one event, as written:
   * the handler only stores `system_args`/`modules_args` when it was built
   * with a non-empty argument list, so otherwise the lookup fails.
   */
  function EventArgsAsWritten(stored: Option<Parsed>, file: Parsed): (r: Result<(ArgMap, seq<string>), HandlerError>)
    ensures r.Failure? <==> stored.None?
    ensures r.Success? ==> r.value.1 == stored.value.unknown + file.unknown
  {
    match stored
    case None => Failure(MissingAttribute)
    case Some(p) => Success((Merged(p.known, file.known), p.unknown + file.unknown))
  }

  /**
   * A handler built from an empty argument list (the constructor then
   * stores `None`) fails on every event that gets past the filters.
   */
  lemma EventArgsAsWrittenFailsWithoutArgs(file: Parsed)
    ensures EventArgsAsWritten(None, file) == Failure(MissingAttribute)
  {
  }

  /**
   * The merged args of one event with missing stored args read as empty:
   * file flags override the system flags, and module args are the stored
   * unknown args followed by the file's unknown args.
   */
  function EventArgs(stored: Option<Parsed>, file: Parsed): (r: (ArgMap, seq<string>))
    ensures var base := stored.GetOr(NoArgs);
      && r.1 == base.unknown + file.unknown
      && (forall k :: k in file.known && !Unset(file.known[k]) ==> k in r.0 && r.0[k] == file.known[k])
      && (forall k :: k in base.known && (k !in file.known || Unset(file.known[k]))
            ==> k in r.0 && r.0[k] == base.known[k])
    ensures stored.Some? ==> EventArgsAsWritten(stored, file) == Success(r)
  {
    var base := stored.GetOr(NoArgs);
    (Merged(base.known, file.known), base.unknown + file.unknown)
  }

  /**
   * How a module's hook for one kind of event takes its arguments: the
   * `(args, event)` form the handler's keyword call fits, or the
   * `(ctx, system)` form of the abstract module, which it does not.
   */
  datatype HookStyle = ArgsEvent | ContextSystem

  /** The style of each module's hook for each kind of event. */
  type HookStyles = (string, EventKind) -> HookStyle

  /** Every module named in `names` has an `(args, event)` hook for `kind`. */
  predicate HooksFit(names: seq<string>, kind: EventKind, styles: HookStyles) {
    forall i :: 0 <= i < |names| ==> styles(names[i], kind) == ArgsEvent
  }

  /**
   * The hook calls of one event, as written: the modules' hooks run in
   * order and the first one taking `(ctx, system)` raises.
   */
  function CallHooksAsWritten(names: seq<string>, kind: EventKind, styles: HookStyles)
    : (r: Result<seq<string>, HandlerError>)
    ensures r.Success? <==> HooksFit(names, kind, styles)
    ensures r.Success? ==> r.value == names
    ensures r.Failure? ==>
      exists i :: 0 <= i < |names| && HooksFit(names[..i], kind, styles)
        && styles(names[i], kind) == ContextSystem && r.error == WrongHookArguments(names[i])
  {
    if names == [] then Success([])
    else if styles(names[0], kind) == ContextSystem then
      assert HooksFit(names[..0], kind, styles);
      Failure(WrongHookArguments(names[0]))
    else
      match CallHooksAsWritten(names[1..], kind, styles)
      case Success(rest) =>
        assert names == [names[0]] + rest;
        Success(names)
      case Failure(e) =>
        ghost var i :| 0 <= i < |names[1..]| && HooksFit(names[1..][..i], kind, styles)
          && styles(names[1..][i], kind) == ContextSystem && e == WrongHookArguments(names[1..][i]);
        assert names[..i + 1] == [names[0]] + names[1..][..i];
        Failure(e)
  }

  /**
   * `_process_file` as written, for an event that passed the filters and
   * the ignore set: reading the stored args fails on a handler built
   * without args; otherwise the selected modules' hooks are called, and
   * the first hook taking `(ctx, system)` raises.
   */
  function DispatchAsWritten(stored: Option<Parsed>, file: Parsed, modules: seq<Module>, kind: EventKind,
                             styles: HookStyles): (r: Result<seq<string>, HandlerError>)
    ensures stored.None? ==> r == Failure(MissingAttribute)
    ensures stored.Some? ==> var system := EventArgs(stored, file).0;
      var selected := Selected(modules, ListOrEmpty(Get(system, "force")), ListOrEmpty(Get(system, "exclude")));
      && (r.Success? <==> HooksFit(selected, kind, styles))
      && (r.Success? ==> r.value == selected)
  {
    match EventArgsAsWritten(stored, file)
    case Failure(e) => Failure(e)
    case Success((system, _)) =>
      CallHooksAsWritten(Selected(modules, ListOrEmpty(Get(system, "force")), ListOrEmpty(Get(system, "exclude"))),
                         kind, styles)
  }

  /** One selected module whose hook takes `(ctx, system)` makes the whole event fail. */
  lemma DispatchFailsOnContextHook(stored: Option<Parsed>, file: Parsed, modules: seq<Module>, kind: EventKind,
                                   styles: HookStyles, i: nat)
    requires stored.Some? && i < |modules|
    requires var system := EventArgs(stored, file).0;
      !Skipped(modules[i].name, ListOrEmpty(Get(system, "force")), ListOrEmpty(Get(system, "exclude")))
    requires styles(modules[i].name, kind) == ContextSystem
    ensures DispatchAsWritten(stored, file, modules, kind, styles).Failure?
  {
    var system := EventArgs(stored, file).0;
    var force, exclude := ListOrEmpty(Get(system, "force")), ListOrEmpty(Get(system, "exclude"));
    SelectedExactly(modules, force, exclude, modules[i].name);
    var selected := Selected(modules, force, exclude);
    var k :| 0 <= k < |selected| && selected[k] == modules[i].name;
  }

  /**
   * `on_deleted` as written: every module's `deleted` hook is called with
   * the stored module args, which a handler built without args lacks.
   */
  function DeletedAsWritten(stored: Option<Parsed>, modules: seq<Module>, styles: HookStyles)
    : (r: Result<seq<string>, HandlerError>)
    ensures modules == [] ==> r == Success([])
    ensures modules != [] && stored.None? ==> r == Failure(MissingAttribute)
    ensures stored.Some? ==> (r.Success? <==> HooksFit(Names(modules), Deleted, styles))
    ensures r.Success? ==> r.value == Names(modules)
  {
    if modules == [] then Success([])
    else if stored.None? then Failure(MissingAttribute)
    else CallHooksAsWritten(Names(modules), Deleted, styles)
  }

  /**
   * The hook styles of the modules the daemon registers: the banner
   * inserter's `modified`, every hook of the Plasma notes sync and the todo
   * formatter's `created` and `modified` take `(args, event)`; the renamer,
   * the git module and every hook inherited from the abstract module take
   * `(ctx, system)`.
   */
  function RegisteredHookStyle(name: string, kind: EventKind): HookStyle {
    if name == "banner" then (if kind == Modified then ArgsEvent else ContextSystem)
    else if name == "plasma_notes_sync" then ArgsEvent
    else if name == "todo" then (if kind == Created || kind == Modified then ArgsEvent else ContextSystem)
    else ContextSystem
  }

  /** With the registered modules, a deletion fails whenever the git module is in the pipeline. */
  lemma DeletedFailsWithGit(stored: Option<Parsed>, modules: seq<Module>, i: nat)
    requires i < |modules| && modules[i].name == "git"
    ensures DeletedAsWritten(stored, modules, RegisteredHookStyle).Failure?
  {
    assert Names(modules)[i] == "git";
  }

  /** With the registered modules, every event that reaches a selected renamer fails. */
  lemma DispatchFailsWithRenamer(stored: Option<Parsed>, file: Parsed, modules: seq<Module>, kind: EventKind, i: nat)
    requires stored.Some? && i < |modules| && modules[i].name == "renamer"
    requires var system := EventArgs(stored, file).0;
      !Skipped(modules[i].name, ListOrEmpty(Get(system, "force")), ListOrEmpty(Get(system, "exclude")))
    ensures DispatchAsWritten(stored, file, modules, kind, RegisteredHookStyle).Failure?
  {
    DispatchFailsOnContextHook(stored, file, modules, kind, RegisteredHookStyle, i);
  }

  /** The modules of the registration list, in registration order. */
  function RegisteredModules(registered: seq<(int, Module)>): (r: seq<Module>)
    ensures |r| == |registered| && forall i :: 0 <= i < |r| ==> r[i] == registered[i].1
  {
    seq(|registered|, i requires 0 <= i < |registered| => registered[i].1)
  }

  function RegisteredKeys(registered: seq<(int, Module)>): (r: seq<int>)
    ensures |r| == |registered| && forall i :: 0 <= i < |r| ==> r[i] == registered[i].0
  {
    seq(|registered|, i requires 0 <= i < |registered| => registered[i].0)
  }

  /** The modules of the registration list, in the order the sort leaves them. */
  function PipelineOrder(registered: seq<(int, Module)>): (r: seq<Module>)
    ensures |r| == |registered|
  {
    StableSortByKey(RegisteredModules(registered), RegisteredKeys(registered))
  }

  /**
   * `r` lists the registered modules at the positions `order`: every
   * position once, numbers ascending, registration order among equal
   * numbers.
   */
  ghost predicate StablySorted(registered: seq<(int, Module)>, r: seq<Module>, order: seq<nat>) {
    && multiset(order) == multiset(Range(|registered|))
    && |order| == |r|
    && (forall p :: 0 <= p < |order| ==> order[p] < |registered| && r[p] == registered[order[p]].1)
    && (forall p, q :: 0 <= p < q < |order| ==> registered[order[p]].0 <= registered[order[q]].0)
    && (forall p, q :: 0 <= p < q < |order| && registered[order[p]].0 == registered[order[q]].0
          ==> order[p] < order[q])
  }

  /**
   * `sorted(modules, key=lambda x: x[0])`: every registered module once,
   * in ascending order of its number, and in registration order among
   * equal numbers.
   */
  lemma PipelineOrderSorted(registered: seq<(int, Module)>)
    ensures var r := PipelineOrder(registered);
      && multiset(r) == multiset(RegisteredModules(registered))
      && exists order: seq<nat> :: StablySorted(registered, r, order)
  {
    var mods, keys := RegisteredModules(registered), RegisteredKeys(registered);
    StableSortPermutes(mods, keys);
    PipelineOrderStable(registered);
  }

  /** The stable half of `PipelineOrderSorted`, with its witness. */
  lemma PipelineOrderStable(registered: seq<(int, Module)>)
    ensures StablySorted(registered, PipelineOrder(registered), StableOrder(RegisteredKeys(registered), |registered|))
  {
    var mods, keys := RegisteredModules(registered), RegisteredKeys(registered);
    StableSortCorrect(mods, keys);
    var order := StableOrder(keys, |keys|);
    var r := PipelineOrder(registered);
    forall p | 0 <= p < |order|
      ensures order[p] < |registered| && r[p] == registered[order[p]].1 && keys[order[p]] == registered[order[p]].0
    {
    }
    forall p, q | 0 <= p < q < |order|
      ensures registered[order[p]].0 <= registered[order[q]].0
      ensures registered[order[p]].0 == registered[order[q]].0 ==> order[p] < order[q]
    {
    }
  }

  function Names(modules: seq<Module>): (r: seq<string>)
    ensures |r| == |modules| && forall i :: 0 <= i < |r| ==> r[i] == modules[i].name
  {
    seq(|modules|, i requires 0 <= i < |modules| => modules[i].name)
  }

  /** Some module in `called` reported a change. */
  predicate AnyChanged(called: seq<string>, changed: string -> bool) {
    exists j :: 0 <= j < |called| && changed(called[j])
  }

  lemma AnyChangedAppend(called: seq<string>, x: string, changed: string -> bool)
    ensures AnyChanged(called + [x], changed) <==> AnyChanged(called, changed) || changed(x)
  {
    if AnyChanged(called, changed) {
      var j :| 0 <= j < |called| && changed(called[j]);
      assert (called + [x])[j] == called[j];
    }
    assert (called + [x])[|called|] == x;
  }

  lemma SeqAssoc<T>(a: seq<T>, b: seq<T>, c: seq<T>)
    ensures a + (b + c) == a + b + c
  {
  }

  /** One step of the selection, from position `i` of the pipeline. */
  lemma SelectedStep(modules: seq<Module>, i: nat, force: seq<Value>, exclude: seq<Value>)
    requires i < |modules|
    ensures Selected(modules[i..], force, exclude)
         == (if Skipped(modules[i].name, force, exclude) then [] else [modules[i].name])
            + Selected(modules[i + 1..], force, exclude)
  {
    assert modules[i..][1..] == modules[i + 1..];
  }

  class ChangeHandler {
    var modules: seq<Module>
    /** `(system_args, modules_args)`, absent when built without args. */
    var stored: Option<Parsed>
    var ignorePaths: set<string>

    /** `__init__`: stable sort by priority; args parsed with the `--force`/`--exclude` template. */
    constructor (registered: seq<(int, Module)>, args: seq<string>, parse: Parser)
      ensures modules == PipelineOrder(registered)
      ensures stored == if args != [] then Some(parse(args)) else None
      ensures ignorePaths == {}
    {
      modules := PipelineOrder(registered);
      stored := if args != [] then Some(parse(args)) else None;
      ignorePaths := {};
    }

    /** `_mark_to_ignore`. */
    method MarkToIgnore(path: string) returns (r: bool)
      modifies this`ignorePaths
      ensures !r && ignorePaths == old(ignorePaths) + {path}
    {
      ignorePaths := ignorePaths + {path};
      r := false;
    }

    /** `_check_and_delete_ignore`: true exactly when the path was marked; the mark is used up. */
    method CheckAndDeleteIgnore(path: string) returns (ignored: bool)
      modifies this`ignorePaths
      ensures ignored <==> path in old(ignorePaths)
      ensures ignorePaths == old(ignorePaths) - {path}
    {
      ignored := path in ignorePaths;
      if ignored {
        ignorePaths := ignorePaths - {path};
      }
    }

    /**
     * `_process_file`. `firstLine` is the note's first line (or `None` if it
     * is gone), `changed(name)` whether that module reported a change.
     * Returns the names of the modules called and the args they were given.
     */
    method ProcessFile(ev: Event, parse: Parser, firstLine: Option<string>, changed: string -> bool)
      returns (called: seq<string>, moduleArgs: seq<string>)
      modifies this`ignorePaths
      ensures Dropped(ev) ==> called == [] && ignorePaths == old(ignorePaths)
      ensures !Dropped(ev) && FilePath(ev) in old(ignorePaths) ==>
        called == [] && ignorePaths == old(ignorePaths) - {FilePath(ev)}
      ensures !Dropped(ev) && FilePath(ev) !in old(ignorePaths) ==>
        var (system, modArgs) := EventArgs(stored, FirstLineArgs(parse, firstLine));
        && called == Selected(modules, ListOrEmpty(Get(system, "force")), ListOrEmpty(Get(system, "exclude")))
        && moduleArgs == modArgs
        && ignorePaths == old(ignorePaths) + (if AnyChanged(called, changed) then {FilePath(ev)} else {})
    {
      called, moduleArgs := [], [];
      if ev.isDirectory || StartsWith(Basename(ev.src), ".") {
        return;
      }
      var filePath := if ev.kind == Moved then ev.dest else ev.src;
      if ".git" in Components(filePath) {
        return;
      }
      var skip := CheckAndDeleteIgnore(filePath);
      if skip {
        return;
      }
      var fileArgs := FirstLineArgs(parse, firstLine);
      var system, modArgs := EventArgs(stored, fileArgs).0, EventArgs(stored, fileArgs).1;
      var force := ListOrEmpty(Get(system, "force"));
      var exclude := ListOrEmpty(Get(system, "exclude"));
      moduleArgs := modArgs;
      called := RunModules(filePath, force, exclude, changed);
    }

    /** The module loop of `_process_file`: runs the selected modules, marking the file on a change. */
    method RunModules(filePath: string, force: seq<Value>, exclude: seq<Value>, changed: string -> bool)
      returns (called: seq<string>)
      modifies this`ignorePaths
      ensures called == Selected(modules, force, exclude)
      ensures ignorePaths == old(ignorePaths) + (if AnyChanged(called, changed) then {filePath} else {})
    {
      called := [];
      var ms := modules;
      var i := 0;
      while i < |ms|
        invariant 0 <= i <= |ms| && ms == modules
        invariant called + Selected(ms[i..], force, exclude) == Selected(ms, force, exclude)
        invariant AnyChanged(called, changed) ==> ignorePaths == old(ignorePaths) + {filePath}
        invariant !AnyChanged(called, changed) ==> ignorePaths == old(ignorePaths)
      {
        SelectedStep(ms, i, force, exclude);
        ghost var prev := called;
        called := RunModule(filePath, ms[i].name, force, exclude, changed, called, old(ignorePaths));
        SeqAssoc(prev, if Skipped(ms[i].name, force, exclude) then [] else [ms[i].name],
                 Selected(ms[i + 1..], force, exclude));
        i := i + 1;
      }
      assert ms[i..] == [];
    }

    /** One turn of the module loop: a module that is not skipped is called, and marks the file when it changed it. */
    method RunModule(filePath: string, name: string, force: seq<Value>, exclude: seq<Value>, changed: string -> bool,
                     called: seq<string>, ghost before: set<string>)
      returns (called': seq<string>)
      modifies this`ignorePaths
      requires AnyChanged(called, changed) ==> ignorePaths == before + {filePath}
      requires !AnyChanged(called, changed) ==> ignorePaths == before
      ensures called' == called + (if Skipped(name, force, exclude) then [] else [name])
      ensures AnyChanged(called', changed) ==> ignorePaths == before + {filePath}
      ensures !AnyChanged(called', changed) ==> ignorePaths == before
    {
      called' := called;
      if !(VStr(name) in exclude && VStr(name) !in force) {
        AnyChangedAppend(called, name, changed);
        called' := called + [name];
        if changed(name) {
          var _ := MarkToIgnore(filePath);
        }
      }
    }

    /** `on_deleted`: every module's `deleted` hook runs, with the stored module args. */
    method OnDeleted() returns (called: seq<string>, moduleArgs: seq<string>)
      ensures called == Names(modules)
      ensures moduleArgs == stored.GetOr(NoArgs).unknown
    {
      called := [];
      var i := 0;
      while i < |modules|
        invariant 0 <= i <= |modules|
        invariant called == Names(modules[..i])
      {
        called := called + [modules[i].name];
        i := i + 1;
      }
      assert modules[..i] == modules;
      moduleArgs := stored.GetOr(NoArgs).unknown;
    }
  }
}
