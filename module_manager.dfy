/**
 * The module manager (lucy_notes_manager/module_manager.py): it assembles
 * the global flag template, parses the startup args with it, reads the
 * `--priority name=number` overrides and orders the modules by priority
 * with a stable sort.
 *
 * `ModuleManager.run` is not part of this model: it imports a
 * `get_args_from_file` that args.py does not define and reads an `args`
 * that is never bound, so it cannot run as written.
 */
module ModuleManagement {
  import opened Wrappers
  import opened Text
  import opened Values
  import opened Sorting
  import opened Args
  import opened Pipeline

  /** Why a `--priority` item was refused; each is a `ValueError` in the source. */
  datatype PriorityError = MissingEquals(item: string) | EmptyName(item: string) | NotAnInteger(item: string)

  /**
   * One `name=number` item: split at the first "=", both halves stripped;
   * the name must be non-empty and the number an `int()` literal.
   */
  function ParseItem(item: string): (r: Result<(string, int), PriorityError>)
    ensures r == Failure(MissingEquals(item)) <==> '=' !in item
    ensures r.Failure? ==> r.error.item == item
    ensures r.Success? ==> r.value.0 != [] && !IsSpace(r.value.0[0])
  {
    match SplitOnce(item, '=')
    case None => Failure(MissingEquals(item))
    case Some((rawName, rawNumber)) =>
      var name := Strip(rawName);
      var raw := Strip(rawNumber);
      if name == [] then Failure(EmptyName(item))
      else match ParseInt(raw)
        case None => Failure(NotAnInteger(item))
        case Some(p) => Success((name, p))
  }

  /** An item written as `name=number` reads back as that name and number. */
  lemma ParseItemRoundTrip(name: string, p: int)
    requires name != [] && '=' !in name && !IsSpace(name[0]) && !IsSpace(name[|name| - 1])
    ensures ParseItem(name + "=" + IntToString(p)) == Success((name, p))
  {
    var b := IntToString(p);
    SplitOnceOf(name, '=', b);
    assert name + "=" + b == name + ['='] + b;
    StripKeeps(name);
    ParseIntRoundTrip(p);
    assert ParseInt(Strip(b)) == Some(p) by {
      assert ParseInt(b) == ParseSigned(Strip(b));
      assert ParseInt(Strip(b)) == ParseSigned(Strip(Strip(b)));
      StripIdempotent(b);
    }
  }

  lemma StripIdempotent(s: string)
    ensures Strip(Strip(s)) == Strip(s)
  {
    var t := Strip(s);
    if t != [] {
      StripKeeps(t);
    }
  }

  type ItemResult = Result<(string, int), PriorityError>

  /** The outcome of each item, in list order. */
  function ParseItems(values: seq<string>): (r: seq<ItemResult>)
    ensures |r| == |values| && forall i :: 0 <= i < |values| ==> r[i] == ParseItem(values[i])
  {
    seq(|values|, i requires 0 <= i < |values| => ParseItem(values[i]))
  }

  /**
   * The item outcomes folded into one map, left to right: the first refused
   * item stops the fold with its error, and a later name overrides.
   */
  function Accumulate(results: seq<ItemResult>): Result<map<string, int>, PriorityError>
  {
    if results == [] then Success(map[])
    else Step(Accumulate(results[..|results| - 1]), results[|results| - 1])
  }

  /** One item folded in: an earlier error stays, a refused item is the error, else the name is set. */
  function Step(acc: Result<map<string, int>, PriorityError>, item: ItemResult): Result<map<string, int>, PriorityError> {
    match acc
    case Failure(e) => Failure(e)
    case Success(m) =>
      match item
      case Failure(e) => Failure(e)
      case Success((name, p)) => Success(m[name := p])
  }

  lemma AccumulatePrefix(results: seq<ItemResult>, i: nat)
    requires i < |results|
    ensures Accumulate(results[..i + 1]) == Step(Accumulate(results[..i]), results[i])
  {
    assert results[..i + 1][..i] == results[..i];
  }

  /** What `_parse_priority_list` returns or raises for a list. */
  function PriorityMap(values: seq<string>): Result<map<string, int>, PriorityError> {
    Accumulate(ParseItems(values))
  }

  /** `_parse_priority_list`. */
  method ParsePriorityList(values: seq<string>) returns (r: Result<map<string, int>, PriorityError>)
    ensures r == PriorityMap(values)
  {
    var priorities: map<string, int> := map[];
    if values == [] {
      return Success(priorities);
    }
    ghost var results := ParseItems(values);
    var i := 0;
    while i < |values|
      invariant 0 <= i <= |values|
      invariant Accumulate(results[..i]) == Success(priorities)
    {
      var item := values[i];
      AccumulatePrefix(results, i);
      if '=' !in item {
        r := Failure(MissingEquals(item));
        assert results[i] == Failure(r.error);
        AccumulateFailurePersists(results, i + 1);
        return;
      }
      var (rawName, rawNumber) := SplitOnce(item, '=').value;
      var name := Strip(rawName);
      var raw := Strip(rawNumber);
      if name == [] {
        r := Failure(EmptyName(item));
        assert results[i] == Failure(r.error);
        AccumulateFailurePersists(results, i + 1);
        return;
      }
      var parsed := ParseInt(raw);
      if parsed.None? {
        r := Failure(NotAnInteger(item));
        assert results[i] == Failure(r.error);
        AccumulateFailurePersists(results, i + 1);
        return;
      }
      assert results[i] == Success((name, parsed.value));
      priorities := priorities[name := parsed.value];
      i := i + 1;
    }
    assert results[..i] == results;
    r := Success(priorities);
  }

  /** Once a prefix fails, the whole fold fails with the same error. */
  lemma {:induction false} AccumulateFailurePersists(results: seq<ItemResult>, n: nat)
    requires n <= |results| && Accumulate(results[..n]).Failure?
    ensures Accumulate(results) == Accumulate(results[..n])
    decreases |results| - n
  {
    if n < |results| {
      assert results[..n + 1][..n] == results[..n];
      AccumulateFailurePersists(results, n + 1);
    } else {
      assert results[..n] == results;
    }
  }

  /** The fold is a success exactly when every item is. */
  lemma {:induction false} AccumulateAccepts(results: seq<ItemResult>)
    ensures Accumulate(results).Success? <==> forall i :: 0 <= i < |results| ==> results[i].Success?
  {
    if results != [] {
      var init := results[..|results| - 1];
      AccumulateAccepts(init);
      assert forall i :: 0 <= i < |init| ==> init[i] == results[i];
    }
  }

  /** A refused list carries the error of its first refused item. */
  lemma {:induction false} AccumulateFirstError(results: seq<ItemResult>, i: nat)
    requires i < |results| && results[i].Failure?
    requires forall j :: 0 <= j < i ==> results[j].Success?
    ensures Accumulate(results) == Failure(results[i].error)
  {
    var init := results[..|results| - 1];
    if i == |results| - 1 {
      AccumulateAccepts(init);
    } else {
      assert init[i] == results[i];
      AccumulateFirstError(init, i);
    }
  }

  /** A name is in an accepted map exactly when some item names it. */
  lemma {:induction false} AccumulateNames(results: seq<ItemResult>, name: string)
    requires Accumulate(results).Success?
    ensures name in Accumulate(results).value <==>
      exists i :: 0 <= i < |results| && results[i].Success? && results[i].value.0 == name
  {
    if results != [] {
      var init := results[..|results| - 1];
      AccumulateNames(init, name);
      assert forall i :: 0 <= i < |init| ==> init[i] == results[i];
    }
  }

  /** In an accepted map, a name has the priority of the last item naming it. */
  lemma {:induction false} AccumulateLastWins(results: seq<ItemResult>, i: nat)
    requires Accumulate(results).Success? && i < |results| && results[i].Success?
    requires forall j :: i < j < |results| ==> results[j].Success? && results[j].value.0 != results[i].value.0
    ensures results[i].value.0 in Accumulate(results).value
    ensures Accumulate(results).value[results[i].value.0] == results[i].value.1
  {
    var init := results[..|results| - 1];
    if i < |results| - 1 {
      assert init[i] == results[i];
      assert forall j :: i < j < |init| ==> init[j] == results[j];
      AccumulateLastWins(init, i);
    }
  }

  /** The `--priority` values as the parser leaves them: a list of strings, or nothing. */
  function PriorityValues(config: ArgMap): seq<string> {
    match Get(config, "priority")
    case VList(items) => seq(|items|, i requires 0 <= i < |items| => Show(items[i]))
    case _ => []
  }

  /** The sort key: the override when the module is named, its own priority otherwise. */
  function SortKey(m: Module, overrides: map<string, int>): int {
    if m.name in overrides then overrides[m.name] else m.priority
  }

  function SortKeys(modules: seq<Module>, overrides: map<string, int>): (keys: seq<int>)
    ensures |keys| == |modules| && forall i :: 0 <= i < |modules| ==> keys[i] == SortKey(modules[i], overrides)
  {
    seq(|modules|, i requires 0 <= i < |modules| => SortKey(modules[i], overrides))
  }

  /** `modules.sort(key=...)`. */
  function PriorityOrder(modules: seq<Module>, overrides: map<string, int>): seq<Module> {
    StableSortByKey(modules, SortKeys(modules, overrides))
  }

  /**
   * The pipeline order is a permutation of the modules, in ascending key
   * order, and modules with equal keys keep their registration order.
   */
  lemma PriorityOrderSorted(modules: seq<Module>, overrides: map<string, int>)
    ensures var r := PriorityOrder(modules, overrides);
      && multiset(r) == multiset(modules)
      && (forall p, q :: 0 <= p < q < |r| ==> SortKey(r[p], overrides) <= SortKey(r[q], overrides))
      && exists order: seq<nat> ::
           && multiset(order) == multiset(Range(|modules|))
           && |order| == |r|
           && (forall p :: 0 <= p < |order| ==> order[p] < |modules| && r[p] == modules[order[p]])
           && (forall p, q :: 0 <= p < q < |order| && SortKey(r[p], overrides) == SortKey(r[q], overrides)
                 ==> order[p] < order[q])
  {
    var keys := SortKeys(modules, overrides);
    StableSortPermutes(modules, keys);
    PriorityOrderStable(modules, overrides);
  }

  /** The ascending and stable halves of `PriorityOrderSorted`. */
  lemma PriorityOrderStable(modules: seq<Module>, overrides: map<string, int>)
    ensures var r := PriorityOrder(modules, overrides);
      && (forall p, q :: 0 <= p < q < |r| ==> SortKey(r[p], overrides) <= SortKey(r[q], overrides))
      && exists order: seq<nat> ::
           && multiset(order) == multiset(Range(|modules|))
           && |order| == |r|
           && (forall p :: 0 <= p < |order| ==> order[p] < |modules| && r[p] == modules[order[p]])
           && (forall p, q :: 0 <= p < q < |order| && SortKey(r[p], overrides) == SortKey(r[q], overrides)
                 ==> order[p] < order[q])
  {
    var keys := SortKeys(modules, overrides);
    StableSortCorrect(modules, keys);
    var order := StableOrder(keys, |keys|);
    var r := PriorityOrder(modules, overrides);
    forall p | 0 <= p < |order|
      ensures order[p] < |modules| && r[p] == modules[order[p]] && SortKey(r[p], overrides) == keys[order[p]]
    {
    }
    forall p, q | 0 <= p < q < |r|
      ensures SortKey(r[p], overrides) <= SortKey(r[q], overrides)
      ensures SortKey(r[p], overrides) == SortKey(r[q], overrides) ==> order[p] < order[q]
    {
    }
  }

  /** The four flags the manager itself understands. */
  const SystemFlags: seq<TemplateEntry> := [
    TemplateEntry("--force", "str", VNone, ""),
    TemplateEntry("--exclude", "str", VNone, ""),
    TemplateEntry("--priority", "str", VNone, ""),
    TemplateEntry("--use_only_first_line", "bool", VNone, "")
  ]

  /** The modules' templates, one after the other in module order. */
  function ModuleTemplates(modules: seq<Module>): seq<TemplateEntry> {
    if modules == [] then [] else ModuleTemplates(modules[..|modules| - 1]) + modules[|modules| - 1].template
  }

  /** The rows of module `i` sit between those of the modules before and after it. */
  lemma {:induction false} ModuleTemplatesSplit(modules: seq<Module>, i: nat)
    requires i < |modules|
    ensures ModuleTemplates(modules)
         == ModuleTemplates(modules[..i]) + modules[i].template + ModuleTemplates(modules[i + 1..])
    decreases |modules|
  {
    var n := |modules|;
    if i == n - 1 {
      assert modules[..i] == modules[..n - 1];
      assert modules[i + 1..] == [];
    } else {
      var init := modules[..n - 1];
      ModuleTemplatesSplit(init, i);
      assert init[..i] == modules[..i];
      assert init[i + 1..] == modules[i + 1..n - 1];
      assert modules[i + 1..][..|modules[i + 1..]| - 1] == modules[i + 1..n - 1];
    }
  }

  class ModuleManager {
    var modules: seq<Module>
    var template: seq<TemplateEntry>
    var config: ArgMap

    /** The template assembly and the parse of the startup args. */
    constructor (mods: seq<Module>, args: seq<string>, parse: Parser)
      ensures modules == mods
      ensures template == SystemFlags + ModuleTemplates(mods)
      ensures config == parse(args).known
    {
      modules := mods;
      var t := SystemFlags;
      var i := 0;
      while i < |mods|
        invariant 0 <= i <= |mods|
        invariant t == SystemFlags + ModuleTemplates(mods[..i])
      {
        assert mods[..i + 1][..i] == mods[..i];
        t := t + mods[i].template;
        i := i + 1;
      }
      assert mods[..i] == mods;
      template := t;
      config := parse(args).known;
    }

    /** The in-place sort of the modules by their (possibly overridden) priority. */
    method SortModules(overrides: map<string, int>)
      modifies this`modules
      ensures modules == PriorityOrder(old(modules), overrides)
    {
      modules := PriorityOrder(modules, overrides);
    }

    /** `__init__`, which raises when an override is malformed. */
    static method Create(mods: seq<Module>, args: seq<string>, parse: Parser)
      returns (r: Result<ModuleManager, PriorityError>)
      ensures var pm := PriorityMap(PriorityValues(parse(args).known));
        && (r.Failure? <==> pm.Failure?)
        && (r.Failure? ==> r.error == pm.error)
        && (r.Success? ==>
              && fresh(r.value)
              && r.value.template == SystemFlags + ModuleTemplates(mods)
              && r.value.config == parse(args).known
              && r.value.modules == PriorityOrder(mods, pm.value))
    {
      var mm := new ModuleManager(mods, args, parse);
      var pm := ParsePriorityList(PriorityValues(mm.config));
      if pm.Failure? {
        return Failure(pm.error);
      }
      mm.SortModules(pm.value);
      r := Success(mm);
    }
  }
}
