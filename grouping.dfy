/**
 * The per-line grouping the `sys` modules build before they splice
 * (lucy_notes_manager/modules/sys.py `add_option`, and the same two
 * `setdefault` calls in sys_info.py): for each flag occurrence, its option
 * joins the set of options of that line and its flag joins the list of
 * flags to remove from that line. Line keys keep their first-insertion
 * order, as a Python dict does.
 */
module Grouping {
  import opened Sorting
  import opened Values
  import opened Pipeline
  import opened Splice

  /** One occurrence: an option requested on a 1-based line, and the flag that wrote it. */
  datatype Add = Add(line: int, opt: string, flag: string)

  /** `line_to_opts` and `line_to_remove_flags`, with their keys in insertion order. */
  datatype Groups = Groups(lines: seq<int>, opts: map<int, set<string>>, flags: map<int, seq<string>>)

  /** The keys listed once each, and the same in both maps. */
  ghost predicate WellFormed(g: Groups) {
    && (forall l :: l in g.lines <==> l in g.opts)
    && (forall l :: l in g.lines <==> l in g.flags)
    && Distinct(g.lines)
  }

  predicate Distinct(s: seq<int>) {
    forall i, j :: 0 <= i < j < |s| ==> s[i] != s[j]
  }

  const NoGroups := Groups([], map[], map[])

  /** `setdefault(line, set()).add(opt)` and `setdefault(line, []).append(flag)`. */
  function AddTo(g: Groups, a: Add): (r: Groups)
    requires WellFormed(g)
    ensures WellFormed(r)
  {
    if a.line in g.lines then
      Groups(g.lines, g.opts[a.line := g.opts[a.line] + {a.opt}], g.flags[a.line := g.flags[a.line] + [a.flag]])
    else
      Groups(g.lines + [a.line], g.opts[a.line := {a.opt}], g.flags[a.line := [a.flag]])
  }

  /** The groups after each occurrence of `adds` is added to `g`, in order. */
  function AddAll(g: Groups, adds: seq<Add>): (r: Groups)
    requires WellFormed(g)
    ensures WellFormed(r)
  {
    if adds == [] then g else AddTo(AddAll(g, adds[..|adds| - 1]), adds[|adds| - 1])
  }

  /** Adding one more occurrence to a run. */
  lemma AddAllStep(g: Groups, adds: seq<Add>, i: nat)
    requires WellFormed(g) && i < |adds|
    ensures WellFormed(AddAll(g, adds[..i]))
    ensures AddAll(g, adds[..i + 1]) == AddTo(AddAll(g, adds[..i]), adds[i])
  {
    assert adds[..i + 1][..i] == adds[..i];
  }

  /** The groups of a run of occurrences, from empty dicts. */
  function Grouped(adds: seq<Add>): (g: Groups)
    ensures WellFormed(g)
  {
    AddAll(NoGroups, adds)
  }

  /** Adding two runs is adding their concatenation. */
  lemma {:induction false} AddAllAppend(g: Groups, a: seq<Add>, b: seq<Add>)
    requires WellFormed(g)
    ensures AddAll(g, a + b) == AddAll(AddAll(g, a), b)
  {
    if b != [] {
      var n := |b| - 1;
      assert (a + b)[..|a + b| - 1] == a + b[..n];
      assert (a + b)[|a + b| - 1] == b[n];
      AddAllAppend(g, a, b[..n]);
    } else {
      assert a + b == a;
    }
  }

  /** The flags written on line `l`, in occurrence order. */
  function FlagsAt(adds: seq<Add>, l: int): seq<string> {
    if adds == [] then []
    else FlagsAt(adds[..|adds| - 1], l) + (if adds[|adds| - 1].line == l then [adds[|adds| - 1].flag] else [])
  }

  /** `add_option`. */
  method AddOption(g: Groups, a: Add) returns (r: Groups)
    requires WellFormed(g)
    ensures r == AddTo(g, a)
  {
    var lines := g.lines;
    assert a.line in g.opts <==> a.line in lines;
    assert a.line in g.flags <==> a.line in lines;
    if a.line !in g.opts {
      lines := lines + [a.line];
    }
    var opts: set<string> := if a.line in g.opts then g.opts[a.line] else {};
    var flags: seq<string> := if a.line in g.flags then g.flags[a.line] else [];
    assert opts + {a.opt} == if a.line in g.lines then g.opts[a.line] + {a.opt} else {a.opt};
    assert flags + [a.flag] == if a.line in g.lines then g.flags[a.line] + [a.flag] else [a.flag];
    r := Groups(lines, g.opts[a.line := opts + {a.opt}], g.flags[a.line := flags + [a.flag]]);
  }

  /** The loop `for each occurrence: add_option(...)`. */
  method AddEach(g: Groups, adds: seq<Add>) returns (r: Groups)
    requires WellFormed(g)
    ensures r == AddAll(g, adds)
  {
    r := g;
    var i := 0;
    while i < |adds|
      invariant 0 <= i <= |adds| && WellFormed(r)
      invariant r == AddAll(g, adds[..i])
    {
      assert adds[..i + 1][..i] == adds[..i];
      r := AddOption(r, adds[i]);
      i := i + 1;
    }
    assert adds[..i] == adds;
  }

  /** There are no keys exactly when there were no occurrences. */
  lemma GroupedEmpty(adds: seq<Add>)
    ensures Grouped(adds).lines == [] <==> adds == []
  {
    if adds != [] {
      GroupedSpec(adds, adds[0].line);
    }
  }

  /** Only options and flags that were added appear. */
  function OptsAt(g: Groups, l: int): set<string> {
    if l in g.opts then g.opts[l] else {}
  }

  function FlagsOf(g: Groups, l: int): seq<string> {
    if l in g.flags then g.flags[l] else []
  }

  /**
   * A line is a key exactly when some occurrence names it; its options are
   * exactly the options of its occurrences; its flags are its occurrences'
   * flags in order.
   */
  lemma {:induction false} GroupedSpec(adds: seq<Add>, l: int)
    ensures var g := Grouped(adds);
      && (l in g.lines <==> exists i :: 0 <= i < |adds| && adds[i].line == l)
      && (l in g.lines ==>
            && (forall o :: o in g.opts[l] <==> exists i :: 0 <= i < |adds| && adds[i].line == l && adds[i].opt == o)
            && g.flags[l] == FlagsAt(adds, l))
  {
    if adds != [] {
      var init := adds[..|adds| - 1];
      GroupedSpec(init, l);
      assert forall i :: 0 <= i < |init| ==> init[i] == adds[i];
      if l !in Grouped(init).lines {
        assert FlagsAt(init, l) == [] by { FlagsAtAbsent(init, l); }
      }
    }
  }

  /** The flags of a key are its occurrences' flags in order. */
  lemma GroupedFlags(adds: seq<Add>, l: int)
    requires l in Grouped(adds).lines
    ensures l in Grouped(adds).flags && Grouped(adds).flags[l] == FlagsAt(adds, l)
  {
    GroupedSpec(adds, l);
  }

  /** A line some occurrence names is a key. */
  lemma GroupedHas(adds: seq<Add>, i: nat)
    requires i < |adds|
    ensures adds[i].line in Grouped(adds).lines
  {
    GroupedSpec(adds, adds[i].line);
  }

  /** A line no occurrence names has no flags. */
  lemma {:induction false} FlagsAtAbsent(adds: seq<Add>, l: int)
    requires forall i :: 0 <= i < |adds| ==> adds[i].line != l
    ensures FlagsAt(adds, l) == []
  {
    if adds != [] {
      FlagsAtAbsent(adds[..|adds| - 1], l);
    }
  }

  /** A line taken twice by the sort would occur twice among the keys. */
  lemma {:induction false} DistinctCount(s: seq<int>, x: int)
    requires Distinct(s)
    ensures multiset(s)[x] <= 1
  {
    if s != [] {
      assert s == [s[0]] + s[1..];
      DistinctCount(s[1..], x);
      if s[0] == x {
        assert x !in s[1..];
      }
    }
  }

  /** Two equal neighbours count twice. */
  lemma AdjacentTwice(r: seq<int>, i: nat)
    requires 0 < i < |r| && r[i - 1] == r[i]
    ensures multiset(r)[r[i]] >= 2
  {
    var x := r[i];
    assert r == r[..i - 1] + ([x, x] + r[i + 1..]);
    assert multiset([x, x])[x] == 2;
  }

  /** The keys sorted with `reverse=True` come out strictly decreasing. */
  lemma SortedKeysStrict(s: seq<int>)
    requires Distinct(s)
    ensures var r := SortDescending(s);
      forall i :: 0 < i < |r| ==> r[i - 1] > r[i]
  {
    var r := SortDescending(s);
    forall i | 0 < i < |r| ensures r[i - 1] > r[i] {
      if r[i - 1] == r[i] {
        AdjacentTwice(r, i);
        DistinctCount(s, r[i]);
      }
    }
  }

  /** The keys sorted in ascending order come out strictly increasing. */
  lemma SortedKeysRising(s: seq<int>)
    requires Distinct(s)
    ensures forall i :: 0 < i < |SortAscending(s)| ==> SortAscending(s)[i - 1] < SortAscending(s)[i]
  {
    var r := SortAscending(s);
    forall i | 0 < i < |r| ensures r[i - 1] < r[i] {
      if r[i - 1] == r[i] {
        AdjacentTwice(r, i);
        DistinctCount(s, r[i]);
      }
    }
  }

  /**
   * When every occurrence names a line of a file of `n` lines, the sorted
   * keys name such lines too, and fall strictly.
   */
  lemma KeysBottomUp(adds: seq<Add>, n: int)
    requires forall i :: 0 <= i < |adds| ==> 1 <= adds[i].line <= n
    ensures var keys := SortDescending(Grouped(adds).lines);
      && (forall i :: 0 <= i < |keys| ==> 1 <= keys[i] <= n)
      && (forall i :: 0 < i < |keys| ==> keys[i - 1] > keys[i])
  {
    var g := Grouped(adds);
    var keys := SortDescending(g.lines);
    SortedKeysStrict(g.lines);
    forall i | 0 <= i < |keys| ensures 1 <= keys[i] <= n {
      assert keys[i] in multiset(g.lines);
      GroupedSpec(adds, keys[i]);
    }
  }

  /** A descending list ends with its least element. */
  lemma {:induction false} DescendingLast(r: seq<int>, k: nat)
    requires Descending(r) && k < |r|
    ensures r[k] >= r[|r| - 1]
    decreases |r| - k
  {
    if k < |r| - 1 {
      DescendingLast(r, k + 1);
    }
  }

  /** The last key of the sorted groups is the lowest line any occurrence names. */
  lemma LowestKey(adds: seq<Add>)
    requires adds != []
    ensures var keys := SortDescending(Grouped(adds).lines);
      && keys != []
      && (forall i :: 0 <= i < |adds| ==> adds[i].line >= keys[|keys| - 1])
      && (exists i :: 0 <= i < |adds| && adds[i].line == keys[|keys| - 1])
  {
    var g := Grouped(adds);
    var keys := SortDescending(g.lines);
    GroupedEmpty(adds);
    assert g.lines[0] in multiset(keys);
    var last := keys[|keys| - 1];
    forall i | 0 <= i < |adds| ensures adds[i].line >= last {
      GroupedSpec(adds, adds[i].line);
      assert adds[i].line in multiset(keys);
      var k :| 0 <= k < |keys| && keys[k] == adds[i].line;
      DescendingLast(keys, k);
    }
    assert last in multiset(g.lines);
    GroupedSpec(adds, last);
  }

  // ------------------------------------------------------------ boolean options

  /** One occurrence per recorded line of a flag. */
  function Occurrences(lines: seq<int>, opt: string, flag: string): (r: seq<Add>)
    ensures |r| == |lines| && forall i :: 0 <= i < |r| ==> r[i] == Add(lines[i], opt, flag)
  {
    seq(|lines|, i requires 0 <= i < |lines| => Add(lines[i], opt, flag))
  }

  /** A boolean option counts only when its config value is truthy. */
  function FlagAdds(ctx: Context, key: string, opt: string, flag: string): seq<Add> {
    if Truthy(Get(ctx.config, key)) then Occurrences(LinesOf(ctx, key), opt, flag) else []
  }

  /** The `add_option` loop of one boolean option. */
  method AddFlag(g: Groups, ctx: Context, key: string, opt: string, flag: string) returns (r: Groups)
    requires WellFormed(g)
    ensures r == AddAll(g, FlagAdds(ctx, key, opt, flag))
  {
    r := g;
    if Truthy(Get(ctx.config, key)) {
      r := AddEach(g, Occurrences(LinesOf(ctx, key), opt, flag));
    }
  }

  /** Sites at the sorted keys of occurrences that all name lines of the file are bottom-up. */
  lemma GroupedBottomUp(adds: seq<Add>, sites: seq<Site>, n: nat)
    requires forall i :: 0 <= i < |adds| ==> 1 <= adds[i].line <= n
    requires var keys := SortDescending(Grouped(adds).lines);
      |sites| == |keys| && forall i :: 0 <= i < |sites| ==> sites[i].lineno == keys[i]
    ensures BottomUp(sites, n)
  {
    KeysBottomUp(adds, n);
    KeyedBottomUp(sites, SortDescending(Grouped(adds).lines), n);
  }
}
