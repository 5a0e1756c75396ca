/**
 * The counting event handler (lucy_notes_manager/file_handler.py). It keeps
 * a ledger from path to the number of upcoming events on that path to
 * swallow: a module that rewrote a file N times asks for its next N events
 * to be ignored, so the daemon does not react to its own writes.
 *
 * `ModuleManager.run` is not part of this model: what it returns for an
 * event is a parameter of `ProcessFile`.
 */
module FileHandling {
  import opened Text
  import opened Paths

  type Ledger = map<string, int>

  /** `self._ignore_paths.get(path, 0)`. */
  function Count(ledger: Ledger, path: string): int {
    if path in ledger then ledger[path] else 0
  }

  /** Every stored counter is positive. */
  predicate AllPositive(ledger: Ledger) {
    forall p :: p in ledger ==> ledger[p] > 0
  }

  /** The ledger after `_bump_ignore(path, delta)`. */
  function Bumped(ledger: Ledger, path: string, delta: int): (r: Ledger)
    ensures AllPositive(ledger) ==> AllPositive(r)
    ensures Count(r, path) == if Count(ledger, path) + delta <= 0 then 0 else Count(ledger, path) + delta
    ensures forall p :: p != path ==> Count(r, p) == Count(ledger, p) && (p in r <==> p in ledger)
  {
    var n := Count(ledger, path) + delta;
    if n <= 0 then ledger - {path} else ledger[path := n]
  }

  /** `_check_and_delete_ignore`: whether the event is swallowed, and the new ledger. */
  function Checked(ledger: Ledger, path: string): (r: (bool, Ledger))
    ensures r.0 <==> Count(ledger, path) > 0
    ensures r.0 ==> r.1 == Bumped(ledger, path, -1)
    ensures !r.0 ==> r.1 == ledger
  {
    if Count(ledger, path) <= 0 then (false, ledger) else (true, Bumped(ledger, path, -1))
  }

  /** The answers of `n` successive checks on one path. */
  function CheckRun(ledger: Ledger, path: string, n: nat): (r: seq<bool>)
    ensures |r| == n
    decreases n
  {
    if n == 0 then []
    else
      var (hit, next) := Checked(ledger, path);
      [hit] + CheckRun(next, path, n - 1)
  }

  /**
   * A path whose counter is k has exactly its next k events swallowed:
   * the i-th of n successive checks answers true exactly when i < k.
   */
  lemma {:induction false} CheckRunSwallowsExactlyCount(ledger: Ledger, path: string, n: nat)
    requires AllPositive(ledger)
    ensures forall i :: 0 <= i < n ==> (CheckRun(ledger, path, n)[i] <==> i < Count(ledger, path))
    decreases n
  {
    if n > 0 {
      var (hit, next) := Checked(ledger, path);
      CheckRunSwallowsExactlyCount(next, path, n - 1);
      assert Count(ledger, path) > 0 ==> Count(next, path) == Count(ledger, path) - 1;
      assert Count(ledger, path) <= 0 ==> Count(next, path) == 0 && Count(ledger, path) == 0;
    }
  }

  /** After `k` marks (k > 0) on a path, its next `Count + k` events are swallowed. */
  lemma MarkThenChecks(ledger: Ledger, path: string, k: int, n: nat)
    requires AllPositive(ledger) && k > 0
    ensures var marked := Bumped(ledger, path, k);
      && Count(marked, path) == Count(ledger, path) + k
      && forall i :: 0 <= i < n ==> (CheckRun(marked, path, n)[i] <==> i < Count(ledger, path) + k)
  {
    var marked := Bumped(ledger, path, k);
    assert Count(ledger, path) >= 0;
    CheckRunSwallowsExactlyCount(marked, path, n);
  }

  /** A counter that reaches zero or below is no counter. */
  function Clamp(n: int): nat {
    if n <= 0 then 0 else n
  }

  /** The ledger after `_mark_to_ignore(paths)`: every listed count is added. */
  function MarkedAll(ledger: Ledger, counts: map<string, int>): (r: Ledger)
    ensures AllPositive(ledger) ==> AllPositive(r)
    ensures forall p :: Count(r, p) == if p in counts then Clamp(Count(ledger, p) + counts[p]) else Count(ledger, p)
  {
    map p | p in ledger.Keys + counts.Keys
            && (if p in counts then Count(ledger, p) + counts[p] > 0 else true)
      :: if p in counts then Count(ledger, p) + counts[p] else ledger[p]
  }

  class FileHandler {
    var ignorePaths: Ledger

    ghost predicate Valid()
      reads this
    {
      AllPositive(ignorePaths)
    }

    constructor ()
      ensures Valid() && ignorePaths == map[]
    {
      ignorePaths := map[];
    }

    /** `_bump_ignore`: adds `delta` to the path's counter, dropping it at zero or below. */
    method BumpIgnore(path: string, delta: int) returns (n: int)
      requires Valid()
      modifies this
      ensures Valid()
      ensures n == if Count(old(ignorePaths), path) + delta <= 0 then 0 else Count(old(ignorePaths), path) + delta
      ensures n <= 0 ==> path !in ignorePaths
      ensures ignorePaths == Bumped(old(ignorePaths), path, delta)
    {
      var cur := if path in ignorePaths then ignorePaths[path] else 0;
      var next := cur + delta;
      if next <= 0 {
        if path in ignorePaths {
          ignorePaths := ignorePaths - {path};
        }
        return 0;
      }
      ignorePaths := ignorePaths[path := next];
      n := next;
    }

    /** `_check_and_delete_ignore`: swallows one event if the path has a positive counter. */
    method CheckAndDeleteIgnore(path: string) returns (ignored: bool)
      requires Valid()
      modifies this
      ensures Valid()
      ensures ignored <==> Count(old(ignorePaths), path) > 0
      ensures (ignored, ignorePaths) == Checked(old(ignorePaths), path)
      ensures !ignored ==> ignorePaths == old(ignorePaths)
    {
      var cur := if path in ignorePaths then ignorePaths[path] else 0;
      if cur <= 0 {
        return false;
      }
      var _ := BumpIgnore(path, -1);
      ignored := true;
    }

    /** `_mark_to_ignore`: adds each returned count to that path's counter. */
    method MarkToIgnore(counts: map<string, int>)
      requires Valid()
      modifies this
      ensures Valid()
      ensures ignorePaths == MarkedAll(old(ignorePaths), counts)
      ensures forall p :: p !in counts ==> Count(ignorePaths, p) == Count(old(ignorePaths), p)
    {
      var todo := counts.Keys;
      ghost var done: set<string> := {};
      while todo != {}
        invariant Valid()
        invariant todo + done == counts.Keys && todo !! done
        invariant forall q :: q in done ==> Count(ignorePaths, q) == Clamp(Count(old(ignorePaths), q) + counts[q])
        invariant forall q :: q !in done ==> Count(ignorePaths, q) == Count(old(ignorePaths), q)
        decreases |todo|
      {
        var p :| p in todo;
        var _ := BumpIgnore(p, counts[p]);
        todo := todo - {p};
        done := done + {p};
      }
      LedgerExtensional(ignorePaths, MarkedAll(old(ignorePaths), counts));
    }

    /**
     * `_process_file`: `moduleResult` stands for what the module pipeline
     * returns for this file (an empty map when nothing was changed). The
     * answer says whether the pipeline ran.
     */
    method ProcessFile(ev: Event, moduleResult: map<string, int>) returns (ran: bool)
      requires Valid()
      modifies this
      ensures Valid()
      ensures Dropped(ev) ==> !ran && ignorePaths == old(ignorePaths)
      ensures !Dropped(ev) && ev.kind != Moved ==>
        var (hit, after) := Checked(old(ignorePaths), ev.src);
        ran == !hit && ignorePaths == (if hit then after else MarkedAll(after, moduleResult))
      ensures !Dropped(ev) && ev.kind == Moved ==>
        var (hitSrc, afterSrc) := Checked(old(ignorePaths), ev.src);
        var (hitDest, afterDest) := Checked(afterSrc, ev.dest);
        ran == (!hitSrc && !hitDest)
        && ignorePaths == (if hitSrc then afterSrc else if hitDest then afterDest else MarkedAll(afterDest, moduleResult))
    {
      if ev.isDirectory || StartsWith(Basename(ev.src), ".") {
        return false;
      }
      var filePath := if ev.kind == Moved then ev.dest else ev.src;
      if ".git" in Components(filePath) {
        return false;
      }
      if ev.kind == Moved {
        var skip := CheckAndDeleteIgnore(ev.src);
        if !skip {
          skip := CheckAndDeleteIgnore(ev.dest);
        }
        if skip {
          return false;
        }
      } else {
        var skip := CheckAndDeleteIgnore(filePath);
        if skip {
          return false;
        }
      }
      if moduleResult != map[] {
        MarkToIgnore(moduleResult);
      }
      ran := true;
    }
  }

  /** A ledger of positive counters is determined by its counts. */
  lemma LedgerExtensional(a: Ledger, b: Ledger)
    requires AllPositive(a) && AllPositive(b)
    requires forall p :: Count(a, p) == Count(b, p)
    ensures a == b
  {
    assert forall p :: p in a <==> Count(a, p) > 0;
    assert forall p :: p in b <==> Count(b, p) > 0;
  }

  /** Marking with an empty result changes nothing, so the `if ignore_paths` guard is harmless. */
  lemma MarkNothing(ledger: Ledger)
    requires AllPositive(ledger)
    ensures MarkedAll(ledger, map[]) == ledger
  {
  }

  /** A moved event consumes at most one counter: the source's if it has one, else the destination's. */
  lemma MovedConsumesAtMostOne(ledger: Ledger, src: string, dest: string)
    requires AllPositive(ledger) && src != dest
    ensures var (hitSrc, afterSrc) := Checked(ledger, src);
      hitSrc ==> Count(afterSrc, dest) == Count(ledger, dest)
  {
  }
}
