/**
 * The git module of note_manager (note_manager/modules/git.py): the older
 * sibling of lucy_notes_manager's module. Its handlers hand file events to
 * a worker, the worker folds the events of one repository into a pending
 * batch, and after committing a batch it pushes, with the same per
 * repository back-off, and throttles its desktop notifications per key.
 *
 * Its options come from the module's parsed arguments, a map from option
 * name to the list of values given for it. The git commands, the worker
 * thread and its queue, the desktop notification itself and the walk that
 * finds a repository's root are not part of this model: the roots are a
 * map, the clock and the outcome of `git push` are parameters.
 */
module NoteGit {
  import opened Wrappers
  import opened Values
  import opened PushBackoff
  import Throttle
  import Git

  const DefaultCommitMessage: string := "Auto-commit"
  const DefaultTimestampFormat: string := "%Y-%m-%d_%H-%M-%S"
  const Debounce: real := 0.8
  const NotifyCooldown: real := 5.0
  const BackoffStart: real := 5.0
  const BackoffMax: real := 120.0

  /** The parsed arguments hold a list of values under every option they name. */
  predicate KnownArgs(known: map<string, Value>) {
    forall k :: k in known ==> known[k].VList?
  }

  /**
   * The shared reading of `_get_base_msg` and `_get_tsfmt`: the first value
   * given for the option, when the option was given at all and that value
   * is a non-empty string; the default otherwise.
   */
  function FirstStringOr(known: map<string, Value>, key: string, default: string): (r: string)
    requires KnownArgs(known)
    ensures default != [] ==> r != []
    ensures (key in known && known[key].items != [] && known[key].items[0].VStr? && known[key].items[0].s != []) ==> r == known[key].items[0].s
    ensures !(key in known && known[key].items != [] && known[key].items[0].VStr? && known[key].items[0].s != []) ==> r == default
  {
    var given := Get(known, key);
    if Truthy(given) then
      match Item0(given)
      case Some(VStr(s)) => if s != [] then s else default
      case _ => default
    else default
  }

  /** `_get_base_msg`: the first "gmsg" value, or "Auto-commit". */
  function GetBaseMsg(known: map<string, Value>): (r: string)
    requires KnownArgs(known)
    ensures r != []
  {
    FirstStringOr(known, "gmsg", DefaultCommitMessage)
  }

  /** `_get_tsfmt`: the first "tsfmt" value, or the default strftime format. */
  function GetTsfmt(known: map<string, Value>): (r: string)
    requires KnownArgs(known)
    ensures r != []
  {
    FirstStringOr(known, "tsfmt", DefaultTimestampFormat)
  }

  /** `bool(known.get("tsmsg"))`: whether the option was given at all. */
  predicate TsMsg(known: map<string, Value>) {
    Truthy(Get(known, "tsmsg"))
  }

  /**
   * The time stamp is switched on by the mere presence of the option: a
   * given value of false turns it on as well.
   */
  lemma TsMsgIsPresence(known: map<string, Value>)
    requires KnownArgs(known)
    ensures TsMsg(known) <==> "tsmsg" in known && known["tsmsg"].items != []
    ensures "tsmsg" in known && known["tsmsg"] == VList([VBool(false)]) ==> TsMsg(known)
  {
  }

  /** A first value that is not a string, or is empty, leaves the default in place. */
  lemma NonStringFallsBack(known: map<string, Value>, v: Value)
    requires KnownArgs(known) && "gmsg" in known && known["gmsg"].items != [] && known["gmsg"].items[0] == v
    requires !v.VStr? || v.s == []
    ensures GetBaseMsg(known) == DefaultCommitMessage
  {
  }

  /** `_RepoBatch`: what is waiting to be committed in one repository. */
  datatype NoteBatch = NoteBatch(
    root: string,
    baseMsg: string,
    tsmsg: bool,
    tsfmt: string,
    env: map<string, string>,
    lastEventAt: real,
    eventTypes: set<string>,
    hintedPaths: set<string>)

  /** What a handler puts on the worker's queue, without the arguments that go with it. */
  datatype NoteEvent = NoteEvent(root: string, eventType: string, paths: seq<string>)

  /**
   * The pending batches after the worker takes one event at time `now`:
   * the event's message, time stamp switch, format and environment replace
   * the batch's, the last event time becomes `now`, and the event's type
   * and its non-empty paths are added.
   */
  function Ingested(pending: map<string, NoteBatch>, e: NoteEvent, known: map<string, Value>,
                    env: map<string, string>, now: real): map<string, NoteBatch>
    requires KnownArgs(known)
  {
    var types := if e.root in pending then pending[e.root].eventTypes else {};
    var hinted := if e.root in pending then pending[e.root].hintedPaths else {};
    pending[e.root := NoteBatch(e.root, GetBaseMsg(known), TsMsg(known), GetTsfmt(known), env, now,
                                types + {e.eventType}, hinted + Git.Hints(e.paths))]
  }

  /** The latest event's options win; event types and non-empty paths accumulate; other repositories are untouched. */
  lemma IngestEffect(pending: map<string, NoteBatch>, e: NoteEvent, known: map<string, Value>,
                     env: map<string, string>, now: real)
    requires KnownArgs(known)
    ensures e.root in Ingested(pending, e, known, env, now)
    ensures var b := Ingested(pending, e, known, env, now)[e.root];
      && b.baseMsg == GetBaseMsg(known) && b.tsmsg == TsMsg(known) && b.tsfmt == GetTsfmt(known) && b.env == env
      && b.lastEventAt == now
      && e.eventType in b.eventTypes
      && (forall p :: p in b.hintedPaths <==> (p in e.paths && p != []) || (e.root in pending && p in pending[e.root].hintedPaths))
    ensures forall r :: r in pending && r != e.root ==> Ingested(pending, e, known, env, now)[r] == pending[r]
  {
  }

  /** Two events for one repository leave the same event types and paths in either order. */
  lemma IngestOrderIrrelevant(pending: map<string, NoteBatch>, e1: NoteEvent, k1: map<string, Value>, t1: real,
                              e2: NoteEvent, k2: map<string, Value>, t2: real, env: map<string, string>)
    requires KnownArgs(k1) && KnownArgs(k2) && e1.root == e2.root
    ensures var a := Ingested(Ingested(pending, e1, k1, env, t1), e2, k2, env, t2)[e1.root];
            var b := Ingested(Ingested(pending, e2, k2, env, t2), e1, k1, env, t1)[e1.root];
            a.eventTypes == b.eventTypes && a.hintedPaths == b.hintedPaths
  {
    var types := if e1.root in pending then pending[e1.root].eventTypes else {};
    var hinted := if e1.root in pending then pending[e1.root].hintedPaths else {};
    assert types + {e1.eventType} + {e2.eventType} == types + {e2.eventType} + {e1.eventType};
    assert hinted + Git.Hints(e1.paths) + Git.Hints(e2.paths) == hinted + Git.Hints(e2.paths) + Git.Hints(e1.paths);
  }

  /**
   * `created`, `modified` and `deleted`: nothing for a path inside ".git"
   * or outside any repository; otherwise the event with that one path.
   */
  function OnFileEvent(roots: map<string, string>, eventType: string, path: string): (r: Option<NoteEvent>)
    ensures r.Some? <==> !Git.InsideGitDir(path) && Git.FindRoot(roots, path).Some?
    ensures r.Some? ==> r.value == NoteEvent(Git.FindRoot(roots, path).value, eventType, [path])
  {
    if Git.InsideGitDir(path) then None
    else
      match Git.FindRoot(roots, path)
      case None => None
      case Some(root) => Some(NoteEvent(root, eventType, [path]))
  }

  /**
   * `moved`: nothing when the source or the destination, if given, lies
   * inside ".git", or when no repository is found from the destination (or
   * the source, without one); otherwise the event with both paths.
   */
  function OnMoved(roots: map<string, string>, src: string, dest: string): (r: Option<NoteEvent>)
    ensures (src != [] && Git.InsideGitDir(src)) || (dest != [] && Git.InsideGitDir(dest)) ==> r.None?
    ensures r.Some? ==> r.value.eventType == "moved" && r.value.paths == [src, dest]
    ensures r.Some? ==> Git.FindRoot(roots, if dest != [] then dest else src) == Some(r.value.root)
    ensures r.None? ==> (src != [] && Git.InsideGitDir(src)) || (dest != [] && Git.InsideGitDir(dest))
                        || Git.FindRoot(roots, if dest != [] then dest else src).None?
  {
    if (src != [] && Git.InsideGitDir(src)) || (dest != [] && Git.InsideGitDir(dest)) then None
    else
      match Git.FindRoot(roots, if dest != [] then dest else src)
      case None => None
      case Some(root) => Some(NoteEvent(root, "moved", [src, dest]))
  }

  /** The batches that stay pending at `now`: those with an event in the last `Debounce` seconds. */
  function Waiting(pending: map<string, NoteBatch>, now: real): (r: map<string, NoteBatch>)
    ensures forall k :: k in r <==> k in pending && now - pending[k].lastEventAt < Debounce
    ensures forall k :: k in r ==> r[k] == pending[k]
  {
    map k | k in pending && now - pending[k].lastEventAt < Debounce :: pending[k]
  }

  /** The pending batches part-way through the flush: the unvisited ones and the visited ones not yet due. */
  function Kept(start: map<string, NoteBatch>, keys: set<string>, now: real): map<string, NoteBatch> {
    map k | k in start && (k in keys || now - start[k].lastEventAt < Debounce) :: start[k]
  }

  /** Visiting one more batch removes it exactly when it is due. */
  lemma KeptStep(start: map<string, NoteBatch>, keys: set<string>, k: string, now: real)
    requires k in keys && k in start
    ensures k in Kept(start, keys, now) && Kept(start, keys, now)[k] == start[k]
    ensures Kept(start, keys - {k}, now) == if now - start[k].lastEventAt >= Debounce then Kept(start, keys, now) - {k} else Kept(start, keys, now)
  {
  }

  /** Once every batch is visited, the due ones are gone. */
  lemma KeptDone(start: map<string, NoteBatch>, now: real)
    ensures Kept(start, {}, now) == Waiting(start, now)
  {
  }

  /** The batch an event just went into waits at that moment; other waiting batches still wait. */
  lemma JustTouchedWaits(pending: map<string, NoteBatch>, e: NoteEvent, known: map<string, Value>,
                         env: map<string, string>, now: real)
    requires KnownArgs(known)
    ensures e.root in Waiting(Ingested(pending, e, known, env, now), now)
    ensures forall k :: k in Waiting(pending, now) && k != e.root ==> k in Waiting(Ingested(pending, e, known, env, now), now)
  {
    IngestEffect(pending, e, known, env, now);
  }

  /** A move without a destination hints only its source: the empty path is dropped on ingest. */
  lemma MoveWithoutDestination(pending: map<string, NoteBatch>, roots: map<string, string>, src: string,
                               known: map<string, Value>, env: map<string, string>, now: real)
    requires KnownArgs(known) && OnMoved(roots, src, "").Some? && src != []
    ensures var e := OnMoved(roots, src, "").value;
      var b := Ingested(pending, e, known, env, now)[e.root];
      src in b.hintedPaths && "" !in Git.Hints(e.paths)
  {
  }

  /** How a `git push` attempt ended. */
  datatype PushResult = Pushed | PushFailed | PushTimedOut

  /** The notification key of a failed push, per repository. */
  function FailKey(result: PushResult, root: string): string {
    if result == PushTimedOut then "timeout:push:" + root else "pushfail:" + root
  }

  /** The two kinds of push failure notify under different keys, so neither silences the other. */
  lemma FailKeysDiffer(root: string)
    ensures FailKey(PushTimedOut, root) != FailKey(PushFailed, root)
  {
    assert FailKey(PushTimedOut, root)[0] == 't' && FailKey(PushFailed, root)[0] == 'p';
  }

  /**
   * The module's state that outlives one event: pending batches, when each
   * notification key last fired, and per repository the push back-off and
   * the earliest time of the next push.
   */
  class NoteGitState {
    var pending: map<string, NoteBatch>
    var lastNotify: map<string, real>
    var backoff: map<string, real>
    var nextAllowed: map<string, real>

    constructor()
      ensures pending == map[] && lastNotify == map[] && backoff == map[] && nextAllowed == map[]
    {
      pending := map[];
      lastNotify := map[];
      backoff := map[];
      nextAllowed := map[];
    }

    /** The worker taking one queued event at time `now`. */
    method Ingest(e: NoteEvent, known: map<string, Value>, env: map<string, string>, now: real)
      requires KnownArgs(known)
      modifies this
      ensures pending == Ingested(old(pending), e, known, env, now)
      ensures lastNotify == old(lastNotify) && backoff == old(backoff) && nextAllowed == old(nextAllowed)
    {
      var baseMsg := GetBaseMsg(known);
      var tsmsg := Truthy(Get(known, "tsmsg"));
      var tsfmt := GetTsfmt(known);
      var types: set<string> := {};
      var hinted: set<string> := {};
      if e.root in pending {
        types := pending[e.root].eventTypes;
        hinted := pending[e.root].hintedPaths;
      }
      hinted := Git.GitState.AddHints(hinted, e.paths);
      pending := pending[e.root := NoteBatch(e.root, baseMsg, tsmsg, tsfmt, env, now, types + {e.eventType}, hinted)];
    }

    /**
     * Step 2 of `_worker_loop`: every batch quiet for `Debounce` seconds is
     * taken out of the pending ones and handed on, each once; `roots` are
     * the repositories they were pending for, in the order they are handed on.
     */
    method TakeDue(now: real) returns (due: seq<NoteBatch>, ghost roots: seq<string>)
      modifies this
      ensures pending == Waiting(old(pending), now)
      ensures |roots| == |due|
      ensures forall i :: 0 <= i < |due| ==>
        roots[i] in old(pending) && now - old(pending)[roots[i]].lastEventAt >= Debounce && due[i] == old(pending)[roots[i]]
      ensures forall k :: k in old(pending) && now - old(pending)[k].lastEventAt >= Debounce ==> k in roots
      ensures forall i, j :: 0 <= i < j < |roots| ==> roots[i] != roots[j]
      ensures lastNotify == old(lastNotify) && backoff == old(backoff) && nextAllowed == old(nextAllowed)
    {
      ghost var start := pending;
      var keys := pending.Keys;
      due := [];
      roots := [];
      assert pending == Kept(start, keys, now);
      while keys != {}
        invariant keys <= start.Keys
        invariant pending == Kept(start, keys, now)
        invariant |roots| == |due|
        invariant forall i :: 0 <= i < |due| ==>
          roots[i] in start && roots[i] !in keys && now - start[roots[i]].lastEventAt >= Debounce && due[i] == start[roots[i]]
        invariant forall k :: k in start && k !in keys && now - start[k].lastEventAt >= Debounce ==> k in roots
        invariant forall i, j :: 0 <= i < j < |roots| ==> roots[i] != roots[j]
        invariant lastNotify == old(lastNotify) && backoff == old(backoff) && nextAllowed == old(nextAllowed)
        decreases keys
      {
        var k :| k in keys;
        KeptStep(start, keys, k, now);
        if now - pending[k].lastEventAt >= Debounce {
          due := due + [pending[k]];
          roots := roots + [k];
          pending := pending - {k};
        }
        keys := keys - {k};
      }
      KeptDone(start, now);
    }

    /** `_notify_throttled`: `sent` says whether the notification went out. */
    method NotifyThrottled(key: string, now: real) returns (sent: bool)
      modifies this
      ensures (sent, lastNotify) == Throttle.Throttled(old(lastNotify), key, now, NotifyCooldown)
      ensures pending == old(pending) && backoff == old(backoff) && nextAllowed == old(nextAllowed)
    {
      var last := if key in lastNotify then lastNotify[key] else 0.0;
      if now - last < NotifyCooldown {
        return false;
      }
      lastNotify := lastNotify[key := now];
      sent := true;
    }

    /** `_push_register_fail`: the back-off doubles, capped at two minutes, and pushing waits that long from `now`. */
    method PushRegisterFail(root: string, now: real)
      modifies this
      ensures backoff == old(backoff)[root := NextBackoff(Lookup(old(backoff), root, BackoffStart), BackoffStart, BackoffMax)]
      ensures nextAllowed == old(nextAllowed)[root := now + backoff[root]]
      ensures pending == old(pending) && lastNotify == old(lastNotify)
    {
      var b := if root in backoff then backoff[root] else BackoffStart;
      b := Min(Max(b, BackoffStart) * 2.0, BackoffMax);
      backoff := backoff[root := b];
      nextAllowed := nextAllowed[root := now + b];
    }

    /**
     * The push that ends `_process_batch`: skipped before the repository's
     * next allowed time; a success resets the back-off; a failure registers
     * it at `failedAt` and notifies, throttled, under the failure's key.
     */
    method Push(root: string, now: real, result: PushResult, failedAt: real) returns (attempted: bool, notified: bool)
      modifies this
      ensures attempted <==> MayPush(old(nextAllowed), root, now)
      ensures !attempted ==> !notified && backoff == old(backoff) && nextAllowed == old(nextAllowed) && lastNotify == old(lastNotify)
      ensures attempted && result == Pushed ==>
        !notified && backoff == old(backoff)[root := BackoffStart] && nextAllowed == old(nextAllowed)[root := 0.0]
        && lastNotify == old(lastNotify)
      ensures attempted && result != Pushed ==>
        && backoff == old(backoff)[root := NextBackoff(Lookup(old(backoff), root, BackoffStart), BackoffStart, BackoffMax)]
        && nextAllowed == old(nextAllowed)[root := failedAt + backoff[root]]
        && (notified, lastNotify) == Throttle.Throttled(old(lastNotify), FailKey(result, root), failedAt, NotifyCooldown)
      ensures pending == old(pending)
    {
      var next := if root in nextAllowed then nextAllowed[root] else 0.0;
      if now < next {
        return false, false;
      }
      attempted := true;
      if result == Pushed {
        backoff := backoff[root := BackoffStart];
        nextAllowed := nextAllowed[root := 0.0];
        notified := false;
      } else {
        PushRegisterFail(root, failedAt);
        notified := NotifyThrottled(FailKey(result, root), failedAt);
      }
    }
  }
}
