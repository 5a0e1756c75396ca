/**
 * The git module of lucy_notes_manager (lucy_notes_manager/modules/git.py):
 * how it reads its options out of the configuration snapshot, which file
 * events it hands to its worker, how the worker folds the events of one
 * repository into a pending batch, how it decides that a rejected push
 * needs a pull, and how it keeps the push back-off per repository.
 *
 * The git commands themselves, the worker thread and its queue, and the
 * walk up the directories that finds a repository's root are not part of
 * this model: the roots are a map given as a parameter, the clock is a
 * parameter, and the numeric options (read by `_cfg_float`) and the git
 * environment (built by `_git_environment`) arrive already computed.
 */
module Git {
  import opened Wrappers
  import opened Text
  import opened Values
  import opened Paths
  import opened PushBackoff

  const DefaultCommitMessage: string := "Auto-commit"
  const DefaultTimestampFormat: string := "%Y-%m-%d_%H-%M-%S"

  /** `_cfg_first`: the head of a list value (`None` for an empty list), any other value as it is. */
  function CfgFirst(config: map<string, Value>, key: string): (r: Value)
    ensures !Get(config, key).VList? ==> r == Get(config, key)
    ensures Get(config, key).VList? && Get(config, key).items != [] ==> r == Get(config, key).items[0]
    ensures Get(config, key) == VList([]) ==> r == VNone
  {
    match Get(config, key)
    case VList(items) => if items != [] then items[0] else VNone
    case v => v
  }

  /** The words `_cfg_bool` reads as true. */
  predicate TrueWord(w: string) {
    w == "1" || w == "true" || w == "yes" || w == "on"
  }

  /**
   * `_cfg_bool`: a missing value gives the default, a boolean is kept, and
   * anything else is true exactly when `str(value).strip().lower()` is one
   * of "1", "true", "yes", "on".
   */
  function CfgBool(config: map<string, Value>, key: string, default: bool): (r: bool)
    ensures CfgFirst(config, key).VNone? ==> r == default
    ensures CfgFirst(config, key).VBool? ==> r == CfgFirst(config, key).b
    ensures CfgFirst(config, key).VStr? ==> (r <==> TrueWord(Lower(Strip(CfgFirst(config, key).s))))
  {
    match CfgFirst(config, key)
    case VNone => default
    case VBool(b) => b
    case v => TrueWord(Lower(Strip(Show(v))))
  }

  /**
   * `_cfg_str`: a string that is not blank, stripped; anything else gives
   * the default.
   */
  function CfgStr(config: map<string, Value>, key: string, default: string): (r: string)
    ensures r == default || (CfgFirst(config, key).VStr? && r == Strip(CfgFirst(config, key).s))
    ensures CfgFirst(config, key).VStr? && !IsBlank(CfgFirst(config, key).s) ==> r == Strip(CfgFirst(config, key).s)
    ensures !IsBlank(default) ==> r != []
  {
    match CfgFirst(config, key)
    case VStr(s) => if Strip(s) != [] then Strip(s) else default
    case _ => default
  }

  /** A non-empty string value as it is (not stripped), the default otherwise. */
  function NonEmptyStrOr(v: Value, default: string): (r: string)
    ensures v.VStr? && v.s != [] ==> r == v.s
    ensures !(v.VStr? && v.s != []) ==> r == default
  {
    if v.VStr? && v.s != [] then v.s else default
  }

  /** `_base_message`: the "git_msg" option, when it is a non-empty string. */
  function BaseMessage(config: map<string, Value>): (r: string)
    ensures r != []
    ensures r == DefaultCommitMessage || (CfgFirst(config, "git_msg").VStr? && r == CfgFirst(config, "git_msg").s)
  {
    NonEmptyStrOr(CfgFirst(config, "git_msg"), DefaultCommitMessage)
  }

  /** `_timestamp_format`: the "git_tsfmt" option, when it is a non-empty string. */
  function TimestampFormat(config: map<string, Value>): (r: string)
    ensures r != []
    ensures r == DefaultTimestampFormat || (CfgFirst(config, "git_tsfmt").VStr? && r == CfgFirst(config, "git_tsfmt").s)
  {
    NonEmptyStrOr(CfgFirst(config, "git_tsfmt"), DefaultTimestampFormat)
  }

  /** The conflict auto-resolution modes the module knows. */
  predicate KnownMode(m: string) {
    m == "none" || m == "ours" || m == "theirs" || m == "union"
  }

  /**
   * The mode `_auto_resolve_merge_conflicts` works with:
   * `(mode or "none").strip().lower()`, and "none" for anything it does
   * not know.
   */
  function NormalizedMode(mode: string): (r: string)
    ensures KnownMode(r)
    ensures KnownMode(mode) ==> r == mode
  {
    var m := Lower(Strip(if mode == [] then "none" else mode));
    if KnownMode(mode) then
      KnownModeFixed(mode);
      m
    else if KnownMode(m) then m else "none"
  }

  /** An empty string is not a missing value: it reads as false, whatever the default. */
  lemma EmptyStringIsFalse(config: map<string, Value>, key: string, default: bool)
    requires key in config && config[key] == VStr([])
    ensures !CfgBool(config, key, default)
  {
    var v := CfgFirst(config, key);
    assert v == VStr([]);
    assert IsBlank([]);
    assert Strip([]) == [];
    assert Lower([]) == [];
    assert !TrueWord([]);
  }

  lemma {:induction false} LStripPadded(pre: string, t: string)
    requires IsBlank(pre) && (t == [] || !IsSpace(t[0]))
    ensures LStrip(pre + t) == t
  {
    if pre != [] {
      assert (pre + t)[1..] == pre[1..] + t;
      LStripPadded(pre[1..], t);
    }
  }

  lemma {:induction false} RStripPadded(t: string, post: string)
    requires IsBlank(post) && (t == [] || !IsSpace(t[|t| - 1]))
    ensures RStrip(t + post) == t
  {
    if post != [] {
      assert (t + post)[..|t + post| - 1] == t + post[..|post| - 1];
      RStripPadded(t, post[..|post| - 1]);
    } else {
      assert t + post == t;
    }
  }

  /** Blanks around a word are stripped before the word is read. */
  lemma StripPadded(pre: string, w: string, post: string)
    requires IsBlank(pre) && IsBlank(post) && w != [] && !IsSpace(w[0]) && !IsSpace(w[|w| - 1])
    ensures Strip(pre + w + post) == w
  {
    assert pre + w + post == pre + (w + post);
    LStripPadded(pre, w + post);
    RStripPadded(w, post);
  }

  /** A string option is read without regard to the blanks around it or to letter case. */
  lemma BlanksAndCaseIgnored(config: map<string, Value>, key: string, default: bool, pre: string, w: string, post: string)
    requires key in config && config[key] == VStr(pre + w + post)
    requires IsBlank(pre) && IsBlank(post) && w != [] && !IsSpace(w[0]) && !IsSpace(w[|w| - 1])
    ensures CfgBool(config, key, default) <==> TrueWord(Lower(w))
  {
    StripPadded(pre, w, post);
  }

  /** Normalising a normalised mode changes nothing. */
  lemma NormalizedModeIdempotent(mode: string)
    ensures NormalizedMode(NormalizedMode(mode)) == NormalizedMode(mode)
  {
  }

  /** A known mode is recognised whatever its letter case and the blanks around it. */
  lemma ModeCaseAndBlanksIgnored(pre: string, w: string, post: string)
    requires IsBlank(pre) && IsBlank(post) && w != [] && !IsSpace(w[0]) && !IsSpace(w[|w| - 1])
    requires KnownMode(Lower(w))
    ensures NormalizedMode(pre + w + post) == Lower(w)
  {
    StripPadded(pre, w, post);
  }

  predicate LowerLetters(m: string) {
    forall i :: 0 <= i < |m| ==> 'a' <= m[i] <= 'z'
  }

  lemma KnownModeFixed(m: string)
    requires KnownMode(m)
    ensures Strip(m) == m && Lower(m) == m
  {
    assert m != [] && LowerLetters(m);
    LettersFixed(m);
  }

  lemma LettersFixed(m: string)
    requires m != [] && LowerLetters(m)
    ensures Strip(m) == m && Lower(m) == m
  {
    LettersStripFixed(m);
    LettersLowerFixed(m);
  }

  lemma LettersStripFixed(m: string)
    requires m != [] && LowerLetters(m)
    ensures Strip(m) == m
  {
    LetterNotSpace(m[0]);
    LetterNotSpace(m[|m| - 1]);
    assert "" + m + "" == m;
    StripPadded("", m, "");
  }

  lemma LettersLowerFixed(m: string)
    requires LowerLetters(m)
    ensures Lower(m) == m
  {
    assert forall i :: 0 <= i < |m| ==> LowerChar(m[i]) == m[i];
  }

  /** The text `_push_rejected_needs_pull` looks for in git's lower-cased output. */
  const Indicators: seq<string> := [
    "non-fast-forward",
    "fetch first",
    "failed to push some refs",
    "remote contains work",
    "updates were rejected",
    "rejected"
  ]

  /**
   * `_push_rejected_needs_pull`: whether the output of a failed push, lower-
   * cased, contains one of the indicators.
   */
  predicate PushRejectedNeedsPull(output: string) {
    exists i :: 0 <= i < |Indicators| && Contains(Lower(output), Indicators[i])
  }

  /** `_path_is_inside_git_dir`: some component of the path is ".git". */
  predicate InsideGitDir(path: string) {
    HasGitComponent(path)
  }

  lemma LowerIdempotent(s: string)
    ensures Lower(Lower(s)) == Lower(s)
  {
  }

  /** The test ignores letter case: upper-casing letters in the output changes nothing. */
  lemma RejectionIgnoresCase(output: string)
    ensures PushRejectedNeedsPull(Lower(output)) <==> PushRejectedNeedsPull(output)
  {
    LowerIdempotent(output);
  }

  lemma {:induction false} ContainsEnd(s: string, a: string, b: string)
    requires Contains(s, a + b)
    ensures Contains(s, b)
    decreases |s|
  {
    if StartsWith(s, a + b) {
      assert s[|a|..][..|b|] == (a + b)[|a|..];
      ContainsFrom(s, |a|, b);
    } else {
      ContainsEnd(s[1..], a, b);
    }
  }

  lemma {:induction false} ContainsFrom(s: string, k: nat, b: string)
    requires k <= |s| && StartsWith(s[k..], b)
    ensures Contains(s, b)
    decreases k
  {
    if k > 0 {
      assert s[1..][k - 1..] == s[k..];
      ContainsFrom(s[1..], k - 1, b);
    }
  }

  /**
   * "updates were rejected" adds nothing to the list: any output holding it
   * also holds "rejected". A push is taken to need a pull exactly when the
   * output names one of the other five.
   */
  lemma RejectionIndicators(output: string)
    ensures PushRejectedNeedsPull(output) <==>
      exists i :: 0 <= i < |Indicators| && i != 4 && Contains(Lower(output), Indicators[i])
  {
    if Contains(Lower(output), Indicators[4]) {
      assert Indicators[4] == "updates were " + "rejected";
      ContainsEnd(Lower(output), "updates were ", "rejected");
      assert Contains(Lower(output), Indicators[5]);
    }
  }

  /**
   * For a path written as its components joined with "/", the path is
   * inside a git directory exactly when one of the components is ".git";
   * so ".gitignore" or "my.git" are not.
   */
  lemma InsideGitDirIff(parts: seq<string>)
    requires parts != []
    requires forall i :: 0 <= i < |parts| ==> '/' !in parts[i]
    ensures InsideGitDir(Join(parts, "/")) <==> ".git" in parts
  {
    SplitJoin(parts, '/');
  }

  /** The options a batch carries that the worker reads with `_cfg_float`, already as numbers. */
  datatype Timing = Timing(
    debounce: real,
    gitTimeout: real,
    pullTimeout: real,
    pushTimeout: real,
    backoffStart: real,
    backoffMax: real)

  /** The options a batch is processed with; the latest event's options win. */
  datatype Options = Options(
    baseMessage: string,
    addTimestamp: bool,
    timestampFormat: string,
    environment: map<string, string>,
    timing: Timing,
    autoMergeOnPush: bool,
    autoresolveMode: string)

  /** The options the worker reads from an event's configuration snapshot. */
  function OptionsOf(config: map<string, Value>, environment: map<string, string>, timing: Timing): (o: Options)
    ensures o.baseMessage == BaseMessage(config) && o.timestampFormat == TimestampFormat(config)
    ensures o.addTimestamp == CfgBool(config, "git_tsmsg", false)
    ensures o.autoMergeOnPush == CfgBool(config, "git_auto_merge_on_push", true)
    ensures o.autoresolveMode == CfgStr(config, "git_autoresolve", "union") && o.autoresolveMode != []
  {
    Options(BaseMessage(config), CfgBool(config, "git_tsmsg", false), TimestampFormat(config),
            environment, timing, CfgBool(config, "git_auto_merge_on_push", true),
            CfgStr(config, "git_autoresolve", "union"))
  }

  /** `_RepoBatch`: what is waiting to be committed in one repository. */
  datatype RepoBatch = RepoBatch(
    root: string,
    options: Options,
    wantsPull: bool,
    lastEventAt: real,
    eventTypes: set<string>,
    hintedPaths: set<string>)

  /** What a handler puts on the worker's queue. */
  datatype Enqueued = Enqueued(root: string, eventType: string, paths: seq<string>, wantsPull: bool)

  /** The non-empty paths among `paths`. */
  function Hints(paths: seq<string>): (r: set<string>)
    ensures forall p :: p in r <==> p in paths && p != []
  {
    set p | p in paths && p != []
  }

  lemma HintsStep(paths: seq<string>, i: nat)
    requires i < |paths|
    ensures Hints(paths[..i + 1]) == Hints(paths[..i]) + (if paths[i] != [] then {paths[i]} else {})
  {
    assert paths[..i + 1] == paths[..i] + [paths[i]];
  }

  /** The batch an event finds for its repository: the pending one, or a fresh one. */
  function Existing(pending: map<string, RepoBatch>, e: Enqueued, options: Options, now: real): RepoBatch {
    if e.root in pending then pending[e.root]
    else RepoBatch(e.root, options, e.wantsPull, now, {}, {})
  }

  /**
   * The pending batches after the worker takes one event: the event's
   * options replace the batch's, a pull once wanted stays wanted, the
   * batch's last event time becomes `now`, and the event's type and its
   * non-empty paths are added.
   */
  function Ingested(pending: map<string, RepoBatch>, e: Enqueued, options: Options, now: real): map<string, RepoBatch> {
    pending[e.root := Absorbed(Existing(pending, e, options, now), e, options, now)]
  }

  /** One batch after taking one event. */
  function Absorbed(b: RepoBatch, e: Enqueued, options: Options, now: real): RepoBatch {
    RepoBatch(b.root, options, b.wantsPull || e.wantsPull, now, b.eventTypes + {e.eventType}, b.hintedPaths + Hints(e.paths))
  }

  /** The latest event's options win; the pull flag, event types and paths accumulate. */
  lemma IngestEffect(pending: map<string, RepoBatch>, e: Enqueued, options: Options, now: real)
    ensures e.root in Ingested(pending, e, options, now)
    ensures var b := Ingested(pending, e, options, now)[e.root];
      && b.options == options && b.lastEventAt == now
      && (b.wantsPull <==> e.wantsPull || (e.root in pending && pending[e.root].wantsPull))
      && b.eventTypes == (if e.root in pending then pending[e.root].eventTypes else {}) + {e.eventType}
      && b.hintedPaths == (if e.root in pending then pending[e.root].hintedPaths else {}) + Hints(e.paths)
    ensures forall r :: r in pending && r != e.root ==> r in Ingested(pending, e, options, now) && Ingested(pending, e, options, now)[r] == pending[r]
  {
  }

  /** No batch ever holds an empty hinted path. */
  predicate NoEmptyHints(pending: map<string, RepoBatch>) {
    forall r :: r in pending ==> "" !in pending[r].hintedPaths
  }

  lemma IngestKeepsHintsNonEmpty(pending: map<string, RepoBatch>, e: Enqueued, options: Options, now: real)
    requires NoEmptyHints(pending)
    ensures NoEmptyHints(Ingested(pending, e, options, now))
  {
    var q := Ingested(pending, e, options, now);
    forall r | r in q
      ensures "" !in q[r].hintedPaths
    {
      if r == e.root {
        assert "" !in Hints(e.paths);
      }
    }
  }

  /**
   * Two events for the same repository leave the same pull flag, event
   * types and hinted paths whichever comes first; only the options and the
   * time come from the later one.
   */
  lemma IngestOrderIrrelevant(pending: map<string, RepoBatch>, e1: Enqueued, o1: Options, t1: real,
                              e2: Enqueued, o2: Options, t2: real)
    requires e1.root == e2.root
    ensures var a := Ingested(Ingested(pending, e1, o1, t1), e2, o2, t2)[e1.root];
            var b := Ingested(Ingested(pending, e2, o2, t2), e1, o1, t1)[e1.root];
            a.wantsPull == b.wantsPull && a.eventTypes == b.eventTypes && a.hintedPaths == b.hintedPaths
            && a.options == o2 && b.options == o1
  {
    IngestEffect(pending, e1, o1, t1);
    IngestEffect(pending, e2, o2, t2);
    IngestEffect(Ingested(pending, e1, o1, t1), e2, o2, t2);
    IngestEffect(Ingested(pending, e2, o2, t2), e1, o1, t1);
  }

  /** The repository a path belongs to, from the roots found on disk. */
  function FindRoot(roots: map<string, string>, path: string): Option<string> {
    if path in roots && roots[path] != [] then Some(roots[path]) else None
  }

  /**
   * `_handle` for "created", "modified", "deleted" and "moved": nothing
   * when either path lies inside a ".git" directory or no repository is
   * found (first from the file's own path, then from the destination or
   * else the source); otherwise the file's path is hinted, or for a move
   * its non-empty source and destination, and no pull is wanted.
   */
  function Handle(roots: map<string, string>, ctxPath: string, eventType: string, src: string, dest: string): (r: Option<Enqueued>)
    ensures (src != [] && InsideGitDir(src)) || (dest != [] && InsideGitDir(dest)) ==> r.None?
    ensures r.Some? ==> !r.value.wantsPull && r.value.eventType == eventType && r.value.root != []
    ensures r.Some? && eventType != "moved" ==> r.value.paths == [ctxPath]
    ensures r.Some? && eventType == "moved" ==> forall p :: p in r.value.paths <==> p in [src, dest] && p != []
    ensures r.None? ==> (src != [] && InsideGitDir(src)) || (dest != [] && InsideGitDir(dest))
                        || (FindRoot(roots, ctxPath).None? && FindRoot(roots, if dest != [] then dest else src).None?)
    ensures r.Some? ==> Some(r.value.root) == if FindRoot(roots, ctxPath).Some? then FindRoot(roots, ctxPath)
                                              else FindRoot(roots, if dest != [] then dest else src)
  {
    if (src != [] && InsideGitDir(src)) || (dest != [] && InsideGitDir(dest)) then None
    else
      var root := match FindRoot(roots, ctxPath)
        case Some(r) => Some(r)
        case None => FindRoot(roots, if dest != [] then dest else src);
      match root
      case None => None
      case Some(r) =>
        var paths := if eventType != "moved" then [ctxPath]
          else (if src != [] then [src] else []) + (if dest != [] then [dest] else []);
        Some(Enqueued(r, eventType, paths, false))
  }

  /**
   * `on_opened`: nothing for a path inside ".git", outside any repository,
   * or when "git_auto_pull" is off; otherwise an "opened" event for the
   * file that asks for a pull.
   */
  function OnOpened(roots: map<string, string>, ctxPath: string, config: map<string, Value>): (r: Option<Enqueued>)
    ensures r.Some? <==> !(ctxPath != [] && InsideGitDir(ctxPath)) && FindRoot(roots, ctxPath).Some?
                         && CfgBool(config, "git_auto_pull", true)
    ensures r.Some? ==> r.value == Enqueued(FindRoot(roots, ctxPath).value, "opened", [ctxPath], true)
  {
    if ctxPath != [] && InsideGitDir(ctxPath) then None
    else
      match FindRoot(roots, ctxPath)
      case None => None
      case Some(root) =>
        if !CfgBool(config, "git_auto_pull", true) then None
        else Some(Enqueued(root, "opened", [ctxPath], true))
  }

  /**
   * A batch wants a pull only when an "opened" event went into it: the
   * other handlers never ask for one.
   */
  lemma OnlyOpeningPulls(pending: map<string, RepoBatch>, roots: map<string, string>, ctxPath: string,
                         eventType: string, src: string, dest: string, options: Options, now: real)
    requires Handle(roots, ctxPath, eventType, src, dest).Some?
    ensures var e := Handle(roots, ctxPath, eventType, src, dest).value;
      e.root in pending ==> Ingested(pending, e, options, now)[e.root].wantsPull == pending[e.root].wantsPull
  {
  }

  /** A move of a file that stays outside ".git" hints both its old and its new path. */
  lemma MoveHintsBoth(roots: map<string, string>, ctxPath: string, src: string, dest: string)
    requires src != [] && dest != [] && !InsideGitDir(src) && !InsideGitDir(dest)
    requires FindRoot(roots, ctxPath).Some?
    ensures Handle(roots, ctxPath, "moved", src, dest) == Some(Enqueued(FindRoot(roots, ctxPath).value, "moved", [src, dest], false))
  {
    assert [src] + [dest] == [src, dest];
  }

  /** A batch is due once its debounce time has passed since its last event. */
  predicate IsDue(b: RepoBatch, now: real) {
    now - b.lastEventAt >= b.options.timing.debounce
  }

  /** The batches that stay pending at `now`: the ones not yet due. */
  function Waiting(pending: map<string, RepoBatch>, now: real): (r: map<string, RepoBatch>)
    ensures forall k :: k in r <==> k in pending && !IsDue(pending[k], now)
    ensures forall k :: k in r ==> r[k] == pending[k]
  {
    map k | k in pending && !IsDue(pending[k], now) :: pending[k]
  }

  /** The pending batches part-way through the flush: the unvisited ones and the visited ones not yet due. */
  function Kept(start: map<string, RepoBatch>, keys: set<string>, now: real): map<string, RepoBatch> {
    map k | k in start && (k in keys || !IsDue(start[k], now)) :: start[k]
  }

  /** Visiting one more batch removes it exactly when it is due. */
  lemma KeptStep(start: map<string, RepoBatch>, keys: set<string>, k: string, now: real)
    requires k in keys && k in start
    ensures k in Kept(start, keys, now) && Kept(start, keys, now)[k] == start[k]
    ensures Kept(start, keys - {k}, now) == if IsDue(start[k], now) then Kept(start, keys, now) - {k} else Kept(start, keys, now)
  {
  }

  /** Once every batch is visited, the due ones are gone. */
  lemma KeptDone(start: map<string, RepoBatch>, now: real)
    ensures Kept(start, {}, now) == Waiting(start, now)
  {
  }

  /**
   * With a positive debounce time, the batch an event just went into is not
   * due at that moment: it waits, with every other waiting batch unchanged.
   */
  lemma JustTouchedWaits(pending: map<string, RepoBatch>, e: Enqueued, options: Options, now: real)
    requires options.timing.debounce > 0.0
    ensures e.root in Waiting(Ingested(pending, e, options, now), now)
    ensures forall k :: k in Waiting(pending, now) && k != e.root ==> k in Waiting(Ingested(pending, e, options, now), now)
  {
    IngestEffect(pending, e, options, now);
  }

  /**
   * The module's state that outlives one event: the pending batches and,
   * per repository, the push back-off and the earliest time of the next
   * push.
   */
  class GitState {
    var pending: map<string, RepoBatch>
    var backoff: map<string, real>
    var nextAllowed: map<string, real>

    constructor()
      ensures pending == map[] && backoff == map[] && nextAllowed == map[]
    {
      pending := map[];
      backoff := map[];
      nextAllowed := map[];
    }

    /**
     * The worker taking one queued event at time `now` (the body of
     * `_worker_loop`'s `try` block): the options are read from the event's
     * configuration snapshot, then the event is folded into its batch.
     */
    method Take(e: Enqueued, config: map<string, Value>, environment: map<string, string>, timing: Timing, now: real)
      modifies this
      ensures pending == Ingested(old(pending), e, OptionsOf(config, environment, timing), now)
      ensures backoff == old(backoff) && nextAllowed == old(nextAllowed)
    {
      var options := OptionsOf(config, environment, timing);
      Ingest(e, options, now);
    }

    /** The `with self._pending_lock` block: the event folded into its repository's batch. */
    method Ingest(e: Enqueued, options: Options, now: real)
      modifies this
      ensures pending == Ingested(old(pending), e, options, now)
      ensures backoff == old(backoff) && nextAllowed == old(nextAllowed)
    {
      var batch: RepoBatch;
      if e.root in pending {
        batch := pending[e.root];
      } else {
        batch := RepoBatch(e.root, options, e.wantsPull, now, {}, {});
      }
      assert batch == Existing(pending, e, options, now);
      var hinted := AddHints(batch.hintedPaths, e.paths);
      var updated := RepoBatch(batch.root, options, batch.wantsPull || e.wantsPull, now,
                               batch.eventTypes + {e.eventType}, hinted);
      assert updated == Absorbed(batch, e, options, now);
      pending := pending[e.root := updated];
    }

    /** The loop adding an event's non-empty paths to a batch's hinted paths. */
    static method AddHints(hinted: set<string>, paths: seq<string>) returns (r: set<string>)
      ensures r == hinted + Hints(paths)
    {
      r := hinted;
      for i := 0 to |paths|
        invariant r == hinted + Hints(paths[..i])
      {
        HintsStep(paths, i);
        if paths[i] != [] {
          r := r + {paths[i]};
        }
      }
      assert paths[..|paths|] == paths;
    }

    /**
     * The second half of `_worker_loop`'s round: every due batch is taken
     * out of the pending ones and handed on, each once; `roots` are the
     * repositories they were pending for, in the order they are handed on.
     */
    method TakeDue(now: real) returns (due: seq<RepoBatch>, ghost roots: seq<string>)
      modifies this
      ensures pending == Waiting(old(pending), now)
      ensures |roots| == |due|
      ensures forall i :: 0 <= i < |due| ==>
        roots[i] in old(pending) && IsDue(old(pending)[roots[i]], now) && due[i] == old(pending)[roots[i]]
      ensures forall k :: k in old(pending) && IsDue(old(pending)[k], now) ==> k in roots
      ensures forall i, j :: 0 <= i < j < |roots| ==> roots[i] != roots[j]
      ensures backoff == old(backoff) && nextAllowed == old(nextAllowed)
    {
      ghost var start := pending;
      var keys := pending.Keys;
      due := [];
      roots := [];
      assert pending == Kept(start, keys, now);
      while keys != {}
        invariant keys <= start.Keys
        invariant pending == Kept(start, keys, now)
        invariant |roots| == |due|
        invariant forall i :: 0 <= i < |due| ==>
          roots[i] in start && roots[i] !in keys && IsDue(start[roots[i]], now) && due[i] == start[roots[i]]
        invariant forall k :: k in start && k !in keys && IsDue(start[k], now) ==> k in roots
        invariant forall i, j :: 0 <= i < j < |roots| ==> roots[i] != roots[j]
        invariant backoff == old(backoff) && nextAllowed == old(nextAllowed)
        decreases keys
      {
        var k :| k in keys;
        KeptStep(start, keys, k, now);
        if IsDue(pending[k], now) {
          due := due + [pending[k]];
          roots := roots + [k];
          pending := pending - {k};
        }
        keys := keys - {k};
      }
      KeptDone(start, now);
    }

    /** `_register_push_failure`: the back-off doubles, capped, and pushing waits that long from `now`. */
    method RegisterPushFailure(root: string, start: real, cap: real, now: real)
      modifies this
      ensures backoff == old(backoff)[root := NextBackoff(Lookup(old(backoff), root, start), start, cap)]
      ensures nextAllowed == old(nextAllowed)[root := now + backoff[root]]
      ensures pending == old(pending)
    {
      var current := if root in backoff then backoff[root] else start;
      var next := Min(Max(current, start) * 2.0, cap);
      backoff := backoff[root := next];
      nextAllowed := nextAllowed[root := now + next];
    }

    /** A successful push: the back-off goes back to the start value and pushing is allowed again. */
    method PushSucceeded(root: string, start: real)
      modifies this
      ensures backoff == old(backoff)[root := start]
      ensures nextAllowed == old(nextAllowed)[root := 0.0]
      ensures pending == old(pending)
    {
      backoff := backoff[root := start];
      nextAllowed := nextAllowed[root := 0.0];
    }
  }
}
