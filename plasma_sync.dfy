/**
 * The state and the dispatch of the Plasma note synchroniser
 * (lucy_notes_manager/modules/plasma_sync.py): the module globals that
 * remember the current note text and the bold-item fingerprints, the
 * ignore counters a sync hands back, the one-time start-up read of the
 * files, the reading of the three path flags, and the choice of handler
 * for a changed path.
 *
 * The SHA-256 digest of a text is taken as injective, so the model keeps
 * the hashed text itself where the source keeps its digest.
 */
module PlasmaSync {
  import opened Wrappers
  import opened Text
  import opened Values
  import opened Lines
  import opened BlankLines
  import opened Html
  import opened PlasmaHtml
  import opened BoldRuns

  // ------------------------------------------------------------ state

  /** `_CURRENT_TEXT`, `_CURRENT_HASH`, `_MAIN_BOLD_HASH`, `_BOLD_NOTE_ITEMS_HASH` and `_INIT_DONE`. */
  datatype SyncState = SyncState(
    currentText: Option<string>,
    currentHash: Option<string>,
    mainBoldHash: Option<string>,
    boldItemsHash: Option<string>,
    initDone: bool)

  const Start := SyncState(None, None, None, None, false)

  /** The current hash is the hash of the current text, and that text is normalised. */
  predicate Consistent(s: SyncState) {
    && s.currentHash == s.currentText
    && (s.currentText.Some? ==> NormalizedText(s.currentText.value) == s.currentText.value)
  }

  /**
   * `_update_state_from_text`: the new state and whether it changed. The
   * state changes exactly when the normalised text has another hash than
   * the current one; afterwards the current hash is always that of the
   * normalised text, and nothing but the current text and hash changes.
   */
  function Update(s: SyncState, text: string): (r: (SyncState, bool))
    ensures r.1 <==> s.currentHash != Some(NormalizedText(text))
    ensures r.0.currentHash == Some(NormalizedText(text))
    ensures !r.1 ==> r.0 == s
    ensures r.0.mainBoldHash == s.mainBoldHash && r.0.boldItemsHash == s.boldItemsHash && r.0.initDone == s.initDone
    ensures Consistent(s) ==> Consistent(r.0)
  {
    var norm := NormalizedText(text);
    NormalizedTextIdempotent(text);
    if s.currentHash == Some(norm) then (s, false)
    else (s.(currentText := Some(norm), currentHash := Some(norm)), true)
  }

  /** Updating twice with the same text changes nothing the second time. */
  lemma UpdateSettles(s: SyncState, text: string)
    ensures !Update(Update(s, text).0, text).1
    ensures Update(Update(s, text).0, text).0 == Update(s, text).0
  {
  }

  /**
   * Feeding back the text the synchroniser itself holds (the echo of its
   * own write) changes nothing.
   */
  lemma UpdateWithCurrent(s: SyncState)
    requires Consistent(s) && s.currentText.Some?
    ensures Update(s, s.currentText.value) == (s, false)
  {
  }

  /** Two texts with the same normalisation update the state alike. */
  lemma UpdateByNormal(s: SyncState, a: string, b: string)
    requires NormalizedText(a) == NormalizedText(b)
    ensures Update(s, a) == Update(s, b)
  {
  }

  /** The module globals, updated in place. */
  class PlasmaSyncState {
    var currentText: Option<string>
    var currentHash: Option<string>
    var mainBoldHash: Option<string>
    var boldItemsHash: Option<string>
    var initDone: bool

    function State(): SyncState
      reads this
    {
      SyncState(currentText, currentHash, mainBoldHash, boldItemsHash, initDone)
    }

    constructor()
      ensures State() == Start
    {
      currentText, currentHash, mainBoldHash, boldItemsHash, initDone := None, None, None, None, false;
    }

    /** `_update_state_from_text`. */
    method UpdateStateFromText(text: string) returns (changed: bool)
      modifies this
      ensures (State(), changed) == Update(old(State()), text)
    {
      var norm := NormalizeText(text);
      var newHash := norm;
      if currentHash == Some(newHash) {
        return false;
      }
      currentText := Some(norm);
      currentHash := Some(newHash);
      changed := true;
    }

    /**
     * `_init_from_disk_once`, the files given by what they hold: the main
     * note's HTML events when the file is not empty, the Markdown note's
     * text, and the mirror's HTML events when it is configured and not
     * empty. Only the first call has an effect.
     */
    method InitFromDiskOnce(mainHtml: Option<seq<HtmlEvent>>, markdown: string,
                            mirror: Option<seq<HtmlEvent>>, mirrorConfigured: bool)
      modifies this
      ensures old(initDone) ==> State() == old(State())
      ensures !old(initDone) ==> State() == Initialized(old(State()), mainHtml, markdown, mirror, mirrorConfigured)
    {
      if initDone {
        return;
      }
      initDone := true;
      InitText(mainHtml, markdown);
      InitMainBold(mainHtml);
      InitMirror(mirror, mirrorConfigured);
    }

    /** The current text from the main note when it is not empty, else from the Markdown note when that is not empty. */
    method InitText(mainHtml: Option<seq<HtmlEvent>>, markdown: string)
      modifies this
      ensures State() == InitialText(old(State()), mainHtml, markdown)
    {
      var ignored: bool;
      if mainHtml.Some? {
        var text := HtmlToText(mainHtml.value);
        ignored := UpdateStateFromText(text);
      } else if markdown != "" {
        ignored := UpdateStateFromText(markdown);
      }
    }

    /** The main bold hash from the bold items of the main note. */
    method InitMainBold(mainHtml: Option<seq<HtmlEvent>>)
      modifies this
      ensures State() == old(State()).(mainBoldHash := Some(ItemsKey(MainItems(mainHtml))))
    {
      var items: seq<string> := [];
      if mainHtml.Some? {
        items := ExtractBoldItemsFromHtml(mainHtml.value);
      }
      assert items == MainItems(mainHtml);
      mainBoldHash := Some(ItemsKey(items));
    }

    /** The mirror hash from the lines of the mirror, when a mirror is configured. */
    method InitMirror(mirror: Option<seq<HtmlEvent>>, mirrorConfigured: bool)
      modifies this
      ensures State() == InitialMirror(old(State()), mirror, mirrorConfigured)
    {
      if mirrorConfigured {
        if mirror.Some? {
          var text := HtmlToText(mirror.value);
          boldItemsHash := Some(ItemsKey(MirrorItems(text)));
        } else {
          boldItemsHash := Some(ItemsKey([]));
        }
      }
    }
  }

  function InitialText(s: SyncState, mainHtml: Option<seq<HtmlEvent>>, markdown: string): (r: SyncState)
    ensures mainHtml.Some? ==> r.currentHash == Some(NormalizedText(HtmlText(mainHtml.value)))
    ensures mainHtml.None? && markdown != "" ==> r.currentHash == Some(NormalizedText(markdown))
    ensures mainHtml.None? && markdown == "" ==> r == s
    ensures r.mainBoldHash == s.mainBoldHash && r.boldItemsHash == s.boldItemsHash && r.initDone == s.initDone
  {
    if mainHtml.Some? then Update(s, HtmlText(mainHtml.value)).0
    else if markdown != "" then Update(s, markdown).0
    else s
  }

  /** The bold items of the main note, none when it is empty. */
  function MainItems(mainHtml: Option<seq<HtmlEvent>>): seq<string> {
    if mainHtml.Some? then HtmlBoldItems(mainHtml.value) else []
  }

  function InitialMirror(s: SyncState, mirror: Option<seq<HtmlEvent>>, mirrorConfigured: bool): (r: SyncState)
    ensures !mirrorConfigured ==> r == s
    ensures mirrorConfigured && mirror.None? ==> r.boldItemsHash == Some(ItemsKey([]))
    ensures r.(boldItemsHash := s.boldItemsHash) == s
  {
    if !mirrorConfigured then s
    else s.(boldItemsHash := Some(ItemsKey(if mirror.Some? then MirrorItems(HtmlText(mirror.value)) else [])))
  }

  /** The state after the first start-up read: the text, then the main bold hash, then the mirror hash. */
  function Initialized(s: SyncState, mainHtml: Option<seq<HtmlEvent>>, markdown: string,
                       mirror: Option<seq<HtmlEvent>>, mirrorConfigured: bool): (r: SyncState)
  {
    var s1 := InitialText(s.(initDone := true), mainHtml, markdown);
    InitialMirror(s1.(mainBoldHash := Some(ItemsKey(MainItems(mainHtml)))), mirror, mirrorConfigured)
  }

  /**
   * After the start-up read the guard is set, the current text is that of
   * the main note (or of the Markdown note when the main one is empty), a
   * main bold hash is known, and a mirror hash is known exactly when a
   * mirror is configured or one was known already.
   */
  lemma InitializedShape(s: SyncState, mainHtml: Option<seq<HtmlEvent>>, markdown: string,
                         mirror: Option<seq<HtmlEvent>>, mirrorConfigured: bool)
    ensures var r := Initialized(s, mainHtml, markdown, mirror, mirrorConfigured);
      && r.initDone
      && (mainHtml.Some? ==> r.currentHash == Some(NormalizedText(HtmlText(mainHtml.value))))
      && (mainHtml.None? && markdown != "" ==> r.currentHash == Some(NormalizedText(markdown)))
      && (mainHtml.None? && markdown == "" ==> r.currentText == s.currentText && r.currentHash == s.currentHash)
      && r.mainBoldHash == Some(ItemsKey(MainItems(mainHtml)))
      && (mirrorConfigured ==> r.boldItemsHash.Some?)
      && (!mirrorConfigured ==> r.boldItemsHash == s.boldItemsHash)
      && (Consistent(s) ==> Consistent(r))
  {
  }

  /** `[ln.strip() for ln in text.splitlines() if ln.strip()]`. */
  function MirrorItems(text: string): (r: seq<string>)
    ensures forall i :: 0 <= i < |r| ==> Clean(r[i])
  {
    StrippedLines(LinesOf(text))
  }

  /** `[ln.strip()] if ln.strip() else []`. */
  function StrippedLine(ln: string): (r: seq<string>)
    ensures forall i :: 0 <= i < |r| ==> Clean(r[i])
  {
    var s := Strip(ln);
    if s == [] then [] else [s]
  }

  function StrippedLines(ls: seq<string>): (r: seq<string>)
    ensures forall i :: 0 <= i < |r| ==> Clean(r[i])
    decreases |ls|
  {
    if ls == [] then []
    else
      var head := StrippedLine(ls[0]);
      CleanAppend(head, StrippedLines(ls[1..]));
      head + StrippedLines(ls[1..])
  }

  // ------------------------------------------------------------ ignore counters

  /** `_inc_ignore`: the path's counter grows by `times`; every other counter stays. */
  function IncIgnore(ignore: map<string, int>, path: string, times: int): (r: map<string, int>)
    ensures path in r && r[path] == (if path in ignore then ignore[path] else 0) + times
    ensures forall p :: p != path ==> (p in r <==> p in ignore) && (p in ignore ==> r[p] == ignore[p])
  {
    ignore[path := (if path in ignore then ignore[path] else 0) + times]
  }

  /** Two increments add up. */
  lemma IncIgnoreAdds(ignore: map<string, int>, path: string, a: int, b: int)
    ensures IncIgnore(IncIgnore(ignore, path, a), path, b) == IncIgnore(ignore, path, a + b)
  {
  }

  // ------------------------------------------------------------ configuration

  /**
   * `one_value`: a missing value is an error when the flag is required
   * and absent otherwise; a list must hold exactly one value; the value
   * must be a string that is not blank.
   */
  function OneValue(cfg: map<string, Value>, key: string, flag: string, required: bool): (r: Result<Option<string>, string>)
    ensures r.Success? && r.value.Some? ==> !IsBlank(r.value.value)
    ensures Get(cfg, key).VNone? ==> (r.Success? <==> !required) && (r.Success? ==> r.value.None?)
    ensures Get(cfg, key).VStr? ==> (r.Success? <==> !IsBlank(Get(cfg, key).s))
    ensures r.Success? && r.value.None? ==> Get(cfg, key).VNone?
    ensures var v := Get(cfg, key);
      v.VList? ==> (r.Success? <==> |v.items| == 1 && v.items[0].VStr? && !IsBlank(v.items[0].s))
    ensures var v := Get(cfg, key);
      !v.VNone? && !v.VList? && !v.VStr? ==> r.Failure?
    ensures var v := Get(cfg, key);
      r.Success? && r.value.Some? ==> r.value.value == (if v.VList? then v.items[0].s else v.s)
  {
    var val := Get(cfg, key);
    if val.VNone? then
      if required then Failure("PlasmaSync: missing required " + flag) else Success(None)
    else if val.VList? && |val.items| != 1 then
      Failure("PlasmaSync: " + flag + " expects exactly one value, got " + IntToString(|val.items|))
    else
      var v := if val.VList? then val.items[0] else val;
      if !v.VStr? || Strip(v.s) == [] then Failure("PlasmaSync: invalid value for " + flag)
      else Success(Some(v.s))
  }

  /** The three paths `_cfg` reads. */
  datatype Paths = Paths(widget: string, markdown: string, bold: Option<string>)

  /** `_cfg`: the widget and Markdown paths are required, the mirror path optional. */
  function Cfg(cfg: map<string, Value>): (r: Result<Paths, string>)
    ensures r.Success? ==> !IsBlank(r.value.widget) && !IsBlank(r.value.markdown)
    ensures r.Success? && r.value.bold.Some? ==> !IsBlank(r.value.bold.value)
    ensures Get(cfg, "plasma_widget_path").VNone? ==> r.Failure?
    ensures Get(cfg, "plasma_markdown_note_path").VNone? ==> r.Failure?
    ensures var w := OneValue(cfg, "plasma_widget_path", "--plasma-widget-path", true);
      var m := OneValue(cfg, "plasma_markdown_note_path", "--plasma-markdown-note-path", true);
      var b := OneValue(cfg, "plasma_bold_widget_path", "--plasma-bold-widget-path", false);
      (r.Success? <==> w.Success? && m.Success? && b.Success?) &&
      (r.Success? ==> r.value.widget == w.value.GetOr("") && r.value.markdown == m.value.GetOr("") && r.value.bold == b.value) &&
      (r.Failure? ==> r.error == (if w.Failure? then w.error else if m.Failure? then m.error else b.error))
  {
    match OneValue(cfg, "plasma_widget_path", "--plasma-widget-path", true)
    case Failure(e) => Failure(e)
    case Success(w) =>
      match OneValue(cfg, "plasma_markdown_note_path", "--plasma-markdown-note-path", true)
      case Failure(e) => Failure(e)
      case Success(m) =>
        match OneValue(cfg, "plasma_bold_widget_path", "--plasma-bold-widget-path", false)
        case Failure(e) => Failure(e)
        case Success(b) => Success(Paths(w.GetOr(""), m.GetOr(""), b))
  }

  /**
   * The configured strings come back as the paths: a widget and a Markdown
   * path given as non-blank strings (alone or as a one-item list) and no
   * mirror give exactly those paths, and events on the Markdown note are
   * routed to `_from_markdown`.
   */
  lemma CfgReadsConfigured(cfg: map<string, Value>, w: string, m: string)
    requires Get(cfg, "plasma_widget_path") in {VStr(w), VList([VStr(w)])} && !IsBlank(w)
    requires Get(cfg, "plasma_markdown_note_path") in {VStr(m), VList([VStr(m)])} && !IsBlank(m)
    requires Get(cfg, "plasma_bold_widget_path").VNone?
    ensures Cfg(cfg) == Success(Paths(w, m, None))
    ensures RouteOf(m, Cfg(cfg).value) == FromMarkdown
  {
  }

  /** A list of other than one item fails, whatever the items. */
  lemma CfgRejectsLists(cfg: map<string, Value>, items: seq<Value>)
    requires Get(cfg, "plasma_widget_path") == VList(items) && |items| != 1
    ensures Cfg(cfg).Failure?
    ensures Cfg(cfg).error == "PlasmaSync: " + "--plasma-widget-path" + " expects exactly one value, got " + IntToString(|items|)
  {
  }

  // ------------------------------------------------------------ routing

  datatype Route = FromMarkdown | FromBoldMirror | FromMainPlasma | Unrouted

  /**
   * `_handle`: the Markdown note first, then the bold mirror when one is
   * configured, then the main widget; any other path is not handled.
   */
  function RouteOf(path: string, paths: Paths): (r: Route)
    ensures r == FromMarkdown <==> path == paths.markdown
    ensures r == FromBoldMirror <==> path != paths.markdown && paths.bold.Some? && paths.bold.value != "" && path == paths.bold.value
    ensures r == FromMainPlasma ==> path == paths.widget
    ensures r == Unrouted <==> path != paths.markdown && path != paths.widget && (paths.bold.None? || paths.bold.value == "" || path != paths.bold.value)
  {
    if path == paths.markdown then FromMarkdown
    else if paths.bold.Some? && paths.bold.value != "" && path == paths.bold.value then FromBoldMirror
    else if path == paths.widget then FromMainPlasma
    else Unrouted
  }

  /** When the mirror is also the main widget's path, its events go to the mirror handler. */
  lemma MirrorBeforeMain(paths: Paths)
    requires paths.bold.Some? && paths.bold.value == paths.widget && paths.widget != paths.markdown
    requires paths.widget != ""
    ensures RouteOf(paths.widget, paths) == FromBoldMirror
  {
  }
}
