/**
 * The commit message both git modules build for a batch of file events:
 * "<base>: <events>", then up to eight file names and ", +N more" for the
 * rest, then the formatted time in brackets when time stamps are on. The
 * events are the batch's event types sorted and joined with "+", or
 * "change" when there are none; the names are the base names of the paths
 * `git status` reported, or of the batch's hinted paths when it reported
 * none. The formatted time (`datetime.now().strftime(fmt)`) is a parameter.
 */
module CommitMessage {
  import opened Wrappers
  import opened Text
  import opened Paths
  import opened Sorting

  const MaxShown: nat := 8

  /** The event part: sorted event types joined with "+", or "change". */
  function EventSummary(eventTypes: set<string>): string {
    if eventTypes == {} then "change" else Join(SortedStrings(eventTypes), "+")
  }

  /** The non-empty paths, in order. */
  function NonEmpty(paths: seq<string>): (r: seq<string>)
    ensures |r| <= |paths|
    ensures forall i :: 0 <= i < |r| ==> r[i] != [] && r[i] in paths
    ensures forall p :: p in paths && p != [] ==> p in r
  {
    if paths == [] then []
    else if paths[0] == [] then NonEmpty(paths[1..])
    else [paths[0]] + NonEmpty(paths[1..])
  }

  /** `[os.path.basename(p) for p in paths]`. */
  function Basenames(paths: seq<string>): (r: seq<string>)
    ensures |r| == |paths|
    ensures forall i :: 0 <= i < |r| ==> r[i] == Basename(paths[i])
  {
    if paths == [] then [] else [Basename(paths[0])] + Basenames(paths[1..])
  }

  /**
   * The names the message lists: the base names of the reported non-empty
   * paths, or, when there are none, of the hinted paths in sorted order.
   */
  function FileNames(changed: seq<string>, hinted: set<string>): (r: seq<string>)
    ensures NonEmpty(changed) != [] ==> r == Basenames(NonEmpty(changed))
    ensures NonEmpty(changed) == [] ==> r == Basenames(SortedStrings(hinted))
    ensures |r| == if NonEmpty(changed) != [] then |NonEmpty(changed)| else |hinted|
    ensures forall i :: 0 <= i < |r| ==> '/' !in r[i]
  {
    var names := Basenames(NonEmpty(changed));
    if names == [] && hinted != {} then Basenames(SortedStrings(hinted)) else names
  }

  /** How many names stay out of the list. */
  function Hidden(names: seq<string>): nat {
    if |names| > MaxShown then |names| - MaxShown else 0
  }

  /** The names that are listed: the first eight. */
  function ShownNames(names: seq<string>): (r: seq<string>)
    ensures |r| <= MaxShown && |r| + Hidden(names) == |names|
    ensures r == names[..|r|]
  {
    if |names| > MaxShown then names[..MaxShown] else names
  }

  /** The name list: the listed names joined with ", ", then ", +N more" for the N left out. */
  function NameList(names: seq<string>): (r: string)
    ensures StartsWith(r, Join(ShownNames(names), ", "))
    ensures Hidden(names) == 0 ==> r == Join(names, ", ")
  {
    var shown := Join(ShownNames(names), ", ");
    if |names| > MaxShown then
      var r := shown + ", +" + NatToString(|names| - MaxShown) + " more";
      assert r[..|shown|] == shown;
      r
    else shown
  }

  /** "<head> <names>" when there are names, then " [<stamp>]" when time stamps are on. */
  function Compose(head: string, shown: string, addTimestamp: bool, stamp: string): (r: string)
    ensures StartsWith(r, head)
    ensures shown != [] ==> StartsWith(r, head + " " + shown)
    ensures addTimestamp ==> EndsWith(r, " [" + stamp + "]")
    ensures !addTimestamp ==> r == if shown != [] then head + " " + shown else head
    ensures addTimestamp ==> r == (if shown != [] then head + " " + shown else head) + " [" + stamp + "]"
  {
    var withNames := if shown != [] then head + " " + shown else head;
    assert withNames[..|head|] == head;
    if addTimestamp then
      var r := withNames + " [" + stamp + "]";
      assert r[..|head|] == withNames[..|head|];
      r
    else withNames
  }

  /**
   * `_build_commit_message`; `stamp` is the formatted current time, used
   * only when `addTimestamp` is set.
   */
  function BuildCommitMessage(base: string, eventTypes: set<string>, hinted: set<string>,
                              addTimestamp: bool, changed: seq<string>, stamp: string): (r: string)
    ensures StartsWith(r, base + ": " + EventSummary(eventTypes))
    ensures addTimestamp ==> EndsWith(r, " [" + stamp + "]")
    ensures FileNames(changed, hinted) == [] && !addTimestamp ==> r == base + ": " + EventSummary(eventTypes)
    ensures var names := NameList(FileNames(changed, hinted));
      names != [] ==> StartsWith(r, base + ": " + EventSummary(eventTypes) + " " + names)
    ensures var names := NameList(FileNames(changed, hinted));
      !addTimestamp && names != [] ==> r == base + ": " + EventSummary(eventTypes) + " " + names
  {
    Compose(base + ": " + EventSummary(eventTypes), NameList(FileNames(changed, hinted)), addTimestamp, stamp)
  }

  /**
   * When no event type holds a "+", the event part reads back, split on
   * "+", as the batch's event types in sorted order.
   */
  lemma SummaryRoundTrip(eventTypes: set<string>)
    requires eventTypes != {}
    requires forall e :: e in eventTypes ==> '+' !in e
    ensures Split(EventSummary(eventTypes), '+') == SortedStrings(eventTypes)
  {
    var sorted := SortedStrings(eventTypes);
    assert forall i :: 0 <= i < |sorted| ==> sorted[i] in eventTypes;
    SplitJoin(sorted, '+');
  }

  /** The name list never lists more than eight names, and counts the rest. */
  lemma AtMostEightListed(names: seq<string>)
    requires |names| > MaxShown
    ensures NameList(names) == Join(names[..8], ", ") + ", +" + NatToString(|names| - 8) + " more"
    ensures DigitsValue(NatToString(Hidden(names))) + 8 == |names|
  {
    NatToStringValue(Hidden(names));
  }

  /** Hinted paths are listed only when `git status` reported no non-empty path. */
  lemma HintsOnlyAsFallback(changed: seq<string>, hinted: set<string>)
    requires exists p :: p in changed && p != []
    ensures FileNames(changed, hinted) == Basenames(NonEmpty(changed))
  {
    var p :| p in changed && p != [];
    assert p in NonEmpty(changed);
  }
}
