/**
 * POSIX path helpers with `os.path` semantics (`basename`, `dirname`,
 * `join`, `splitext`, splitting on the separator) and the watchdog event
 * the handlers receive, and `posixpath.normpath` (`Normpath`), which is
 * what `os.path.abspath` does to the absolute paths the daemon is given.
 */
module Paths {
  import opened Wrappers
  import opened Text

  datatype EventKind = Created | Modified | Moved | Deleted

  /** A watchdog `FileSystemEvent`; `dest` is only meaningful for `Moved`. */
  datatype Event = Event(kind: EventKind, isDirectory: bool, src: string, dest: string)

  /** Index just after the last '/', or 0. */
  function AfterLastSlash(p: string): (i: nat)
    ensures i <= |p| && '/' !in p[i..]
    ensures i > 0 ==> p[i - 1] == '/'
  {
    if p == [] then 0
    else if p[|p| - 1] == '/' then |p|
    else AfterLastSlash(p[..|p| - 1])
  }

  /** `os.path.basename`. */
  function Basename(p: string): (r: string)
    ensures '/' !in r && EndsWith(p, r)
  {
    p[AfterLastSlash(p)..]
  }

  /** The base name is everything after the last '/': the whole path when it has none. */
  lemma BasenameAfterLastSlash(p: string)
    ensures var r := Basename(p); |r| == |p| || p[|p| - |r| - 1] == '/'
    ensures '/' !in p ==> Basename(p) == p
  {
  }

  /** `os.path.dirname`: the head up to the last '/', without trailing slashes unless it is all slashes. */
  function Dirname(p: string): (r: string)
    ensures StartsWith(p, r)
    ensures r == [] <==> '/' !in p
    ensures |r| + |Basename(p)| <= |p|
    ensures forall i :: |r| <= i < |p| - |Basename(p)| ==> p[i] == '/'
    ensures r != [] && r[|r| - 1] == '/' ==> |r| + |Basename(p)| == |p| && forall i :: 0 <= i < |r| ==> r[i] == '/'
  {
    var head := p[..AfterLastSlash(p)];
    var trimmed := RStripChar(head, '/');
    if head != [] && trimmed != [] then trimmed else head
  }

  /** `os.path.join(a, b)` for two parts. */
  function JoinPath(a: string, b: string): (r: string)
    ensures EndsWith(r, b)
  {
    if StartsWith(b, "/") then b
    else if a == [] || EndsWith(a, "/") then a + b
    else a + "/" + b
  }

  /** `p.split(os.sep)`. */
  function Components(p: string): seq<string> {
    Split(p, '/')
  }

  /** `".git" in path.split(os.sep)`. */
  predicate HasGitComponent(p: string) {
    ".git" in Components(p)
  }

  /** Whether a non-dot character comes before index `i` of `name`. */
  predicate HasNonDotBefore(name: string, i: nat)
    requires i <= |name|
  {
    exists j :: 0 <= j < i && name[j] != '.'
  }

  function LastDot(name: string): (r: Option<nat>)
    ensures r.Some? ==> r.value < |name| && name[r.value] == '.' && '.' !in name[r.value + 1..]
    ensures r.None? <==> '.' !in name
  {
    if name == [] then None
    else if name[|name| - 1] == '.' then Some(|name| - 1)
    else LastDot(name[..|name| - 1])
  }

  /** A dot with no dot after it is the last dot. */
  lemma {:induction false} LastDotIs(name: string, k: nat)
    requires k < |name| && name[k] == '.' && '.' !in name[k + 1..]
    ensures LastDot(name) == Some(k)
    decreases |name|
  {
    if k < |name| - 1 {
      var t := name[..|name| - 1];
      assert name[|name| - 1] == name[k + 1..][|name| - 2 - k];
      assert t[k + 1..] == name[k + 1..][..|name| - 2 - k];
      LastDotIs(t, k);
    }
  }

  /**
   * `os.path.splitext` of a base name: the extension starts at the last dot,
   * unless only dots precede it (so ".bashrc" has no extension).
   */
  function SplitExt(name: string): (r: (string, string))
    ensures r.0 + r.1 == name
    ensures r.1 == [] || (r.1[0] == '.' && '.' !in r.1[1..])
  {
    match LastDot(name)
    case None => (name, "")
    case Some(i) => if HasNonDotBefore(name, i) then (name[..i], name[i..]) else (name, "")
  }

  /** A part `normpath` keeps as it is: not empty, not "." nor "..", and free of '/'. */
  predicate Plain(c: string) {
    c != [] && c != "." && c != ".." && '/' !in c
  }

  /** How many slashes `normpath` puts in front: two for exactly two, one for one or three or more. */
  function LeadingSlashes(p: string): (n: nat)
    ensures n <= 2 && (n > 0 <==> p != [] && p[0] == '/')
  {
    if |p| >= 2 && p[0] == '/' && p[1] == '/' && !(|p| >= 3 && p[2] == '/') then 2
    else if p != [] && p[0] == '/' then 1
    else 0
  }

  /**
   * One turn of the part loop of `posixpath.normpath`: "" and "." vanish; ".."
   * cancels the part before it, vanishes at the root of an absolute path and is
   * kept otherwise; any other part is kept.
   */
  function NormStep(acc: seq<string>, comp: string, absolute: bool): seq<string> {
    if comp == "" || comp == "." then acc
    else if comp != ".." || (!absolute && acc == []) || (acc != [] && acc[|acc| - 1] == "..") then acc + [comp]
    else if acc != [] then acc[..|acc| - 1]
    else acc
  }

  /** The part loop of `posixpath.normpath`, from the parts kept so far. */
  function NormParts(acc: seq<string>, parts: seq<string>, absolute: bool): seq<string>
    decreases |parts|
  {
    if parts == [] then acc else NormParts(NormStep(acc, parts[0], absolute), parts[1..], absolute)
  }

  /** `posixpath.normpath`; on an absolute path it is `os.path.abspath`. */
  function Normpath(p: string): (r: string)
    ensures r != []
  {
    if p == [] then "."
    else
      var n := LeadingSlashes(p);
      var q := seq(n, _ => '/') + Join(NormParts([], Components(p), n > 0), "/");
      if q == [] then "." else q
  }

  /** The part loop is a left fold: one more part is one more step. */
  lemma {:induction false} NormPartsSnoc(acc: seq<string>, parts: seq<string>, x: string, absolute: bool)
    ensures NormParts(acc, parts + [x], absolute) == NormStep(NormParts(acc, parts, absolute), x, absolute)
    decreases |parts|
  {
    if parts == [] {
      assert NormParts(NormStep(acc, x, absolute), [], absolute) == NormStep(acc, x, absolute);
    } else {
      assert (parts + [x])[1..] == parts[1..] + [x];
      NormPartsSnoc(NormStep(acc, parts[0], absolute), parts[1..], x, absolute);
    }
  }

  /** Plain parts all pass through the loop unchanged. */
  lemma {:induction false} NormPartsPlain(acc: seq<string>, parts: seq<string>, absolute: bool)
    requires forall i :: 0 <= i < |parts| ==> Plain(parts[i])
    ensures NormParts(acc, parts, absolute) == acc + parts
    decreases |parts|
  {
    if parts != [] {
      NormPartsPlain(acc + [parts[0]], parts[1..], absolute);
      assert acc + [parts[0]] + parts[1..] == acc + parts;
    }
  }

  /** On an absolute path, from plain parts, the loop keeps only plain parts. */
  lemma {:induction false} NormPartsStayPlain(acc: seq<string>, parts: seq<string>)
    requires forall i :: 0 <= i < |acc| ==> Plain(acc[i])
    requires forall i :: 0 <= i < |parts| ==> '/' !in parts[i]
    ensures forall i :: 0 <= i < |NormParts(acc, parts, true)| ==> Plain(NormParts(acc, parts, true)[i])
    decreases |parts|
  {
    if parts != [] {
      var next := NormStep(acc, parts[0], true);
      assert forall i :: 0 <= i < |next| ==> Plain(next[i]);
      NormPartsStayPlain(next, parts[1..]);
    }
  }

  /** A path of the form `os.path.abspath` gives: "/" and then plain parts joined by "/". */
  ghost predicate Clean(p: string) {
    exists parts: seq<string> ::
      (forall i :: 0 <= i < |parts| ==> Plain(parts[i])) && p == "/" + Join(parts, "/")
  }

  /** The part loop takes "/" followed by plain parts joined by "/" back to those parts. */
  lemma CleanParts(parts: seq<string>)
    requires forall i :: 0 <= i < |parts| ==> Plain(parts[i])
    ensures NormParts([], Components(['/'] + Join(parts, "/")), true) == parts
    ensures LeadingSlashes(['/'] + Join(parts, "/")) == 1
  {
    if parts == [] {
      RootParts();
    } else {
      var whole := [""] + parts;
      assert whole[1..] == parts;
      WholeHasNoSlash(parts);
      SplitJoin(whole, '/');
      assert NormParts([], whole, true) == NormParts([], parts, true);
      NormPartsPlain([], parts, true);
      JoinHead(parts, "/");
    }
  }

  lemma RootParts()
    ensures NormParts([], Components(['/'] + Join([], "/")), true) == []
  {
    assert ['/'] + Join([], "/") == [] + ['/'] + [];
    SplitAround([], '/', []);
    assert Components(['/']) == [[], []];
  }

  lemma WholeHasNoSlash(parts: seq<string>)
    requires parts != [] && forall i :: 0 <= i < |parts| ==> Plain(parts[i])
    ensures forall i :: 0 <= i < |[""] + parts| ==> '/' !in ([""] + parts)[i]
    ensures Join([""] + parts, "/") == ['/'] + Join(parts, "/")
  {
    var whole := [""] + parts;
    assert whole[1..] == parts;
  }

  /** A join of non-empty parts starts with the first part's first character. */
  lemma {:induction false} JoinHead(parts: seq<string>, sep: string)
    requires parts != [] && parts[0] != []
    ensures Join(parts, sep) != [] && Join(parts, sep)[0] == parts[0][0]
  {
  }

  /** `normpath` leaves a clean path as it is. */
  lemma NormpathOfClean(p: string)
    requires Clean(p)
    ensures Normpath(p) == p
  {
    var parts :| (forall i :: 0 <= i < |parts| ==> Plain(parts[i])) && p == "/" + Join(parts, "/");
    assert p == ['/'] + Join(parts, "/");
    CleanParts(parts);
    assert seq(1, _ => '/') == ['/'];
  }

  /** On a path with one leading slash, or three or more, `normpath` gives a clean path. */
  lemma NormpathIsClean(p: string)
    requires LeadingSlashes(p) == 1
    ensures Clean(Normpath(p))
  {
    var parts := NormParts([], Components(p), true);
    assert forall i :: 0 <= i < |Components(p)| ==> '/' !in Components(p)[i];
    NormPartsStayPlain([], Components(p));
    assert seq(1, _ => '/') == ['/'];
    assert Normpath(p) == ['/'] + Join(parts, "/");
  }

  /** `normpath` is idempotent on such paths. */
  lemma NormpathIdempotent(p: string)
    requires LeadingSlashes(p) == 1
    ensures Normpath(Normpath(p)) == Normpath(p)
  {
    NormpathIsClean(p);
    NormpathOfClean(Normpath(p));
  }

  /** Joining a plain name to an absolute directory adds that name to the directory's kept parts. */
  lemma JoinPlainParts(d: string, name: string)
    requires d != [] && d[0] == '/' && Plain(name)
    ensures NormParts([], Components(JoinPath(d, name)), true) == NormParts([], Components(d), true) + [name]
    ensures LeadingSlashes(JoinPath(d, name)) == LeadingSlashes(d)
  {
    PlainComponents(name);
    JoinPlainComponents(d, name);
    JoinLeadingSlashes(d, name);
  }

  lemma JoinPlainComponents(d: string, name: string)
    requires d != [] && d[0] == '/' && Plain(name) && Components(name) == [name]
    ensures NormParts([], Components(JoinPath(d, name)), true) == NormParts([], Components(d), true) + [name]
  {
    assert !StartsWith(name, "/") by { assert name[0] in name; }
    if d[|d| - 1] == '/' {
      assert JoinPath(d, name) == d + name;
      JoinAfterSlash(d[..|d| - 1], name);
      assert d == d[..|d| - 1] + ['/'];
    } else {
      assert JoinPath(d, name) == d + ['/'] + name;
      JoinNoSlash(d, name);
    }
  }

  lemma PlainComponents(name: string)
    requires Plain(name)
    ensures Components(name) == [name]
  {
    assert SplitOnce(name, '/').None?;
  }

  lemma JoinAfterSlash(d': string, name: string)
    requires Plain(name) && Components(name) == [name]
    ensures NormParts([], Components(d' + ['/'] + name), true) == NormParts([], Components(d' + ['/']), true) + [name]
  {
    assert d' + ['/'] == d' + ['/'] + [];
    SplitAround(d', '/', []);
    SplitAround(d', '/', name);
    assert Split([], '/') == [[]];
    NormPartsSnoc([], Split(d', '/'), [], true);
    NormPartsSnoc([], Split(d', '/'), name, true);
  }

  lemma JoinNoSlash(d: string, name: string)
    requires Plain(name) && Components(name) == [name]
    ensures NormParts([], Components(d + ['/'] + name), true) == NormParts([], Components(d), true) + [name]
  {
    SplitAround(d, '/', name);
    NormPartsSnoc([], Split(d, '/'), name, true);
  }

  lemma JoinLeadingSlashes(d: string, name: string)
    requires d != [] && d[0] == '/' && Plain(name)
    ensures LeadingSlashes(JoinPath(d, name)) == LeadingSlashes(d)
  {
    var j := JoinPath(d, name);
    assert name[0] != '/' by { assert name[0] in name; }
    assert StartsWith(j, d);
  }

  /** A join of parts whose last one is non-empty ends with that part's last character. */
  lemma {:induction false} JoinLast(parts: seq<string>, sep: string)
    requires parts != [] && parts[|parts| - 1] != []
    ensures Join(parts, sep) != []
    ensures Join(parts, sep)[|Join(parts, sep)| - 1] == parts[|parts| - 1][|parts[|parts| - 1]| - 1]
    decreases |parts|
  {
    if |parts| > 1 {
      JoinLast(parts[1..], sep);
    }
  }

  /**
   * `normpath` of an absolute path is its leading slashes and then its kept
   * parts; it ends with '/' only when it is all slashes.
   */
  lemma NormpathShape(d: string)
    requires d != [] && d[0] == '/'
    ensures Normpath(d) == seq(LeadingSlashes(d), _ => '/') + Join(NormParts([], Components(d), true), "/")
    ensures Normpath(d)[|Normpath(d)| - 1] == '/' ==> RStripChar(Normpath(d), '/') == []
  {
    var parts := NormParts([], Components(d), true);
    var slashes := seq(LeadingSlashes(d), _ => '/');
    assert forall i :: 0 <= i < |Components(d)| ==> '/' !in Components(d)[i];
    NormPartsStayPlain([], Components(d));
    if parts != [] {
      JoinLast(parts, "/");
    } else {
      AllSlashes(slashes);
    }
  }

  lemma {:induction false} AllSlashes(s: string)
    requires forall i :: 0 <= i < |s| ==> s[i] == '/'
    ensures RStripChar(s, '/') == []
    decreases |s|
  {
    if s != [] {
      AllSlashes(s[..|s| - 1]);
    }
  }

  /** `normpath` after joining a plain name is joining that name after `normpath`. */
  lemma NormpathJoinPlain(d: string, name: string)
    requires d != [] && d[0] == '/' && Plain(name)
    ensures Normpath(JoinPath(d, name)) == JoinPath(Normpath(d), name)
  {
    var parts := NormParts([], Components(d), true);
    var j := JoinPath(d, name);
    JoinPlainParts(d, name);
    NormpathShape(d);
    assert StartsWith(j, d);
    NormpathShape(j);
    assert forall i :: 0 <= i < |Components(d)| ==> '/' !in Components(d)[i];
    NormPartsStayPlain([], Components(d));
    JoinAfterParts(seq(LeadingSlashes(d), _ => '/'), parts, name);
  }

  /** Joining a plain name after slashes and plain parts is joining it to the parts. */
  lemma JoinAfterParts(slashes: string, parts: seq<string>, name: string)
    requires slashes != [] && forall i :: 0 <= i < |slashes| ==> slashes[i] == '/'
    requires forall i :: 0 <= i < |parts| ==> Plain(parts[i])
    requires Plain(name)
    ensures JoinPath(slashes + Join(parts, "/"), name) == slashes + Join(parts + [name], "/")
  {
    if parts == [] {
      JoinAfterSlashes(slashes, name);
    } else {
      JoinAfterSomeParts(slashes, parts, name);
    }
  }

  /** A plain name joined after slashes alone follows them directly. */
  lemma JoinAfterSlashes(slashes: string, name: string)
    requires slashes != [] && slashes[|slashes| - 1] == '/'
    requires Plain(name)
    ensures JoinPath(slashes + Join([], "/"), name) == slashes + Join([] + [name], "/")
  {
    assert slashes + Join([], "/") == slashes;
    assert Join([] + [name], "/") == name;
    JoinPathPlain(slashes, name);
  }

  /** After slashes and at least one plain part, a '/' goes before the name. */
  lemma JoinAfterSomeParts(slashes: string, parts: seq<string>, name: string)
    requires parts != [] && forall i :: 0 <= i < |parts| ==> Plain(parts[i])
    requires Plain(name)
    ensures JoinPath(slashes + Join(parts, "/"), name) == slashes + Join(parts + [name], "/")
  {
    var j := Join(parts, "/");
    PlainJoinEnd(parts);
    SlashAfterHead(slashes, j, name);
    JoinSnoc(parts, name, "/");
  }

  /** Plain parts joined with "/" end in a character other than '/'. */
  lemma PlainJoinEnd(parts: seq<string>)
    requires parts != [] && Plain(parts[|parts| - 1])
    ensures Join(parts, "/") != [] && Join(parts, "/")[|Join(parts, "/")| - 1] != '/'
  {
    JoinLast(parts, "/");
    var last := parts[|parts| - 1];
    assert last[|last| - 1] in last;
  }

  /** A head ending in a part other than '/' gets a '/' before a plain name. */
  lemma SlashAfterHead(slashes: string, j: string, name: string)
    requires j != [] && j[|j| - 1] != '/'
    requires Plain(name)
    ensures JoinPath(slashes + j, name) == slashes + (j + "/" + name)
  {
    var whole := slashes + j;
    assert whole[|whole| - 1] == j[|j| - 1];
    JoinPathPlain(whole, name);
    assert whole + ['/'] + name == slashes + (j + "/" + name);
  }

  /** `os.path.join` of a non-empty head and a plain name: a '/' goes between unless the head ends with one. */
  lemma JoinPathPlain(a: string, name: string)
    requires a != [] && Plain(name)
    ensures a[|a| - 1] == '/' ==> JoinPath(a, name) == a + name
    ensures a[|a| - 1] != '/' ==> JoinPath(a, name) == a + ['/'] + name
  {
    assert name[0] in name;
    JoinPathRelative(a, name);
  }

  /** `os.path.join` of a head and a relative part: a '/' goes between unless the head is empty or ends with one. */
  lemma JoinPathRelative(a: string, b: string)
    requires b != [] && b[0] != '/'
    ensures a == [] || a[|a| - 1] == '/' ==> JoinPath(a, b) == a + b
    ensures a != [] && a[|a| - 1] != '/' ==> JoinPath(a, b) == a + ['/'] + b
  {
    assert !StartsWith(b, "/");
    assert a != [] ==> (EndsWith(a, "/") <==> a[|a| - 1] == '/');
  }

  /** An absolute path has an absolute directory part. */
  lemma DirnameAbsolute(p: string)
    requires p != [] && p[0] == '/'
    ensures Dirname(p) != [] && Dirname(p)[0] == '/'
  {
    var k := AfterLastSlash(p);
    var head := p[..k];
    assert head[0] == '/';
  }

  /** The path an event is about: the destination of a move, the source otherwise. */
  function FilePath(ev: Event): string {
    if ev.kind == Moved then ev.dest else ev.src
  }

  /**
   * The events both handlers drop before anything else: directories, files
   * whose (source) base name starts with ".", and paths with a ".git" part.
   */
  predicate Dropped(ev: Event) {
    ev.isDirectory || StartsWith(Basename(ev.src), ".") || HasGitComponent(FilePath(ev))
  }
}
