/**
 * The renamer (lucy_notes_manager/modules/renamer.py): `--r <name>`
 * renames a note within its directory; on creation, `--auto-rename`
 * renames a note called "t", "txt", "m" or "md" after the day.
 *
 * The file system enters as parameters: whether the note is a directory
 * (`isDir`), which paths exist (`present`) and whether `os.rename` succeeds
 * (`rename`). The clock enters as the two strings `strftime` gives,
 * `dayMonth` ("%d-%m") and `hourMin` ("%H%M").
 */
module Renamer {
  import opened Wrappers
  import opened Text
  import opened Values
  import opened Paths
  import opened Pipeline

  const Template: seq<TemplateEntry> := [
    TemplateEntry("--r", "str", VNone, "Rename file. Example: --r new_name.md."),
    TemplateEntry("--auto-rename", "bool", VBool(false),
                  "On create: t|txt -> DD-MM.txt, m|md -> DD-MM.md. If exists -> HHMM-DD-MM.ext")
  ]

  const RenamerModule := Module("renamer", 20, Template)

  /** `values[0]` on a value that cannot be indexed. */
  datatype RenameError = NotIndexable

  /** `os.rename(oldPath, newPath)` succeeds. */
  type Renamer = (string, string) -> bool

  /** The ledger entry of a rename: one event to swallow for each of the two paths. */
  function Renamed(oldPath: string, newPath: string): (r: IgnoreMap)
    ensures oldPath in r && newPath in r
  {
    map[oldPath := 1, newPath := 1]
  }

  /** `os.path.abspath(os.path.join(os.path.dirname(note), name))`, the note path being absolute. */
  function Target(note: string, name: string): string {
    Normpath(JoinPath(Dirname(note), name))
  }

  /**
   * The name `--r` asks for: nothing when the value is falsy or strips to
   * nothing, an error when it cannot be indexed.
   */
  function ManualName(config: map<string, Value>): (r: Result<Option<string>, RenameError>)
    ensures !Truthy(Get(config, "r")) ==> r == Success(None)
    ensures r.Failure? <==> Truthy(Get(config, "r")) && Item0(Get(config, "r")).None?
    ensures r.Success? && r.value.Some? ==>
      && r.value.value != []
      && !IsSpace(r.value.value[0]) && !IsSpace(r.value.value[|r.value.value| - 1])
      && r.value.value == Strip(Show(Item0(Get(config, "r")).value))
    ensures Truthy(Get(config, "r")) && Item0(Get(config, "r")).Some? ==>
      r == (if Strip(Show(Item0(Get(config, "r")).value)) == [] then Success(None)
            else Success(Some(Strip(Show(Item0(Get(config, "r")).value)))))
  {
    var values := Get(config, "r");
    if !Truthy(values) then Success(None)
    else
      match Item0(values)
      case None => Failure(NotIndexable)
      case Some(v) =>
        var name := Strip(Show(v));
        if name == [] then Success(None) else Success(Some(name))
  }

  /**
   * `_apply_manual`: nothing for a directory, for a target that is the
   * note itself or already exists, or when the rename fails; otherwise
   * both paths, once each.
   */
  function Manual(path: string, config: map<string, Value>, isDir: bool, present: string -> bool, rename: Renamer)
    : (r: Result<Option<IgnoreMap>, RenameError>)
    ensures ManualName(config).Failure? <==> r.Failure?
    ensures r.Success? && r.value.Some? <==>
      && ManualName(config).Success? && ManualName(config).value.Some?
      && var t := Target(path, ManualName(config).value.value);
        !isDir && t != path && !present(t) && rename(path, t)
    ensures r.Success? && r.value.Some? ==>
      r.value.value == Renamed(path, Target(path, ManualName(config).value.value))
  {
    match ManualName(config)
    case Failure(e) => Failure(e)
    case Success(None) => Success(None)
    case Success(Some(name)) =>
      if isDir then Success(None)
      else
        var t := Target(path, name);
        if path == t || present(t) || !rename(path, t) then Success(None)
        else Success(Some(Renamed(path, t)))
  }

  /** A rename swallows exactly one event on each of two different paths. */
  lemma RenamedLedger(oldPath: string, newPath: string)
    requires oldPath != newPath
    ensures Renamed(oldPath, newPath).Keys == {oldPath, newPath}
    ensures forall p :: p in Renamed(oldPath, newPath) ==> Renamed(oldPath, newPath)[p] == 1
  {
  }

  /** A plain name lands in the note's own (normalised) directory under that name. */
  lemma TargetInSameDirectory(note: string, name: string)
    requires note != [] && note[0] == '/' && Plain(name)
    ensures Target(note, name) == JoinPath(Normpath(Dirname(note)), name)
    ensures Basename(Target(note, name)) == name
    ensures Dirname(Target(note, name)) == Normpath(Dirname(note))
  {
    DirnameAbsolute(note);
    NormpathJoinPlain(Dirname(note), name);
    assert Dirname(note)[0] == '/';
    NormpathShape(Dirname(note));
    JoinInDirectory(Normpath(Dirname(note)), name);
  }

  /** "./" in front of a name changes nothing: `abspath` drops it. */
  lemma DotPrefixIgnored(note: string, name: string)
    requires note != [] && note[0] == '/' && Plain(name)
    ensures Target(note, "./" + name) == Target(note, name)
  {
    DirnameAbsolute(note);
    var d := Dirname(note);
    var head := if d[|d| - 1] == '/' then d[..|d| - 1] else d;
    assert d == head + ['/'] || d == head;
    var dotted := ['.'] + ['/'] + name;
    assert "./" + name == dotted;
    JoinPathRelative(d, dotted);
    assert name[0] in name;
    JoinPathRelative(d, name);
    assert JoinPath(d, dotted) == head + ['/'] + dotted;
    assert JoinPath(d, name) == head + ['/'] + name;
    DotPartVanishes(head, name);
  }

  /** The parts "." and a plain name after a head: the "." is dropped and the slashes in front agree. */
  lemma DotPartVanishes(head: string, name: string)
    requires Plain(name)
    requires head == [] || head[0] == '/'
    ensures Normpath(head + ['/'] + (['.'] + ['/'] + name)) == Normpath(head + ['/'] + name)
  {
    DotParts(head, name);
    DotSlashes(head, name);
  }

  lemma DotParts(head: string, name: string)
    requires Plain(name)
    ensures NormParts([], Components(head + ['/'] + (['.'] + ['/'] + name)), true)
         == NormParts([], Components(head + ['/'] + name), true)
  {
    DotComponents(head, name);
    var parts := Split(head, '/');
    NormPartsSnoc([], parts + [['.']], name, true);
    NormPartsSnoc([], parts, ['.'], true);
    NormPartsSnoc([], parts, name, true);
  }

  lemma DotComponents(head: string, name: string)
    requires Plain(name)
    ensures Components(head + ['/'] + (['.'] + ['/'] + name)) == Split(head, '/') + [['.']] + [name]
    ensures Components(head + ['/'] + name) == Split(head, '/') + [name]
  {
    PlainComponents(name);
    SplitAround(head, '/', ['.'] + ['/'] + name);
    SplitAround(['.'], '/', name);
    assert Split(['.'], '/') == [['.']] by { assert SplitOnce(['.'], '/').None?; }
    SplitAround(head, '/', name);
  }

  lemma DotSlashes(head: string, name: string)
    requires Plain(name)
    requires head == [] || head[0] == '/'
    ensures LeadingSlashes(head + ['/'] + (['.'] + ['/'] + name)) == LeadingSlashes(head + ['/'] + name)
  {
    assert name[0] != '/' by { assert name[0] in name; }
  }

  /**
   * A plain name joined to a directory that ends with '/' only when it is all
   * slashes: the base name is the name and the directory part is the directory.
   */
  lemma JoinInDirectory(d: string, name: string)
    requires name != [] && '/' !in name
    requires d != [] && d[|d| - 1] == '/' ==> RStripChar(d, '/') == []
    ensures Basename(JoinPath(d, name)) == name
    ensures Dirname(JoinPath(d, name)) == d
  {
    var t := JoinPath(d, name);
    assert name[0] in name;
    JoinPathRelative(d, name);
    LastSlashOfJoin(d, name);
    if d != [] && d[|d| - 1] != '/' {
      JoinInPlainDirectory(d, name);
    } else {
      assert t == d + name;
      assert t[..AfterLastSlash(t)] == d;
    }
  }

  lemma JoinInPlainDirectory(d: string, name: string)
    requires name != [] && '/' !in name && d != [] && d[|d| - 1] != '/'
    requires JoinPath(d, name) == d + ['/'] + name
    requires AfterLastSlash(JoinPath(d, name)) == |JoinPath(d, name)| - |name|
    ensures Dirname(JoinPath(d, name)) == d
  {
    var t := JoinPath(d, name);
    assert t[..AfterLastSlash(t)] == d + ['/'];
    RStripOneSlash(d);
  }

  /** The last '/' of a join sits right before the plain name. */
  lemma LastSlashOfJoin(d: string, name: string)
    requires name != [] && '/' !in name
    ensures var t := JoinPath(d, name);
      AfterLastSlash(t) == |t| - |name| && t[|t| - |name|..] == name
  {
    var t := JoinPath(d, name);
    assert t[|t| - |name|..] == name;
    AfterLastSlashPlain(t[..|t| - |name|], name);
    assert t == t[..|t| - |name|] + name;
  }

  lemma {:induction false} AfterLastSlashPlain(a: string, b: string)
    requires '/' !in b && (a == [] || a[|a| - 1] == '/')
    ensures AfterLastSlash(a + b) == |a|
    decreases |b|
  {
    if b != [] {
      var ab := a + b;
      assert ab[..|ab| - 1] == a + b[..|b| - 1];
      assert ab[|ab| - 1] == b[|b| - 1];
      AfterLastSlashPlain(a, b[..|b| - 1]);
    } else {
      assert a + b == a;
    }
  }

  /** A directory name that does not end with '/' is given back by stripping one more '/'. */
  lemma RStripOneSlash(d: string)
    requires d != [] && d[|d| - 1] != '/'
    ensures RStripChar(d + "/", '/') == d
  {
    assert (d + "/")[..|d|] == d;
  }

  /** `(stem or base).strip().lower()`: the note's name without its extension, as compared. */
  function StemName(path: string): string {
    var base := Basename(path);
    var stem := SplitExt(base).0;
    Lower(Strip(if stem != [] then stem else base))
  }

  /** The extension a name asks for: "t" and "txt" give ".txt", "m" and "md" give ".md". */
  function ExtOfName(name: string): (r: Option<string>)
    ensures r.Some? ==> r.value == ".txt" || r.value == ".md"
  {
    if name == "t" || name == "txt" then Some(".txt")
    else if name == "m" || name == "md" then Some(".md")
    else None
  }

  /** The extension `_apply_auto_on_create` gives a note by its stem, if any. */
  function AutoExt(path: string): (r: Option<string>)
    ensures r.Some? ==> r.value == ".txt" || r.value == ".md"
  {
    ExtOfName(StemName(path))
  }

  /** "DD-MM.ext" first; if taken, "HHMM-DD-MM.ext"; if that is taken too, nothing. */
  function AutoTarget(path: string, ext: string, dayMonth: string, hourMin: string, present: string -> bool)
    : (r: Option<string>)
    ensures r.Some? ==> !present(r.value)
    ensures !present(Target(path, dayMonth + ext)) ==> r == Some(Target(path, dayMonth + ext))
    ensures present(Target(path, dayMonth + ext)) ==>
      r == (if present(Target(path, hourMin + "-" + dayMonth + ext)) then None
            else Some(Target(path, hourMin + "-" + dayMonth + ext)))
  {
    var first := Target(path, dayMonth + ext);
    if !present(first) then Some(first)
    else
      var second := Target(path, hourMin + "-" + dayMonth + ext);
      if present(second) then None else Some(second)
  }

  /** `_apply_auto_on_create`. */
  function Auto(path: string, config: map<string, Value>, isDir: bool, dayMonth: string, hourMin: string,
                present: string -> bool, rename: Renamer): (r: Option<IgnoreMap>)
    ensures r.Some? ==>
      && Truthy(Get(config, "auto_rename")) && !isDir && AutoExt(path).Some?
      && var t := AutoTarget(path, AutoExt(path).value, dayMonth, hourMin, present);
        t.Some? && t.value != path && !present(t.value) && rename(path, t.value) && r.value == Renamed(path, t.value)
    ensures r.None? ==>
      || !Truthy(Get(config, "auto_rename")) || isDir || AutoExt(path).None?
      || (var t := AutoTarget(path, AutoExt(path).value, dayMonth, hourMin, present);
          t.None? || t.value == path || !rename(path, t.value))
  {
    if !Truthy(Get(config, "auto_rename")) || isDir then None
    else
      match AutoExt(path)
      case None => None
      case Some(ext) =>
        match AutoTarget(path, ext, dayMonth, hourMin, present)
        case None => None
        case Some(t) =>
          if path == t || !rename(path, t) then None else Some(Renamed(path, t))
  }

  /** `created`: a manual rename wins; the automatic one runs only when it did nothing. */
  function Created(ctx: Context, isDir: bool, dayMonth: string, hourMin: string,
                   present: string -> bool, rename: Renamer): (r: Result<Option<IgnoreMap>, RenameError>)
    ensures Manual(ctx.path, ctx.config, isDir, present, rename).Failure? ==>
      r == Manual(ctx.path, ctx.config, isDir, present, rename)
    ensures Manual(ctx.path, ctx.config, isDir, present, rename) == Success(None) ==>
      r == Success(Auto(ctx.path, ctx.config, isDir, dayMonth, hourMin, present, rename))
    ensures (Manual(ctx.path, ctx.config, isDir, present, rename).Success?
             && Manual(ctx.path, ctx.config, isDir, present, rename).value.Some?) ==>
      r == Manual(ctx.path, ctx.config, isDir, present, rename)
  {
    var manual := Manual(ctx.path, ctx.config, isDir, present, rename);
    if manual.Failure? || (manual.value.Some? && manual.value.value != map[]) then manual
    else Success(Auto(ctx.path, ctx.config, isDir, dayMonth, hourMin, present, rename))
  }

  /** The hooks: `created` as above, `modified` and `moved` the manual rename, `deleted` nothing. */
  function OnEvent(kind: EventKind, ctx: Context, isDir: bool, dayMonth: string, hourMin: string,
                   present: string -> bool, rename: Renamer): (r: Result<Option<IgnoreMap>, RenameError>)
    ensures kind == Deleted ==> r == Success(None)
    ensures kind == Modified || kind == Moved ==> r == Manual(ctx.path, ctx.config, isDir, present, rename)
  {
    match kind
    case Created => Created(ctx, isDir, dayMonth, hourMin, present, rename)
    case Modified => Manual(ctx.path, ctx.config, isDir, present, rename)
    case Moved => Manual(ctx.path, ctx.config, isDir, present, rename)
    case Deleted => Success(None)
  }

  /** Every rename the module makes lands on a free path other than the note. */
  lemma RenameTargetsAreFree(kind: EventKind, ctx: Context, isDir: bool, dayMonth: string, hourMin: string,
                             present: string -> bool, rename: Renamer)
    requires OnEvent(kind, ctx, isDir, dayMonth, hourMin, present, rename).Success?
    requires OnEvent(kind, ctx, isDir, dayMonth, hourMin, present, rename).value.Some?
    ensures var m := OnEvent(kind, ctx, isDir, dayMonth, hourMin, present, rename).value.value;
      exists t :: t != ctx.path && !present(t) && rename(ctx.path, t) && m == Renamed(ctx.path, t)
  {
    var manual := Manual(ctx.path, ctx.config, isDir, present, rename);
    if manual.Success? && manual.value.Some? {
      var t := Target(ctx.path, ManualName(ctx.config).value.value);
      assert manual.value.value == Renamed(ctx.path, t);
    } else {
      var ext := AutoExt(ctx.path).value;
      var t := AutoTarget(ctx.path, ext, dayMonth, hourMin, present).value;
      assert Auto(ctx.path, ctx.config, isDir, dayMonth, hourMin, present, rename).value == Renamed(ctx.path, t);
    }
  }

  /** A name without a slash or a dot is its own stem, in lower case. */
  lemma StemOfBare(name: string)
    requires name != [] && '/' !in name && '.' !in name
    requires !IsSpace(name[0]) && !IsSpace(name[|name| - 1])
    ensures StemName(name) == Lower(name)
  {
    BareSplit(name);
    StripKeeps(name);
    StemNameOf(name, name);
  }

  lemma BareSplit(name: string)
    requires '/' !in name && '.' !in name
    ensures SplitExt(Basename(name)).0 == name
  {
    NoSlashBasename(name);
    assert LastDot(name) == None;
  }

  lemma StemNameOf(path: string, stem: string)
    requires SplitExt(Basename(path)).0 == stem && stem != [] && Strip(stem) == stem
    ensures StemName(path) == Lower(stem)
  {
  }

  /** A name `stem + ext`, `ext` its one dot and what follows: the stem, in lower case. */
  lemma StemOfDotted(stem: string, ext: string)
    requires stem != [] && '/' !in stem && '.' !in stem
    requires ext != [] && ext[0] == '.' && '/' !in ext && '.' !in ext[1..]
    requires !IsSpace(stem[0]) && !IsSpace(stem[|stem| - 1])
    ensures StemName(stem + ext) == Lower(stem)
  {
    DottedSplit(stem, ext);
    StripKeeps(stem);
    StemNameOf(stem + ext, stem);
  }

  lemma DottedSplit(stem: string, ext: string)
    requires stem != [] && '/' !in stem && '.' !in stem
    requires ext != [] && ext[0] == '.' && '/' !in ext && '.' !in ext[1..]
    ensures SplitExt(Basename(stem + ext)).0 == stem
  {
    var p := stem + ext;
    NoSlashBasename(p);
    LastDotOfDotted(stem, ext);
    assert HasNonDotBefore(p, |stem|) by { assert p[0] == stem[0]; }
    assert p[..|stem|] == stem;
  }

  lemma LastDotOfDotted(stem: string, ext: string)
    requires '.' !in stem && ext != [] && ext[0] == '.' && '.' !in ext[1..]
    ensures LastDot(stem + ext) == Some(|stem|)
  {
    var p := stem + ext;
    assert p[|stem| + 1..] == ext[1..];
    LastDotIs(p, |stem|);
  }

  /** A path without a slash is its own base name. */
  lemma {:induction false} NoSlashBasename(p: string)
    requires '/' !in p
    ensures Basename(p) == p
  {
    NoSlashStart(p);
  }

  lemma {:induction false} NoSlashStart(p: string)
    requires '/' !in p
    ensures AfterLastSlash(p) == 0
    decreases |p|
  {
    if p != [] {
      assert p[|p| - 1] in p;
      assert forall c :: c in p[..|p| - 1] ==> c in p;
      NoSlashStart(p[..|p| - 1]);
    }
  }

  /** A note without an extension asks for the extension its name, in lower case, names. */
  lemma AutoExtOfBare(name: string)
    requires name != [] && '/' !in name && '.' !in name
    requires !IsSpace(name[0]) && !IsSpace(name[|name| - 1])
    ensures AutoExt(name) == ExtOfName(Lower(name))
  {
    StemOfBare(name);
  }

  /** A note with one extension asks for the extension its stem, in lower case, names. */
  lemma AutoExtOfDotted(stem: string, ext: string)
    requires stem != [] && '/' !in stem && '.' !in stem
    requires ext != [] && ext[0] == '.' && '/' !in ext && '.' !in ext[1..]
    requires !IsSpace(stem[0]) && !IsSpace(stem[|stem| - 1])
    ensures AutoExt(stem + ext) == ExtOfName(Lower(stem))
  {
    StemOfDotted(stem, ext);
  }
}
