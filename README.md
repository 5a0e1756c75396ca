# lucy_notes_daemon, modelled in Dafny

lucy_notes_daemon watches a directory of plain-text notes. Every
filesystem event is filtered (directories, hidden files and anything under
`.git` are dropped), checked against an ignore ledger that keeps the
daemon from reacting to its own writes, and handed to an ordered list of
modules. Most modules rewrite the note in place. They replace the line that
carries a flag (`--sys`, `--cmd`, `--banner`, ...) with a generated block,
turn list items into checklist items, rename the file, mirror a todo file
into a KDE Plasma sticky note (as HTML), or batch changes into git commits.

This project models the sequential core of that system:
- the flag utilities;
- the dispatch layer (module ordering, exclusion and forcing, the two
  ignore ledgers);
- every line-splicing module;
- the pure text transforms (checklist rewriting, blank-line normalisation,
  the text and Plasma-HTML converters, bold-run replacement, renaming);
- the logic of the two git modules that does not run processes: conflict
  resolution, `git status --porcelain` parsing, commit messages, batch
  coalescing and push back-off.

Modules follow the source files:

| source file | Dafny modules that model its code |
|---|---|
| `lucy_notes_manager/lib/args.py` | `Args` |
| `lucy_notes_manager/change_handler.py` | `ChangeHandling` |
| `lucy_notes_manager/file_handler.py` | `FileHandling` |
| `lucy_notes_manager/module_manager.py` | `ModuleManagement` |
| `lucy_notes_manager/modules/abstract_module.py` | `Pipeline` |
| `lucy_notes_manager/modules/sys.py` | `SysModule`, with `Reports`, `Grouping` and `Splice` |
| `lucy_notes_manager/modules/sys_info.py` | `SysInfo`, with `Reports`, `Grouping` and `Splice` |
| `lucy_notes_manager/modules/cmd.py` | `Cmd`, with `Splice` |
| `lucy_notes_manager/modules/banner.py` | `Banner` |
| `lucy_notes_manager/modules/banner_inserter.py` | `BannerInserter` |
| `lucy_notes_manager/modules/todo_formatter.py` | `TodoFormatter`, with `Lines` |
| `lucy_notes_manager/modules/renamer.py` | `Renamer` |
| `lucy_notes_manager/modules/plasma_sync.py` | `PlasmaSync`, `PlasmaHtml`, `BoldStyle`, `BoldParser`, `BoldRuns`, `BlankLines`, `Html` |
| `lucy_notes_manager/modules/plasma_todo_sync.py` | `PlasmaTodoSync`, with `BlankLines`, `PlasmaHtml`, `Html` and `Throttle` |
| `lucy_notes_manager/modules/git.py` | `Git`, with `UnionResolve`, `Porcelain`, `CommitMessage`, `PushBackoff` |
| `note_manager/modules/git.py` | `NoteGit`, with `Porcelain`, `CommitMessage`, `PushBackoff` and `Throttle` |

The helper modules `Wrappers`, `Text`, `Lines`, `Values`, `Sorting` and
`Paths` stand for the parts of Python's library the code relies on.

Modelling conventions:
- Python strings are `seq<char>`.
- Dictionaries are `map`s. Values of unknown type are the `Values.Value`
  datatype (None, string, bool, int, float, list), printed by `Show` as
  `str()` would.
- `shlex.split`/`shlex.join` are whitespace splitting and single-space
  joining (`Text.Words`, `Text.Join`).
- `os.path.abspath` is `posixpath.normpath` (`Paths.Normpath`), since the
  paths it is given are absolute.
- `argparse`, `pyfiglet`, file contents, directory listings, the clock and
  command results are parameters.
- The HTML tokeniser is replaced by a sequence of start-tag, end-tag and
  data events (`Html.HtmlEvent`), which the parsers consume as state
  machines.
- Objects whose fields the source updates in place are classes:
  - `FileHandling.FileHandler`, `ChangeHandling.ChangeHandler`,
    `ModuleManagement.ModuleManager`;
  - `PlasmaHtml.PlasmaParser`, `BoldParser.BoldAwareParser`,
    `PlasmaTodoSync.TodoParser`;
  - `PlasmaSync.PlasmaSyncState` (the module globals of plasma_sync.py),
    `PlasmaTodoSync.TodoSync`;
  - `Git.GitState`, `NoteGit.NoteGitState`, `Throttle.Notifier`.
- Line splices and scans are methods with loops, proved against reference
  functions.
- Where the code as written fails, the model has a member for the code as
  written and one for the evidently intended behaviour; the rest of the
  model uses the intended one (see Findings).

## Model

| member | source | states |
|---|---|---|
| Args.FlagDest | lucy_notes_manager/lib/args.py:35 | the destination has no "-"; it is as long as the flag without its leading dashes, with "_" exactly where that had "-" or "_" |
| Args.FlagDestIdempotent | lucy_notes_manager/lib/args.py:35 | a destination name is its own destination |
| Args.Merged | lucy_notes_manager/lib/args.py:65-80 | a key is in the merge exactly when it is in the base or has a provided (not None, not "") override |
| Args.MergeArgs | lucy_notes_manager/lib/args.py:65-80 | provided override values replace or add; base keys without a provided override keep their value; nothing else is added |
| Args.MergedIsUnique | lucy_notes_manager/lib/args.py:65-80 | any map meeting the three merge rules is the merge, so the rules determine it |
| Args.ConfigTokensAppend | lucy_notes_manager/lib/args.py:55-60 | the tokens of a config file are the concatenation of its lines' tokens |
| Args.SkippedLineContributesNothing | lucy_notes_manager/lib/args.py:57-59 | a blank or "#" line adds no token wherever it stands |
| Args.ConfigArgs | lucy_notes_manager/lib/args.py:49-62 | the config's parse is the parse of the tokens of its non-skipped lines |
| Args.FirstLineArgs | lucy_notes_manager/lib/args.py:129-156 | a missing file, or a blank or "#" first line, gives no args; otherwise the first line's words are parsed |
| Args.LoadAndMerge | lucy_notes_manager/lib/args.py:105-126 | without a config file the start-up args are the result; with one, start-up known args override config known args and the unknown args are the config's followed by the start-up ones |
| Args.SetupArgsAsWrittenRejectsGivenPath | lucy_notes_manager/lib/args.py:103-110 | with `--config_path x` given, the path handed to `open` is a list and `setup_args` fails |
| Args.SetupArgs | lucy_notes_manager/lib/args.py:83-126 | with the path taken from the flag's first value: start-up known args win, config known args fill the rest, no other key appears, and unknown args are the config's then the start-up ones |
| Args.SetupArgsReadsGivenPath | lucy_notes_manager/lib/args.py:103-110 | when the path is given, the corrected `setup_args` reads that file |
| Args.LooksLikeFlag | lucy_notes_manager/lib/args.py:159-171 | a token is flag-like exactly when it has two or more characters, starts with "-", and its second character is neither an ASCII digit nor "." (see Left out) |
| Args.NonFlags | lucy_notes_manager/lib/args.py:166-171 | a token not starting with "-", the lone "-", and a negative number are never flags |
| Args.Head | lucy_notes_manager/lib/args.py:196 | a dashed token's head has no "=" and is a prefix of it; any other token is its own head |
| Args.SkipValues | lucy_notes_manager/lib/args.py:204-206 | the scan stops at the first flag-like token after a removed flag, or at the end |
| Args.CleanTokens | lucy_notes_manager/lib/args.py:190-210 | the token loop keeps exactly `Cleaned(tokens, remove)` |
| Args.SkipFlagValues | lucy_notes_manager/lib/args.py:199-207 | the inner loop moves past the removed flag and all following non-flag tokens |
| Args.CleanArgsFromLine | lucy_notes_manager/lib/args.py:174-213 | the result is `CleanLine` of the inputs and ends with "\n" exactly when the line did |
| Args.CleanedProperties | lucy_notes_manager/lib/args.py:190-210 | the kept tokens are a subsequence of the input; no kept token's head is a flag to remove; with nothing to remove the tokens are unchanged |
| Args.CleanedDropsValues | lucy_notes_manager/lib/args.py:198-207 | a removed bare flag drops every following token up to the next flag-like one |
| Args.CleanedDropsAssignment | lucy_notes_manager/lib/args.py:200-202 | a removed `--flag=value` drops only that one token |
| Args.CleanLineKeepsNewline | lucy_notes_manager/lib/args.py:184-185 | the cleaned line ends with "\n" exactly when the input line did |
| ChangeHandling.Selected | lucy_notes_manager/change_handler.py:81-86 | no more modules than registered, and none that is excluded without being forced |
| ChangeHandling.SelectedExactly | lucy_notes_manager/change_handler.py:81-86 | a name runs exactly when it names a module and is not excluded-without-forced |
| ChangeHandling.ForceOverridesExclude | lucy_notes_manager/change_handler.py:85 | a forced module runs whatever `--exclude` says |
| ChangeHandling.EventArgsAsWritten | lucy_notes_manager/change_handler.py:27-79 | the lookup of the stored args fails exactly when the handler was built without args; otherwise module args are the stored unknowns then the file's |
| ChangeHandling.EventArgsAsWrittenFailsWithoutArgs | lucy_notes_manager/change_handler.py:27-76 | a handler built from an empty argument list fails on every event that passes the filters |
| ChangeHandling.EventArgs | lucy_notes_manager/change_handler.py:75-79 | file known args override system args, system args fill the rest, module args are the stored unknowns then the file's; with stored args it agrees with the code as written |
| ChangeHandling.CallHooksAsWritten | lucy_notes_manager/change_handler.py:84-94 | the calls succeed exactly when every hook takes `(args, event)`; otherwise the error names the first module whose hook takes `(ctx, system)`, all hooks before it fitting |
| ChangeHandling.DispatchAsWritten | lucy_notes_manager/change_handler.py:71-94 | without stored args the event fails; with them it succeeds exactly when every selected hook fits, calling the modules the repaired handler calls |
| ChangeHandling.DispatchFailsOnContextHook | lucy_notes_manager/change_handler.py:88-90 | one selected module whose hook takes `(ctx, system)` makes the event fail |
| ChangeHandling.DeletedAsWritten | lucy_notes_manager/change_handler.py:105-107 | no modules, no calls; modules without stored args fail; with stored args it succeeds exactly when every `deleted` hook fits |
| ChangeHandling.DeletedFailsWithGit | lucy_notes_manager/modules/git.py:910-921 | with the registered modules, any deletion fails once the git module is in the pipeline |
| ChangeHandling.DispatchFailsWithRenamer | lucy_notes_manager/modules/renamer.py:98-109 | with the registered modules, every event that reaches the renamer fails |
| ChangeHandling.RegisteredModules | lucy_notes_manager/change_handler.py:23 | the modules of the registration pairs, in registration order |
| ChangeHandling.PipelineOrderSorted | lucy_notes_manager/change_handler.py:23 | the pipeline holds every registered module as often as registered, in ascending number, registration order among equal numbers |
| ChangeHandling.PipelineOrderStable | lucy_notes_manager/change_handler.py:23 | the stable sort's own order witnesses the ordering and stability |
| ChangeHandling.SelectedStep | lucy_notes_manager/change_handler.py:84-86 | one turn of the loop adds the module's name exactly when it is not skipped |
| ChangeHandling.ChangeHandler.constructor | lucy_notes_manager/change_handler.py:18-35 | modules in pipeline order; args stored only when given; empty ignore set |
| ChangeHandling.ChangeHandler.MarkToIgnore | lucy_notes_manager/change_handler.py:37-42 | the path is added to the set (so marking twice is marking once) and the result is false |
| ChangeHandling.ChangeHandler.CheckAndDeleteIgnore | lucy_notes_manager/change_handler.py:44-51 | true exactly when the path was marked, and the mark is removed, so one mark suppresses one event |
| ChangeHandling.ChangeHandler.ProcessFile | lucy_notes_manager/change_handler.py:53-94 | the repaired handler (see Findings): dropped events change nothing; a marked path uses up its mark and calls nothing; otherwise the selected modules run with the merged args and the path is marked exactly when some module reported a change |
| ChangeHandling.ChangeHandler.RunModules | lucy_notes_manager/change_handler.py:84-94 | repaired, every hook accepting the call: the modules called are the selected ones; the path is marked exactly when one of them reported a change |
| ChangeHandling.ChangeHandler.RunModule | lucy_notes_manager/change_handler.py:85-94 | repaired, every hook accepting the call; one turn: the module is called unless skipped, and the mark follows whether any call so far reported a change |
| ChangeHandling.ChangeHandler.OnDeleted | lucy_notes_manager/change_handler.py:105-107 | repaired, missing args read as empty and every hook accepting the call: every module's `deleted` hook runs, in pipeline order, with the stored module args |
| FileHandling.Bumped | lucy_notes_manager/file_handler.py:63-79 | the path's counter becomes old+delta, or disappears (count 0) at zero or below; other paths are untouched; all-positive ledgers stay all-positive |
| FileHandling.Checked | lucy_notes_manager/file_handler.py:54-61 | the event is swallowed exactly when the path's count is positive, and then the count drops by one; otherwise the ledger is unchanged |
| FileHandling.CheckRun | lucy_notes_manager/file_handler.py:54-61 | the answers of n successive checks, one per check |
| FileHandling.CheckRunSwallowsExactlyCount | lucy_notes_manager/file_handler.py:54-79 | a path with count k has exactly its next k events swallowed |
| FileHandling.MarkThenChecks | lucy_notes_manager/file_handler.py:37-61 | after marking a path k more times, exactly its next count+k events are swallowed |
| FileHandling.MarkedAll | lucy_notes_manager/file_handler.py:49-52 | each listed path's count moves by its returned count (dropped at zero or below), other paths keep theirs; positivity is kept |
| FileHandling.FileHandler.constructor | lucy_notes_manager/file_handler.py:13-18 | an empty ledger |
| FileHandling.FileHandler.BumpIgnore | lucy_notes_manager/file_handler.py:63-79 | returns the new count, or 0 with the key removed; the ledger becomes `Bumped`, and every stored count stays positive |
| FileHandling.FileHandler.CheckAndDeleteIgnore | lucy_notes_manager/file_handler.py:54-61 | true exactly when the path had a positive count, which then drops by one; false leaves the ledger unchanged |
| FileHandling.FileHandler.MarkToIgnore | lucy_notes_manager/file_handler.py:49-52 | each returned count is added to its path; other paths are untouched |
| FileHandling.FileHandler.ProcessFile | lucy_notes_manager/file_handler.py:20-47 | dropped events change nothing; a moved event checks its source first and its destination only when the source was not swallowed; the pipeline runs only when nothing was swallowed, and its counts are then added |
| FileHandling.LedgerExtensional | lucy_notes_manager/file_handler.py:63-79 | two all-positive ledgers with the same counts are equal |
| FileHandling.MarkNothing | lucy_notes_manager/file_handler.py:44-45 | marking with an empty result changes nothing, so the `if ignore_paths` guard changes nothing |
| FileHandling.MovedConsumesAtMostOne | lucy_notes_manager/file_handler.py:30-34 | when the source swallows a moved event, the destination's counter is untouched |
| Paths.Basename | lucy_notes_manager/change_handler.py:54 | the base name has no "/" and ends the path |
| Paths.BasenameAfterLastSlash | lucy_notes_manager/change_handler.py:54 | the base name is everything after the last "/": it is the whole path or is preceded by a "/", and a path without "/" is its own base name |
| Paths.Dirname | lucy_notes_manager/modules/renamer.py:41 | the directory part is a prefix of the path, empty exactly when the path has no "/"; only slashes lie between it and the base name, so it is the head up to the last "/" with trailing slashes removed, and it ends in "/" only when it is that whole head made of slashes alone |
| Paths.JoinPath | lucy_notes_manager/modules/renamer.py:42 | the joined path ends with its last part |
| Paths.LastDot | lucy_notes_manager/modules/todo_formatter.py:30 | the last "." of a name, with no "." after it, and none exactly when the name has no "." |
| Paths.LastDotIs | lucy_notes_manager/modules/todo_formatter.py:30 | a "." with no "." after it is the last one |
| Paths.SplitExt | lucy_notes_manager/modules/todo_formatter.py:30 | the two parts concatenate to the name; the extension is empty or one "." and what follows it |
| Paths.LeadingSlashes | lucy_notes_manager/modules/renamer.py:42 | `normpath` keeps at most two leading slashes, and some exactly when the path is absolute |
| Paths.NormPartsSnoc | lucy_notes_manager/modules/renamer.py:42 | the part loop of `normpath` is a left fold: one more part is one more step |
| Paths.NormPartsPlain | lucy_notes_manager/modules/renamer.py:42 | parts that are not empty, "." or ".." pass through `normpath` unchanged |
| Paths.NormPartsStayPlain | lucy_notes_manager/modules/renamer.py:42 | on an absolute path `normpath` keeps no empty, "." or ".." part |
| Paths.NormpathOfClean | lucy_notes_manager/modules/renamer.py:42 | `abspath` leaves "/" followed by plain parts as it is |
| Paths.NormpathIsClean | lucy_notes_manager/modules/renamer.py:42 | `abspath` of a path with one (or three or more) leading slashes is "/" followed by plain parts |
| Paths.NormpathIdempotent | lucy_notes_manager/modules/renamer.py:42 | `abspath` applied twice is `abspath` applied once |
| Paths.NormpathShape | lucy_notes_manager/modules/renamer.py:42 | an absolute path normalises to its leading slashes and kept parts, and ends in "/" only when it is all slashes |
| Paths.NormpathJoinPlain | lucy_notes_manager/modules/renamer.py:42 | normalising after joining a plain name is joining it after normalising |
| Paths.JoinPlainParts | lucy_notes_manager/modules/renamer.py:42 | joining a plain name to an absolute directory adds that name to its kept parts and keeps its leading slashes |
| Paths.JoinPathRelative | lucy_notes_manager/modules/renamer.py:42 | `os.path.join` with a relative part puts one "/" between unless the head is empty or ends with one |
| Paths.DirnameAbsolute | lucy_notes_manager/modules/renamer.py:41 | the directory part of an absolute path is absolute |
| ModuleManagement.ParseItem | lucy_notes_manager/module_manager.py:51-71 | an item is refused for a missing "=" exactly when it has none; every refusal names the item; an accepted name is non-empty and starts with no blank |
| ModuleManagement.ParseItemRoundTrip | lucy_notes_manager/module_manager.py:57-71 | `name=number` reads back as that name and number |
| ModuleManagement.ParseItems | lucy_notes_manager/module_manager.py:50-51 | one outcome per item, in list order |
| ModuleManagement.AccumulatePrefix | lucy_notes_manager/module_manager.py:50-71 | the fold over one more item is one more step of the loop |
| ModuleManagement.ParsePriorityList | lucy_notes_manager/module_manager.py:40-73 | the loop returns the folded map, or raises the first refused item's error |
| ModuleManagement.AccumulateFailurePersists | lucy_notes_manager/module_manager.py:52-69 | once an item raises, the rest of the list cannot change the outcome |
| ModuleManagement.AccumulateAccepts | lucy_notes_manager/module_manager.py:50-73 | a list is accepted exactly when every item is |
| ModuleManagement.AccumulateFirstError | lucy_notes_manager/module_manager.py:52-69 | a refused list reports its first refused item |
| ModuleManagement.AccumulateNames | lucy_notes_manager/module_manager.py:71 | the names of an accepted map are exactly the names the items give |
| ModuleManagement.AccumulateLastWins | lucy_notes_manager/module_manager.py:71 | a name repeated in the list keeps its last priority |
| ModuleManagement.SortKeys | lucy_notes_manager/module_manager.py:26 | one key per module: the override for a named module, its own priority otherwise |
| ModuleManagement.PriorityOrderSorted | lucy_notes_manager/module_manager.py:25-26 | the pipeline is a permutation of the modules, ascending by key, with equal keys in registration order |
| ModuleManagement.PriorityOrderStable | lucy_notes_manager/module_manager.py:25-26 | the ascending and stable halves of the sort, through an explicit index order |
| ModuleManagement.ModuleTemplatesSplit | lucy_notes_manager/module_manager.py:13-21 | each module's template rows sit, in module order, between those of the modules before and after it |
| ModuleManagement.ModuleManager.constructor | lucy_notes_manager/module_manager.py:11-23 | the template is the four manager flags followed by every module's template, and the config is the parse of the startup args |
| ModuleManagement.ModuleManager.SortModules | lucy_notes_manager/module_manager.py:25-26 | the modules are replaced by their priority order |
| ModuleManagement.ModuleManager.Create | lucy_notes_manager/module_manager.py:11-26 | construction fails exactly when the `--priority` list is refused, with its error; otherwise the manager holds the template, the config and the sorted modules |
| SysModule.NormalizeArgName | lucy_notes_manager/modules/sys.py:66-71 | a blank name normalises to ""; a normalised name has no blank at either end and no upper-case letter |
| SysModule.NormalizeFlagName | lucy_notes_manager/modules/sys.py:66-71 | a plain lower-case name normalises to itself, and so does its flag `--name` |
| SysModule.NonEmptyOnly | lucy_notes_manager/modules/sys.py:92 | exactly the non-empty names are kept |
| SysModule.NormalizeAll | lucy_notes_manager/modules/sys.py:91 | each request is normalised in place |
| SysModule.Select | lucy_notes_manager/modules/sys.py:96-107 | one line per selected position and no other: the line of the i-th position sits right after those of the selected positions before it, so only the selected lines are kept, in order; nothing is left exactly when nothing is selected |
| SysModule.MatchFlags | lucy_notes_manager/modules/sys.py:99-102 | a row matches exactly when its dash-less flag or its destination, lower-cased, is requested |
| SysModule.MatchedLines | lucy_notes_manager/modules/sys.py:96-107 | exactly the matching rows' full lines, one per matching row, in template order; none exactly when no row matches |
| SysModule.OrNoArgs | lucy_notes_manager/modules/sys.py:78 | a non-empty listing is returned as it is, an empty one becomes the single no-args line |
| SysModule.ManOneLines | lucy_notes_manager/modules/sys.py:90-112 | no names gives the missing-name line; when some row matches, exactly the matching rows' full lines in template order; no match gives one unknown-arg line naming the requests |
| SysModule.ManLines | lucy_notes_manager/modules/sys.py:114-129 | no request gives the missing-mode line; "list" and "full" give every row's short or full line, or the no-args line; any other first request looks up the normalised requests by name |
| SysModule.ManFindsFlag | lucy_notes_manager/modules/sys.py:99-107 | `--man todo` and `--man --todo` both print the `--todo` row's manual line |
| SysModule.PartLines | lucy_notes_manager/modules/sys.py:151-197 | each section of the report ends with a blank line |
| SysModule.PartsLines | lucy_notes_manager/modules/sys.py:151-197 | the sections together end with a blank line |
| SysModule.Block | lucy_notes_manager/modules/sys.py:131-199 | a report block has at least two lines and ends with a blank line |
| SysModule.BlockOpens | lucy_notes_manager/modules/sys.py:140-149 | the block opens with the title of the selected options in fixed order, then the time when the event is shown, else a blank line |
| SysModule.ManRequestsStep | lucy_notes_manager/modules/sys.py:229-235 | one more `(value, line)` pair appends at most that value to that line's requests |
| SysModule.RequestsStep | lucy_notes_manager/modules/sys.py:229-235 | one pass of the `zip` loop keeps every line's recorded requests equal to the reference |
| SysModule.CollectFlags | lucy_notes_manager/modules/sys.py:206-224 | the four boolean options are grouped by line, in the order the source adds them |
| SysModule.CollectMan | lucy_notes_manager/modules/sys.py:226-235 | every `--man` pair adds `man` to its line, and each line's requests are its asking values, stripped, in order |
| SysModule.ManPair | lucy_notes_manager/modules/sys.py:229-235 | one pass of the `zip` loop keeps the groups and the requests equal to their references |
| SysModule.RecordRequest | lucy_notes_manager/modules/sys.py:232-235 | a value that is not None and not blank is appended, stripped, to its line; any other value changes nothing |
| SysModule.Collect | lucy_notes_manager/modules/sys.py:202-235 | the groups hold every occurrence, flags before `--man`, and the requests match the reference per line |
| SysModule.SitesFor | lucy_notes_manager/modules/sys.py:249-261 | one site per key, each holding that line's block and flags |
| SysModule.SitesAtKeys | lucy_notes_manager/modules/sys.py:249-253 | each site sits at its key |
| SysModule.SysSites | lucy_notes_manager/modules/sys.py:249-261 | every site of a run has a non-empty block |
| SysModule.SiteAt | lucy_notes_manager/modules/sys.py:250-261 | the site built from the recorded requests is the reference site |
| SysModule.BuildSite | lucy_notes_manager/modules/sys.py:250-261 | the block built for the `j`-th line from the bottom is the reference site |
| SysModule.SpliceLines | lucy_notes_manager/modules/sys.py:249-287 | the bottom-up loop gives the reference splice of every site |
| SysModule.Apply | lucy_notes_manager/modules/sys.py:201-292 | None exactly when no option is set; otherwise the spliced note and one event to swallow for it |
| SysModule.SysBottomUp | lucy_notes_manager/modules/sys.py:249-287 | when every flag names a line of the note, the bottom-up loop equals replacing each named original line by its piece |
| SysInfo.PartLines | lucy_notes_manager/modules/sys_info.py:60-104 | each section of the report ends with a blank line |
| SysInfo.PartsLines | lucy_notes_manager/modules/sys_info.py:60-104 | the sections together end with a blank line |
| SysInfo.Block | lucy_notes_manager/modules/sys_info.py:40-106 | a report block has at least two lines and ends with a blank line |
| SysInfo.BlockOpens | lucy_notes_manager/modules/sys_info.py:43-58 | the block opens with its title (a single option names itself), then the time when the event is shown, else a blank line |
| SysInfo.Collect | lucy_notes_manager/modules/sys_info.py:122-134 | the occurrences of the four options are grouped by line, in `key_to_opt` order |
| SysInfo.SitesFor | lucy_notes_manager/modules/sys_info.py:153-158 | one site per key, each holding that line's block and flags |
| SysInfo.SitesAtKeys | lucy_notes_manager/modules/sys_info.py:153-154 | each site sits at its key |
| SysInfo.InfoSites | lucy_notes_manager/modules/sys_info.py:153-158 | every site of a run has a non-empty block |
| SysInfo.BuildSite | lucy_notes_manager/modules/sys_info.py:154-158 | the block built for the `j`-th line from the bottom is the reference site |
| SysInfo.SpliceLines | lucy_notes_manager/modules/sys_info.py:151-205 | the bottom-up loop gives the reference splice, and the least first rewritten line |
| SysInfo.Apply | lucy_notes_manager/modules/sys_info.py:108-215 | None exactly when no option is set; otherwise the spliced note, written with one event to swallow, or handed to the slow writer from the first rewritten line |
| SysInfo.InfoBottomUp | lucy_notes_manager/modules/sys_info.py:153-203 | when every flag names a line of the note, the loop equals replacing each named original line by its piece |
| SysInfo.InfoSitesBottomUp | lucy_notes_manager/modules/sys_info.py:153 | the sites of a run come bottom-up when every flag names a line of the note |
| SysInfo.InfoTop | lucy_notes_manager/modules/sys_info.py:151-205 | with no flag on line 1, the slow writer starts at the highest flagged line, and every line above it is the original text |
| SysInfo.LowestTop | lucy_notes_manager/modules/sys_info.py:153 | the last site handled sits at the lowest line any occurrence names |
| Reports.Dests | lucy_notes_manager/modules/sys_info.py:36 | each row's destination is its flag without leading dashes, `-` read as `_` |
| Reports.AssignKeys | lucy_notes_manager/modules/sys_info.py:34-38 | a name is in the defaults map exactly when some row gives it |
| Reports.AssignLast | lucy_notes_manager/modules/sys_info.py:34-38 | a later row with the same destination overrides an earlier one |
| Reports.DefaultsMapSpec | lucy_notes_manager/modules/sys.py:50-54 | a name has a default exactly when some row has that destination, and the last such row's default is kept |
| Reports.TitlePartsSpec | lucy_notes_manager/modules/sys.py:140-142 | an option is in the title exactly when it is in the order and selected |
| Reports.TitlePartsOnly | lucy_notes_manager/modules/sys.py:141 | a single selected option is the only part of its title |
| Reports.InfoTitleSingle | lucy_notes_manager/modules/sys_info.py:43-48 | for the options the module selects, the single-option rule agrees with the ordered join |
| Reports.ModLines | lucy_notes_manager/modules/sys.py:155-158 | one `* name (priority)` line per module, in pipeline order |
| Reports.ListLines | lucy_notes_manager/modules/sys.py:73-78 | one `* flag type=… default=…` line per row, in template order |
| Reports.FullLines | lucy_notes_manager/modules/sys.py:80-88 | one full manual line per row, in template order |
| Reports.DiffKeys | lucy_notes_manager/modules/sys.py:168-173 | a key is printed exactly when it is set and not at its default |
| Reports.DiffKeysIncreasing | lucy_notes_manager/modules/sys.py:168 | filtering keeps the sorted order |
| Reports.PrintedKeysSpec | lucy_notes_manager/modules/sys.py:164-188 | the config section prints exactly the keys not at their default, keys with no row always, in sorted order |
| Reports.IntStrings | lucy_notes_manager/modules/sys.py:176 | each line number written in decimal |
| Reports.ConfigSection | lucy_notes_manager/modules/sys.py:164-188 | one line per printed key in order, or the no-differences line, then a blank line |
| Reports.EndsBlankAppend | lucy_notes_manager/modules/sys.py:151-197 | sections each closed by a blank line stay closed when joined |
| Reports.Section | lucy_notes_manager/modules/sys.py:151-162 | a section that is printed ends with a blank line |
| Reports.Closed | lucy_notes_manager/modules/sys.py:164-197 | a section bringing its own blank line still ends with one |
| Reports.ConfigSectionCloses | lucy_notes_manager/modules/sys.py:188 | the config section ends with a blank line |
| Reports.Opening | lucy_notes_manager/modules/sys.py:144-149 | the title line, then the time or a blank line, ending with a blank line |
| Reports.Assemble | lucy_notes_manager/modules/sys.py:144-199 | the block keeps the opening's first two lines and ends with a blank line |
| Grouping.AddTo | lucy_notes_manager/modules/sys.py:206-208 | adding one occurrence keeps every line listed once and in both maps |
| Grouping.AddAll | lucy_notes_manager/modules/sys.py:210-224 | a run of occurrences keeps the groups well formed |
| Grouping.AddAllStep | lucy_notes_manager/modules/sys.py:206-208 | adding one more occurrence to a run is one more `add_option` |
| Grouping.Grouped | lucy_notes_manager/modules/sys.py:202-204 | the groups of a run, from empty dicts, are well formed |
| Grouping.AddAllAppend | lucy_notes_manager/modules/sys.py:210-235 | adding two runs one after the other is adding their concatenation |
| Grouping.AddOption | lucy_notes_manager/modules/sys.py:206-208 | `add_option` adds the option to its line's set and appends the flag to its line's list |
| Grouping.AddEach | lucy_notes_manager/modules/sys_info.py:126-134 | the loop over the occurrences builds the reference groups |
| Grouping.GroupedEmpty | lucy_notes_manager/modules/sys.py:237-238 | there are no lines exactly when there were no occurrences |
| Grouping.GroupedSpec | lucy_notes_manager/modules/sys_info.py:122-134 | a line is a key exactly when an occurrence names it; its options are exactly its occurrences' options and its flags their flags in order |
| Grouping.GroupedFlags | lucy_notes_manager/modules/sys_info.py:134 | a key's flags are its occurrences' flags in order |
| Grouping.GroupedHas | lucy_notes_manager/modules/sys_info.py:133 | every line an occurrence names is a key |
| Grouping.FlagsAtAbsent | lucy_notes_manager/modules/sys_info.py:134 | a line no occurrence names has no flags |
| Grouping.DistinctCount | lucy_notes_manager/modules/sys.py:249 | a key occurs once among the keys |
| Grouping.AdjacentTwice | lucy_notes_manager/modules/sys.py:249 | two equal neighbours occur twice |
| Grouping.SortedKeysStrict | lucy_notes_manager/modules/sys.py:249 | the keys sorted in reverse fall strictly |
| Grouping.SortedKeysRising | lucy_notes_manager/modules/cmd.py:73 | the keys sorted ascending rise strictly |
| Grouping.KeysBottomUp | lucy_notes_manager/modules/sys.py:249-250 | when every occurrence names a line of the file, so do the sorted keys, and they fall strictly |
| Grouping.GroupedBottomUp | lucy_notes_manager/modules/sys.py:249 | the sites of the sorted keys run strictly from the bottom of the note up |
| Grouping.DescendingLast | lucy_notes_manager/modules/sys_info.py:153 | a descending list ends with its least element |
| Grouping.LowestKey | lucy_notes_manager/modules/sys_info.py:153 | the last key handled is the lowest line any occurrence names |
| Grouping.Occurrences | lucy_notes_manager/modules/sys.py:211-212 | one occurrence per recorded line, in order |
| Grouping.AddFlag | lucy_notes_manager/modules/sys.py:210-212 | the loop of one boolean option adds its occurrences only when its value is truthy |
| Splice.ClampIndex | lucy_notes_manager/modules/sys.py:250 | the index is in the file; a line number in the file maps to its index, one before the file to 0, one past it to the last line |
| Splice.NonEmpty | lucy_notes_manager/modules/sys.py:246-247 | an empty file reads as one line, and any other file as itself |
| Splice.Piece | lucy_notes_manager/modules/sys.py:263-287 | what replaces a line always holds the whole block |
| Splice.SpliceSite | lucy_notes_manager/modules/sys.py:263-287 | the file keeps every line before and after the clamped index, and that line becomes its piece |
| Splice.SpliceAll | lucy_notes_manager/modules/sys.py:249-287 | the file never becomes empty |
| Splice.BottomUpWithin | lucy_notes_manager/modules/sys.py:249-250 | bottom-up sites all name lines of the file |
| Splice.WithinMonotone | lucy_notes_manager/modules/sys.py:250 | sites within a shorter file are within a longer one |
| Splice.SpliceAllPrefix | lucy_notes_manager/modules/sys.py:263-287 | a splice inside a prefix leaves the rest of the file as it was |
| Splice.SiteInPrefix | lucy_notes_manager/modules/sys.py:263-287 | one site inside a prefix splices that prefix alone, and never shortens it |
| Splice.BottomUpSplice | lucy_notes_manager/modules/sys.py:249-287 | splicing from the bottom line up equals replacing each named original line by its piece: no site sees a line another site moved |
| Splice.SpliceAllFirst | lucy_notes_manager/modules/sys.py:249-287 | the first site of a loop splices its own line first |
| Splice.DescendingBottomUp | lucy_notes_manager/modules/sys.py:249 | sites at strictly falling lines of the file are bottom-up |
| Splice.KeyedBottomUp | lucy_notes_manager/modules/sys.py:249 | sites at strictly falling keys within the file are bottom-up |
| Splice.KeepsBelow | lucy_notes_manager/modules/sys.py:283-287 | everything below the lowest site is the original text |
| Splice.KeepsAbove | lucy_notes_manager/modules/sys_info.py:205-210 | everything above the highest site is the original text |
| Splice.BlocksSuffix | lucy_notes_manager/modules/sys.py:249 | the remaining sites of a loop all have a block |
| Splice.AllBlocksNonEmpty | lucy_notes_manager/modules/sys.py:255-261 | sites whose every block has a line satisfy the loop's requirement |
| Splice.SpliceAllStep | lucy_notes_manager/modules/sys.py:249-287 | one pass of the loop splices one site, then the rest |
| Splice.SpliceLoopStep | lucy_notes_manager/modules/sys.py:249-287 | the loop's invariant carries over one site |
| Splice.StartLineSpec | lucy_notes_manager/modules/sys_info.py:183-198 | the recorded start line is where the inserted text sits in the spliced file |
| Splice.SpliceAt | lucy_notes_manager/modules/sys_info.py:160-203 | the list edits of one site give the reference splice and the reference start line |
| Splice.SpliceLine | lucy_notes_manager/modules/sys.py:283-287 | a line other than line 1 becomes the block, then its cleaned text when not blank |
| Splice.MinWith | lucy_notes_manager/modules/sys_info.py:184-188 | the result is the lesser of the new start and the one so far |
| Splice.MinFromStep | lucy_notes_manager/modules/sys_info.py:151-203 | the loop's least start line carries over one site |
| Splice.MinFromTop | lucy_notes_manager/modules/sys_info.py:190-203 | for bottom-up sites off line 1, the least start line is the highest site's line |
| Splice.BottomUpTopAbove | lucy_notes_manager/modules/sys_info.py:153 | the first of bottom-up sites lies at or below every later one |
| Splice.BottomUpMonotone | lucy_notes_manager/modules/sys_info.py:153 | bottom-up sites within a shorter file are bottom-up within a longer one |
| Splice.FromLineTop | lucy_notes_manager/modules/sys_info.py:151-210 | the rewrite of bottom-up sites off line 1 starts at the highest site's line, and everything above it is unchanged |
| Splice.WithinLast | lucy_notes_manager/modules/sys_info.py:154 | the last site names a line of the file |
| Cmd.TokenAdds | lucy_notes_manager/modules/cmd.py:58-70 | the `zip` of `--c`'s values with their lines, each token on its line; nothing when the values are missing, empty or not a list, or no line was recorded |
| Cmd.NonEmptyTokens | lucy_notes_manager/modules/cmd.py:74 | exactly the non-empty tokens are kept |
| Cmd.SortedKeysKnown | lucy_notes_manager/modules/cmd.py:73 | every sorted line is a key of the grouping |
| Cmd.CollectRuns | lucy_notes_manager/modules/cmd.py:57-78 | the loops of `_collect_runs` give the reference runs |
| Cmd.RunsOverFacts | lucy_notes_manager/modules/cmd.py:72-76 | each run is a key with its non-empty tokens, at least one |
| Cmd.RunsOverCovers | lucy_notes_manager/modules/cmd.py:74-76 | every key with a non-empty token gives a run |
| Cmd.RunsOverRising | lucy_notes_manager/modules/cmd.py:73 | rising keys give rising runs |
| Cmd.TokensOnSome | lucy_notes_manager/modules/cmd.py:69-70 | a line holding a token was named by an occurrence |
| Cmd.CollectedRunsRising | lucy_notes_manager/modules/cmd.py:73 | the runs rise strictly by line |
| Cmd.CollectedRunsTokens | lucy_notes_manager/modules/cmd.py:68-76 | each run holds exactly the non-empty tokens written on its line, in order, at least one |
| Cmd.CollectedRunsCover | lucy_notes_manager/modules/cmd.py:73-76 | every line holding a non-empty token gives a run |
| Cmd.CollectedRunsNone | lucy_notes_manager/modules/cmd.py:61-65 | missing, empty or non-list values, or no recorded lines, give no runs |
| Cmd.RunLinesRecorded | lucy_notes_manager/modules/cmd.py:69-70 | every run's line is a line `--c` was recorded on |
| Cmd.Utf8Len | lucy_notes_manager/modules/cmd.py:93 | a code point takes one to four bytes |
| Cmd.EncodedLenAppend | lucy_notes_manager/modules/cmd.py:93 | the encoding of a concatenation is the two encodings together |
| Cmd.FitCount | lucy_notes_manager/modules/cmd.py:96 | the longest prefix whose encoding fits the budget |
| Cmd.ClipSpec | lucy_notes_manager/modules/cmd.py:90-96 | no budget gives ""; text that fits is kept; otherwise the longest fitting prefix, a replacement character exactly when the cut is inside a character, and the marker, ending with a newline |
| Cmd.Terminated | lucy_notes_manager/modules/cmd.py:148-150 | the clipped text, then a newline line only when it lacks one, so the last line ends with a newline |
| Cmd.Layout | lucy_notes_manager/modules/cmd.py:140-165 | the block opens with its title and ends with a blank line |
| Cmd.Block | lucy_notes_manager/modules/cmd.py:130-165 | the block opens with its title and ends with a blank line |
| Cmd.AppendClipped | lucy_notes_manager/modules/cmd.py:148-150 | the clipped text is appended, then a newline when it lacks one |
| Cmd.BuildBlock | lucy_notes_manager/modules/cmd.py:130-165 | the list appends of `_build_block` give the reference block |
| Cmd.AppendOut | lucy_notes_manager/modules/cmd.py:147-151 | stdout is appended when it is shown and not empty, and `wrote_any` says whether it was |
| Cmd.AppendErr | lucy_notes_manager/modules/cmd.py:153-159 | stderr is appended when shown and not empty, after a blank line exactly when stdout came before and its last line is not blank |
| Cmd.CloseBlock | lucy_notes_manager/modules/cmd.py:161-165 | "(empty)" when nothing was written, then the closing blank line |
| Cmd.BlockSpec | lucy_notes_manager/modules/cmd.py:130-165 | title first, closing blank line last; "(empty)" alone when nothing is shown; stdout right after the title, stderr right before the end, parted by a blank line exactly when stdout's last line is not blank |
| Cmd.IntSetting | lucy_notes_manager/modules/cmd.py:175-181 | a falsy setting gives the default; a set integer gives itself and `True` gives 1; a set string gives the value `int()` parses, and fails exactly when it is not an optional sign and a digit group inside whitespace; a set list gives its first item's integer, failing exactly when that has none; a float fails; a failure names the setting |
| Cmd.IntSettingReadsPrinted | lucy_notes_manager/modules/cmd.py:175-181 | a setting holding the decimal text of an integer, alone or as a list's first item, reads back as that integer |
| Cmd.RunSite | lucy_notes_manager/modules/cmd.py:198-217 | a run's site is at its line, has a block, and removes `--c` |
| Cmd.CmdSites | lucy_notes_manager/modules/cmd.py:198 | one site per run, the last run's first |
| Cmd.Apply | lucy_notes_manager/modules/cmd.py:170-229 | the statements of `_apply` give the reference outcome |
| Cmd.SpliceRuns | lucy_notes_manager/modules/cmd.py:198-224 | the loop gives the reference splice of every run's site, last line first |
| Cmd.BuildSite | lucy_notes_manager/modules/cmd.py:202-217 | the command is run and its block built as the reference site |
| Cmd.OnEvent | lucy_notes_manager/modules/cmd.py:234-245 | a deleted note gives nothing; every other event applies the runs |
| Cmd.CmdBottomUp | lucy_notes_manager/modules/cmd.py:197-224 | when every `--c` sits on a line of the note, the loop equals replacing each run's original line by its block and leftover text |
| Cmd.ReversedBottomUp | lucy_notes_manager/modules/cmd.py:198 | rising runs taken in reverse give bottom-up sites |
| Cmd.OutcomeSpec | lucy_notes_manager/modules/cmd.py:170-229 | it fails exactly when there are runs and a setting is not an integer; it writes exactly when there are runs, the settings read and the note exists, naming the note once |
| Banner.SepLineOfStripped | lucy_notes_manager/modules/banner.py:31-32 | a stripped separator gets exactly one newline at its end |
| Banner.AsciiBanner | lucy_notes_manager/modules/banner.py:43 | the rendered banner with its trailing newlines replaced by exactly one |
| Banner.InsertBanner | lucy_notes_manager/modules/banner.py:41-65 | the list edits give the reference note with the banner in |
| Banner.BanneredFrame | lucy_notes_manager/modules/banner.py:41-65 | only the target line changes: on a later line the banner takes its place, followed by its leftover text when any; on line 1 the cleaned text or a blank line, the separator and the banner come before the original rest |
| Banner.Apply | lucy_notes_manager/modules/banner.py:22-71 | nothing for a falsy banner value; the raised error for a missing or unindexable setting, a missing line record or a missing note; otherwise the bannered note and its path |
| Banner.NoBannerNoChange | lucy_notes_manager/modules/banner.py:23-25 | a falsy banner value asks for nothing |
| Banner.RequestText | lucy_notes_manager/modules/banner.py:27-34 | "date" stands for today; the separator line is the stripped separator and one newline; the line is the first one `--banner` was written on |
| BannerInserter.AsciiText | lucy_notes_manager/modules/banner_inserter.py:48 | the rendered banner with its trailing whitespace replaced by exactly one newline |
| BannerInserter.Inserted | lucy_notes_manager/modules/banner_inserter.py:52-57 | with two or more lines the block takes the second line's place; one line is extended; an empty note becomes a blank line and the block |
| BannerInserter.InsertedReplacesSecondLine | lucy_notes_manager/modules/banner_inserter.py:52-53 | with two or more lines the insertion loses exactly the second line: with it put back, the result holds the note and the block |
| BannerInserter.CleanFirst | lucy_notes_manager/modules/banner_inserter.py:60-62 | the cleaned first line ends with exactly one newline |
| BannerInserter.Rewrite | lucy_notes_manager/modules/banner_inserter.py:47-62 | the list edits of `modified` give the reference rewrite |
| BannerInserter.RewrittenFrame | lucy_notes_manager/modules/banner_inserter.py:47-62 | the cleaned first line, then the block, then the lines from the third on; two lines longer, or four lines for a note of at most one line |
| BannerInserter.RewrittenIs | lucy_notes_manager/modules/banner_inserter.py:52-62 | the rewrite is the cleaned first line, the block and the rest |
| BannerInserter.HeadUpdate | lucy_notes_manager/modules/banner_inserter.py:62 | overwriting the first line keeps the rest |
| BannerInserter.FrameParts | lucy_notes_manager/modules/banner_inserter.py:52-62 | the rewrite's parts sit at lines 0, 1 to 3, and 4 on |
| BannerInserter.Modified | lucy_notes_manager/modules/banner_inserter.py:17-73 | the reference outcome; a rewrite names the event's source path and grows the note by two lines (to four for a note of at most one line) |
| BannerInserter.RewriteKeepsBanner | lucy_notes_manager/modules/banner_inserter.py:52-53 | a second run over the hook's own output keeps everything from the old banner on |
| BannerInserter.NoBannerNoChange | lucy_notes_manager/modules/banner_inserter.py:31-33 | an absent or falsy `--banner` leaves the note alone |
| TodoFormatter.SpaceEnd | lucy_notes_manager/modules/todo_formatter.py:45 | the end of the run of whitespace from a position |
| TodoFormatter.NewlineAt | lucy_notes_manager/modules/todo_formatter.py:45 | the first newline from a position, where `.` stops |
| TodoFormatter.Backtrack | lucy_notes_manager/modules/todo_formatter.py:45 | `\s+` backtracks from its longest run to the first length after which the lookahead and `.+$` match, or fails when none does |
| TodoFormatter.MatchSound | lucy_notes_manager/modules/todo_formatter.py:45 | every match is a split of the line of the pattern's shape, with the groups it names |
| TodoFormatter.MatchComplete | lucy_notes_manager/modules/todo_formatter.py:45 | every split of the pattern's shape makes the pattern match with the same indent, the content starting no earlier |
| TodoFormatter.ContentStart | lucy_notes_manager/modules/todo_formatter.py:45 | the content the backtracking settles on runs to the end of the shape's content |
| TodoFormatter.MatchOf | lucy_notes_manager/modules/todo_formatter.py:45 | the groups are the whitespace before the dash and the rest of the line from the content start |
| TodoFormatter.TailOfMatch | lucy_notes_manager/modules/todo_formatter.py:45 | the shape's content start is inside the whitespace run and passes the lookahead |
| TodoFormatter.SpaceEndOf | lucy_notes_manager/modules/todo_formatter.py:45 | the whitespace run ends at the first non-blank |
| TodoFormatter.SpaceEndPast | lucy_notes_manager/modules/todo_formatter.py:45 | the whitespace run reaches past any all-blank stretch |
| TodoFormatter.NewlineAtPast | lucy_notes_manager/modules/todo_formatter.py:45 | the first newline lies past any newline-free stretch |
| TodoFormatter.NewlineAtSkips | lucy_notes_manager/modules/todo_formatter.py:45 | searching from a later point before the newline finds the same newline |
| TodoFormatter.BacktrackFinds | lucy_notes_manager/modules/todo_formatter.py:45 | the backtracking succeeds when any length matches |
| TodoFormatter.GapBeforeBox | lucy_notes_manager/modules/todo_formatter.py:45 | with two or more blanks between the dash and a checkbox the line is an item whose content starts at the last blank, because `\s+` gives one back |
| TodoFormatter.NoMatchAfterBox | lucy_notes_manager/modules/todo_formatter.py:43-45 | a dash, one space and a checkbox never match |
| TodoFormatter.BoxesDoNotMatch | lucy_notes_manager/modules/todo_formatter.py:43-45 | open and ticked checkboxes are never rewritten |
| TodoFormatter.NewlineLen | lucy_notes_manager/modules/todo_formatter.py:51-59 | the break taken off is never longer than the line |
| TodoFormatter.NewlineCases | lucy_notes_manager/modules/todo_formatter.py:50-59 | the break is "", "\n" or "\r\n", and the line is its body and its break |
| TodoFormatter.RewrittenIsBox | lucy_notes_manager/modules/todo_formatter.py:61-67 | a rewritten line is a checkbox, so the pattern no longer matches it |
| TodoFormatter.BoxedBody | lucy_notes_manager/modules/todo_formatter.py:67 | without its break, a rewritten line still opens with its indent, "- " and a box |
| TodoFormatter.NewlineOfAppend | lucy_notes_manager/modules/todo_formatter.py:51-56 | the break taken off a line with a known break is no longer than that break and one character |
| TodoFormatter.RewriteLineIdempotent | lucy_notes_manager/modules/todo_formatter.py:49-68 | rewriting a rewritten line changes nothing |
| TodoFormatter.Converted | lucy_notes_manager/modules/todo_formatter.py:47-68 | each line is rewritten on its own, and the count is kept |
| TodoFormatter.ConvertLine | lucy_notes_manager/modules/todo_formatter.py:50-71 | one turn gives the rewritten line, and marks a change exactly when it differs |
| TodoFormatter.ConvertToChecklist | lucy_notes_manager/modules/todo_formatter.py:47-71 | the loop gives the converted lines, and `changed` is set exactly when they differ from the original |
| TodoFormatter.ChecklistStep | lucy_notes_manager/modules/todo_formatter.py:49-71 | one turn keeps the loop's two invariants |
| TodoFormatter.AppendEqual | lucy_notes_manager/modules/todo_formatter.py:70-71 | two equal-length lists with one more line each are equal exactly when both parts are |
| TodoFormatter.ConvertedIdempotent | lucy_notes_manager/modules/todo_formatter.py:47-68 | converting converted lines changes nothing |
| TodoFormatter.ConvertFile | lucy_notes_manager/modules/todo_formatter.py:16-82 | the statements of the hook give the reference outcome |
| TodoFormatter.OnEvent | lucy_notes_manager/modules/todo_formatter.py:16-24 | created and modified convert; the other events do nothing |
| TodoFormatter.OutcomeLines | lucy_notes_manager/modules/todo_formatter.py:40-82 | the written note has the same lines, each rewritten, and the result names the note |
| TodoFormatter.OutcomeIdempotent | lucy_notes_manager/modules/todo_formatter.py:73-74 | a second run over the written note finds nothing to change |
| TodoFormatter.RewriteSplices | lucy_notes_manager/modules/todo_formatter.py:61-67 | on a whole line, the rewrite puts "- [ ] " in place of the dash and the whitespace after it, and keeps the rest, its break included |
| TodoFormatter.SpliceOfMatch | lucy_notes_manager/modules/todo_formatter.py:61-67 | the rebuilt line is the original with the dash and its whitespace replaced |
| TodoFormatter.SplicedKeepsLine | lucy_notes_manager/modules/todo_formatter.py:67 | the splice keeps the line's first and last characters and its break, with no break before it |
| TodoFormatter.RewriteKeepsLine | lucy_notes_manager/modules/todo_formatter.py:49-68 | a rewritten line keeps its first and last characters and its break, with no break before it |
| TodoFormatter.ConvertedWellSplit | lucy_notes_manager/modules/todo_formatter.py:40-68 | the converted lines of a split note are still the lines of one note |
| Renamer.Renamed | lucy_notes_manager/modules/renamer.py:51 | a rename names both paths |
| Renamer.ManualName | lucy_notes_manager/modules/renamer.py:29-35 | a falsy value asks for nothing; the error is exactly a truthy value that cannot be indexed; an indexable truthy value asks for its stripped first item exactly when that is non-empty, and for nothing otherwise |
| Renamer.Manual | lucy_notes_manager/modules/renamer.py:28-53 | the error is exactly the name's; a rename happens exactly when a name is asked for, the note is no directory, the target differs from it and is free, and the rename succeeds; it then names both paths |
| Renamer.RenamedLedger | lucy_notes_manager/modules/renamer.py:51 | a rename swallows exactly one event on each of two paths |
| Renamer.TargetInSameDirectory | lucy_notes_manager/modules/renamer.py:41-42 | for an absolute note, a plain name lands in the note's normalised directory under that name |
| Renamer.DotPrefixIgnored | lucy_notes_manager/modules/renamer.py:42 | `--r ./x` and `--r x` target the same path, because `abspath` drops the "." part |
| Renamer.JoinInDirectory | lucy_notes_manager/modules/renamer.py:41-42 | joined to a directory that ends in "/" only when it is all slashes, a plain name is the base name and the directory is the directory part |
| Renamer.LastSlashOfJoin | lucy_notes_manager/modules/renamer.py:42 | the last slash of a join sits right before the plain name |
| Renamer.AfterLastSlashPlain | lucy_notes_manager/modules/renamer.py:42 | after a slash-ended prefix, a slash-free name starts the base name |
| Renamer.RStripOneSlash | lucy_notes_manager/modules/renamer.py:41 | a directory name not ending in a slash is given back by stripping the one the join added |
| Renamer.ExtOfName | lucy_notes_manager/modules/renamer.py:67-72 | the extension asked for is ".txt" or ".md" |
| Renamer.AutoExt | lucy_notes_manager/modules/renamer.py:63-72 | the extension a note's stem asks for is ".txt" or ".md" |
| Renamer.AutoTarget | lucy_notes_manager/modules/renamer.py:78-87 | "DD-MM.ext" when free; else "HHMM-DD-MM.ext" when free; else nothing; a target given is always free |
| Renamer.Auto | lucy_notes_manager/modules/renamer.py:55-96 | a rename happens only when asked, for a file whose stem names an extension, to a free target other than the note, and the rename succeeds; otherwise one of those fails |
| Renamer.Created | lucy_notes_manager/modules/renamer.py:98-103 | a manual error or rename wins; the automatic rename runs only when the manual one did nothing |
| Renamer.OnEvent | lucy_notes_manager/modules/renamer.py:98-109 | deleted does nothing; modified and moved run the manual rename |
| Renamer.RenameTargetsAreFree | lucy_notes_manager/modules/renamer.py:28-109 | every rename lands on a free path other than the note, and names both |
| Renamer.StemOfBare | lucy_notes_manager/modules/renamer.py:63-65 | a name with no slash or dot is its own stem, in lower case |
| Renamer.BareSplit | lucy_notes_manager/modules/renamer.py:64 | a name with no slash or dot has no extension |
| Renamer.StemNameOf | lucy_notes_manager/modules/renamer.py:65 | a stripped stem is compared in lower case |
| Renamer.StemOfDotted | lucy_notes_manager/modules/renamer.py:63-65 | a name with one extension compares by its stem, in lower case |
| Renamer.DottedSplit | lucy_notes_manager/modules/renamer.py:64 | a name with one extension splits at its dot |
| Renamer.LastDotOfDotted | lucy_notes_manager/modules/renamer.py:64 | the extension's dot is the last one |
| Renamer.NoSlashBasename | lucy_notes_manager/modules/renamer.py:63 | a path without a slash is its own base name |
| Renamer.NoSlashStart | lucy_notes_manager/modules/renamer.py:63 | a path without a slash has its base name start at 0 |
| Renamer.AutoExtOfBare | lucy_notes_manager/modules/renamer.py:63-72 | a note without an extension asks for the extension its lower-case name names |
| Renamer.AutoExtOfDotted | lucy_notes_manager/modules/renamer.py:63-72 | a note with one extension asks for the extension its lower-case stem names |
| BlankLines.BlankIffStripped | lucy_notes_manager/modules/plasma_sync.py:102 | a line is blank exactly when it strips to nothing |
| BlankLines.SkipBlanks | lucy_notes_manager/modules/plasma_sync.py:101-103 | the lines from the first non-blank one on; everything skipped is blank |
| BlankLines.Gap | lucy_notes_manager/modules/plasma_sync.py:125-134 | no blank line exactly between a line ending in ":" and an item, or between two items; one empty line otherwise |
| BlankLines.SettledBlankIsEmpty | lucy_notes_manager/modules/plasma_sync.py:134 | every blank line of normalised text is empty |
| BlankLines.TailSettled | lucy_notes_manager/modules/plasma_sync.py:108-135 | the rest of the loop's output is normalised: no blank line at its start, no two together, none where the list rules forbid one |
| BlankLines.SettledAfter | lucy_notes_manager/modules/plasma_sync.py:111-115 | a non-blank line in front of normalised text keeps it normalised |
| BlankLines.SettledGap | lucy_notes_manager/modules/plasma_sync.py:128-134 | the kept empty line in front of normalised text keeps it normalised |
| BlankLines.TailTrimmed | lucy_notes_manager/modules/plasma_sync.py:121-122 | the loop's output never ends with a blank line |
| BlankLines.TailFrom | lucy_notes_manager/modules/plasma_sync.py:108-135 | every output line is an empty line or a line of the input |
| BlankLines.LineFrom | lucy_notes_manager/modules/plasma_sync.py:111-115 | a non-blank line passes through unchanged |
| BlankLines.RunFrom | lucy_notes_manager/modules/plasma_sync.py:117-135 | a run of blank lines contributes at most one empty line |
| BlankLines.PartsFrom | lucy_notes_manager/modules/plasma_sync.py:117-135 | the gap, the next line and the rest come from the input |
| BlankLines.NormalizeShape | lucy_notes_manager/modules/plasma_sync.py:87-140 | the normalised lines have no blank line at either end, no two blank lines together, none between list lines, and only input lines and empty lines |
| BlankLines.SettledTail | lucy_notes_manager/modules/plasma_sync.py:108-135 | already normalised lines pass through the loop unchanged |
| BlankLines.NormalizeIdempotent | lucy_notes_manager/modules/plasma_sync.py:87-140 | normalising twice is normalising once |
| BlankLines.NonBlanksAppend | lucy_notes_manager/modules/plasma_sync.py:111 | the non-blank lines of two parts are those of each, in order |
| BlankLines.NonBlanksSkip | lucy_notes_manager/modules/plasma_sync.py:101-103 | skipping blank lines drops no non-blank one |
| BlankLines.NonBlanksLine | lucy_notes_manager/modules/plasma_sync.py:111-113 | a non-blank line is kept in front |
| BlankLines.TailKeeps | lucy_notes_manager/modules/plasma_sync.py:108-135 | the loop keeps every non-blank line, in order |
| BlankLines.LineKeeps | lucy_notes_manager/modules/plasma_sync.py:111-115 | one non-blank step keeps the non-blank lines |
| BlankLines.RunKeeps | lucy_notes_manager/modules/plasma_sync.py:117-135 | one run of blank lines keeps the non-blank lines |
| BlankLines.GapKeeps | lucy_notes_manager/modules/plasma_sync.py:134 | the gap adds no non-blank line |
| BlankLines.NormalizeKeepsContent | lucy_notes_manager/modules/plasma_sync.py:87-140 | normalising keeps exactly the non-blank lines, in order |
| BlankLines.Widen | lucy_notes_manager/modules/plasma_sync.py:117-134 | widening only adds empty lines and keeps a non-empty last line last |
| BlankLines.WidenTail | lucy_notes_manager/modules/plasma_sync.py:117-135 | the loop collapses the widened runs back to the normalised lines |
| BlankLines.NormalizeWiden | lucy_notes_manager/modules/plasma_sync.py:87-140 | every normalised text is what the loop makes of a text with more blank lines: normalisation is onto its own shape |
| BlankLines.WidenLine | lucy_notes_manager/modules/plasma_sync.py:111-115 | widening passes a non-blank line through the loop |
| BlankLines.WidenEmpty | lucy_notes_manager/modules/plasma_sync.py:117-119 | a widened empty line is two empty lines |
| BlankLines.GapOfWidened | lucy_notes_manager/modules/plasma_sync.py:128-134 | two empty lines before a line that needs a gap collapse to one |
| BlankLines.Blanks | lucy_notes_manager/modules/plasma_sync.py:134 | exactly `count` lines, all empty |
| BlankLines.SkipBlankStep | lucy_notes_manager/modules/plasma_sync.py:102-103 | skipping one blank line does not change where the skip ends |
| BlankLines.FirstNonBlank | lucy_notes_manager/modules/plasma_sync.py:101-103 | the first loop stops at the first non-blank line |
| BlankLines.SkipRun | lucy_notes_manager/modules/plasma_sync.py:117-119 | the inner loop stops at the next non-blank line |
| BlankLines.NormalizeLines | lucy_notes_manager/modules/plasma_sync.py:101-138 | the loops give the reference normalised lines |
| BlankLines.NormalizeKept | lucy_notes_manager/modules/plasma_sync.py:137-138 | the final pop loop leaves normalised lines alone |
| BlankLines.Emit | lucy_notes_manager/modules/plasma_sync.py:108-135 | one pass of the main loop keeps its invariant and stops only when the output is complete |
| BlankLines.BlankRun | lucy_notes_manager/modules/plasma_sync.py:117-134 | a run of blank lines is skipped, and the gap chosen for the next line is the reference gap |
| BlankLines.LineStep | lucy_notes_manager/modules/plasma_sync.py:111-115 | a non-blank line is appended and becomes the last non-blank line |
| BlankLines.RunAtEnd | lucy_notes_manager/modules/plasma_sync.py:121-122 | a run of blank lines at the end adds nothing |
| BlankLines.GapStep | lucy_notes_manager/modules/plasma_sync.py:124-135 | a run of blank lines followed by a line adds the gap |
| BlankLines.TailOfLine | lucy_notes_manager/modules/plasma_sync.py:111-115 | the loop over a non-blank first line keeps it and moves on |
| BlankLines.TailOfRun | lucy_notes_manager/modules/plasma_sync.py:117-135 | the loop over a blank run puts the gap before the next line |
| BlankLines.SeqAssoc | lucy_notes_manager/modules/plasma_sync.py:134 | appending is associative |
| BlankLines.BlanksOfKeep | lucy_notes_manager/modules/plasma_sync.py:128-134 | `keep_blank_count` empty lines are the reference gap |
| BlankLines.RStripBlanks | lucy_notes_manager/modules/plasma_sync.py:137-138 | trailing blank lines dropped and nothing else |
| BlankLines.TrimmedKept | lucy_notes_manager/modules/plasma_sync.py:137-138 | lines with no trailing blank line are left alone |
| BlankLines.DropTrailingBlanks | lucy_notes_manager/modules/plasma_sync.py:137-138 | the pop loop drops exactly the trailing blank lines |
| BlankLines.CrLfToLf | lucy_notes_manager/modules/plasma_sync.py:97 | text without "\r" is left alone |
| BlankLines.CrToLf | lucy_notes_manager/modules/plasma_sync.py:97 | every "\r" becomes "\n", and nothing else changes |
| BlankLines.UnifyBreaks | lucy_notes_manager/modules/plasma_sync.py:97 | no "\r" is left, and text without one is left alone |
| BlankLines.NormalizeText | lucy_notes_manager/modules/plasma_sync.py:87-140 | the statements give the reference normalised text |
| BlankLines.JoinWithout | lucy_notes_manager/modules/plasma_sync.py:140 | a character in no part and not in the separator is not in the join |
| BlankLines.NormalizedLines | lucy_notes_manager/modules/plasma_sync.py:87-140 | the normalised text's lines are the normalised lines |
| BlankLines.NormalizedTextIdempotent | lucy_notes_manager/modules/plasma_sync.py:87-140 | normalising normalised text changes nothing |
| Lines.BreakIsSpace | lucy_notes_manager/modules/todo_formatter.py:40 | every line break is whitespace |
| Lines.FirstBreak | lucy_notes_manager/modules/todo_formatter.py:40 | the first line break from a position |
| Lines.LineEnd | lucy_notes_manager/modules/todo_formatter.py:40 | a non-empty text's first line is non-empty |
| Lines.BreakLen | lucy_notes_manager/modules/todo_formatter.py:51-59 | the line's break, with a break character at the end when there is one |
| Lines.LineEndBefore | lucy_notes_manager/modules/todo_formatter.py:40 | a whole line followed by more text is cut right after it |
| Lines.FirstBreakSkips | lucy_notes_manager/modules/todo_formatter.py:40 | the first break is where a break-free stretch ends |
| Lines.ConcatSplit | lucy_notes_manager/modules/todo_formatter.py:40 | the cut lines join back to the text |
| Lines.SplitWellSplit | lucy_notes_manager/modules/todo_formatter.py:40 | the cut lines each end with their only break, the last one possibly with none |
| Lines.FirstLineWhole | lucy_notes_manager/modules/todo_formatter.py:40 | the first cut line is a whole line of the text |
| Lines.SplitConcat | lucy_notes_manager/modules/todo_formatter.py:40 | lines of that shape are exactly what a cut of their join gives back |
| Lines.MapLines | lucy_notes_manager/modules/todo_formatter.py:49-68 | each line mapped on its own, and the count kept |
| Lines.MapWellSplit | lucy_notes_manager/modules/todo_formatter.py:40-78 | a rewrite that keeps each line's first and last characters and its break keeps the lines of one note |
| Lines.WellSplitWhole | lucy_notes_manager/modules/todo_formatter.py:40 | every cut line is whole |
| Lines.LinesOf | lucy_notes_manager/modules/plasma_sync.py:98 | `splitlines()`: one line per cut line, none holding a break |
| Lines.SplitFirstLine | lucy_notes_manager/modules/todo_formatter.py:40 | a text starting with a whole line cuts into that line and the cut of the rest |
| Lines.MapCons | lucy_notes_manager/modules/todo_formatter.py:49-68 | mapping a first line and the rest |
| Lines.LinesOfJoin | lucy_notes_manager/modules/plasma_sync.py:98-140 | `"\n".join` of break-free lines, the last non-empty, splits back into those lines |
| Lines.LastLine | lucy_notes_manager/modules/plasma_sync.py:98 | a break-free non-empty text is one line |
| Lines.FirstLine | lucy_notes_manager/modules/plasma_sync.py:98 | a break-free line and "\n" in front of a text give that line, then the text's lines |
| Text.LStrip | lucy_notes_manager/module_manager.py:57-59 | the blank prefix dropped, and nothing else |
| Text.LStripStep | lucy_notes_manager/module_manager.py:57-59 | dropping one leading blank keeps the strip's properties |
| Text.RStrip | lucy_notes_manager/module_manager.py:57-59 | the blank suffix dropped, and nothing else |
| Text.Strip | lucy_notes_manager/module_manager.py:57-59 | empty exactly for a blank text; otherwise no blank at either end |
| Text.StripSlice | lucy_notes_manager/module_manager.py:57-59 | the stripped text is a slice of the input with only whitespace before and after it |
| Text.StripOf | lucy_notes_manager/module_manager.py:57-59 | for any text without whitespace at its ends, wrapped in any whitespace, `strip` gives exactly that text back |
| Text.LStripChar | lucy_notes_manager/lib/args.py:35 | the leading run of one character dropped, and nothing else |
| Text.RStripChar | lucy_notes_manager/modules/banner.py:43 | the trailing run of one character dropped, and nothing else |
| Text.Lower | lucy_notes_manager/modules/todo_formatter.py:30 | ASCII letters lower-cased in place |
| Text.FindChar | lucy_notes_manager/module_manager.py:57 | the first occurrence of a character, or none exactly when it does not occur |
| Text.SplitOnce | lucy_notes_manager/module_manager.py:57 | `split(c, 1)`: the parts around the first occurrence, or none exactly when it does not occur |
| Text.FindCharOf | lucy_notes_manager/module_manager.py:57 | the first occurrence is the one after a text that lacks the character |
| Text.SplitOnceOf | lucy_notes_manager/module_manager.py:57 | splitting at a first occurrence gives back the two parts |
| Text.SplitJoin | lucy_notes_manager/module_manager.py:57 | splitting a join on a character no part holds gives back the parts |
| Text.BeforeFirst | lucy_notes_manager/module_manager.py:57 | a prefix with no occurrence of the character, the whole text when it has none |
| Text.Split | lucy_notes_manager/module_manager.py:57 | at least one part, none holding the separator |
| Text.Words | lucy_notes_manager/lib/args.py:60 | stands in for `shlex.split` without quoting: non-empty words with no whitespace |
| Text.WordsKeepNonSpaces | lucy_notes_manager/lib/args.py:60 | the words put back together are the text with its whitespace taken out: no other character is dropped, added or moved |
| Text.WordsCons | lucy_notes_manager/lib/args.py:60 | whitespace separates words: a word between whitespace (or the ends) is split off whole as the first word |
| Text.WordsOfJoin | lucy_notes_manager/lib/args.py:60 | words joined by single spaces split back into exactly those words |
| Text.WordEnd | lucy_notes_manager/lib/args.py:57 | the end of the word from a position |
| Text.DigitChar | lucy_notes_manager/module_manager.py:64-69 | a digit character |
| Text.NatToString | lucy_notes_manager/module_manager.py:64-69 | decimal digits, at least one |
| Text.ParseInt | lucy_notes_manager/module_manager.py:64-69 | `int(s)` accepts exactly the texts whose stripped form is an optional sign and a digit group, so never blank text |
| Text.ParseIntOf | lucy_notes_manager/module_manager.py:64-69 | whitespace, an optional "+" or "-", a digit group and whitespace read as the group's value, negated after "-" |
| Text.ParseSigned | lucy_notes_manager/module_manager.py:64-69 | a signed number is never empty |
| Text.NatToStringValue | lucy_notes_manager/module_manager.py:64-69 | the digits written for a number read back as it |
| Text.LetterNotSpace | lucy_notes_manager/modules/todo_formatter.py:45 | a letter is not whitespace |
| Text.StripKeeps | lucy_notes_manager/module_manager.py:57-59 | a text with no blank at either end strips to itself |
| Text.DigitsAreGroup | lucy_notes_manager/module_manager.py:64-69 | a run of digits is a digit group `int()` accepts |
| Text.ParseIntRoundTrip | lucy_notes_manager/module_manager.py:64-69 | `int(str(i)) == i` for every integer |
| Html.StyleOf | lucy_notes_manager/modules/plasma_sync.py:328-333 | a non-empty result is the value of some attribute named "style" in any case; with no such attribute carrying a value the result is "" |
| Html.FindStyle | lucy_notes_manager/modules/plasma_sync.py:328-333 | the attribute loop stops at the first "style" attribute with a value and returns that value, else "" |
| Sorting.StrLtIrreflexive | lucy_notes_manager/modules/git.py:275 | no string sorts before itself under Python's `<` on `str` |
| Sorting.StrLtTotal | lucy_notes_manager/modules/git.py:275 | of two different strings one sorts before the other |
| Sorting.StrLtAsymmetric | lucy_notes_manager/modules/git.py:275 | two strings never sort before each other |
| Sorting.StrLtTransitive | lucy_notes_manager/modules/git.py:275 | the order on strings is transitive |
| Sorting.LeastExists | lucy_notes_manager/modules/plasma_todo_sync.py:339 | every non-empty set of names has an element sorting before all the others |
| Sorting.LeastUnique | lucy_notes_manager/modules/plasma_todo_sync.py:339 | that least element is unique |
| Sorting.Least | lucy_notes_manager/modules/plasma_todo_sync.py:339 | the first entry of `sorted(...)`: it belongs to the set and sorts before every other element |
| Sorting.SortedStrings | lucy_notes_manager/modules/git.py:275 | `sorted` of a set of strings: exactly the set's elements, each once, in strictly increasing order |
| Sorting.InsertDescending | lucy_notes_manager/modules/sys.py:249 | inserting into a descending list keeps it descending and adds exactly the new element |
| Sorting.SortDescending | lucy_notes_manager/modules/sys.py:249 | `sorted(keys, reverse=True)`: a descending permutation of the keys |
| Sorting.InsertAscending | lucy_notes_manager/modules/cmd.py:73 | inserting into an ascending list keeps it ascending and adds exactly the new element |
| Sorting.SortAscending | lucy_notes_manager/modules/cmd.py:73 | `sorted(keys)`: an ascending permutation of the keys |
| Sorting.Insert | lucy_notes_manager/module_manager.py:26 | inserting a position into an ordering adds exactly that position and keeps every position in range |
| Sorting.InsertInOrder | lucy_notes_manager/module_manager.py:26 | inserting a new position keeps positions ordered by key, and by original position among equal keys |
| Sorting.StableOrder | lucy_notes_manager/module_manager.py:26 | the positions `0..n-1`, each once, ordered by key and by original position among equal keys |
| Sorting.StableSortByKey | lucy_notes_manager/module_manager.py:26 | `list.sort(key=...)` keeps the number of items |
| Sorting.StableSortCorrect | lucy_notes_manager/module_manager.py:26 | the sorted list is the items at a permutation of their positions, with keys ascending and equal keys in original order (Python's sort is stable) |
| Sorting.PickPermutation | lucy_notes_manager/module_manager.py:26 | two orderings of the same positions pick the same multiset of items |
| Sorting.StableSortPermutes | lucy_notes_manager/module_manager.py:26 | the stable sort only reorders: every item is kept as often as it occurs |
| PlasmaHtml.Flushed | lucy_notes_manager/modules/plasma_sync.py:237-240 | the open block's text is added to the lines exactly when a block is open and has text |
| PlasmaHtml.PlasmaParser.constructor | lucy_notes_manager/modules/plasma_sync.py:168-173 | a new parser is outside the body and any block, with no current text and no lines |
| PlasmaHtml.PlasmaParser.HandleStartTag | lucy_notes_manager/modules/plasma_sync.py:175-198 | with the tag lower-cased: `<body>` enters the body; outside it nothing changes; `<p>`/`<li>` flushes an open block's text and opens a block with empty text; `<br>` in a block appends a line break; other tags change nothing |
| PlasmaHtml.PlasmaParser.HandleEndTag | lucy_notes_manager/modules/plasma_sync.py:200-219 | `</body>` flushes an open block's text and leaves body and block; outside the body nothing changes; `</p>`/`</li>` adds the current text (empty if none) as a line and closes the block |
| PlasmaHtml.PlasmaParser.HandleData | lucy_notes_manager/modules/plasma_sync.py:221-235 | outside the body nothing changes; whitespace-only data between blocks or before a block's first text is dropped; other data is appended to the current text |
| PlasmaHtml.PlasmaParser.Handle | lucy_notes_manager/modules/plasma_sync.py:175-235 | each event reaches its handler and changes the state as that handler does |
| PlasmaHtml.PlasmaParser.Feed | lucy_notes_manager/modules/plasma_sync.py:175-235 | feeding events leaves the state that handling them one by one, in order, produces |
| PlasmaHtml.PlasmaParser.GetText | lucy_notes_manager/modules/plasma_sync.py:237-242 | returns the lines, with an open block's text flushed, joined by "\n"; afterwards no block is open and the flushed lines are kept |
| PlasmaHtml.HtmlToText | lucy_notes_manager/modules/plasma_sync.py:245-248 | the text of a fresh parser fed the document, normalised by `_normalize_text` |
| PlasmaHtml.RunAppend | lucy_notes_manager/modules/plasma_sync.py:175-235 | feeding two event lists one after the other is feeding their concatenation |
| PlasmaHtml.RunIdle | lucy_notes_manager/modules/plasma_sync.py:175-235 | events that each leave a state unchanged leave it unchanged together |
| PlasmaHtml.HeaderOpensBody | lucy_notes_manager/modules/plasma_sync.py:254-266 | the written header leaves the reader in the body, outside any block, with nothing read |
| PlasmaHtml.PreludeIdle | lucy_notes_manager/modules/plasma_sync.py:254-264 | nothing of the header before `<body>`, the style sheet included, is read |
| PlasmaHtml.BodyOpens | lucy_notes_manager/modules/plasma_sync.py:265-266 | `<body>` and the line break after it open the body with nothing read |
| PlasmaHtml.TextParagraphRead | lucy_notes_manager/modules/plasma_sync.py:276-278 | a paragraph holding a non-blank line, and the line break after it, add exactly that line |
| PlasmaHtml.EmptyParagraphRead | lucy_notes_manager/modules/plasma_sync.py:279-282 | an empty paragraph's `<br />` adds the line "\n" |
| PlasmaHtml.ParagraphRead | lucy_notes_manager/modules/plasma_sync.py:274-282 | a settled line's paragraph adds the line, or "\n" for an empty line |
| PlasmaHtml.ParagraphsRead | lucy_notes_manager/modules/plasma_sync.py:274-284 | the paragraphs of settled lines add what the reader keeps of each line, in order |
| PlasmaHtml.FooterCloses | lucy_notes_manager/modules/plasma_sync.py:284 | `</body></html>` closes the body and adds nothing |
| PlasmaHtml.JoinBlockTexts | lucy_notes_manager/modules/plasma_sync.py:279-282 | joining the kept texts, where an empty line became "\n", is joining the lines with each empty line doubled |
| PlasmaHtml.ReadBack | lucy_notes_manager/modules/plasma_sync.py:237-248 | the line breaks of the read-back text give exactly the doubled lines |
| PlasmaHtml.DocumentRead | lucy_notes_manager/modules/plasma_sync.py:237-284 | the reader's text for the document of settled lines is what it keeps of each line joined by "\n" |
| PlasmaHtml.RoundTrip | lucy_notes_manager/modules/plasma_sync.py:245-284 | reading back the document `_text_to_plasma_html` writes for a text gives the normalised text: nothing of header, separators or footer becomes content |
| BoldStyle.RemoveChar | lucy_notes_manager/modules/plasma_sync.py:291 | `s.replace(c, "")`: the character no longer occurs, nothing is added, and a string without it is unchanged |
| BoldStyle.Squeezed | lucy_notes_manager/modules/plasma_sync.py:291 | the lower-cased style holds no space |
| BoldStyle.LastIndex | lucy_notes_manager/modules/plasma_sync.py:296 | `rfind`: an occurrence of the key when there is one, and no occurrence starts after it |
| BoldStyle.ContainsOccurs | lucy_notes_manager/modules/plasma_sync.py:292-294 | `sub in s` holds exactly when `sub` occurs at some index |
| BoldStyle.LastIndexFinds | lucy_notes_manager/modules/plasma_sync.py:294-296 | `rfind` finds an index exactly when the key is in the style |
| BoldStyle.StyleIsBold | lucy_notes_manager/modules/plasma_sync.py:290-302 | a style is bold exactly when its squeezed form holds "font-weight:bold", or the integer after its last "font-weight:" (up to ";") parses and is at least 600 |
| BoldStyle.NoWeightNotBold | lucy_notes_manager/modules/plasma_sync.py:302 | a style without "font-weight:" is never bold |
| BoldParser.Decremented | lucy_notes_manager/modules/plasma_sync.py:345 | `max(0, depth - 1)`: one less, never negative |
| BoldParser.PushStyle | lucy_notes_manager/modules/plasma_sync.py:328-337 | the flag goes on top of the tag's stack; the depth grows by one exactly when the flag is bold |
| BoldParser.PopStyle | lucy_notes_manager/modules/plasma_sync.py:339-345 | an empty stack changes nothing; otherwise its top is removed, and the depth falls by at most one and stays non-negative |
| BoldParser.Append | lucy_notes_manager/modules/plasma_sync.py:323-326 | empty text changes nothing; other text goes at the end of the last line, bold exactly when the depth is positive |
| BoldParser.OnStart | lucy_notes_manager/modules/plasma_sync.py:347-379 | a start tag keeps the depth non-negative, a line to append to and a stack per block tag |
| BoldParser.OnEnd | lucy_notes_manager/modules/plasma_sync.py:381-407 | an end tag keeps the same invariant |
| BoldParser.OnData | lucy_notes_manager/modules/plasma_sync.py:409-414 | data keeps the same invariant |
| BoldParser.Run | lucy_notes_manager/modules/plasma_sync.py:347-414 | feeding any events keeps the invariant; in particular the bold depth never goes negative |
| BoldParser.BoldAwareParser.constructor | lucy_notes_manager/modules/plasma_sync.py:311-318 | outside the body, depth 0, no span flags, empty stacks for p, li and font, one empty line |
| BoldParser.BoldAwareParser.PushTagStyle | lucy_notes_manager/modules/plasma_sync.py:328-337 | the flag pushed is whether the first "style" attribute is bold |
| BoldParser.BoldAwareParser.PushFlag | lucy_notes_manager/modules/plasma_sync.py:334-337 | the flag goes on the tag's stack and a bold flag opens a bold level |
| BoldParser.BoldAwareParser.PopTagStyle | lucy_notes_manager/modules/plasma_sync.py:339-345 | the new state is the pop of the tag's stack |
| BoldParser.BoldAwareParser.HandleStartTag | lucy_notes_manager/modules/plasma_sync.py:347-379 | the new state is the start-tag step of the old |
| BoldParser.BoldAwareParser.HandleEndTag | lucy_notes_manager/modules/plasma_sync.py:381-407 | the new state is the end-tag step of the old |
| BoldParser.BoldAwareParser.HandleData | lucy_notes_manager/modules/plasma_sync.py:409-414 | the new state is the data step of the old |
| BoldParser.BoldAwareParser.GetLines | lucy_notes_manager/modules/plasma_sync.py:416-451 | the lines merged, trimmed of blank lines at both ends, runs of blank lines collapsed to one |
| BoldParser.BoldAwareParser.Feed | lucy_notes_manager/modules/plasma_sync.py:347-414 | after the events the state is their fold, and the invariant holds |
| BoldParser.Weighted | lucy_notes_manager/modules/plasma_sync.py:416-427 | one weighted character per character of the text |
| BoldParser.WeightedAppend | lucy_notes_manager/modules/plasma_sync.py:424-425 | weighing two texts of one weight together is weighing them one after the other |
| BoldParser.AppendFrag | lucy_notes_manager/modules/plasma_sync.py:426-427 | a fragment appended adds its weighted characters and its text |
| BoldParser.MergeWell | lucy_notes_manager/modules/plasma_sync.py:418-427 | a merged line has no empty fragment and no two neighbouring fragments of one weight |
| BoldParser.JoinLast | lucy_notes_manager/modules/plasma_sync.py:424-425 | text joined onto the last fragment adds its characters with that fragment's weight |
| BoldParser.MergeOneKeeps | lucy_notes_manager/modules/plasma_sync.py:420-427 | one merge step adds exactly the fragment's characters, weights and text |
| BoldParser.MergeKeeps | lucy_notes_manager/modules/plasma_sync.py:418-427 | merging keeps every character with its weight, and so the line's text |
| BoldParser.MergeSettled | lucy_notes_manager/modules/plasma_sync.py:418-427 | a line already merged is left as it is |
| BoldParser.MergeIdempotent | lucy_notes_manager/modules/plasma_sync.py:418-427 | merging twice is merging once |
| BoldParser.MergeAll | lucy_notes_manager/modules/plasma_sync.py:417-427 | every line merged, the number of lines kept |
| BoldParser.DropLeading | lucy_notes_manager/modules/plasma_sync.py:432-435 | a suffix of the lines that does not start blank, everything dropped being blank |
| BoldParser.DropTrailing | lucy_notes_manager/modules/plasma_sync.py:437-440 | a prefix of the lines that does not end blank, everything dropped being blank |
| BoldParser.CollapseEnds | lucy_notes_manager/modules/plasma_sync.py:442-449 | collapsing keeps the last line when it is not blank, and the first unless it follows a blank one |
| BoldParser.CollapseSingles | lucy_notes_manager/modules/plasma_sync.py:442-449 | after collapsing no two neighbouring lines are blank |
| BoldParser.CollapseSolid | lucy_notes_manager/modules/plasma_sync.py:442-449 | collapsing keeps every non-blank line, in order |
| BoldParser.DropLeadingSolid | lucy_notes_manager/modules/plasma_sync.py:432-435 | dropping leading blank lines keeps every non-blank line |
| BoldParser.SolidAppend | lucy_notes_manager/modules/plasma_sync.py:432-440 | the non-blank lines of a concatenation are those of its parts |
| BoldParser.DropTrailingSolid | lucy_notes_manager/modules/plasma_sync.py:437-440 | dropping trailing blank lines keeps every non-blank line |
| BoldParser.MergedLinesWell | lucy_notes_manager/modules/plasma_sync.py:416-451 | every line `get_lines` returns is merged |
| BoldParser.MergedLinesEnds | lucy_notes_manager/modules/plasma_sync.py:416-451 | the lines `get_lines` returns neither start nor end with a blank line |
| BoldParser.MergedLinesShape | lucy_notes_manager/modules/plasma_sync.py:416-451 | `get_lines`: every line merged, no blank line first or last, no two blank lines side by side, every non-blank merged line kept in order |
| BoldParser.CollapseFrom | lucy_notes_manager/modules/plasma_sync.py:442-449 | every line collapsing keeps is one of its input |
| BoldParser.MergeBlank | lucy_notes_manager/modules/plasma_sync.py:429-440 | merging a line does not change whether it is blank |
| BoldParser.MergeLine | lucy_notes_manager/modules/plasma_sync.py:419-427 | the merge loop for one line computes the merged line |
| BoldParser.IsBlankLine | lucy_notes_manager/modules/plasma_sync.py:429-430 | true exactly when the line's text is blank |
| BoldParser.SkipLeading | lucy_notes_manager/modules/plasma_sync.py:432-435 | the loop drops exactly the leading blank lines |
| BoldParser.SkipTrailing | lucy_notes_manager/modules/plasma_sync.py:437-440 | the loop drops exactly the trailing blank lines |
| BoldParser.CollapseBlanks | lucy_notes_manager/modules/plasma_sync.py:442-449 | the loop keeps only the first of each run of blank lines |
| BoldParser.HtmlToBoldLines | lucy_notes_manager/modules/plasma_sync.py:454-457 | the lines `get_lines` returns for a fresh reader fed the document |
| BoldRuns.BoldPrefix | lucy_notes_manager/modules/plasma_sync.py:557-559 | the length of the line's leading bold fragments: all of them bold, and the next one, if any, plain |
| BoldRuns.BoldPrefixIs | lucy_notes_manager/modules/plasma_sync.py:557-559 | any bold prefix followed by the end or a plain fragment is that length |
| BoldRuns.Texts | lucy_notes_manager/modules/plasma_sync.py:558 | one text per fragment |
| BoldRuns.TextsAppend | lucy_notes_manager/modules/plasma_sync.py:558 | the texts of a line with a fragment appended end with that fragment's text |
| BoldRuns.Bolded | lucy_notes_manager/modules/plasma_sync.py:470-473 | each text as a bold fragment, in order |
| BoldRuns.BoldedTexts | lucy_notes_manager/modules/plasma_sync.py:470-473 | an all-bold line is its texts, bolded |
| BoldRuns.TextsAt | lucy_notes_manager/modules/plasma_sync.py:558 | the i-th text is the i-th fragment's text |
| BoldRuns.PiecesSpread | lucy_notes_manager/modules/plasma_sync.py:466-484 | cutting a line into plain fragments and bold runs loses nothing: the pieces spread back to the line |
| BoldRuns.PiecesMaximal | lucy_notes_manager/modules/plasma_sync.py:466-484 | every run has at least one fragment and no run follows another, so each run is a whole maximal bold stretch |
| BoldRuns.RunItem | lucy_notes_manager/modules/plasma_sync.py:476-478 | a run gives at most one item |
| BoldRuns.RunItemClean | lucy_notes_manager/modules/plasma_sync.py:476-478 | a run's item is non-empty and has no whitespace at either end |
| BoldRuns.PieceItemsClean | lucy_notes_manager/modules/plasma_sync.py:466-484 | every item of a line is non-empty and stripped |
| BoldRuns.ItemsClean | lucy_notes_manager/modules/plasma_sync.py:465-486 | every extracted item is non-empty and stripped |
| BoldRuns.ScanRun | lucy_notes_manager/modules/plasma_sync.py:470-484 | with a run open, the loop emits that run extended by the bold prefix, then the items of the rest of the line |
| BoldRuns.RunGrows | lucy_notes_manager/modules/plasma_sync.py:471-473 | a bold fragment in front joins the open run |
| BoldRuns.ScanPieces | lucy_notes_manager/modules/plasma_sync.py:468-484 | the per-line loop emits exactly the items of the line's maximal bold runs, in order |
| BoldRuns.LineItems | lucy_notes_manager/modules/plasma_sync.py:468-484 | the loop over one line returns the items of its bold runs |
| BoldRuns.Feed | lucy_notes_manager/modules/plasma_sync.py:470-480 | one turn of the loop keeps the items still to come: a bold fragment extends the run, a plain one closes it |
| BoldRuns.ExtractBoldItems | lucy_notes_manager/modules/plasma_sync.py:465-486 | the items of every line's bold runs, in order, each non-empty and stripped |
| BoldRuns.ExtractBoldItemsFromHtml | lucy_notes_manager/modules/plasma_sync.py:460-486 | the bold items of the lines the bold-aware reader returns for the document, each non-empty and stripped |
| BoldRuns.StripNoCr | lucy_notes_manager/modules/plasma_sync.py:490 | stripping adds no carriage return |
| BoldRuns.NormItem | lucy_notes_manager/modules/plasma_sync.py:490 | a normalised item is empty or clean without carriage returns; a clean item without them is unchanged |
| BoldRuns.NormalStripped | lucy_notes_manager/modules/plasma_sync.py:490 | unifying breaks and stripping gives an empty or a normal item |
| BoldRuns.NormalKept | lucy_notes_manager/modules/plasma_sync.py:490 | a normal item is its own normal form |
| BoldRuns.NormItems | lucy_notes_manager/modules/plasma_sync.py:490-491 | normalising and dropping empty items never adds items |
| BoldRuns.NormalAppend | lucy_notes_manager/modules/plasma_sync.py:490-491 | two lists of normal items join to one |
| BoldRuns.NormItemsClean | lucy_notes_manager/modules/plasma_sync.py:490-491 | every normalised item is non-empty, stripped and free of carriage returns |
| BoldRuns.NormItemsFixed | lucy_notes_manager/modules/plasma_sync.py:490-491 | normal items are left as they are |
| BoldRuns.NormItemsIdempotent | lucy_notes_manager/modules/plasma_sync.py:490-491 | normalising twice is normalising once |
| BoldRuns.ItemsKeyStable | lucy_notes_manager/modules/plasma_sync.py:489-492 | re-normalising a list of items keeps what `_items_hash` fingerprints |
| BoldRuns.ReplaceLine | lucy_notes_manager/modules/plasma_sync.py:545-566 | one new fragment per piece of the line |
| BoldRuns.ReplaceLineAt | lucy_notes_manager/modules/plasma_sync.py:545-566 | a plain fragment stays, unbolded; a run becomes the next unused item, bold, or, with none left, its own text unbolded |
| BoldRuns.ReplaceLineUses | lucy_notes_manager/modules/plasma_sync.py:561-563 | a line uses one item per run, up to the items available |
| BoldRuns.ReplaceLines | lucy_notes_manager/modules/plasma_sync.py:544-568 | one new line per line |
| BoldRuns.Surplus | lucy_notes_manager/modules/plasma_sync.py:570-572 | one bold line for each item left over, in order |
| BoldRuns.ReplaceLinesAt | lucy_notes_manager/modules/plasma_sync.py:544-568 | line l takes the items after those the runs of the lines before it used |
| BoldRuns.ReplaceLinesUses | lucy_notes_manager/modules/plasma_sync.py:544-568 | all lines use one item per run, up to the items available |
| BoldRuns.ReplaceAllShape | lucy_notes_manager/modules/plasma_sync.py:529-574 | `_replace_bold_runs_in_lines`: one new line per line, each run replaced by the item its position is due, then one bold line per unused item |
| BoldRuns.ReplaceRunsInLine | lucy_notes_manager/modules/plasma_sync.py:545-566 | the loop over one line gives the new line and the items used after it |
| BoldRuns.ConsumeRun | lucy_notes_manager/modules/plasma_sync.py:556-559 | the inner loop stops at the end of the maximal bold run and collects its texts |
| BoldRuns.PlainStep | lucy_notes_manager/modules/plasma_sync.py:549-552 | a plain fragment passes into the new line unbolded |
| BoldRuns.RunStep | lucy_notes_manager/modules/plasma_sync.py:556-566 | a whole bold run becomes one fragment of the new line |
| BoldRuns.RunAt | lucy_notes_manager/modules/plasma_sync.py:556-559 | from a bold fragment on, the pieces are the run up to its end, then the pieces after it |
| BoldRuns.ReplaceBoldRuns | lucy_notes_manager/modules/plasma_sync.py:529-574 | the loops compute the replaced lines followed by the surplus bold lines |
| PlasmaSync.Update | lucy_notes_manager/modules/plasma_sync.py:143-154 | the state changes exactly when the normalised text's hash differs from the current one; afterwards the current hash is that text's; an unchanged result leaves the state as it was; the bold hashes and the start-up guard never change; a consistent state stays consistent |
| PlasmaSync.UpdateSettles | lucy_notes_manager/modules/plasma_sync.py:143-154 | updating twice with one text changes nothing the second time |
| PlasmaSync.UpdateWithCurrent | lucy_notes_manager/modules/plasma_sync.py:143-154 | feeding back the text the state already holds (the echo of its own write) changes nothing |
| PlasmaSync.UpdateByNormal | lucy_notes_manager/modules/plasma_sync.py:143-154 | two texts with the same normalisation update the state alike |
| PlasmaSync.PlasmaSyncState.constructor | lucy_notes_manager/modules/plasma_sync.py:624-635 | no text, no hashes, the start-up guard unset |
| PlasmaSync.PlasmaSyncState.UpdateStateFromText | lucy_notes_manager/modules/plasma_sync.py:143-154 | the module globals and the result are those of the update of the old globals |
| PlasmaSync.PlasmaSyncState.InitFromDiskOnce | lucy_notes_manager/modules/plasma_sync.py:624-672 | a second call changes nothing; the first one sets the state read from the files |
| PlasmaSync.PlasmaSyncState.InitText | lucy_notes_manager/modules/plasma_sync.py:641-649 | the current text is taken from the main note, else from a non-empty Markdown note |
| PlasmaSync.PlasmaSyncState.InitMainBold | lucy_notes_manager/modules/plasma_sync.py:651-659 | the main bold hash is that of the main note's bold items (none for an empty note) |
| PlasmaSync.PlasmaSyncState.InitMirror | lucy_notes_manager/modules/plasma_sync.py:661-672 | with a mirror configured, its hash is that of its non-blank stripped lines |
| PlasmaSync.InitialText | lucy_notes_manager/modules/plasma_sync.py:641-649 | a non-empty main note sets the hash of its normalised text, else a non-empty Markdown note does, else nothing changes; the bold hashes and the guard stay |
| PlasmaSync.InitialMirror | lucy_notes_manager/modules/plasma_sync.py:661-672 | without a mirror nothing changes; an empty mirror gives the hash of no items; only the mirror hash ever changes |
| PlasmaSync.InitializedShape | lucy_notes_manager/modules/plasma_sync.py:624-672 | after the start-up read the guard is set, the text comes from the main note (or the Markdown note), a main bold hash is known, a mirror hash exactly when a mirror is configured, and consistency is kept |
| PlasmaSync.MirrorItems | lucy_notes_manager/modules/plasma_sync.py:667 | every mirror item is non-empty and stripped |
| PlasmaSync.StrippedLine | lucy_notes_manager/modules/plasma_sync.py:667 | a line gives its stripped text, when that is not empty |
| PlasmaSync.StrippedLines | lucy_notes_manager/modules/plasma_sync.py:667 | every kept line is non-empty and stripped |
| PlasmaSync.IncIgnore | lucy_notes_manager/modules/plasma_sync.py:75-77 | the path's counter grows by `times` (from 0 when absent); every other counter stays |
| PlasmaSync.IncIgnoreAdds | lucy_notes_manager/modules/plasma_sync.py:75-77 | two increments of one path add up |
| PlasmaSync.OneValue | lucy_notes_manager/modules/plasma_sync.py:725-742 | a missing value fails exactly when required and is otherwise absent; a list succeeds exactly when it holds one non-blank string, a string exactly when it is not blank, and any other value fails; the value returned is the configured string (the list's only item) |
| PlasmaSync.Cfg | lucy_notes_manager/modules/plasma_sync.py:722-752 | succeeds exactly when all three values are accepted, and then the widget, Markdown and mirror paths are the values `one_value` returns (absent paths as ""), the mirror optional; otherwise the first refusal's error |
| PlasmaSync.CfgReadsConfigured | lucy_notes_manager/modules/plasma_sync.py:722-752 | non-blank widget and Markdown strings, alone or as one-item lists, and no mirror give exactly those paths, and the Markdown note's events are routed to `_from_markdown` |
| PlasmaSync.CfgRejectsLists | lucy_notes_manager/modules/plasma_sync.py:732-737 | a widget path list of other than one item fails, with the error naming the flag and the count |
| PlasmaSync.RouteOf | lucy_notes_manager/modules/plasma_sync.py:754-776 | the Markdown note's path goes to `_from_markdown`; otherwise the configured mirror's path to `_from_bold_mirror`; otherwise the widget's path to `_from_main_plasma`; any other path is not handled |
| PlasmaSync.MirrorBeforeMain | lucy_notes_manager/modules/plasma_sync.py:765-774 | when the mirror is also the main widget, its events go to the mirror handler |
| PlasmaTodoSync.Marked | lucy_notes_manager/modules/plasma_todo_sync.py:47-49 | `_mark_ignore`: the path's count grows by one; every other count stays; all counts stay positive |
| PlasmaTodoSync.Checked | lucy_notes_manager/modules/plasma_todo_sync.py:52-61 | `_should_ignore`: true exactly when the path's count is not zero; then one count is used up and the key goes with the last one; otherwise nothing changes; other counts stay |
| PlasmaTodoSync.MarkThenCheck | lucy_notes_manager/modules/plasma_todo_sync.py:47-61 | a mark is used up by exactly the next event on its path, which restores the counters |
| PlasmaTodoSync.WriteResult | lucy_notes_manager/modules/plasma_todo_sync.py:84-109 | content equal to the file's is neither written nor marked; otherwise the path is marked before `open`, and only a completed write changes the file and reports true; a failed `makedirs` changes nothing |
| PlasmaTodoSync.OwnWriteIgnored | lucy_notes_manager/modules/plasma_todo_sync.py:84-109 | after a completed write the file holds the content and the event it raises is swallowed, restoring the counters |
| PlasmaTodoSync.WriteTwice | lucy_notes_manager/modules/plasma_todo_sync.py:89-92 | writing the same content again writes and marks nothing |
| PlasmaTodoSync.Flushed | lucy_notes_manager/modules/plasma_todo_sync.py:218-221 | the open text is added to the lines exactly when there is one |
| PlasmaTodoSync.TodoParser.constructor | lucy_notes_manager/modules/plasma_todo_sync.py:167-171 | outside the body, no open text, no lines |
| PlasmaTodoSync.TodoParser.HandleStartTag | lucy_notes_manager/modules/plasma_todo_sync.py:173-190 | the new state is the start-tag step: `<body>` enters the body, `<p>`/`<li>` flushes the open text and opens an empty one, `<br>` appends a line break |
| PlasmaTodoSync.TodoParser.HandleEndTag | lucy_notes_manager/modules/plasma_todo_sync.py:192-209 | the new state is the end-tag step: `</body>` flushes and leaves the body, `</p>`/`</li>` adds the open text (or "") as a line |
| PlasmaTodoSync.TodoParser.HandleData | lucy_notes_manager/modules/plasma_todo_sync.py:211-216 | inside the body every piece of data, whitespace between blocks included, is appended to the open text |
| PlasmaTodoSync.TodoParser.Handle | lucy_notes_manager/modules/plasma_todo_sync.py:173-216 | each event reaches its handler |
| PlasmaTodoSync.TodoParser.Feed | lucy_notes_manager/modules/plasma_todo_sync.py:173-216 | the state after the events is their fold |
| PlasmaTodoSync.TodoParser.GetText | lucy_notes_manager/modules/plasma_todo_sync.py:218-222 | the lines with the open text flushed, joined by "\n"; afterwards no text is open |
| PlasmaTodoSync.HtmlToText | lucy_notes_manager/modules/plasma_todo_sync.py:225-229 | the normalised text of a fresh parser fed the document |
| PlasmaTodoSync.RunAppend | lucy_notes_manager/modules/plasma_todo_sync.py:173-216 | feeding two event lists one after the other is feeding their concatenation |
| PlasmaTodoSync.RunIdle | lucy_notes_manager/modules/plasma_todo_sync.py:173-216 | events that each leave a state unchanged leave it unchanged together |
| PlasmaTodoSync.Spaced | lucy_notes_manager/modules/plasma_todo_sync.py:211-216 | two kept lines per paragraph: the line break before it and the line |
| PlasmaTodoSync.HeaderRead | lucy_notes_manager/modules/plasma_todo_sync.py:235-248 | after the written header the reader is in the body with the line break after `<body>` open as text |
| PlasmaTodoSync.BodyOpens | lucy_notes_manager/modules/plasma_todo_sync.py:246-247 | `<body>` and the line break after it: the line break is open text |
| PlasmaTodoSync.PreludeIdle | lucy_notes_manager/modules/plasma_todo_sync.py:235-245 | nothing before `<body>` is read |
| PlasmaTodoSync.TextParagraphRead | lucy_notes_manager/modules/plasma_todo_sync.py:257-259 | a paragraph holding text adds the open line break as a line, then the text |
| PlasmaTodoSync.EmptyParagraphRead | lucy_notes_manager/modules/plasma_todo_sync.py:260-263 | an empty paragraph adds the open line break, then the `<br />`'s "\n" |
| PlasmaTodoSync.ParagraphRead | lucy_notes_manager/modules/plasma_todo_sync.py:256-263 | a line's paragraph adds a line break line and what the reader keeps of the line |
| PlasmaTodoSync.ParagraphsRead | lucy_notes_manager/modules/plasma_todo_sync.py:255-263 | the paragraphs add, for each line, a line break line and the line |
| PlasmaTodoSync.FooterRead | lucy_notes_manager/modules/plasma_todo_sync.py:265 | `</body>` turns the open line break into a last line |
| PlasmaTodoSync.DocumentRawText | lucy_notes_manager/modules/plasma_todo_sync.py:218-266 | the reader's raw text of the written document has a line-break line before every line and after the last |
| PlasmaTodoSync.SkipTwoBlanks | lucy_notes_manager/modules/plasma_todo_sync.py:116-163 | two leading blank lines before a non-blank one are dropped |
| PlasmaTodoSync.NormalizeSpread | lucy_notes_manager/modules/plasma_todo_sync.py:116-163 | normalising the read-back lines of two lines leaves one empty line between them |
| PlasmaTodoSync.GapBeforeLast | lucy_notes_manager/modules/plasma_todo_sync.py:116-163 | a blank run before the last line is one empty line |
| PlasmaTodoSync.BlankLineInserted | lucy_notes_manager/modules/plasma_todo_sync.py:166-266 | for any two non-blank lines that normalisation keeps one break apart, reading back the written note gives them with an empty line between (see Findings) |
| PlasmaTodoSync.AsWrittenRaw | lucy_notes_manager/modules/plasma_todo_sync.py:218-266 | the raw text read back for two lines is "\n", x, "\n", y, "\n" joined by line breaks |
| PlasmaTodoSync.TwoLinesSettled | lucy_notes_manager/modules/plasma_todo_sync.py:116-163 | two non-blank lines one break apart are normalised already |
| PlasmaTodoSync.RawSpread | lucy_notes_manager/modules/plasma_todo_sync.py:218-229 | `splitlines` of that raw text gives an empty line before each line and two between them |
| PlasmaTodoSync.AsWrittenRoundTripFails | lucy_notes_manager/modules/plasma_todo_sync.py:225-266 | "a\nb" is normalised already, yet this module reads its note back as "a\n\nb", while the reader of plasma_sync.py gives "a\nb" (see Findings) |
| PlasmaTodoSync.Override | lucy_notes_manager/modules/plasma_todo_sync.py:305-315 | a flag overrides exactly when its first value is a non-empty string, and then with that string |
| PlasmaTodoSync.Cfg | lucy_notes_manager/modules/plasma_todo_sync.py:297-321 | each setting is its override, else its default; none is empty |
| PlasmaTodoSync.CfgDefaults | lucy_notes_manager/modules/plasma_todo_sync.py:301-303 | without its flags `_cfg` gives the defaults |
| PlasmaTodoSync.CfgFirstValue | lucy_notes_manager/modules/plasma_todo_sync.py:309-311 | a list's non-empty first string wins, an empty one keeps the default |
| PlasmaTodoSync.FirstVisibleAt | lucy_notes_manager/modules/plasma_todo_sync.py:358-361 | the index of the first entry not starting with ".": all before it hidden, it visible, or the length |
| PlasmaTodoSync.FirstVisibleIsLeast | lucy_notes_manager/modules/plasma_todo_sync.py:339-361 | in sorted order the first visible entry is the least visible name, found exactly when one exists |
| PlasmaTodoSync.FirstVisibleFound | lucy_notes_manager/modules/plasma_todo_sync.py:358-363 | the scan stops before the end exactly when a visible name exists |
| PlasmaTodoSync.FirstVisibleLeast | lucy_notes_manager/modules/plasma_todo_sync.py:339-361 | on sorted entries the one the scan stops at is the least visible name |
| PlasmaTodoSync.FindPrimaryNote | lucy_notes_manager/modules/plasma_todo_sync.py:337-363 | an unreadable directory gives None; the note with the configured id wins; otherwise the least visible name, found exactly when one exists |
| PlasmaTodoSync.EnsurePrimaryNote | lucy_notes_manager/modules/plasma_todo_sync.py:365-379 | the note found, else the configured id's path in the directory |
| PlasmaTodoSync.JoinWithin | lucy_notes_manager/modules/plasma_todo_sync.py:406 | a name joined to a directory lies within it |
| PlasmaTodoSync.PrimaryNoteWithin | lucy_notes_manager/modules/plasma_todo_sync.py:365-379 | the note settled on lies in the Plasma directory |
| PlasmaTodoSync.Direct | lucy_notes_manager/modules/plasma_todo_sync.py:398-413 | the TODO file syncs toward Plasma; any other path within the Plasma directory toward the TODO file; anything else nowhere |
| PlasmaTodoSync.Dispatch | lucy_notes_manager/modules/plasma_todo_sync.py:323-413 | a deletion or a pathless event is dropped untouched; otherwise the event is swallowed exactly when its path has a count, using one up; only an unswallowed event is routed, by its path |
| PlasmaTodoSync.EchoSwallowed | lucy_notes_manager/modules/plasma_todo_sync.py:84-109 | the event the module's own completed write raises is swallowed, using up the mark the write left |
| PlasmaTodoSync.NoteChangeGoesToTodo | lucy_notes_manager/modules/plasma_todo_sync.py:365-413 | a change to the note the module settles on, with nothing pending for it, goes toward the TODO file |
| PlasmaTodoSync.TodoSync.constructor | lucy_notes_manager/modules/plasma_todo_sync.py:41-44 | no counts, the files given, no current text or hash |
| PlasmaTodoSync.TodoSync.MarkIgnore | lucy_notes_manager/modules/plasma_todo_sync.py:47-49 | the counters become the marked ones; files and text stay |
| PlasmaTodoSync.TodoSync.ShouldIgnore | lucy_notes_manager/modules/plasma_todo_sync.py:52-61 | answer and counters are those of `Checked`; files and text stay |
| PlasmaTodoSync.TodoSync.WriteIfChanged | lucy_notes_manager/modules/plasma_todo_sync.py:84-109 | counters, files and answer are the write's result; the text stays |
| PlasmaTodoSync.TodoSync.UpdateStateFromText | lucy_notes_manager/modules/plasma_todo_sync.py:269-280 | text, hash and answer follow the same update rule as plasma_sync.py; files and counters stay |
| PlasmaTodoSync.TodoSync.HandleEvent | lucy_notes_manager/modules/plasma_todo_sync.py:323-413 | outcome and counters are those of the dispatch; files and text stay |
| UnionResolve.Until | lucy_notes_manager/modules/git.py:363-366 | the scan position never passes the end of the lines |
| UnionResolve.UntilStops | lucy_notes_manager/modules/git.py:363-370 | every line the scan passes lacks the marker, and the line where it stops, if any, has it |
| UnionResolve.UntilIs | lucy_notes_manager/modules/git.py:363-370 | the scan stops exactly at the first line that starts with the marker, or at the end |
| UnionResolve.UntilPast | lucy_notes_manager/modules/git.py:363-370 | marker-free lines in front of a marker line are all collected, and the scan stops at that marker line |
| UnionResolve.UntilNone | lucy_notes_manager/modules/git.py:363-370 | when no line has the marker, the scan runs to the end |
| UnionResolve.ThenThen | lucy_notes_manager/modules/git.py:352-398 | putting two prefixes in front of a result one after the other equals putting their concatenation in front |
| UnionResolve.Merged | lucy_notes_manager/modules/git.py:386-394 | a block becomes our lines, then the "\n" joint exactly when both sides are non-empty, our last line lacks a trailing "\n" and their first line does not start with one, then their lines |
| UnionResolve.UnionResolveText | lucy_notes_manager/modules/git.py:350-402 | the line-by-line scan returns exactly the declarative resolution: None when no line opens a conflict or a block is unterminated, otherwise the lines with every block replaced by its merged sides |
| UnionResolve.ScanBlock | lucy_notes_manager/modules/git.py:358-395 | one block from its opening line: None when the "=======" or ">>>>>>> " line is missing, otherwise the merged sides and the position after the closing line, agreeing with the declarative resolution |
| UnionResolve.CollectUntil | lucy_notes_manager/modules/git.py:362-383 | the collected side is exactly the lines from the start up to the first marker line |
| UnionResolve.PlainStep | lucy_notes_manager/modules/git.py:397-398 | a line that opens no block is copied to the output and the scan moves on one line |
| UnionResolve.OursUnterminated | lucy_notes_manager/modules/git.py:367-370 | an opening line with no "=======" line after it gives no result |
| UnionResolve.TheirsUnterminated | lucy_notes_manager/modules/git.py:379-382 | a block whose "=======" line has no ">>>>>>> " line after it gives no result |
| UnionResolve.BlockStep | lucy_notes_manager/modules/git.py:358-395 | a terminated block resolves to our side, the joint and their side, followed by the resolution of the lines after its closing line |
| UnionResolve.SkipPlain | lucy_notes_manager/modules/git.py:397-398 | lines that open no block are copied unchanged in front of the rest |
| UnionResolve.CopiesPlain | lucy_notes_manager/modules/git.py:356-398 | lines with no opening marker resolve to themselves |
| UnionResolve.BlockResolves | lucy_notes_manager/modules/git.py:358-395 | a well-delimited block followed by plain lines resolves to the merged sides and those lines; the three marker lines are dropped |
| UnionResolve.ResolveOneBlock | lucy_notes_manager/modules/git.py:356-398 | plain lines, one well-delimited block, plain lines resolve to the lines before, the merged sides and the lines after |
| UnionResolve.UnionResolvesOneBlock | lucy_notes_manager/modules/git.py:350-402 | on a whole text with one well-delimited block the result is the text with the marker lines dropped and both sides kept, in order, with the joint where needed |
| UnionResolve.UnterminatedOurs | lucy_notes_manager/modules/git.py:367-370 | a text whose opening line has no "=======" line after it resolves to nothing, whatever precedes it |
| UnionResolve.UnterminatedTheirs | lucy_notes_manager/modules/git.py:379-382 | a text whose block has no ">>>>>>> " line resolves to nothing, whatever precedes it |
| UnionResolve.OpenEnded | lucy_notes_manager/modules/git.py:374-382 | our side and a "=======" line followed by no ">>>>>>> " line give no result |
| UnionResolve.JointOnlyAfterOtherBreak | lucy_notes_manager/modules/git.py:386-392 | since our last line precedes the "=======" line it ends in a line break, so the joint is inserted only when that break is not "\n" (a lone "\r", say) |
| Porcelain.AfterArrow | lucy_notes_manager/modules/git.py:268-269 | present exactly when the text contains " -> ", and then it is a proper suffix of the text, at least four characters shorter |
| Porcelain.ShortHasNoArrow | lucy_notes_manager/modules/git.py:266-269 | a text shorter than four characters cannot contain " -> " |
| Porcelain.PathPart | lucy_notes_manager/modules/git.py:267-269 | the tail is kept whole when it has no " -> ", else a suffix of it after the first arrow is taken |
| Porcelain.PathOfLine | lucy_notes_manager/modules/git.py:264-266 | a line contributes a path exactly when, with trailing "\n" removed, it has at least four characters |
| Porcelain.PathsOf | lucy_notes_manager/modules/git.py:263-271 | at most one path per listing line |
| Porcelain.PathsOfSnoc | lucy_notes_manager/modules/git.py:263-271 | one more line appends its path, if it has one, after the paths of the lines before it |
| Porcelain.PathsOfPrefix | lucy_notes_manager/modules/git.py:263-271 | the paths of the first k+1 lines are those of the first k, then the path of line k if it has one |
| Porcelain.ParsePorcelainPaths | lucy_notes_manager/modules/git.py:261-271 | the loop over the listing's lines returns exactly the paths of the declarative reading, in line order |
| Porcelain.ArrowAfterOrig | lucy_notes_manager/modules/git.py:268-269 | in a rename line the first " -> " is the one after the original path, so the destination is what is kept |
| Porcelain.BreaklessJoin | lucy_notes_manager/modules/git.py:263 | gluing two texts without line breaks makes none |
| Porcelain.FormatReads | lucy_notes_manager/modules/git.py:264-270 | the status line git prints for a well-formed entry is one non-empty line that reads back as the entry's path (its destination for a rename) |
| Porcelain.PathsOfFormatted | lucy_notes_manager/modules/git.py:263-271 | the lines of well-formed entries read back as their target paths, one per entry, in order |
| Porcelain.FormattedLines | lucy_notes_manager/modules/git.py:263 | every printed entry line is non-empty and has no line break |
| Porcelain.PorcelainRoundTrip | lucy_notes_manager/modules/git.py:261-271 | parsing the listing git prints for well-formed entries recovers every entry's path, destinations for renames, in git's order |
| Porcelain.ShortLinesSkipped | lucy_notes_manager/modules/git.py:265-266 | a line shorter than four characters adds no path |
| CommitMessage.NonEmpty | lucy_notes_manager/modules/git.py:278-280 | keeps exactly the non-empty paths: each kept path is non-empty and reported, and every non-empty reported path is kept |
| CommitMessage.Basenames | lucy_notes_manager/modules/git.py:278-280 | one name per path, each the base name of the path at the same position |
| CommitMessage.FileNames | lucy_notes_manager/modules/git.py:278-283 | the base names of the non-empty reported paths; only when there are none, the base names of the hinted paths in sorted order; no name holds a "/" |
| CommitMessage.ShownNames | lucy_notes_manager/modules/git.py:285 | at most eight names are listed, the first ones, and together with the hidden count they account for every name |
| CommitMessage.NameList | lucy_notes_manager/modules/git.py:285-287 | the list starts with the listed names joined by ", ", and with eight or fewer names it is exactly all of them joined |
| CommitMessage.Compose | lucy_notes_manager/modules/git.py:289-293 | the message is the head, then one blank and the name list when that is not empty, then " [stamp]" exactly when time stamps are on |
| CommitMessage.BuildCommitMessage | lucy_notes_manager/modules/git.py:273-295 | the message starts with "<base>: <event summary>"; a non-empty name list follows after one blank; it ends in the bracketed stamp when time stamps are on, and without a stamp it is exactly the head and the name list |
| CommitMessage.SummaryRoundTrip | lucy_notes_manager/modules/git.py:274-276 | the event part splits on "+" back into the batch's event types in sorted order when none contains a "+" |
| CommitMessage.AtMostEightListed | lucy_notes_manager/modules/git.py:285-287 | with more than eight names the list is the first eight, then ", +N more" where N counts the rest |
| CommitMessage.HintsOnlyAsFallback | lucy_notes_manager/modules/git.py:281-283 | when any reported path is non-empty the hinted paths are ignored |
| PushBackoff.NextBackoff | lucy_notes_manager/modules/git.py:875-885 | the new back-off never exceeds the cap; below the cap it is twice the larger of the current and start values, so it is at least twice the start or the cap itself |
| PushBackoff.Doubled | lucy_notes_manager/modules/git.py:880-882 | doubling a non-negative start n times never gives less than the start |
| PushBackoff.DoubleStep | lucy_notes_manager/modules/git.py:880-882 | one more failure on a capped back-off doubles the uncapped value and caps it again |
| PushBackoff.FailuresDouble | lucy_notes_manager/modules/git.py:875-885 | after n consecutive failures from none recorded the back-off is min(start * 2^n, cap) |
| PushBackoff.BackoffNeverShrinks | lucy_notes_manager/modules/git.py:880-882 | with a non-negative start and a current back-off within the cap, a failure never shortens it |
| PushBackoff.BlockedDuringBackoff | lucy_notes_manager/modules/git.py:810-812 | after a failure at time now with back-off b, no push goes ahead at any time before now + b |
| PushBackoff.OtherRepositoriesUnaffected | lucy_notes_manager/modules/git.py:884-885 | recording a failure or success for one repository leaves every other repository's push permission as it was |
| PushBackoff.SuccessReopens | lucy_notes_manager/modules/git.py:869-873 | after a successful push the repository may push again at any non-negative time |
| Throttle.Throttled | note_manager/modules/git.py:97-104 | the notification goes out exactly when at least the cool-down has passed since the key last fired (0 when never); when it goes out the key's time becomes now, otherwise nothing changes; other keys are untouched |
| Throttle.QuietAfterFiring | note_manager/modules/git.py:97-104 | once a key fires it stays quiet for the whole cool-down |
| Throttle.FiresAgain | note_manager/modules/git.py:97-104 | once the cool-down has passed after a firing, the key fires again |
| Throttle.Notifier.constructor | note_manager/modules/git.py:53-70 | no key has fired yet |
| Throttle.Notifier.Notify | note_manager/modules/git.py:97-104 | whether the notification goes out and the new record are exactly those of the throttling function on the old record |
| Git.CfgFirst | lucy_notes_manager/modules/git.py:155-159 | a list option gives its first item, or None when it is empty; any other value is returned as it is |
| Git.CfgBool | lucy_notes_manager/modules/git.py:172-178 | a missing option gives the default, a boolean is kept, and a string is true exactly when, stripped and lower-cased, it is one of "1", "true", "yes", "on" |
| Git.CfgStr | lucy_notes_manager/modules/git.py:181-185 | a string option that is not blank gives its stripped text; anything else gives the default; a non-blank default makes the result non-empty |
| Git.NonEmptyStrOr | lucy_notes_manager/modules/git.py:248-258 | a non-empty string option is taken unchanged (not stripped); anything else gives the default |
| Git.BaseMessage | lucy_notes_manager/modules/git.py:248-252 | the commit message prefix is the non-empty "git_msg" string or "Auto-commit"; never empty |
| Git.TimestampFormat | lucy_notes_manager/modules/git.py:254-258 | the time stamp format is the non-empty "git_tsfmt" string or "%Y-%m-%d_%H-%M-%S"; never empty |
| Git.NormalizedMode | lucy_notes_manager/modules/git.py:411-413 | the auto-resolve mode is always one of "none", "ours", "theirs", "union", and a known mode is kept as it is |
| Git.EmptyStringIsFalse | lucy_notes_manager/modules/git.py:172-178 | an empty string option is present, so it reads as false whatever the default |
| Git.StripPadded | lucy_notes_manager/modules/git.py:178 | blanks around a word that neither starts nor ends with a blank are stripped away exactly |
| Git.BlanksAndCaseIgnored | lucy_notes_manager/modules/git.py:172-178 | a string option reads as true exactly when the word inside its blanks, lower-cased, is one of the true words |
| Git.NormalizedModeIdempotent | lucy_notes_manager/modules/git.py:411-413 | normalising a normalised mode changes nothing |
| Git.ModeCaseAndBlanksIgnored | lucy_notes_manager/modules/git.py:411-413 | a known mode written in any letter case, with blanks around it, is recognised as that mode |
| Git.LowerIdempotent | lucy_notes_manager/modules/git.py:338 | lower-casing twice is lower-casing once |
| Git.RejectionIgnoresCase | lucy_notes_manager/modules/git.py:337-347 | whether a failed push needs a pull does not depend on the letter case of git's output |
| Git.RejectionIndicators | lucy_notes_manager/modules/git.py:337-347 | "updates were rejected" is implied by "rejected", so a push needs a pull exactly when the lower-cased output contains one of the other five indicators |
| Git.InsideGitDirIff | lucy_notes_manager/modules/git.py:188-190 | a path made of "/"-separated components is inside a git directory exactly when one component is ".git"; ".gitignore" and "my.git" are not |
| Git.OptionsOf | lucy_notes_manager/modules/git.py:575-607 | the batch options are read as the worker reads them: the message prefix and stamp format with their defaults, "git_tsmsg" off and "git_auto_merge_on_push" on by default, and a non-empty auto-resolve mode defaulting to "union" |
| Git.Hints | lucy_notes_manager/modules/git.py:648-650 | the hinted paths of an event are exactly its non-empty paths |
| Git.HintsStep | lucy_notes_manager/modules/git.py:648-650 | one more path adds itself to the hints exactly when it is non-empty |
| Git.IngestEffect | lucy_notes_manager/modules/git.py:609-650 | after an event the repository's batch exists, takes the event's options and time, wants a pull if it or the event did, and has the event type and the event's non-empty paths added; every other repository's batch is unchanged |
| Git.IngestKeepsHintsNonEmpty | lucy_notes_manager/modules/git.py:648-650 | no pending batch ever holds an empty hinted path |
| Git.IngestOrderIrrelevant | lucy_notes_manager/modules/git.py:609-650 | two events for one repository leave the same pull flag, event types and hinted paths whichever comes first; only the options come from the later one |
| Git.Waiting | lucy_notes_manager/modules/git.py:655-663 | the batches that stay pending are exactly those whose debounce time has not yet passed, unchanged |
| Git.JustTouchedWaits | lucy_notes_manager/modules/git.py:645-663 | with a positive debounce time, the batch an event just went into is not due at that moment, and other waiting batches still wait |
| Git.Handle | lucy_notes_manager/modules/git.py:922-967 | nothing is queued exactly when either event path lies inside ".git" or no repository is found, first from the file's own path, then from the destination or else the source, and the repository is the one found that way; a queued event never asks for a pull and carries the handler's event type; it hints the file's own path, or for a move exactly its non-empty source and destination |
| Git.OnOpened | lucy_notes_manager/modules/git.py:887-908 | an "opened" event asking for a pull of the file's own path is queued exactly when the path is not inside ".git", a repository is found for it and "git_auto_pull" is on |
| Git.OnlyOpeningPulls | lucy_notes_manager/modules/git.py:645 | events from created/modified/deleted/moved never turn on a batch's pull flag |
| Git.MoveHintsBoth | lucy_notes_manager/modules/git.py:951-958 | a move outside ".git" within a repository hints its source and its destination, in that order |
| Git.GitState.constructor | lucy_notes_manager/modules/git.py:132-143 | no batch is pending and no repository has a back-off or a wait recorded |
| Git.GitState.Take | lucy_notes_manager/modules/git.py:567-650 | one queued event: the options are read from its configuration snapshot and the event is folded into its batch; push state unchanged |
| Git.GitState.Ingest | lucy_notes_manager/modules/git.py:609-650 | the pending batches become exactly the declarative fold of the event; push state unchanged |
| Git.GitState.AddHints | lucy_notes_manager/modules/git.py:648-650 | the loop adds exactly the event's non-empty paths to the batch's hinted paths |
| Git.GitState.TakeDue | lucy_notes_manager/modules/git.py:655-663 | every due batch is taken out and handed on exactly once, each with its repository, and exactly the not-yet-due batches stay pending |
| Git.GitState.RegisterPushFailure | lucy_notes_manager/modules/git.py:875-885 | the repository's back-off becomes the doubled, capped value of its previous one (the start value when none), and its next push waits that long from now; nothing else changes |
| Git.GitState.PushSucceeded | lucy_notes_manager/modules/git.py:869-873 | the repository's back-off returns to the start value and it may push again at once; nothing else changes |
| NoteGit.FirstStringOr | note_manager/modules/git.py:160-171 | the first value given for the option when it is a non-empty string, the default otherwise; never empty with a non-empty default |
| NoteGit.GetBaseMsg | note_manager/modules/git.py:160-165 | the commit message prefix is never empty |
| NoteGit.GetTsfmt | note_manager/modules/git.py:167-171 | the time stamp format is never empty |
| NoteGit.TsMsgIsPresence | note_manager/modules/git.py:231 | time stamps are on exactly when the option was given with some value, even a value of false |
| NoteGit.NonStringFallsBack | note_manager/modules/git.py:160-165 | a first "gmsg" value that is not a non-empty string leaves the default prefix "Auto-commit" |
| NoteGit.IngestEffect | note_manager/modules/git.py:235-257 | the event's message, stamp switch, format and environment replace the batch's, its time becomes now, its type is added and the hinted paths become the old ones plus its non-empty paths; other repositories are untouched |
| NoteGit.IngestOrderIrrelevant | note_manager/modules/git.py:235-257 | two events for one repository leave the same event types and hinted paths in either order |
| NoteGit.Waiting | note_manager/modules/git.py:262-269 | the batches that stay pending are exactly those with an event in the last 0.8 seconds, unchanged |
| NoteGit.JustTouchedWaits | note_manager/modules/git.py:253-269 | the batch an event just went into is not flushed at that moment, and other waiting batches still wait |
| NoteGit.OnFileEvent | note_manager/modules/git.py:385-422 | created/modified/deleted queue an event with the one path exactly when it is outside ".git" and in a repository, and for that repository |
| NoteGit.OnMoved | note_manager/modules/git.py:424-441 | a move is queued, with both paths, exactly when neither given path lies inside ".git" and a repository is found from the destination (or the source without one), and for that repository |
| NoteGit.MoveWithoutDestination | note_manager/modules/git.py:428-440 | a move with no destination hints its source and never the empty path |
| NoteGit.FailKeysDiffer | note_manager/modules/git.py:357-368 | a push time-out and a push failure notify under different keys, so neither silences the other |
| NoteGit.NoteGitState.constructor | note_manager/modules/git.py:53-67 | nothing pending, no notification fired, no back-off or wait recorded |
| NoteGit.NoteGitState.Ingest | note_manager/modules/git.py:227-257 | the pending batches become exactly the declarative fold of the event; the rest of the state is unchanged |
| NoteGit.NoteGitState.TakeDue | note_manager/modules/git.py:262-269 | every batch quiet for 0.8 seconds is taken out and handed on exactly once, and exactly the others stay pending |
| NoteGit.NoteGitState.NotifyThrottled | note_manager/modules/git.py:97-104 | whether the notification goes out and the new record are those of the five-second throttle on the old record; nothing else changes |
| NoteGit.NoteGitState.PushRegisterFail | note_manager/modules/git.py:375-381 | the back-off doubles from its previous value (5 s when none), capped at 120 s, and the next push waits that long from now |
| NoteGit.NoteGitState.Push | note_manager/modules/git.py:346-373 | no push before the repository's next allowed time; a success resets the back-off and allows pushing at once; a failure or time-out registers the back-off and notifies, throttled, under its own key |
| Values.IntOf | lucy_notes_manager/modules/cmd.py:176-181 | an integer converts to itself, a string as `int(str)` parses it, and None or a list raises (no result) |

## Left out

- Args.ConfigArgs: `shlex.split` (lucy_notes_manager/lib/args.py:60) is modelled as a split on whitespace. Quotes are not honoured: `--c "ls -la"` gives the tokens `"ls` and `-la"`. The `ValueError` that `shlex` raises on an unclosed quote is not modelled.
- Args.FirstLineArgs: the same whitespace split stands for `shlex.split` of the first line (lucy_notes_manager/lib/args.py:149), with the same limits.
- Args.CleanArgsFromLine: the same whitespace split stands for `shlex.split` (lucy_notes_manager/lib/args.py:187). The result is joined with single spaces where the source uses `shlex.join`, which would quote tokens holding blanks or quotes (args.py:213).
- Renamer.Target: `os.path.abspath` is `posixpath.normpath` of the joined path. This holds because the note's path is absolute. The current directory is not modelled.
- FileHandling.FileHandler.ProcessFile: event paths are used as the watcher reports them. The `os.path.abspath` calls (lucy_notes_manager/file_handler.py:26, 81-82) are taken as the identity, since the watcher reports absolute, normalised paths.
- ChangeHandling.ChangeHandler.ProcessFile: the same holds for the `os.path.abspath` calls of lucy_notes_manager/change_handler.py:38, 45 and 59.
- PlasmaSync.OneValue: returns the configured string as it is, where the source returns `_rpath(val)` (lucy_notes_manager/modules/plasma_sync.py:742); the paths `_cfg` gives are therefore not expanded, made absolute or resolved.
- PlasmaSync.RouteOf: paths are compared as given. `_rpath` (`expanduser`, `abspath` and `realpath`, lucy_notes_manager/modules/plasma_sync.py:32-34) is not modelled: symbolic links and "~" are not resolved.
- PlasmaTodoSync.Cfg: the settings are returned as given. `expanduser` and `abspath` (lucy_notes_manager/modules/plasma_todo_sync.py:318-319) are not applied.
- Git.Handle: `_abs` (`expanduser` and `abspath`) is the identity on event paths. `_find_git_root`'s walk up the directory tree is the map `roots` (`Git.FindRoot`).
- NoteGit.OnFileEvent: the same holds for note_manager's `_path_is_inside_git_dir` and `_find_git_root`.
- TodoFormatter.ConvertFile: the ignore map's key is the path as given, not `os.path.abspath(path)` (lucy_notes_manager/modules/todo_formatter.py:82).
- Args.LooksLikeFlag: `token[1].isdigit()` (lucy_notes_manager/lib/args.py:170) also holds for non-ASCII digits such as "²" or "٣"; the model checks only 0-9, so it takes "-٣" for a flag where the source does not.
- Text.Lower: only the ASCII letters A-Z are lower-cased; Python's `str.lower` also maps other letters.
- Text.ParseInt: only the ASCII digits 0-9 are accepted. Python's `int()` also accepts other Unicode decimal digits such as "٣". Whitespace (Python's full `isspace` set) and single underscores between digits are modelled.
- Values.IntOf: a float gives no result, where Python's `int()` truncates it. Floats are kept only as their printed text.
- Values.PyEq (values.dfy:67): `True == 1` and `False == 0` hold as in Python, but `1 == 1.0` and `0.0 == -0.0` do not, because floats are kept as their printed text.
- Values.Repr (values.dfy:42): quotes and backslashes inside strings are not escaped; Python's `repr` chooses the quote and escapes.
- SysInfo.Apply: `slow_write_lines_from` (imported at lucy_notes_manager/modules/sys_info.py:6) and `delete_args_from_string` are not defined in the repository's lib package. The slow write is the outcome the model returns. Flag removal is the parameter `delete`, as in SysModule.Apply, Cmd.Apply and Banner.Apply.
- ModuleManagement.ModuleManager.constructor: `parse_args` is the parameter `parse`. Its loop `for flag, typ in template` (lucy_notes_manager/lib/args.py:34) unpacks pairs. The three- and four-field rows of the sys and sys_info templates would make it raise `ValueError`; the model does not capture this.
- Reports.ListLines: every template row is modelled with four fields (`Pipeline.TemplateEntry`). The source's rows do not agree: the global rows of lucy_notes_manager/module_manager.py:13-18 have two fields, `sys.py` unpacks four (modules/sys.py:52, 75, 82, 99) and `sys_info.py` three (modules/sys_info.py:35, 66). The `ValueError` these unpackings raise on any such template is not modelled.
- Reports.FullLines: the same four-field rows; the `ValueError` of modules/sys.py:82 and 99 is not modelled.
- Reports.DefaultsMapSpec: the same four-field rows; the `ValueError` of modules/sys.py:52 and modules/sys_info.py:35 is not modelled.
- SysModule.ManOneLines: the same four-field rows; the `ValueError` of modules/sys.py:99 is not modelled, so `--man` always answers.
- SysInfo.Block: the same four-field rows; the `ValueError` of modules/sys_info.py:35 and 66 is not modelled.
- `ModuleManager.run` is not part of this model. It imports `get_args_from_file`, which args.py does not define, and reads an unbound `args` (lucy_notes_manager/module_manager.py:4, 28-38). What it returns for an event is a parameter of FileHandling.FileHandler.ProcessFile.
- Porcelain.PorcelainRoundTrip: the listing is read as git prints it. Both callers first apply `.strip()` to git's output, which would cut the leading blank of a first line whose index column is empty (" M path"). After `git add -A` that column is always a letter.
- Git.GitState.TakeDue: due batches are handed on in an unspecified order; the source visits them in the dictionary's insertion order. The same holds for NoteGit.NoteGitState.TakeDue.
- Git.OptionsOf: the numeric options that `_cfg_float` reads (debounce, time-outs, back-off) arrive as numbers in `Timing`. `_cfg_float`'s fall-back on unparsable text is not modelled, and neither is `_git_environment`, which builds the SSH command.
- CommitMessage.BuildCommitMessage: the formatted time `datetime.now().strftime(fmt)` is the parameter `stamp`.
- PlasmaSync.PlasmaSyncState.UpdateStateFromText: SHA-256 digests are taken as injective, so the model keeps the normalised text where the source keeps its digest. The same holds for the bold-item fingerprint `_items_hash` and for PlasmaTodoSync.TodoSync.UpdateStateFromText.
- PlasmaSync.PlasmaSyncState.InitFromDiskOnce: the file contents are parameters. The exceptions the start-up read swallows are not modelled.
- The handlers `_from_markdown`, `_from_main_plasma` and `_from_bold_mirror` (lucy_notes_manager/modules/plasma_sync.py:778-919) and `_from_todo` and `_from_plasma` (plasma_todo_sync.py:415-473) are not part of this model. They are file reads and writes around the modelled converters and routing.
- The HTML writers `_bold_items_to_plasma_html` and `_boldaware_lines_to_plasma_html` (lucy_notes_manager/modules/plasma_sync.py:495-527, 577-621) are not part of this model. HTML tokenising, `html.escape` and character references are replaced by the events of `Html`.
- Git commands, `subprocess` results, the worker threads, queues and locks, desktop notifications and file reads and writes are not part of this model. Their outcomes are parameters: for example `NoteGit.NoteGitState.Push` takes the push result, and `Cmd.Apply` takes the command runner.
- Floating-point arithmetic is replaced by exact `real`s in PushBackoff and Throttle. Times are parameters.

## Findings

| source | as written | input that shows it | evidently intended | confidence | as-written member | corrected member |
|---|---|---|---|---|---|---|
| lucy_notes_manager/lib/args.py:103-110 | `--config_path` is parsed with `nargs="+"`, so its value is a list, and that list is passed to `open` | start-up arguments `--config_path notes.cfg` | the first value names the config file that is read | not executed | Args.SetupArgsAsWrittenRejectsGivenPath | Args.SetupArgsReadsGivenPath |
| lucy_notes_manager/change_handler.py:27-79 | `system_args` and `modules_args` are set only when `args` is non-empty, but every event reads them | a handler built with no args, then any event that passes the filters | missing args read as empty | not executed | ChangeHandling.EventArgsAsWrittenFailsWithoutArgs | ChangeHandling.EventArgs |
| lucy_notes_manager/change_handler.py:84-107 | hooks are called as `method(args=..., event=...)`, but the renamer, the git module and every inherited hook take `(ctx, system)` | a modified event on a note, with the renamer in the pipeline and not excluded | every selected module's hook is called | not executed | ChangeHandling.DispatchFailsWithRenamer | ChangeHandling.ChangeHandler.ProcessFile |
| lucy_notes_manager/change_handler.py:105-107 | `deleted` is called as `deleted(event=..., args=...)` on every module, which the git module's `(ctx, system)` hook refuses | any deletion with the git module registered | every module's `deleted` hook runs | not executed | ChangeHandling.DeletedFailsWithGit | ChangeHandling.ChangeHandler.OnDeleted |
| lucy_notes_manager/modules/plasma_todo_sync.py:166-229 | the reader keeps the "\n" data the writer puts between paragraphs, so an empty line appears between every two lines it reads back | the todo text "a\nb" written to the note and read back gives "a\n\nb" | the note reads back as the text written into it, as plasma_sync.py's reader does by ignoring whitespace between blocks | not executed | PlasmaTodoSync.AsWrittenRoundTripFails | PlasmaHtml.RoundTrip |
