# esmero, modelled in Dafny

esmero is a command-line static-site builder. Its `build` command walks a site
directory. It splits off every subdirectory that holds its own
`esmero.config` as a separate *zone*. For each zone it collects the lexor
sources (`.lex` files), reads the zone's theme templates and rebuilds the
html page of every source that is out of date. Its `config` command reads or
sets one dotted key of the JSON configuration file. The `esmero` program
first rewrites its argument vector so that a missing input path becomes `.`
and a missing subcommand becomes `build`.

This project models four pieces of that logic. The filesystem, the
environment, the clock, the lexor document engine and the regular-expression
engine are inputs.

- **Zone discovery and the build queue** (`discovery.dfy`, module
  `Discovery`).
  - The directory tree is an `Entry` datatype.
  - The walk (`VisitDir`, `VisitAll`, `CollectFile`) is a set of loop methods
    proved equal to the functions `Walk`/`WalkAll`.
  - `_append_queue` is the class `QueueBuilder`. Its `queue` field is appended
    to, and the field is proved equal to the function `Queue`.
- **Theme templates, rebuild scheduling, page metadata and the search path**
  (`theme.dfy`, `site.dfy`, `site_properties.dfy`; modules `Theme`, `Site`,
  `SiteProperties`).
  - The class `Site` holds what a build changes: the modification times, the
    html files written, and `LEXORINPUTS`.
  - Each of its methods is proved to produce the same world and outcome as a
    specification function.
  - The properties are lemmas about those functions.
- **Configuration** (`config_file.dfy`, `config_command.dfy`, `values.dfy`;
  modules `ConfigFile`, `ConfigCommand`, `Values`).
  - The location of the configuration file is a decision table.
  - `get_cfg` layers defaults, then file values, then command-line arguments.
    Its map-filling loops are methods proved against the functions
    `SectionFor`, `Layered` and `WithArgs`.
  - The module-level `CONFIG` record is the class `Registry`.
  - The dotted-key walk of `config` is a loop method proved against `Walk`.
- **Argument pre-parsing** (`argv.dfy`, module `Argv`).
  - `sys.argv` is the class `CommandLine`. `PreparseArgs` rewrites it in
    place and is proved equal to the function `Preparsed`.
  - The option-arity table is a nested loop proved against `OptionArity`.

`outcomes.dfy` holds the `Result`/`Option` types. A raised exception is
`Uncaught(reason)`; an `error(...)` call (exit code 2) is `Exit(code, msg)`.
`text.dfy` holds the string operations of the Python library that the code
relies on, with their edge cases written out: `endswith`, substring `in`,
`[:-n]`, `os.path.basename`, `os.path.join` and `split('.')`.

## Model

| member | source | states |
|---|---|---|
| Text.DropLast | esmero/command/build.py:129 | `s[:-n]`: the result followed by the last n characters is s; a string shorter than n gives "" |
| Text.BasenameIsLastComponent | esmero/command/build.py:130 | `os.path.basename`: a suffix of the path with no '/', preceded by a '/' whenever it is shorter than the path |
| Text.PathJoinEndsWith | esmero/command/build.py:90 | joining a directory and a name keeps the name's suffix, so a joined `.lex` name still ends in `.lex` |
| Text.ContainsOccurs | esmero/command/build.py:97 | `bfile in name`: the substring test holds exactly when the filter occurs at some position of the path |
| Text.SplitDots | esmero/command/config.py:120 | `split('.')` gives at least one piece, no piece holds a dot, and there is one piece more than there are dots |
| Text.JoinSplit | esmero/command/config.py:120 | joining the pieces of a dotted name with dots gives the name back |
| Text.SplitJoin | esmero/command/config.py:120 | splitting the dotted join of dot-free pieces gives the pieces back |
| Values.Put | esmero/command/config.py:132-136 | after a node is replaced at an existing path, that path leads to the new node |
| Values.AtAppend | esmero/command/config.py:127-129 | following a path and then one more key through a section is following the longer path |
| Values.PutPrefixSections | esmero/command/config.py:132-138 | replacing a node leaves every shorter prefix of its path leading to a section |
| Values.PutFrame | esmero/command/config.py:132-136 | replacing a node changes only the top-level entry of the path's first key |
| Values.AtConcat | esmero/command/config.py:127-129 | following `a + b` is following `a`, then `b` from the node reached |
| Values.PutInside | esmero/command/config.py:132-136 | below a replaced node, the new node's contents are found |
| Values.PutDeepFrame | esmero/command/config.py:132-136 | replacing a node keeps every sibling of every node along its path: leaving the path at depth j by a key other than its j-th reaches the same value as before |
| ConfigCommand.Step | esmero/command/config.py:127-138 | one turn of the key loop either fails or leaves the path through key i reachable in a section |
| ConfigCommand.Walk | esmero/command/config.py:126-138 | after i turns the path keys[..i] is reachable in a section, unless a turn raised a TypeError |
| ConfigCommand.Command | esmero/command/config.py:139-153 | without a value the command never writes the file; with a value it always writes it when it succeeds |
| ConfigCommand.DescendKeys | esmero/command/config.py:124-138 | the `parent`/`crt` loop yields exactly the contents `Walk` describes, or its TypeError |
| ConfigCommand.Execute | esmero/command/config.py:118-153 | the command on the split dotted name yields exactly `Command`'s outcome |
| ConfigCommand.WalkFresh | esmero/command/config.py:126-138 | the node the walk reaches is either the file's own node there or a section it created empty |
| ConfigCommand.WalkKeepsExisting | esmero/command/config.py:127-129 | a path that the file already has is walked without any change to the contents |
| ConfigCommand.WalkFrame | esmero/command/config.py:126-138 | the walk changes no top-level entry except the first key's |
| ConfigCommand.StepDeepFrame | esmero/command/config.py:127-138 | one turn of the key loop keeps every sibling of every node along the path, at every depth |
| ConfigCommand.WalkDeepFrame | esmero/command/config.py:126-138 | the whole key loop keeps every sibling of every node along the path, at every depth |
| ConfigCommand.WalkErrSticks | esmero/command/config.py:131-136 | once a turn raises, the walk ends in that same failure |
| ConfigCommand.ReadShowsStoredValue | esmero/command/config.py:139-146 | without a value, v is shown exactly when the file holds v at the dotted path |
| ConfigCommand.ReadMissingShowsNothing | esmero/command/config.py:144-145 | without a value and with nothing at the path, a successful command prints nothing |
| ConfigCommand.SetStoresValue | esmero/command/config.py:147-153 | with a value, the written file holds it at the dotted path and every shorter prefix is a section (missing ones created) |
| ConfigCommand.SetKeepsOtherSections | esmero/command/config.py:126-153 | with a value, every top-level entry other than the first key's is written back unchanged, and so is every sibling of every node along the dotted path (setting `a.b.c` keeps `a.x` and `a.b.y`) |
| ConfigCommand.SetLeavesSibling | esmero/command/config.py:126-153 | with a value, leaving the dotted path at depth j by a key other than the j-th reaches the same value in the written file as in the file read |
| ConfigCommand.SetOverStringReplacesIt | esmero/command/config.py:149-152 | a string at the parent path is replaced by a section holding only the new key |
| ConfigCommand.StringContainingKeyFails | esmero/command/config.py:127-129 | a string in the middle of the path that contains the next key makes the command fail in both modes |
| ConfigFile.LocateOutcomes | esmero/command/config.py:79-95 | the only `Exit` is an explicit directory without `esmero.config`, with code 2; other failures need HOME to be unset; the file is `esmero.config` or `$HOME/.esmero.config` |
| ConfigFile.LocateRows | esmero/command/config.py:82-95 | each row of the location table: user file; `./esmero.config`; `$ESMERO_CONFIG_PATH`; `$HOME/.esmero.config`; the given directory |
| ConfigFile.MissingFileReadsEmpty | esmero/command/config.py:96-100 | a missing or unreadable file reads as `{}` |
| ConfigFile.Registry.ReadConfig | esmero/command/config.py:79-103 | returns the chosen file's contents and records its directory and name in CONFIG; a failure records nothing |
| ConfigFile.Registry.GetCfg | esmero/command/config.py:185-213 | returns `Resolved` on the file read at the chosen directory; records the file's directory and name when the read succeeds and keeps them when it fails; clears the stored arguments on success and keeps them on failure |
| ConfigFile.Registry.ConfigRun | esmero/command/config.py:116-153 | runs `Command` on the file read; after a set, the file at the recorded location holds the new contents, and otherwise no file changes; records the file's directory and name when the read succeeds; the stored arguments and the location options are unchanged |
| ConfigFile.AddSections | esmero/command/config.py:187-206 | the `esmero` section, then the requested sections, equal to `Layered` |
| ConfigFile.AddSection | esmero/command/config.py:199-201 | one section is replaced by its defaults overwritten by the file's values, or the file's failure |
| ConfigFile.AddListed | esmero/command/config.py:197-201 | the loop over a list of names equals `WithSections`, stopping at the first failure |
| ConfigFile.ApplyArgs | esmero/command/config.py:207-211 | the argument layer equals `WithArgs`: the subcommand's section when present, then `esmero` |
| ConfigFile.UpdateSingle | esmero/command/config.py:156-168 | the section gains every default, expanded, over its previous entries |
| ConfigFile.AddDefaults | esmero/command/config.py:158-166 | the loop over the defaults yields the section overwritten by the expanded defaults |
| ConfigFile.UpdateFromFile | esmero/command/config.py:171-175 | the section gains the file section's expanded values; a file section that is not an object raises |
| ConfigFile.AddFileValues | esmero/command/config.py:174-175 | the loop over the file values yields the section overwritten by them, or fails when one cannot be expanded |
| ConfigFile.UpdateFromArg | esmero/command/config.py:178-182 | the section named by `key` becomes `Override` of itself; nothing else changes |
| ConfigFile.OverrideSection | esmero/command/config.py:180-182 | the loop over a section's keys yields `Override` of the section |
| ConfigFile.EsmeroSectionLayers | esmero/command/config.py:187-196 | the `esmero` section starts from `path` = "", holds the file's own entries unexpanded, and has `root` set to the config directory whatever the file says |
| ConfigFile.SectionPrecedence | esmero/command/config.py:156-175 | a section's keys are the default keys and the file keys; file values win and are expanded; other keys keep their expanded default |
| ConfigFile.SectionFailure | esmero/command/config.py:171-175 | a section fails exactly when the file's section is not an object or holds a value that cannot be expanded |
| ConfigFile.EsmeroAloneAddsNothing | esmero/command/config.py:202-206 | `get_cfg('esmero')` yields the `esmero` section alone |
| ConfigFile.SeveralSections | esmero/command/config.py:197-201 | with a list of names the result holds exactly `esmero` and the listed names, each section as `SectionFor` makes it |
| ConfigFile.OverrideOnlyExisting | esmero/command/config.py:178-182 | arguments replace only keys the section already has, and only with values that are not None |
| ConfigFile.ArgsTouchTwoSections | esmero/command/config.py:207-211 | the arguments change only the subcommand's section and `esmero`; no section is added or removed |
| Argv.GetArgparseOptions | esmero/__main__.py:28-37 | the nested loop yields exactly `OptionArity` of the actions |
| Argv.AddOptionsMeaning | esmero/__main__.py:32-36 | the option strings of one action are added with that action's arity; other entries keep theirs |
| Argv.OptionArityKeys | esmero/__main__.py:31-36 | a string is in the table exactly when some action answers to it |
| Argv.OptionArityLastWins | esmero/__main__.py:33-36 | a string's arity is 1 for an action without a type and 2 with one, from the last action answering to it |
| Argv.EsmeroOptionTable | esmero/__main__.py:92-105 | esmero's own table: `--debug-path` and `--cfg` take 2 tokens; `-h`, `--help`, `-v`, `--version`, `--debug` take 1; nothing else is listed |
| Argv.SkipOptions | esmero/__main__.py:49-50 | skipping options stops at a token that is not an option, or runs out past the end of argv |
| Argv.CommandLine.PreparseArgs | esmero/__main__.py:40-68 | argv is rewritten in place to `Preparsed` of the original argv |
| Argv.PreparseOnlyInserts | esmero/__main__.py:40-68 | the original argv is a subsequence of the result, which is at most two tokens longer |
| Argv.NoPositionalOnlyInserts | esmero/__main__.py:62-68 | the IndexError path only appends and inserts, adding one or two tokens |
| Argv.AtPositionalOnlyInserts | esmero/__main__.py:55-68 | the positional path only inserts, adding at most two tokens |
| Argv.FinishOnlyInserts | esmero/__main__.py:58-68 | the last step adds at most one token and keeps the argv a subsequence |
| Argv.NoPositionalAppendsDefaults | esmero/__main__.py:62-68 | with only global options, `. build` is appended, or `build .` when the last option lacked its value |
| Argv.BareProgramName | esmero/__main__.py:62-68 | `[prog]` becomes `[prog, '.', 'build']` |
| Argv.LeadingUnknownOption | esmero/__main__.py:51-54 | an unknown option in position 1 gets `. build` inserted before it |
| Argv.PathGetsDefaultCommand | esmero/__main__.py:58-64 | a positional that is not a subcommand gets `build` right after it, unless a subcommand follows |
| Argv.CommandGetsDefaultPath | esmero/__main__.py:60-68 | a subcommand in the positional slot gets `.` right before it |
| Argv.ExplicitCommandUnchanged | esmero/__main__.py:58-59 | a positional already followed by a subcommand leaves argv unchanged |
| Argv.DefaultsGetsPath | esmero/__main__.py:56-68 | `defaults` gets `.` before it; when it is not a subcommand, `build` lands between them |
| Discovery.HiddenNames | esmero/command/build.py:65-72 | the built-in skip/ignore pattern matches exactly the names starting with `_` or `.` |
| Discovery.PatternFor | esmero/command/build.py:65-72 | no key gives the built-in pattern; a string is taken as the configured pattern; any other value raises |
| Discovery.VisitDir | esmero/command/build.py:73-101 | visiting a directory yields exactly `Walk`: its candidates and zones, then those below the subdirectories it descends into |
| Discovery.CollectFile | esmero/command/build.py:85-98 | one non-ignored file contributes `FileCandidates` |
| Discovery.VisitAll | esmero/command/build.py:100-101 | walking the allowed subdirectories in order yields exactly `WalkAll` |
| Discovery.GatherLexorFiles | esmero/command/build.py:60-102 | equals `Gather`: the configuration, the candidate files and the child zones, or a pattern failure |
| Discovery.QueueBuilder.AppendQueue | esmero/command/build.py:105-111 | the queue grows by exactly `Queue` of the zone, or the failure is reported |
| Discovery.QueueBuilder.AppendZones | esmero/command/build.py:110-111 | the queue grows by the children's queues in order, or the first failure is reported |
| Discovery.BuildLexorList | esmero/command/build.py:114-120 | the list returned is exactly `Queue` of the walked path |
| Discovery.CandidatesWithoutFilters | esmero/command/build.py:85-90 | without filters, the candidates are exactly the joined paths of the non-ignored files ending in `.lex` |
| Discovery.CopiesOfMatchingFilters | esmero/command/build.py:91-98 | with filters, a path is added exactly as many times as there are filters that are substrings of it when it ends in `.lex`, and not at all otherwise |
| Discovery.CandidatesWithFilters | esmero/command/build.py:91-98 | with filters, the candidates are exactly the joined paths of the non-ignored files that end in `.lex` and contain some filter |
| Discovery.ContributionHit | esmero/command/build.py:91-98 | with filters, one entry contributes a path exactly when it is a non-ignored file whose joined path ends in `.lex` and contains some filter |
| Discovery.FilteredCandidateSource | esmero/command/build.py:91-98 | every filtered candidate comes from a non-ignored file whose joined path it is, ending in `.lex` and containing some filter |
| Discovery.FilteredHitIsCandidate | esmero/command/build.py:91-98 | every non-ignored file whose joined path ends in `.lex` and contains some filter is a candidate |
| Discovery.CandidatesAreLex | esmero/command/build.py:85-98 | every candidate of a directory ends in `.lex` and contains some filter when filters are given |
| Discovery.CopiesAreCandidates | esmero/command/build.py:92-98 | every copy ends in `.lex` and contains one of the filters |
| Discovery.WalkFilesAreLex | esmero/command/build.py:73-101 | every file a walk collects ends in `.lex` and contains some filter when filters are given |
| Discovery.WalkAllFilesAreLex | esmero/command/build.py:100-101 | the same for the walk of the allowed subdirectories |
| Discovery.ZonesExactly | esmero/command/build.py:75-81 | a subdirectory is a child zone exactly when it holds `esmero.config`, whatever its name |
| Discovery.AllowedExactly | esmero/command/build.py:75-83 | the walk descends exactly into subdirectories without `esmero.config` whose names the skip pattern does not match |
| Discovery.QueueShape | esmero/command/build.py:105-120 | the queue fails exactly when the patterns cannot be read; its first entry is the walked zone; every entry carries the configuration read at the start |
| Discovery.QueueAllShape | esmero/command/build.py:110-111 | the queues of child zones succeed and carry the configuration read at the start |
| Discovery.QueueAllPrefix | esmero/command/build.py:110-111 | the queues of the first children are a prefix of the queue of them all |
| Discovery.FirstChildFollows | esmero/command/build.py:105-111 | the first child zone's entry comes right after its parent's, filtered by the files gathered for the parent |
| Discovery.SecondEntry | esmero/command/build.py:105-111 | the second entry of a zone's queue is the first entry of its first child zone's queue |
| Theme.IncludeTag | esmero/command/build.py:153 | the include tag is the theme name followed by `:include` |
| Theme.Target | esmero/command/build.py:158 | an include's target is its first child's text; it fails exactly when there is no first child or it is an element |
| Theme.Splice | esmero/command/build.py:153-163 | the splice fails exactly when some include in the document has no target |
| Theme.ResolveAllAppend | esmero/command/build.py:157-163 | splicing works node by node, so the nodes around an include keep their order |
| Theme.IncludeCases | esmero/command/build.py:158-163 | an include naming an auxiliary document becomes its nodes; one naming an unknown document is left in place |
| Theme.SettledUnchanged | esmero/command/build.py:157-163 | nodes without a resolvable include are left as they are |
| Theme.ResolveSettles | esmero/command/build.py:157-163 | after a successful splice with settled auxiliary documents, no resolvable include remains |
| Theme.ResolveIdempotent | esmero/command/build.py:157-163 | splicing twice is splicing once, under the same conditions |
| Theme.EmptyIncludeFails | esmero/command/build.py:158 | a childless include fails the whole splice |
| Site.Setting | esmero/command/build.py:173 | a setting is read exactly when present and a string |
| Site.Write | esmero/command/build.py:193 | writing a file stamps it with the current time, stores the contents and changes nothing else |
| Site.ThemeReading | esmero/command/build.py:129-150 | reading a theme file fails when its source is missing |
| Site.Site.ReadAux | esmero/command/build.py:143-150 | the loop over a theme's auxiliary files yields exactly `ScanAux` |
| Site.Site.ReadThemeFile | esmero/command/build.py:129-150 | reading one theme file yields exactly `ThemeReading` |
| Site.Site.ReadTheme | esmero/command/build.py:128-163 | one turn of the theme loop changes the disk and returns exactly as `ThemeFile` says |
| Site.Site.GetThemeTemplates | esmero/command/build.py:123-164 | the theme loop changes the disk and returns exactly as `ScanThemes` says |
| Site.Site.BuildFile | esmero/command/build.py:167-195 | the page `Built` describes is written to the file's html path, or nothing changes and the failure is returned |
| Site.Site.BuildSite | esmero/command/build.py:198-228 | the theme, then each file in order, exactly as `SiteBuild` says |
| Site.Site.Run | esmero/command/build.py:231-247 | LEXORINPUTS is read once, the queue is built, then every zone is built as `RunAll` says |
| Site.Site.RunZones | esmero/command/build.py:238-247 | the loop over the zones equals `RunAll` |
| Site.Site.RunOne | esmero/command/build.py:239-247 | one zone: its search path is set, then its site is built, as `RunZone` says |
| Site.Site.SetInputs | esmero/command/build.py:240-244 | only LEXORINPUTS changes |
| Site.Site.Store | esmero/command/build.py:193 | the disk changes exactly as `Write` says |
| SiteProperties.RebuildDecision | esmero/command/build.py:204-227 | the first reason that applies wins: theme change, then force, then a missing or strictly older html file; equal times skip; a missing source with an html file raises |
| SiteProperties.OutputPathOfLex | esmero/command/build.py:217 | a lexor file's page is the file with `.lex` replaced by `.html`, and is never the file itself |
| SiteProperties.OutputPathNotLex | esmero/command/build.py:193 | every page name ends in `.html` and never in `.lex` |
| SiteProperties.OutputPathInjective | esmero/command/build.py:217 | two lexor files never share a page |
| SiteProperties.PageMetadata | esmero/command/build.py:173-183 | `version` is the template; `usepackage` is the template, then "," and the old value when there was one; other metadata is kept; the theme is the template's |
| SiteProperties.PageNeedsTemplate | esmero/command/build.py:173-182 | no `template` setting, or one naming no theme, makes the build fail (a KeyError on the template name) |
| SiteProperties.AuxScanSucceeds | esmero/command/build.py:143-148 | the auxiliary scan succeeds exactly when every auxiliary file can be read |
| SiteProperties.AuxScanNewer | esmero/command/build.py:143-150 | the scan reports a newer file exactly when some auxiliary file is newer than the html file |
| SiteProperties.AuxScanDocs | esmero/command/build.py:144-146 | the auxiliary documents are keyed exactly by the basenames (with `.lex`) of the auxiliary files |
| SiteProperties.ThemeStaleness | esmero/command/build.py:134-150 | a theme file is stale exactly when its html file is missing, older than it, or older than a file in the directory of the same name |
| SiteProperties.ThemeMarker | esmero/command/build.py:151-152 | a stale theme's html file is emptied and stamped with the current time; a fresh one changes nothing; the flag is this file's |
| SiteProperties.LastThemeDecides | esmero/command/build.py:134-164 | the flag returned is the staleness of the last theme file alone |
| SiteProperties.EarlierStaleThemeIsForgotten | esmero/command/build.py:128-164 | with a stale first theme and a fresh second one, the first html file is emptied yet the returned flag is false |
| SiteProperties.BuildOneWrites | esmero/command/build.py:204-227 | building one file writes its html page or nothing |
| SiteProperties.BuildTouchesOnlyPages | esmero/command/build.py:204-228 | building a zone's files changes only their html pages and never LEXORINPUTS |
| SiteProperties.BuildKeepsSources | esmero/command/build.py:193 | no build changes the modification time of a `.lex` file |
| SiteProperties.BuiltPageIsFresh | esmero/command/build.py:216-224 | a page just built is up to date, so a file listed twice is not rebuilt for a file change |
| SiteProperties.ThemesKeepInputs | esmero/command/build.py:123-164 | reading the themes never changes LEXORINPUTS |
| SiteProperties.RunSetsZonePath | esmero/command/build.py:233-244 | after a run, LEXORINPUTS is the last zone's `lexor-path`, then ":" and the startup value when it was non-empty; earlier zones' paths do not accumulate |

## Left out

- The filesystem is an input, and every write to it succeeds (see `Site.Write` and `ConfigFile.Registry.ConfigRun` below).
  - The directory tree under the walked path is a snapshot (`Discovery.Entry`).
  - Modification times are a map of integers, and the model compares these instants. The code compares the naive local times `datetime.fromtimestamp` returns (`esmero/command/build.py:138`, `:149`, `:220`). Those can disagree with the instants in the hour repeated when daylight saving time ends: an html file written at 01:50 before the change is then "newer" than a source edited at 01:10 after it, and the code skips the rebuild the model does. That repeated hour is not modelled.
  - Glob results are a map from directory to the `.lex` paths inside it, in listing order.
  - Parsed lexor documents are a map from path to `Doc`.
  - The walk's tree and the build's disk are independent inputs.
- The lexor engine (`lexor()`, `core.Parser`, `core.Writer`, `clone_node`, the converter namespace) is not part of this model. Documents are a metadata map and a sequence of `Node`s. A written page is recorded as an `Output` value, not serialised.
- Theme.Splice: the include splice is computed on values. `extend_before`/`del` and the parent and ownership links of lexor nodes (an auxiliary node moved rather than copied) are not modelled.
- Theme.Target: an include whose first child is an element is modelled as a failure. In lexor such a child may have a `data` attribute.
- Regular expressions read from the configuration are decided by a caller-supplied `Matcher`. Only the built-in `_.*|[.].*` is concrete.
- Discovery.PatternFor: a configured `skip-dir` or `ignore-file` string is taken as a compiled pattern whatever it holds. A string that is not a valid regular expression makes `re.compile` raise `re.error` (`esmero/command/build.py:66`, `:70`); the model has no such failure. `Discovery.ReadPatterns` and `Discovery.QueueShape` therefore fail only on a setting that is not a string.
- Discovery.Walk: the directory tree has no symbolic links. `os.walk` lists a symlinked subdirectory among `dirnames` but never descends into it; in the model every allowed `Dir` is walked.
- ConfigFile.Load: a configuration file is parsed to a top-level object (`Parsed` holds a map). A file whose top-level JSON value is an array or a scalar cannot be represented, so what the code then does with it (an error at the first key lookup or `in` test) is not modelled.
- ConfigFile.Registry.ConfigRun: writing the file back always succeeds. `write_config`'s `open(fname, 'w')` (`esmero/command/config.py:109`) raises IOError when the location's directory is missing or not writable, for instance with `cfg_user` set and HOME naming such a directory, where `read_config` has already read `{}` (`esmero/command/config.py:99-100`). The model then returns `Written` and stores the contents, where the code raises and nothing is stored.
- Site.Write: creating or overwriting an html file always succeeds. `open(html_file, 'w')` for a theme marker (`esmero/command/build.py:152`) and `docwriter.write` for a page (`esmero/command/build.py:193`) raise IOError on a missing or read-only directory; the model has no such failure, so `Site.Site.Store`, `Site.Site.ReadTheme`, `Site.Site.BuildFile` and the build lemmas treat every page and marker as written.
- Site.Site.Store: inherits `Site.Write`'s always-successful write; the IOError of `esmero/command/build.py:152` and `:193` is not modelled.
- `os.path.expandvars` is a caller-supplied function on strings. JSON arrays are kept as `Literal` values. So expanding an array, or walking through one in `config`, is modelled as a TypeError. Python would let an array through `expandvars` and take the string-replacement branch of the key loop.
- The environment is a map read by `Locate`, plus the `inputs` field of `Site`. HOME is looked up only where the code does.
- JSON parsing and `json.dump` are not modelled. A file that is not JSON is `Malformed` and raises. The text printed by `config` is the `Shown` outcome. Writing the file stores the new contents under the recorded location; a write that fails is not modelled (see `ConfigFile.Registry.ConfigRun` above).
- `print`, `sys.stderr.write`, the `-v` location message, the `L` logger and the debug log are not modelled, nor is the exception catch-all of the top-level `run` in `esmero/__main__.py`. These include the print at `esmero/command/build.py:245`.
- argparse itself is not modelled: parsing, subparser construction, `add_parser` functions, completers and module discovery. `PreparseArgs` takes the parser's actions and the subcommand names as inputs.
- The clock is the constant `now` of a `Site`. Every file written in one build gets the same time.
- `Site.Setting`: a `lexor-path`, `theme-path` or `template` setting that is not a string is modelled as a TypeError. Python formats a non-string `lexor-path` or `theme-path` with `%s`.
- `read_config` inside `gather_lexor_files` ignores the zone's path and reads the same file for every zone. The model takes that file's contents once, as the `top`/`cfg` parameter of `Queue` and `Site.Run`.
- `Site.Site.Run` receives `get_cfg(['build'])`'s result as a parameter. `ConfigFile.Registry.GetCfg` is what computes it.
- The `cfg_path is None` row of the location table is modelled and proved. The program never reaches it from the command line, because `--cfg` defaults to `.` and `run` stores that default.
- `setup.py`, `write_config`'s file formatting and the `ConfigDispAction` display are not part of this model.
