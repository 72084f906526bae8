# duck — a verified model of its decision logic

`duck` is a command-line tool for Go monorepos. It discovers the projects of
a workspace from their `app.yaml` files, or from Nx `project.json` files. It
orders the projects by their declared dependencies and runs workspace scripts
on them. It also scans Go manifests and imports to find the dependencies
between projects, and writes those back into each project's manifests.

This Dafny project models the tool's sequential decision logic and proves
what that logic promises. I/O, processes and the YAML/JSON decoders are
parameters of the model.

The model covers:

- **Resolver** (`resolver.dfy`, `kahn.dfy`): Kahn's algorithm with a sorted
  ready queue, `GetDependents` and `ValidateDependencies`. The methods keep
  the source's in-degree map, adjacency lists and queue. They are proved
  against `IsKahnOrder`, which says each emitted key was the smallest ready
  key when it was taken. `kahn.dfy` proves that this order is unique, that it
  is topological when it is complete, and that when it is incomplete no
  topological order exists at all.
- **Executor** (`executor.dfy`): project and script lookup, the
  disabled-script short-circuit, placeholder substitution, the working
  directory and the layered environment. It also covers how the outcome of
  the process becomes a result, and the fail-fast batch loop. The process is
  a function `run` from the launch (command, directory, environment) to its
  outcome. Cancellation is a predicate on the batch index.
- **Go scanners** (`goscanner.dfy`, `analyzer.dfy`): the go.mod line state
  machine, the import-declaration state machine, the import walk,
  base-package extraction and the enrichment of import paths.
- **Registry and graphs** (`registry.dfy`, `deps.dfy`, `gograph.dfy`): the
  scanner registry, the dependency-graph class and the Go graph builder.
- **Manifest sync** (`appyaml.dfy`, `projectjson.dfy`, `merge.dfy`,
  `sync.dfy`, `json.dfy`): the line rewrite of app.yaml's `dependencies:`
  list, the quote scraping and document update of project.json's
  `implicitDependencies`, and the per-file error aggregation.
- **CLI logic** (`modulekey.dfy`, `run.dfy`, `utils.dfy`): module-path to
  project-key mapping, `run` target selection and its loop, filtering,
  grouping, key resolution and the `projectConfigFormat:` rewrite.
- **Nx and discovery** (`nx.dfy`, `projects.dfy`): dependency extraction,
  target conversion, the Nx loader and target scan, and the project scanner
  with its getters.
- **Shared support** (`text.dfy`, `paths.dfy`, `order.dfy`, `config.dfy`,
  `wrappers.dfy`): the parts of Go's `strings` and `path/filepath` that the
  core uses, string ordering with `sort.Strings`, the records, and a file
  system snapshot.

Files are sequences of lines, that is, their text split at `"\n"`. Go map
iteration order is unspecified. Where the source iterates a map, the model
either picks an order with `:|` or returns it as a ghost out-parameter, and
every property is stated for all orders.

Behaviour of the code that the model keeps, and proves where it matters:

- `// indirect` written with a space (the usual go.mod spelling) leaves a
  dependency direct. Only `//indirect` as the third field marks it indirect
  (`GoScanner.IndirectMarker`).
- `replaceVariables` substitutes the placeholders in map order. When a
  project's value itself holds a placeholder, the result depends on that
  order (`Executor.OrderMatters`).
- In `mapGoModuleToProjectKey`, the checks with a leading "/" are implied by
  the ones without. A key that merely ends the module path therefore matches
  even inside a path element (`ModuleKeys.MatchesSimplified`).
- A project whose namespace holds a "/" is also listed under the first part
  of that namespace by `GetProjectsByNamespace` (`ProjectScanner.NestedNamespace`).
- In app.yaml, a comment inside the dependency list ends the rewrite's skip,
  but not the first pass's collection. The items after the comment are
  merged into the new list and are also kept where they were
  (`AppYaml.CommentSplitsList`).
- In project.json, an empty list on the key line counts as the key line,
  because the key test comes first. This holds for `"implicitDependencies":
  null,`, which the program itself writes for an empty list, and for
  `"implicitDependencies": [],`. The scrape then reads quoted text from the
  following lines until a line holding `]`. For example, it picks up
  `name": "app` from a following `"name": "app",` line
  (`ProjectJson.EmptyListScrapesNext`, `ProjectJson.EmptyListScrapesNameKey`).
- A project.json whose whole text is `null` decodes to a nil map. Setting
  the list key in that map panics, so the sync stops there instead of
  reporting an error (`ProjectJson.NullDocumentPanics`,
  `Sync.SyncReportsFailures`).
- go.mod that exists but cannot be opened fails with "failed to open
  go.mod". One that opens but cannot be read, such as a directory of that
  name, fails with "error reading go.mod" (`GoScanner.ScanFailures`).
- In Nx configurations:
  - `replaceNxVariables` changes only `{workspaceRoot}`, and its
    `projectRoot` argument is unused;
  - a `dependsOn` entry `^build` is read as a project named `build`
    (`Nx.CaretTarget`);
  - `ScanNxTargets` keeps an empty command as it is, unlike
    `ConvertNxTargetsToScripts`;
  - the `targetNames` map that `ScanNxTargets` fills is never read.
- `RunScript` selects only existing projects and checks the script before
  running. The "execution failed" path of its loop therefore cannot be
  reached from `RunScript` (`Run.SelectedKnown`).
- `NewGraphBuilder` registers the Go scanner into a registry, but
  `BuildGraph` calls the scanner directly and never consults the registry.

Enrichment looks up each dependency's target by exact equality with a base
package (internal/dependencyscanner/go/analyzer.go:38). The `--parallel`
flag is declared in internal/cli/app.go:80-83 but never read, so every run
is sequential.

## Model

| member | source | states |
|---|---|---|
| Kahn.KahnOrderUnique | internal/resolver/resolver.go:75-103 | two orders that each always take the smallest ready key are equal: the resolver's order is deterministic |
| Kahn.KahnComplete | internal/resolver/resolver.go:105-110 | a smallest-ready-key order that has emitted every project is topological: each key exactly once, after all its dependencies |
| Kahn.KahnIncomplete | internal/resolver/resolver.go:105-108 | a smallest-ready-key order that stops short of the project count means no topological order exists (a cycle) |
| Kahn.KahnDistinct | internal/resolver/resolver.go:75-81 | an emitted order has no duplicates, holds only project keys and is no longer than the project map |
| Kahn.TopologicalKnown | internal/resolver/resolver.go:46-51 | a topological order exists only when every dependency names a project |
| Kahn.PendingZero | internal/resolver/resolver.go:86-88 | a project's count of not-yet-emitted dependencies is zero exactly when all of them have been emitted |
| Resolver.ResolveExecutionOrder | internal/resolver/resolver.go:30-111 | a missing dependency is reported with the project and the absent key; otherwise success exactly when the order is topological and smallest-ready-first, with `Dependencies` mapping each project with dependencies to its declared list; the cycle error only when no topological order exists |
| Resolver.CollectEdges | internal/resolver/resolver.go:36-60 | either an edge to an absent project is reported, or every dependency is known, the graph has one edge per declared dependency, in-degrees count them and the recorded lists are the declared ones |
| Resolver.RecordDependencies | internal/resolver/resolver.go:47-59 | for one project: stops at the first dependency that is not a project, or adds an edge from each dependency, raises the in-degree by the list length and records the list |
| Resolver.InitialQueue | internal/resolver/resolver.go:63-73 | the seeded queue is strictly increasing and holds exactly the projects with no dependencies |
| Resolver.InsertSorted | internal/resolver/resolver.go:89-100 | a newly ready key is inserted before the first larger key, or at the end |
| Resolver.Release | internal/resolver/resolver.go:83-102 | after releasing the dependents of the emitted key, each in-degree counts the dependencies not yet emitted and the queue is sorted and holds exactly the ready keys |
| Resolver.EmitNext | internal/resolver/resolver.go:75-102 | one step emits the least ready key and keeps the loop invariant: sorted ready queue, pending in-degrees, dependency-closed output, smallest-ready-first prefix |
| Resolver.Drain | internal/resolver/resolver.go:75-103 | the main loop ends with a smallest-ready-first order after which no key is ready |
| Resolver.HeadIsLeastReady | internal/resolver/resolver.go:77-78 | the head of a sorted queue of exactly the ready keys is the least ready key |
| Resolver.GetDependents | internal/resolver/resolver.go:114-128 | strictly increasing, and holds exactly the projects whose dependency list contains the key |
| Resolver.ListsDependency | internal/resolver/resolver.go:117-124 | true exactly when the dependency list contains the key |
| Resolver.ValidateDependencies | internal/resolver/resolver.go:131-134 | no error exactly when every dependency is a project and a topological order exists |
| Resolver.Message | internal/resolver/resolver.go:50 | the missing-dependency message names the project and the dependency; the cycle message is "circular dependency detected" |
| Resolver.ScenarioTieBreak | internal/resolver/resolver.go:66-73 | projects b, a and c without dependencies run as a, b, c |
| Resolver.TieBreakOrder | internal/resolver/resolver.go:66-73 | a, b, c is the smallest-ready-first order of b, a, c and covers all three |
| Resolver.ScenarioChain | internal/resolver/resolver.go:53-59 | a dependency runs before its dependent, and `Dependencies` records only the project that has one |
| Resolver.ChainOrder | internal/resolver/resolver.go:75-103 | the order shared/db, core/svc is the smallest-ready-first order and the recorded map has only core/svc |
| Resolver.ScenarioCycle | internal/resolver/resolver.go:105-108 | two projects depending on each other give the cycle error |
| Resolver.MutualNotOrderable | internal/resolver/resolver.go:105-108 | two projects depending on each other have no topological order |
| Executor.Replacements | internal/executor/executor.go:185-190 | the substitution table covers exactly the four placeholders |
| Executor.ReplaceVariables | internal/executor/executor.go:184-198 | the result is `ReplaceAll` applied for each placeholder in some order of the map |
| Executor.NoVariablesUnchanged | internal/executor/executor.go:184-198 | a template holding no placeholder is returned unchanged, whatever the order |
| Executor.ExpandTemplate | internal/executor/executor.go:184-198 | when no literal text of the template and no substituted value holds a `{`, every occurrence of each placeholder is replaced by its value, whatever the map order |
| Executor.OrderMatters | internal/executor/executor.go:193-195 | with a namespace value that is itself `{projectName}`, the two iteration orders give different commands |
| Executor.AppendEntries | internal/executor/executor.go:96-101 | the environment grows by one `key=value` entry per map key, in some order of the map |
| Executor.LookupEntries | internal/executor/executor.go:96-101 | looking a name up in the appended entries finds the map's value exactly when the name is a key |
| Executor.EnvironmentPrecedence | internal/executor/executor.go:95-101 | a variable resolves to the project's value, else the script's, else the inherited one |
| Executor.CopyOutputEmpty | internal/executor/executor.go:201-206 | copied output is empty exactly when the stream was empty |
| Executor.CopyOutputText | internal/executor/executor.go:201-206 | without carriage returns, copying line by line gives the text with a final newline added when it lacks one |
| Executor.RecordOutcome | internal/executor/executor.go:104-152 | success exactly when the wait reported no error; on failure the error is stderr, else the process error; pipe and start failures give a failed result with their message; output is stdout |
| Executor.ExecuteScript | internal/executor/executor.go:43-155 | an unknown project, then an unknown script, is an error; a disabled script gives the disabled result and starts nothing; otherwise exactly one process is started with a launch of the source's shape, and its outcome is reported |
| Executor.ExecuteScriptResult | internal/executor/executor.go:44-52 | a result exactly when project and script exist; the lookup error otherwise |
| Executor.LaunchDirectory | internal/executor/executor.go:74-85 | an empty template gives the project path; an absolute expansion is used as is, and a relative one is joined under the project path by the cleaning `filepath.Join` |
| Executor.LaunchCommand | internal/executor/executor.go:88 | the command is the script's template with its placeholders expanded against the working directory |
| Executor.LaunchEnvironment | internal/executor/executor.go:95-101 | in the launched environment, project values win over script values, which win over the inherited ones |
| Executor.ExecuteScriptOnProjects | internal/executor/executor.go:158-181 | `results[i]` is the run on `projectKeys[i]`; the loop stops after the first failed result; cancellation before a project, or a lookup error, ends it with the results so far and that error |
| GoScanner.ParseDependency | internal/dependencyscanner/go/scanner.go:109-133 | no dependency exactly when there are no fields |
| GoScanner.ScanProject | internal/dependencyscanner/go/scanner.go:33-106 | the line loop computes the manifest state machine's result, or the open error, or the read error |
| GoScanner.ScanFailures | internal/dependencyscanner/go/scanner.go:34-38 | the scan fails exactly when go.mod cannot be read; an open failure and a read failure after opening give their own messages; a directory `CanScan` accepts can still fail to open or read |
| GoScanner.ManifestGrows | internal/dependencyscanner/go/scanner.go:51-99 | the scan only appends: dependencies found earlier keep their place |
| GoScanner.InRequireBlock | internal/dependencyscanner/go/scanner.go:90-98 | inside a require block, each non-blank, non-comment line adds the dependency of its fields, in order |
| GoScanner.RequireBlock | internal/dependencyscanner/go/scanner.go:60-98 | `require (` … `)` adds one dependency per line of the block, in file order, and closes the block |
| GoScanner.IgnoredLines | internal/dependencyscanner/go/scanner.go:76-98 | `replace` lines, and lines outside a block that are not `require`, change nothing |
| GoScanner.SingleRequire | internal/dependencyscanner/go/scanner.go:63-73 | `require M V` adds the direct dependency on M at version V with import path M |
| GoScanner.IndirectMarker | internal/dependencyscanner/go/scanner.go:123-125 | `//indirect` as third field marks the dependency indirect; `// indirect` with a space leaves it direct |
| GoScanner.ImportQuoted | internal/dependencyscanner/go/scanner.go:237-250 | a quoted import line gives the path without its quotes |
| GoScanner.ImportAliased | internal/dependencyscanner/go/scanner.go:237-250 | an aliased import line gives the path, not the alias |
| GoScanner.ParseImportsFromFile | internal/dependencyscanner/go/scanner.go:181-234 | the line loop computes the import state machine's result, or the read error |
| GoScanner.ImportBlock | internal/dependencyscanner/go/scanner.go:201-225 | `import (` … `)` adds every path of the block, in order, and closes it |
| GoScanner.SingleImport | internal/dependencyscanner/go/scanner.go:204-211 | `import "p"` adds p |
| GoScanner.StopsAtCode | internal/dependencyscanner/go/scanner.go:228-230 | outside a block, the first line that is not blank, a comment, a package clause or an import ends the scan |
| GoScanner.CollectedImports | internal/dependencyscanner/go/scanner.go:137-178 | the walk succeeds exactly when no entry failed and every parsed file was read; the imports are exactly those of the non-test `.go` files |
| GoScanner.CollectFailed | internal/dependencyscanner/go/scanner.go:140-168 | once the walk has failed, later entries change nothing |
| GoScanner.ScanImports | internal/dependencyscanner/go/scanner.go:137-178 | each collected import once, or the walk's error |
| Analyzer.LocalPackage | internal/dependencyscanner/go/analyzer.go:50-52 | a path without a dot is its own base package |
| Analyzer.ModulePackage | internal/dependencyscanner/go/analyzer.go:54-58 | a dotted path of at least three segments that `filepath.Join` keeps as they are has its first three segments as base |
| Analyzer.TwoSegmentPackage | internal/dependencyscanner/go/analyzer.go:54-60 | a dotted path of two segments is its own base |
| Analyzer.UsedBy | internal/dependencyscanner/go/analyzer.go:27-33 | the imports under a base package are exactly the imports whose base is that package, without duplicates when the imports have none |
| Analyzer.GroupByBase | internal/dependencyscanner/go/analyzer.go:27-33 | the grouping holds, for each base package used, exactly the imports under it |
| Analyzer.EnrichDependencies | internal/dependencyscanner/go/analyzer.go:35-41 | each dependency whose target is a used base gets exactly those imports as import paths; the others are unchanged |
| Analyzer.AnalyzeProjectDependencies | internal/dependencyscanner/go/analyzer.go:12-44 | the manifest error is returned as is and the import-scan error wrapped; otherwise the manifest's dependencies enriched by the project's imports |
| Analyzer.Enrichment | internal/dependencyscanner/go/analyzer.go:35-41 | enrichment changes only the import paths, and sets them to exactly the project's imports under the target when there are any |
| Registry.ScanProject | internal/dependencyscanner/scanner.go:24-32 | dispatches to the Go scanner's manifest scan, or the JavaScript stub's error |
| Registry.ScanDescribesProject | internal/dependencyscanner/scanner.go:16-21 | a scan result names the scanned path and the scanner's language; the JavaScript stub never succeeds |
| Registry.FirstScannerFound | internal/dependencyscanner/registry.go:26-33 | a scanner is found exactly when one can scan; it is the first such in registration order; otherwise the error names the path |
| Registry.ScannerFoundIff | internal/dependencyscanner/registry.go:26-33 | a scanner is found exactly when some registered scanner can scan the path, and otherwise the error names the path |
| Registry.ScanAllFailed | internal/dependencyscanner/registry.go:46-49 | once a scan has failed, later paths change nothing |
| Registry.ScanAllProjects | internal/dependencyscanner/registry.go:39-54 | the graph holds exactly the paths some scanner claims, each stored under its own path |
| Registry.ScannerRegistry.constructor | internal/dependencyscanner/registry.go:14-18 | a new registry has no scanners |
| Registry.ScannerRegistry.RegisterScanner | internal/dependencyscanner/registry.go:21-23 | appends the scanner, keeping registration order |
| Registry.ScannerRegistry.FindScanner | internal/dependencyscanner/registry.go:26-33 | the first registered scanner that can scan the path, or the error |
| Registry.ScannerRegistry.ScanProjects | internal/dependencyscanner/registry.go:36-55 | unclaimed paths are skipped, a failing scan aborts with its wrapped error and no graph, and otherwise a fresh graph of the scans |
| Registry.ScannerRegistry.ScanProjectsRecursive | internal/dependencyscanner/registry.go:58-78 | the same as ScanProjects on the base directory joined with each directory |
| Dependencies.DependencyGraph.constructor | internal/dependencyscanner/scanner.go:41-45 | a new graph has no projects |
| Dependencies.DependencyGraph.AddProject | internal/dependencyscanner/scanner.go:48-50 | stores the record under its path, replacing any previous one, and leaves the others unchanged |
| Dependencies.DependencyGraph.GetDependencies | internal/dependencyscanner/scanner.go:53-59 | the stored record exactly when the path is present; otherwise the error naming the path |
| Dependencies.DependencyGraph.GetProjectsWithDependencies | internal/dependencyscanner/scanner.go:62-68 | every stored record exactly once, in some order of the map |
| GoGraph.GraphBuilder.constructor | internal/dependencyscanner/go/graph.go:16-25 | the builder's registry holds exactly the Go scanner |
| GoGraph.GraphBuilder.BuildGraph | internal/dependencyscanner/go/graph.go:28-49 | skips directories the Go scanner cannot scan, aborts on the first analysis error, and otherwise gives a fresh graph of the analyses |
| GoGraph.BuildProjects | internal/dependencyscanner/go/graph.go:31-46 | the graph is keyed by exactly the scannable relative directories, each record's path set to that relative directory |
| GoGraph.BuildFailed | internal/dependencyscanner/go/graph.go:38-41 | after an analysis error, later directories change nothing |
| GoGraph.FindProjectDependencies | internal/dependencyscanner/go/graph.go:52-65 | the paths of the projects having a dependency on the package, in the records' order |
| GoGraph.DependentsOf | internal/dependencyscanner/go/graph.go:55-62 | a path is listed exactly when its record depends on the package; no duplicates when the paths are distinct |
| GoGraph.DependentsOfGraph | internal/dependencyscanner/go/graph.go:52-65 | over a graph keyed by path, the result is exactly the projects depending on the package, each once |
| AppYaml.ClassifyLines | internal/cli/commands.go:683-760 | each line is classified by its trimmed text as key, item, blank, comment or other |
| AppYaml.CollectExisting | internal/cli/commands.go:683-705 | the first pass computes whether a `dependencies:` line was found and the item names of its list |
| AppYaml.SkipOldItems | internal/cli/commands.go:737-747 | skips the run of items, and of blank lines followed by an item, after the key |
| AppYaml.AppendItems | internal/cli/commands.go:749-752 | appends one indented, quoted item per merged name |
| AppYaml.RebuildLines | internal/cli/commands.go:723-761 | the second pass computes the rebuilt file |
| AppYaml.UpdateAppYamlDependencies | internal/cli/commands.go:670-771 | the read error as it is, or the file with its list rewritten |
| AppYaml.ItemRoundTrip | internal/cli/commands.go:694-698 | a written item line reads back as the same name |
| AppYaml.CollectNoKey | internal/cli/commands.go:683-705 | without a `dependencies:` line nothing is collected |
| AppYaml.CollectItems | internal/cli/commands.go:693-699 | inside the list, items add their names |
| AppYaml.CollectBlock | internal/cli/commands.go:683-705 | a list closed by another line yields exactly its item names |
| AppYaml.CollectAcrossComment | internal/cli/commands.go:700-703 | a comment does not end the collection: items after it are collected too |
| AppYaml.RebuiltNoKey | internal/cli/commands.go:758-760 | lines after the list are copied as they are |
| AppYaml.SkippedItems | internal/cli/commands.go:738-747 | the skip covers exactly the run of items |
| AppYaml.RebuiltBlockFile | internal/cli/commands.go:723-761 | a file with one list gets its items replaced by the merged items in the key's indentation, and every other line stays |
| AppYaml.AppYamlAppended | internal/cli/commands.go:763-769 | without a `dependencies:` line, the key and the sorted given names are appended when there are any; the file is otherwise unchanged |
| AppYaml.AppYamlBlock | internal/cli/commands.go:683-771 | a file with one list is rewritten with the sorted union of its names and the given ones, each once; every other line stays |
| AppYaml.WrittenItems | internal/cli/commands.go:749-752 | the written items read back as items naming exactly the merged names |
| AppYaml.AppYamlAppendedIdempotent | internal/cli/commands.go:683-771 | updating twice with the same names gives the same file as once (file without a list) |
| AppYaml.AppYamlBlockIdempotent | internal/cli/commands.go:683-771 | updating twice with the same names gives the same file as once (file with one list) |
| AppYaml.CommentSplitsList | internal/cli/commands.go:700-747 | with a comment inside the list, the names after it are merged in and also kept after the comment |
| Merge.MergeDependencies | internal/cli/commands.go:707-721 | the existing and given names, each once, in increasing order |
| Merge.AddNames | internal/cli/commands.go:709-714 | the set of names grows by exactly the given names |
| ProjectJson.ClassifyJsonLines | internal/cli/commands.go:786-806 | each line is classified by its trimmed text as key line, closing, quoted text or other |
| ProjectJson.ScrapeExisting | internal/cli/commands.go:783-807 | the scrape computes the names quoted between the key line and the first line holding `]` |
| ProjectJson.UpdateProjectJsonDependencies | internal/cli/commands.go:776-842 | the read error as it is, a decoding error after the repair attempt, a panic when the document is `null`, or the decoded document with the list set to the merge |
| ProjectJson.ProjectJsonMerged | internal/cli/commands.go:809-842 | the written document keeps every other key and holds under the list key the scraped and given names, each once, sorted |
| ProjectJson.StringsSorted | internal/cli/commands.go:818-823 | an increasing list encodes as a sorted JSON string array of exactly its names, or `null` when empty |
| ProjectJson.RepairedUnchanged | internal/cli/commands.go:829-834 | the repair leaves a text without the mended layouts unchanged |
| ProjectJson.ScrapeListed | internal/cli/commands.go:783-807 | a well-formed list yields exactly its names |
| ProjectJson.ScrapeBeforeKey | internal/cli/commands.go:786-792 | nothing is scraped before the key line |
| ProjectJson.ScrapeStopsAt | internal/cli/commands.go:793-795 | the scrape ignores every line after it stops |
| ProjectJson.EmptyValueKeyLines | internal/cli/commands.go:788-792 | an empty list written on the key line, as the program's own `null` or as `[]`, is classified as the key line |
| ProjectJson.EmptyListScrapesNext | internal/cli/commands.go:788-805 | after any key line, and so after an empty inline list, the quoted text of the next line is scraped as a name |
| ProjectJson.EmptyListScrapesNameKey | internal/cli/commands.go:788-805 | an empty list written as `null` (as the program writes it) or as `[]`, followed by a `"name"` line, scrapes `name": "app` |
| ProjectJson.NullDocumentPanics | internal/cli/commands.go:826-842 | the update panics with the nil-map assignment exactly when the text, or its repair after a failed decode, decodes to `null` |
| Json.UnmarshalObject | internal/cli/commands.go:826-839 | an object fills the map, `null` leaves it nil, and any other value or a syntax error is an error |
| Json.StringSlice | internal/cli/commands.go:819-823 | a list built by appending encodes as `null` exactly when nothing was appended |
| Sync.SyncDependenciesToConfig | internal/cli/commands.go:624-667 | each present manifest is updated and written, failures are collected and reported together, neither file present is its own error, and a panic in the project.json update aborts the sync |
| Sync.WriteAppYaml | internal/cli/commands.go:641-647 | the app.yaml update followed by its write |
| Sync.WriteProjectJson | internal/cli/commands.go:650-656 | the project.json update followed by its write |
| Sync.SyncIndependent | internal/cli/commands.go:641-656 | what is written to each manifest depends on that file only, and so does whether the sync aborts |
| Sync.SyncReportsFailures | internal/cli/commands.go:641-666 | the sync aborts exactly when project.json is present and its update panics; otherwise no error exactly when a manifest is present and every present one succeeds, each failure is named in the error, and a successful update stands beside a failed one |
| ModuleKeys.ReadModuleName | internal/cli/commands.go:574-582 | the module is the trimmed rest of the first line starting with `module ` |
| ModuleKeys.BuildModuleTable | internal/cli/commands.go:562-585 | the table built over the projects in some map order |
| ModuleKeys.TableSound | internal/cli/commands.go:570-585 | every module of the table is declared by the project it maps to |
| ModuleKeys.TableComplete | internal/cli/commands.go:570-585 | every module a project declares is in the table |
| ModuleKeys.TableHas | internal/cli/commands.go:570-585 | the module of the i-th project visited is in the table, whatever order the rest are visited in |
| ModuleKeys.MapGoModuleToProjectKey | internal/cli/commands.go:562-621 | the project declaring the module when there is one; else a key accepted by the suffix or sub-package checks, or ""; never a key outside the map |
| ModuleKeys.FindMatch | internal/cli/commands.go:592-618 | the key of some module the checks accept, or "" when none does |
| ModuleKeys.MatchesSimplified | internal/cli/commands.go:596-614 | the checks reduce to: the path ends with the key, or is the module or one of its packages |
| Run.SelectTargets | internal/cli/commands.go:98-136 | unknown script is an error; `--all` gives the resolver's order or its wrapped error; `--project` resolves each name and fails on the first unknown; `--namespace` and `--tag` give the matching keys sorted; no flag is an error |
| Run.SelectAll | internal/cli/commands.go:105-111 | the resolver's topological order, or its error wrapped |
| Run.SelectProjects | internal/cli/commands.go:112-120 | each name resolved in order, or the error for the first unknown name |
| Run.SelectNamespace | internal/cli/commands.go:121-127 | the keys of the namespace's projects, strictly increasing |
| Run.SelectTags | internal/cli/commands.go:128-133 | the keys of the projects carrying every tag, strictly increasing |
| Run.RunTargets | internal/cli/commands.go:159-199 | runs each target in turn and stops at the first failure with "script failed on" its name, or at a lookup error |
| Run.RunScript | internal/cli/commands.go:92-203 | a selection error is returned; no target or a dry run runs nothing; otherwise the run loop's results and error |
| Run.SelectedKnown | internal/cli/commands.go:99-136 | every selected target is a project and the script exists, so the loop's lookups cannot fail |
| CliUtils.HasTag | internal/cli/utils.go:42-48 | found exactly when the tag is among the project's tags |
| CliUtils.HasAllTags | internal/cli/utils.go:39-56 | true exactly when every required tag is present |
| CliUtils.FilterProjects | internal/cli/utils.go:31-63 | keeps exactly the projects matching the namespace and every tag, under their keys; empty options keep all |
| CliUtils.OrganizeByNamespace | internal/cli/utils.go:65-74 | one group per namespace present, each holding exactly that namespace's projects |
| CliUtils.GroupsPartition | internal/cli/utils.go:65-74 | the group sizes sum to the number of projects |
| CliUtils.ResolveProjectKey | internal/cli/utils.go:125-139 | the identifier when it is a key; else a key whose project has that name; else not found |
| CliUtils.UpdateProjectConfigFormat | internal/cli/utils.go:80-114 | the read error wrapped, or the lines with the format line replaced or inserted |
| CliUtils.FirstWith | internal/cli/utils.go:89-96 | the index of the first line whose trimmed text has the prefix, or none |
| CliUtils.FormatIdempotent | internal/cli/utils.go:89-112 | updating twice with the same format gives the same lines as once |
| CliUtils.ReplacedStays | internal/cli/utils.go:89-96 | a replaced format line is still the first format line |
| CliUtils.InsertedStays | internal/cli/utils.go:98-111 | an inserted format line becomes the first format line |
| CliUtils.FormatLineTrimmed | internal/cli/utils.go:89-96 | a written format line is found again by the prefix test on its trimmed text |
| Nx.ExtractDependencies | internal/config/nx.go:65-102 | no duplicates, and exactly the names the `dependsOn` entries contribute |
| Nx.DepsOverMember | internal/config/nx.go:68-94 | a name is collected exactly when some visited target's `dependsOn` contributes it |
| Nx.AddProjectNames | internal/config/nx.go:78-84 | adds exactly the string elements of an object entry's `projects` list |
| Nx.AddEntries | internal/config/nx.go:70-92 | adds exactly the names the entries of one `dependsOn` list contribute |
| Nx.DepsOverAll | internal/config/nx.go:68-94 | walking the targets in any order gives the same dependency set |
| Nx.CaretTarget | internal/config/nx.go:72-76 | `^build` contributes `build`, and `build` contributes nothing |
| Nx.CaretInside | internal/config/nx.go:72-76 | a `^` inside the name keeps it whole, and only one leading `^` is removed |
| Nx.ReplaceNxVariables | internal/config/nx.go:141-154 | the result is the command with `{workspaceRoot}` replaced by `.` |
| Nx.NxVariablesAbsent | internal/config/nx.go:141-154 | a command without `{workspaceRoot}` is unchanged |
| Nx.ResolveCommand | internal/config/nx.go:114-126 | a string `command` wins; else the string elements of `commands` joined by " && "; else empty |
| Nx.CommandWins | internal/config/nx.go:115-116 | with both options present, `command` is used |
| Nx.CommandsJoined | internal/config/nx.go:117-124 | non-string elements of `commands` are skipped |
| Nx.NoStringCommand | internal/config/nx.go:114-126 | neither option as a string gives no command |
| Nx.ConvertedScript | internal/config/nx.go:107-135 | every script runs in `{projectRoot}` with a non-empty command; an empty command becomes the echo placeholder with a default description |
| Nx.ConvertTarget | internal/config/nx.go:107-135 | the loop body gives the converted script of the target |
| Nx.ConvertNxTargetsToScripts | internal/config/nx.go:104-139 | one script per target, each the target converted |
| Nx.LoadNxProjectConfig | internal/config/nx.go:30-63 | read and parse errors wrapped, an empty name refused; a readable, decodable config succeeds exactly when its name is non-empty, with every target enabled, the namespace from the grandparent directory and the extracted dependencies |
| Nx.NamespaceFromLayout | internal/config/nx.go:54-56 | for `<root>/<namespace>/<project>/project.json` the namespace is `<namespace>` |
| Nx.ScannedScript | internal/config/nx.go:184-206 | a scanned script keeps its command as is, runs in `{projectRoot}` and always has a description |
| Nx.ScanTarget | internal/config/nx.go:184-206 | the loop body gives the scanned script of the target |
| Nx.AddNewTargets | internal/config/nx.go:180-210 | adds each target not yet known and keeps the known ones |
| Nx.AddOverEach | internal/config/nx.go:180-210 | after a file's targets are added, the scripts cover the known targets and the file's targets, and known targets keep their definitions |
| Nx.ScanNxTargets | internal/config/nx.go:156-221 | the scripts of the walk, or the walk error wrapped |
| Nx.FirstDefinitionKept | internal/config/nx.go:183-209 | a target defined by an earlier file keeps that definition whatever files follow |
| Nx.NxScriptsFailed | internal/config/nx.go:160-166 | once the walk has failed, later entries change nothing |
| Nx.ScannedDescribed | internal/config/nx.go:184-206 | every scanned script runs in the project root and has a description |
| ProjectScanner.LoadAppConfig | internal/config/app.go:29-53 | read and parse errors wrapped, a nameless app refused, a missing namespace taken from the grandparent directory |
| ProjectScanner.DiscoveredWellKeyed | internal/scanner/scanner.go:51-56 | every project found is kept under `<namespace>/<name>`, both non-empty |
| ProjectScanner.DiscoveredFailed | internal/scanner/scanner.go:31-37 | once the walk has returned an error, later entries change nothing |
| ProjectScanner.NamespacePrefix | internal/scanner/scanner.go:75-85 | for namespaces without "/", a key starts with the namespace and "/" exactly when the project is in that namespace |
| ProjectScanner.NestedNamespace | internal/scanner/scanner.go:75-85 | a project of namespace `team/web` is also listed under `team` |
| ProjectScanner.Scanner.constructor | internal/scanner/scanner.go:19-24 | a new scanner has no projects |
| ProjectScanner.Scanner.ScanProjects | internal/scanner/scanner.go:27-61 | the projects become those the walk finds, and the error is the walk's first non-permission failure |
| ProjectScanner.Scanner.Visit | internal/scanner/scanner.go:31-56 | a permission failure is skipped, another failure returned, and an app.yaml that loads is stored under its key |
| ProjectScanner.Scanner.GetProject | internal/scanner/scanner.go:69-72 | the project exactly when the key is present |
| ProjectScanner.Scanner.GetProjectsByNamespace | internal/scanner/scanner.go:75-85 | exactly the projects whose key starts with the namespace and "/" |
| ProjectScanner.Scanner.GetAvailableScripts | internal/scanner/scanner.go:88-99 | exactly the workspace scripts the project does not disable, each once |
| Paths.JoinParts | internal/config/nx.go:54-56 | joining a clean directory and a name gives a clean path whose base is the name and whose directory is the directory |
| Paths.Join | internal/executor/executor.go:83 | the join is empty exactly when both parts are |
| Paths.JoinAll | internal/dependencyscanner/go/analyzer.go:57 | the join of several elements is empty exactly when every element is |
| Paths.Clean | internal/executor/executor.go:83 | a cleaned path is never empty and is rooted exactly when the input is |
| Paths.CleanIdempotent | internal/executor/executor.go:83 | cleaning a cleaned path changes nothing |
| Paths.JoinNames | internal/executor/executor.go:83 | a clean path joined with names is the two with one separator, and is clean |
| Paths.JoinDotSlash | internal/executor/executor.go:83 | a leading `./` of the second part makes no difference to the join |
| Paths.JoinTrailingSlash | internal/executor/executor.go:83 | a trailing separator of the second part makes no difference to the join |
| Paths.JoinDot | internal/executor/executor.go:83 | joining a relative path under `.` is cleaning it |
| Paths.CleanTrailing | internal/executor/executor.go:83 | a clean path with a separator appended cleans back to itself |
| Paths.Base | internal/config/nx.go:56 | the last element is never empty and holds no separator unless it is the root |

## Left out

- Process execution: `sh -c`, pipes, goroutines and `WaitGroup` are not modelled. The process is a function from the launch to its outcome (stdout, stderr, wait error, or a pipe or start failure).
- Context cancellation is a predicate on the batch index. The executor does not watch the context while a process runs.
- `bufio.Scanner` token limits, and read errors while copying output, are not modelled. Output is copied line by line as `ScanLines` and `Println` do.
- Timing: `time.Now` and the durations printed by `RunScript` are left out.
- Console output: the scanner's "Warning: Failed to load app config" line for an app.yaml that does not load (the model skips that file silently), and the printing in `ListProjects`, `ListScripts`, `ConfigFormat`, `AnalyzeDependencies` and `RunScript` is left out. `AnalyzeDependencies` is only its parts: `mapGoModuleToProjectKey`, the graph builder, `FindProjectDependencies` and the sync. Its `filepath.Abs`/`Rel`/`Chdir` steps and its display loops are left out, and so is the dead type-assertion loop in it.
- `LoadProjectData`, `LoadProjectConfig` and the CLI flag plumbing in internal/cli/app.go and main.go are left out: they are decoding and plumbing.
- YAML and JSON decoding are parameters (`decode`). `json.MarshalIndent` is not modelled; the project.json update ends with the document map that is encoded.
- File writes: the sync's write outcome for each path is a parameter. `UpdateProjectConfigFormat`'s write and its "failed to write config file" error are left out: the model returns the lines that are written.
- `filepath.Join`, `Clean`, `Dir` and `Base` are modelled for Unix separators only; the Windows volume names and separators Go handles are left out.
- `GetProjects` of the project scanner is a plain accessor of the `projects` field and has no member of its own.
- `resolver.New` and `executor.New` only store their arguments. The resolver and executor operations take the projects (and, for the executor, the workspace configuration) as parameters.
- `GetLanguage` and `CanScan` of the Go scanner are a constant and a file-existence test. `Registry.Language` and `Registry.CanScan` carry them.
- The JavaScript scanner is a stub: its `CanScan` is always false and `ScanProject` always fails. It appears only as a scanner that never matches.
- internal/dependencyscanner/go/example_usage.go is demo code and is not part of this model. Neither are the sample programs under apps/ and packages/.
- The resolver's missing-dependency error is checked against the error's prefix only (`Resolver.Message`). Its last part repeats the dependency.
- Run.RunScript: the "No projects match" and dry-run listings are printed by the source. The model returns no results and no error for them.
- Executor.ExpandTemplate: the order-independent expansion is proved only for templates whose literal text holds no `{` and whose values hold no `{`. Commands such as `echo ${HOME}` or `awk '{print $1}'`, and values holding a `{`, are left out. There, a placeholder can be formed or split across a literal and a value, and the result can depend on the map order (`Executor.OrderMatters` shows one such dependence).
