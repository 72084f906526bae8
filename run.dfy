/** The `run` command: the script is looked up in the workspace
    configuration, the projects to run it on are selected by the first of
    `--all`, `--project`, `--namespace` and `--tag` that is given, and the
    script is run on them one after the other until one fails. */
module Run {
  import opened Wrappers
  import opened Text
  import opened StringOrder
  import opened Config
  import opened Kahn
  import opened CliUtils
  import Resolver
  import Executor

  /** The command-line flags of `run`. */
  datatype RunFlags = RunFlags(
    script: string,
    all: bool,
    projects: seq<string>,
    namespace: string,
    tags: seq<string>,
    dryRun: bool)

  const NoSelection := "must specify --all, --project, --namespace, or --tag"
  const ResolveFailed := "failed to resolve dependencies: "

  /** A `--project` name that `ResolveProjectKey` finds. */
  ghost predicate Known(projects: Projects, name: string) {
    name in projects || exists k :: k in projects && projects[k].config.name == name
  }

  /** `key` is a key `ResolveProjectKey` may give for `name`: the name
      itself when it is a key, otherwise a project with that name. */
  predicate Resolves(projects: Projects, name: string, key: string) {
    && key in projects
    && (name in projects ==> key == name)
    && (name !in projects ==> projects[key].config.name == name)
  }

  /** The projects of a namespace, by key. */
  ghost function InNamespace(projects: Projects, namespace: string): set<string> {
    set k | k in projects && projects[k].config.namespace == namespace
  }

  /** The projects carrying every tag, by key. */
  ghost function WithTags(projects: Projects, tags: seq<string>): set<string> {
    set k | k in projects && Selected(projects[k], FilterOptions("", tags))
  }

  /** What the target selection of `RunScript` gives: an unknown script is
      an error; `--all` gives the resolver's order, or its error; `--project`
      resolves each name in turn and fails on the first unknown one;
      `--namespace` and `--tag` give the matching keys in increasing order;
      with none of them it is an error. */
  ghost predicate IsSelection(projectConfig: ProjectConfig, projects: Projects, flags: RunFlags,
                              r: Result<seq<string>, string>)
  {
    if flags.script !in projectConfig.scripts then
      r == Err("script '" + flags.script + "' not found")
    else if flags.all then
      && (r.Ok? <==> DependenciesKnown(projects) && Resolver.Orderable(projects))
      && (r.Ok? ==> IsKahnOrder(projects, r.value) && IsTopological(projects, r.value))
      && (r.Err? ==> HasPrefix(r.error, ResolveFailed))
    else if flags.projects != [] then
      var names := flags.projects;
      && (r.Ok? <==> forall i :: 0 <= i < |names| ==> Known(projects, names[i]))
      && (r.Ok? ==> |r.value| == |names| && forall i :: 0 <= i < |names| ==> Resolves(projects, names[i], r.value[i]))
      && (r.Err? ==> exists i :: && 0 <= i < |names|
                                 && !Known(projects, names[i])
                                 && (forall j :: 0 <= j < i ==> Known(projects, names[j]))
                                 && r.error == "project '" + names[i] + "' not found")
    else if flags.namespace != "" then
      r.Ok? && StrictlySorted(r.value) && Elems(r.value) == InNamespace(projects, flags.namespace)
    else if flags.tags != [] then
      r.Ok? && StrictlySorted(r.value) && Elems(r.value) == WithTags(projects, flags.tags)
    else
      r == Err(NoSelection)
  }

  /** The target selection of `RunScript`. */
  method SelectTargets(projectConfig: ProjectConfig, projects: Projects, flags: RunFlags)
    returns (r: Result<seq<string>, string>)
    ensures IsSelection(projectConfig, projects, flags, r)
  {
    if flags.script !in projectConfig.scripts {
      return Err("script '" + flags.script + "' not found");
    }
    if flags.all {
      r := SelectAll(projects);
    } else if flags.projects != [] {
      r := SelectProjects(projects, flags.projects);
    } else if flags.namespace != "" {
      var keys := SelectNamespace(projects, flags.namespace);
      r := Ok(keys);
    } else if |flags.tags| > 0 {
      var keys := SelectTags(projects, flags.tags);
      r := Ok(keys);
    } else {
      r := Err(NoSelection);
    }
  }

  /** `--all`: the resolver's execution order. */
  method SelectAll(projects: Projects) returns (r: Result<seq<string>, string>)
    ensures r.Ok? <==> DependenciesKnown(projects) && Resolver.Orderable(projects)
    ensures r.Ok? ==> IsKahnOrder(projects, r.value) && IsTopological(projects, r.value)
    ensures r.Err? ==> HasPrefix(r.error, ResolveFailed)
  {
    var resolution := Resolver.ResolveExecutionOrder(projects);
    if resolution.Err? {
      r := Err(ResolveFailed + Resolver.Message(resolution.error));
      assert r.error[..|ResolveFailed|] == ResolveFailed;
      return;
    }
    TopologicalKnown(projects, resolution.value.executionOrder);
    r := Ok(resolution.value.executionOrder);
  }

  /** `--project`: each name resolved to its key, in the order given. */
  method SelectProjects(projects: Projects, names: seq<string>) returns (r: Result<seq<string>, string>)
    ensures r.Ok? <==> forall i :: 0 <= i < |names| ==> Known(projects, names[i])
    ensures r.Ok? ==> |r.value| == |names| && forall i :: 0 <= i < |names| ==> Resolves(projects, names[i], r.value[i])
    ensures r.Err? ==> exists i :: && 0 <= i < |names|
                                   && !Known(projects, names[i])
                                   && (forall j :: 0 <= j < i ==> Known(projects, names[j]))
                                   && r.error == "project '" + names[i] + "' not found"
  {
    var keys: seq<string> := [];
    for i := 0 to |names|
      invariant |keys| == i
      invariant forall j :: 0 <= j < i ==> Known(projects, names[j]) && Resolves(projects, names[j], keys[j])
    {
      var key, found := ResolveProjectKey(names[i], projects);
      if !found {
        return Err("project '" + names[i] + "' not found");
      }
      keys := keys + [key];
    }
    return Ok(keys);
  }

  /** `--namespace`: the keys of the namespace's projects, sorted. */
  method SelectNamespace(projects: Projects, namespace: string) returns (keys: seq<string>)
    ensures StrictlySorted(keys) && Elems(keys) == InNamespace(projects, namespace)
  {
    var order := EnumerateKeys(projects);
    var found: seq<string> := [];
    for i := 0 to |order|
      invariant NoDuplicates(found)
      invariant Elems(found) == InNamespace(projects, namespace) * Elems(order[..i])
      invariant forall x :: x in found ==> x in order[..i]
    {
      TakeOneMore(order, i);
      ElemsAppend(order[..i], order[i]);
      if projects[order[i]].config.namespace == namespace {
        assert forall j :: 0 <= j < i ==> order[j] != order[i];
        assert order[i] !in order[..i];
        ElemsAppend(found, order[i]);
        found := found + [order[i]];
      }
    }
    TakeAll(order);
    SortDistinct(found);
    keys := Sort(found);
  }

  /** `--tag`: the keys of the projects carrying every tag, sorted. */
  method SelectTags(projects: Projects, tags: seq<string>) returns (keys: seq<string>)
    ensures StrictlySorted(keys) && Elems(keys) == WithTags(projects, tags)
  {
    var filtered := FilterProjects(projects, FilterOptions("", tags));
    var order := EnumerateKeys(filtered);
    SortDistinct(order);
    keys := Sort(order);
  }

  /** The run loop of `RunScript`: the script is run on each target in turn;
      a lookup error ends the run with "execution failed", and the first
      unsuccessful result ends it with "script failed on" the project's
      name. `results` holds the result of each project run. */
  method RunTargets(e: Executor.Executor, targets: seq<string>, scriptName: string, inherited: seq<string>,
                    run: Executor.Launch -> Executor.SpawnOutcome)
    returns (results: seq<Executor.ExecutionResult>, err: Option<string>)
    ensures Executor.Completed(e, targets, scriptName, inherited, run, _ => false, results)
    ensures forall i :: 0 <= i < |results| - 1 ==> results[i].success
    ensures err.None? <==> |results| == |targets| && forall i :: 0 <= i < |results| ==> results[i].success
    ensures err.Some? && results != [] && !results[|results| - 1].success ==>
              err.value == "script failed on " + e.projects[targets[|results| - 1]].config.name
    ensures err.Some? && (results == [] || results[|results| - 1].success) ==>
              && |results| < |targets|
              && (targets[|results|] !in e.projects || scriptName !in e.projectConfig.scripts)
              && err.value == "execution failed: " + Executor.ErrorText(Executor.LookupError(e, targets[|results|], scriptName))
  {
    results := [];
    err := None;
    for i := 0 to |targets|
      invariant |results| == i
      invariant Executor.Completed(e, targets, scriptName, inherited, run, _ => false, results)
      invariant forall j :: 0 <= j < i ==> results[j].success
    {
      var r := Executor.ExecuteScriptResult(e, targets[i], scriptName, inherited, run);
      if r.Err? {
        err := Some("execution failed: " + Executor.ErrorText(r.error));
        break;
      }
      Executor.CompletedStep(e, targets, scriptName, inherited, run, _ => false, results, r.value);
      results := results + [r.value];
      if !r.value.success {
        err := Some("script failed on " + e.projects[targets[i]].config.name);
        break;
      }
    }
  }

  /** `RunScript`, after the workspace is loaded: `selection` is the target
      selection; with no targets or a dry run nothing is run and there is no
      error; otherwise the run loop's results and error. */
  method RunScript(projectConfig: ProjectConfig, projects: Projects, flags: RunFlags, inherited: seq<string>,
                   run: Executor.Launch -> Executor.SpawnOutcome)
    returns (results: seq<Executor.ExecutionResult>, err: Option<string>, ghost selection: Result<seq<string>, string>)
    ensures IsSelection(projectConfig, projects, flags, selection)
    ensures selection.Err? ==> results == [] && err == Some(selection.error)
    ensures selection.Ok? && (selection.value == [] || flags.dryRun) ==> results == [] && err.None?
    ensures selection.Ok? && !flags.dryRun ==>
              && Executor.Completed(Executor.Executor(projectConfig, projects), selection.value, flags.script,
                                    inherited, run, _ => false, results)
              && (err.None? <==> |results| == |selection.value| && forall i :: 0 <= i < |results| ==> results[i].success)
              && (err.Some? ==> results != [] && !results[|results| - 1].success
                                && err.value == "script failed on " + projects[selection.value[|results| - 1]].config.name)
  {
    var selected := SelectTargets(projectConfig, projects, flags);
    selection := selected;
    if selected.Err? {
      return [], Some(selected.error), selection;
    }
    var targets := selected.value;
    if |targets| == 0 || flags.dryRun {
      return [], None, selection;
    }
    SelectedKnown(projectConfig, projects, flags, targets);
    results, err := RunTargets(Executor.Executor(projectConfig, projects), targets, flags.script, inherited, run);
  }

  /** Every selected target is a project and the script exists, so the run
      loop's lookups cannot fail. */
  lemma SelectedKnown(projectConfig: ProjectConfig, projects: Projects, flags: RunFlags, targets: seq<string>)
    requires IsSelection(projectConfig, projects, flags, Ok(targets))
    ensures flags.script in projectConfig.scripts
    ensures forall i :: 0 <= i < |targets| ==> targets[i] in projects
  {
    if flags.script in projectConfig.scripts && !flags.all && flags.projects == [] {
      forall i | 0 <= i < |targets| ensures targets[i] in projects {
        assert targets[i] in Elems(targets);
      }
    }
  }
}
