/** Nx workspaces: a project.json of Nx read as a project (its targets
    become enabled scripts and the projects its targets depend on become its
    dependencies), its targets converted to workspace scripts, and the scan
    of a directory tree for the targets of every Nx project. The JSON
    decoding of a project.json into its record is a parameter. */
module Nx {
  import opened Wrappers
  import opened Text
  import opened StringOrder
  import opened Config
  import opened Json
  import Paths

  /** One target of an Nx project: its options, its `dependsOn` entries and
      its description. An absent `options` object is the empty map, which
      every lookup treats alike. */
  datatype NxTarget = NxTarget(options: map<string, Json>, dependsOn: seq<Json>, description: string)

  /** The fields of an Nx project.json the program uses. */
  datatype NxProjectConfig = NxProjectConfig(
    name: string,
    projectType: string,
    tags: seq<string>,
    targets: map<string, NxTarget>)

  // ---------------------------------------------------------------------
  // Dependencies
  // ---------------------------------------------------------------------

  /** A `^`-marked text names a project: the text without one leading `^`;
      an unmarked text names none. */
  function Caret(v: string): set<string> {
    if Contains(v, "^") then {TrimPrefix(v, "^")} else {}
  }

  /** The strings among the elements of a `projects` array. */
  function ProjectNames(items: seq<Json>): set<string>
    decreases |items|
  {
    if items == [] then {}
    else
      var last := items[|items| - 1];
      ProjectNames(items[..|items| - 1]) + (if last.Str? then {last.s} else {})
  }

  /** The projects one `dependsOn` entry names: a string names its
      `^`-marked project; an object names every string of its `projects`
      array and its `^`-marked `target`; anything else names nothing. */
  function EntryDeps(entry: Json): set<string> {
    match entry
    case Str(v) => Caret(v)
    case Object(fields) =>
      (if "projects" in fields && fields["projects"].Array? then ProjectNames(fields["projects"].items) else {})
      + (if "target" in fields && fields["target"].Str? then Caret(fields["target"].s) else {})
    case _ => {}
  }

  /** The projects a list of `dependsOn` entries names. */
  function ListDeps(entries: seq<Json>): set<string>
    decreases |entries|
  {
    if entries == [] then {}
    else ListDeps(entries[..|entries| - 1]) + EntryDeps(entries[|entries| - 1])
  }

  /** Every project some target depends on. */
  ghost function DependencySet(targets: map<string, NxTarget>): set<string> {
    set k, d | k in targets && d in ListDeps(targets[k].dependsOn) :: d
  }

  /** The projects the targets visited in `keys` depend on. */
  function DepsOver(targets: map<string, NxTarget>, keys: seq<string>): set<string>
    requires forall i :: 0 <= i < |keys| ==> keys[i] in targets
    decreases |keys|
  {
    if keys == [] then {}
    else DepsOver(targets, keys[..|keys| - 1]) + ListDeps(targets[keys[|keys| - 1]].dependsOn)
  }

  lemma {:induction false} DepsOverMember(targets: map<string, NxTarget>, keys: seq<string>, d: string)
    requires forall i :: 0 <= i < |keys| ==> keys[i] in targets
    ensures d in DepsOver(targets, keys) <==> exists i :: 0 <= i < |keys| && d in ListDeps(targets[keys[i]].dependsOn)
    decreases |keys|
  {
    if keys != [] {
      var n := |keys| - 1;
      assert forall i :: 0 <= i < n ==> keys[..n][i] == keys[i];
      DepsOverMember(targets, keys[..n], d);
    }
  }

  /** Visiting every target, in any order, collects the dependency set. */
  lemma DepsOverAll(targets: map<string, NxTarget>, keys: seq<string>)
    requires IsOrdering(keys, targets.Keys)
    ensures DepsOver(targets, keys) == DependencySet(targets)
  {
    forall d ensures d in DepsOver(targets, keys) <==> d in DependencySet(targets) {
      DepsOverMember(targets, keys, d);
      if d in DependencySet(targets) {
        var k :| k in targets && d in ListDeps(targets[k].dependsOn);
        assert k in Elems(keys);
      }
    }
  }

  /** Adds the strings of a `projects` array to a set. */
  method AddProjectNames(found: map<string, bool>, items: seq<Json>) returns (updated: map<string, bool>)
    ensures updated.Keys == found.Keys + ProjectNames(items)
  {
    updated := found;
    for j := 0 to |items|
      invariant updated.Keys == found.Keys + ProjectNames(items[..j])
    {
      assert items[..j + 1][..j] == items[..j];
      if items[j].Str? {
        updated := updated[items[j].s := true];
      }
    }
    assert items[..|items|] == items;
  }

  /** Adds the projects of a target's `dependsOn` entries to a set. */
  method AddEntries(found: map<string, bool>, entries: seq<Json>) returns (updated: map<string, bool>)
    ensures updated.Keys == found.Keys + ListDeps(entries)
  {
    updated := found;
    for j := 0 to |entries|
      invariant updated.Keys == found.Keys + ListDeps(entries[..j])
    {
      assert entries[..j + 1][..j] == entries[..j];
      ghost var before := updated.Keys;
      match entries[j]
      case Str(v) =>
        if Contains(v, "^") {
          updated := updated[TrimPrefix(v, "^") := true];
        }
      case Object(fields) =>
        if "projects" in fields && fields["projects"].Array? {
          updated := AddProjectNames(updated, fields["projects"].items);
        }
        if "target" in fields && fields["target"].Str? {
          var target := fields["target"].s;
          if Contains(target, "^") {
            updated := updated[TrimPrefix(target, "^") := true];
          }
        }
      case _ =>
      assert updated.Keys == before + EntryDeps(entries[j]);
    }
    assert entries[..|entries|] == entries;
  }

  /** `extractDependencies`: every project the targets depend on, once
      each, in map iteration order. */
  method ExtractDependencies(targets: map<string, NxTarget>) returns (dependencies: seq<string>)
    ensures NoDuplicates(dependencies) && Elems(dependencies) == DependencySet(targets)
  {
    var keys := EnumerateKeys(targets);
    var dependencySet: map<string, bool> := map[];
    for i := 0 to |keys|
      invariant dependencySet.Keys == DepsOver(targets, keys[..i])
    {
      TakeStep(keys, i);
      dependencySet := AddEntries(dependencySet, targets[keys[i]].dependsOn);
    }
    TakeAll(keys);
    DepsOverAll(targets, keys);
    dependencies := EnumerateKeys(dependencySet);
  }

  /** Nx's `^build` (run `build` on the dependencies first) is read as a
      dependency on a project named `build`, and a text without `^` names
      nothing. */
  lemma CaretTarget()
    ensures EntryDeps(Str("^build")) == {"build"}
    ensures EntryDeps(Str("build")) == {}
  {
    assert HasPrefix("^build", "^");
    ContainsChar("^build", '^');
    ContainsChar("build", '^');
  }

  /** A `^` inside a name keeps the whole name, and only one leading `^`
      is removed. */
  lemma CaretInside()
    ensures EntryDeps(Str("lib^x")) == {"lib^x"}
    ensures EntryDeps(Str("^^lib")) == {"^lib"}
  {
    assert "lib^x"[3] == '^';
    ContainsChar("lib^x", '^');
    NotPrefix("lib^x", "^");
    assert HasPrefix("^^lib", "^");
    ContainsChar("^^lib", '^');
  }

  // ---------------------------------------------------------------------
  // Commands and scripts
  // ---------------------------------------------------------------------

  const WorkspaceRoot := "{workspaceRoot}"

  /** What `replaceNxVariables` makes of a command: `{workspaceRoot}`
      becomes `.`; `{projectRoot}` and `{projectName}` map to themselves. */
  function NxVariables(command: string): string {
    ReplaceAll(command, WorkspaceRoot, ".")
  }

  /** `replaceNxVariables`: the replacements are applied in map iteration
      order, and whatever the order only `{workspaceRoot}` changes. The
      project root is not used. */
  method ReplaceNxVariables(command: string, projectRoot: string) returns (result: string)
    ensures result == NxVariables(command)
  {
    var replacements := map["{projectRoot}" := "{projectRoot}", WorkspaceRoot := ".", "{projectName}" := "{projectName}"];
    var keys := EnumerateKeys(replacements);
    result := command;
    for i := 0 to |keys|
      invariant result == if WorkspaceRoot in keys[..i] then NxVariables(command) else command
    {
      TakeStep(keys, i);
      assert keys[i] in Elems(keys);
      if keys[i] == WorkspaceRoot {
        assert forall j :: 0 <= j < i ==> keys[j] != keys[i];
        result := ReplaceAll(result, keys[i], replacements[keys[i]]);
      } else {
        ReplaceAllIdentity(result, keys[i]);
        result := ReplaceAll(result, keys[i], replacements[keys[i]]);
      }
    }
    assert WorkspaceRoot in Elems(keys);
    TakeAll(keys);
  }

  /** A command without `{workspaceRoot}` is kept as it is. */
  lemma NxVariablesAbsent(command: string)
    requires !Contains(command, WorkspaceRoot)
    ensures NxVariables(command) == command
  {
    ReplaceAllAbsent(command, WorkspaceRoot, ".");
  }

  /** The string elements of a `commands` array, their variables replaced,
      in order. */
  function StringCommands(items: seq<Json>): seq<string>
    decreases |items|
  {
    if items == [] then []
    else
      var last := items[|items| - 1];
      StringCommands(items[..|items| - 1]) + (if last.Str? then [NxVariables(last.s)] else [])
  }

  /** The command a target's options give: a string `command`, or else the
      strings of a `commands` array joined with " && ", or else none. */
  function CommandOf(options: map<string, Json>): string {
    if "command" in options && options["command"].Str? then NxVariables(options["command"].s)
    else if "commands" in options && options["commands"].Array? then Join(StringCommands(options["commands"].items), " && ")
    else ""
  }

  /** The command resolution shared by `ConvertNxTargetsToScripts` and
      `ScanNxTargets`. */
  method ResolveCommand(options: map<string, Json>, projectRoot: string) returns (command: string)
    ensures command == CommandOf(options)
  {
    command := "";
    if "command" in options && options["command"].Str? {
      command := ReplaceNxVariables(options["command"].s, projectRoot);
    } else if "commands" in options && options["commands"].Array? {
      var items := options["commands"].items;
      var cmdParts: seq<string> := [];
      for j := 0 to |items|
        invariant cmdParts == StringCommands(items[..j])
      {
        assert items[..j + 1][..j] == items[..j];
        if items[j].Str? {
          var part := ReplaceNxVariables(items[j].s, projectRoot);
          cmdParts := cmdParts + [part];
        }
      }
      assert items[..|items|] == items;
      command := Join(cmdParts, " && ");
    }
  }

  /** A string `command` wins over `commands`. */
  lemma CommandWins(a: string, b: string)
    requires !Contains(a, WorkspaceRoot)
    ensures CommandOf(map["command" := Str(a), "commands" := Array([Str(b)])]) == a
  {
    NxVariablesAbsent(a);
  }

  /** The elements of `commands` that are not strings are skipped. */
  lemma CommandsJoined(a: string, b: string)
    requires !Contains(a, WorkspaceRoot) && !Contains(b, WorkspaceRoot)
    ensures CommandOf(map["commands" := Array([Str(a), Number("1"), Str(b)])]) == a + " && " + b
  {
    NxVariablesAbsent(a);
    NxVariablesAbsent(b);
    var items := [Str(a), Number("1"), Str(b)];
    assert StringCommands(items[..1]) == [a] by {
      assert items[..1][..0] == [];
    }
    assert StringCommands(items[..2]) == [a] by {
      assert items[..2][..1] == items[..1];
    }
    assert StringCommands(items) == [a, b] by {
      assert items[..2] == items[..|items| - 1];
    }
    var options := map["commands" := Array(items)];
    assert CommandOf(options) == Join([a, b], " && ") by {
      assert "command" !in options;
    }
    assert Join([a, b], " && ") == a + " && " + Join([b], " && ") by {
      assert [a, b][1..] == [b];
    }
  }

  /** Options whose `command` is not a string and whose `commands` holds no
      string give no command. */
  lemma NoStringCommand()
    ensures CommandOf(map["command" := Number("1"), "commands" := Array([Bool(true)])]) == ""
  {
    var bools := [Bool(true)];
    assert bools[..0] == [];
    assert StringCommands(bools) == [];
  }

  const ProjectRootToken := "{projectRoot}"

  /** The script `ConvertNxTargetsToScripts` makes of a target: its
      command, or a placeholder echo when it has none, in which case an
      empty description also gets a default. */
  function ConvertedScript(name: string, target: NxTarget): (s: Script)
    ensures s.command != "" && s.workingDir == ProjectRootToken && s.environment == map[]
    ensures CommandOf(target.options) != "" ==> s.command == CommandOf(target.options) && s.description == target.description
    ensures CommandOf(target.options) == "" ==> s.command == "echo 'Target " + name + " has no command defined'"
    ensures s.description == "" <==> CommandOf(target.options) != "" && target.description == ""
  {
    var command := CommandOf(target.options);
    if command != "" then Script(command, target.description, ProjectRootToken, map[])
    else
      Script("echo 'Target " + name + " has no command defined'",
             if target.description == "" then "Nx target: " + name else target.description,
             ProjectRootToken, map[])
  }

  /** The body of the loop of `ConvertNxTargetsToScripts`. */
  method ConvertTarget(name: string, target: NxTarget, projectRoot: string) returns (script: Script)
    ensures script == ConvertedScript(name, target)
  {
    var command := ResolveCommand(target.options, projectRoot);
    var description := target.description;
    if command == "" {
      command := "echo 'Target " + name + " has no command defined'";
      if description == "" {
        description := "Nx target: " + name;
      }
    }
    script := Script(command, description, ProjectRootToken, map[]);
  }

  /** `ConvertNxTargetsToScripts`: one script per target, under the
      target's name. */
  method ConvertNxTargetsToScripts(nxConfig: NxProjectConfig, projectRoot: string) returns (scripts: map<string, Script>)
    ensures scripts.Keys == nxConfig.targets.Keys
    ensures forall t :: t in scripts ==> scripts[t] == ConvertedScript(t, nxConfig.targets[t])
  {
    var keys := EnumerateKeys(nxConfig.targets);
    assert forall i :: 0 <= i < |keys| ==> keys[i] in Elems(keys);
    scripts := map[];
    for i := 0 to |keys|
      invariant scripts.Keys == Elems(keys[..i])
      invariant forall t :: t in scripts ==> t in nxConfig.targets && scripts[t] == ConvertedScript(t, nxConfig.targets[t])
    {
      TakeStep(keys, i);
      ElemsAppend(keys[..i], keys[i]);
      var script := ConvertTarget(keys[i], nxConfig.targets[keys[i]], projectRoot);
      scripts := scripts[keys[i] := script];
    }
    TakeAll(keys);
  }

  // ---------------------------------------------------------------------
  // Loading an Nx project
  // ---------------------------------------------------------------------

  /** `LoadNxProjectConfig`, with `decode` standing for `json.Unmarshal`
      into the record: read and parse errors are wrapped, an unnamed
      project is refused, and otherwise every target becomes an enabled
      script, the targets' dependencies become the project's, and the
      namespace is the name of the directory above the project's. */
  method LoadNxProjectConfig(fs: FileSystem, path: string, decode: seq<string> -> Result<NxProjectConfig, string>)
    returns (r: Result<AppConfig, string>)
    ensures fs.Read(path).Err? ==> r == Err("failed to read nx project config: " + fs.Read(path).error)
    ensures fs.Read(path).Ok? && decode(fs.Read(path).value).Err? ==>
              r == Err("failed to parse nx project config: " + decode(fs.Read(path).value).error)
    ensures fs.Read(path).Ok? && decode(fs.Read(path).value).Ok? && decode(fs.Read(path).value).value.name == "" ==>
              r == Err("project name is required")
    ensures fs.Read(path).Ok? && decode(fs.Read(path).value).Ok? ==>
              (r.Ok? <==> decode(fs.Read(path).value).value.name != "")
    ensures r.Ok? ==>
              && fs.Read(path).Ok? && decode(fs.Read(path).value).Ok?
              && var nx := decode(fs.Read(path).value).value;
              && nx.name != ""
              && r.value.name == nx.name
              && r.value.description == nx.projectType + " project"
              && r.value.tags == nx.tags
              && r.value.namespace == Paths.Base(Paths.Dir(Paths.Dir(path)))
              && r.value.scripts.Keys == nx.targets.Keys
              && (forall t :: t in r.value.scripts ==> r.value.scripts[t])
              && r.value.environment == map[]
              && NoDuplicates(r.value.dependencies)
              && Elems(r.value.dependencies) == DependencySet(nx.targets)
  {
    var data := fs.Read(path);
    if data.Err? {
      return Err("failed to read nx project config: " + data.error);
    }
    var decoded := decode(data.value);
    if decoded.Err? {
      return Err("failed to parse nx project config: " + decoded.error);
    }
    var nx := decoded.value;
    if nx.name == "" {
      return Err("project name is required");
    }
    var dependencies := ExtractDependencies(nx.targets);
    var scripts: map<string, bool> := map[];
    var keys := EnumerateKeys(nx.targets);
    for i := 0 to |keys|
      invariant scripts.Keys == Elems(keys[..i])
      invariant forall t :: t in scripts ==> scripts[t]
    {
      TakeStep(keys, i);
      ElemsAppend(keys[..i], keys[i]);
      scripts := scripts[keys[i] := true];
    }
    TakeAll(keys);
    var namespace := Paths.Base(Paths.Dir(Paths.Dir(path)));
    return Ok(AppConfig(nx.name, namespace, nx.projectType + " project", dependencies, scripts, nx.tags, map[]));
  }

  /** For `<root>/<namespace>/<project>/project.json` the namespace is the
      `<namespace>` directory. */
  lemma NamespaceFromLayout(root: string, namespace: string, project: string)
    requires Paths.IsClean(root) && Paths.IsName(namespace) && Paths.IsName(project)
    ensures var path := Paths.Join(Paths.Join(Paths.Join(root, namespace), project), "project.json");
            Paths.Base(Paths.Dir(Paths.Dir(path))) == namespace
  {
    var nsDir := Paths.Join(root, namespace);
    var projectDir := Paths.Join(nsDir, project);
    Paths.JoinParts(root, namespace);
    assert Paths.Base(nsDir) == namespace;
    Paths.JoinParts(nsDir, project);
    assert Paths.Dir(projectDir) == nsDir;
    assert Paths.IsName("project.json");
    Paths.JoinParts(projectDir, "project.json");
    assert Paths.Dir(Paths.Join(projectDir, "project.json")) == projectDir;
  }

  // ---------------------------------------------------------------------
  // Scanning a tree for targets
  // ---------------------------------------------------------------------

  /** The script `ScanNxTargets` makes of a target: its command as it is
      (possibly empty), and a default description when it has none. */
  function ScannedScript(name: string, target: NxTarget): (s: Script)
    ensures s.command == CommandOf(target.options)
    ensures s.description != "" && s.workingDir == ProjectRootToken && s.environment == map[]
    ensures target.description != "" ==> s.description == target.description
  {
    Script(CommandOf(target.options),
           if target.description == "" then "Nx target: " + name else target.description,
           ProjectRootToken, map[])
  }

  /** The targets of one more project.json: each name not seen before. */
  function AddTargets(found: map<string, Script>, targets: map<string, NxTarget>): map<string, Script> {
    map t | t in found.Keys + targets.Keys :: if t in found then found[t] else ScannedScript(t, targets[t])
  }

  /** The project.json of a walk entry, when it names one that can be read
      and decoded. */
  function NxFile(fs: FileSystem, e: WalkEntry, decode: seq<string> -> Result<NxProjectConfig, string>): Option<NxProjectConfig> {
    if e.WalkFailure? || Paths.Base(e.path) != "project.json" then None
    else match fs.Read(e.path)
      case Err(_) => None
      case Ok(lines) =>
        match decode(lines)
        case Err(_) => None
        case Ok(nx) => Some(nx)
  }

  /** The walk of `ScanNxTargets` over the given entries: a permission
      failure is skipped and any other ends the walk; each project.json that
      can be read and decoded adds its new targets. */
  function NxScripts(fs: FileSystem, entries: seq<WalkEntry>, decode: seq<string> -> Result<NxProjectConfig, string>)
    : Result<map<string, Script>, string>
    decreases |entries|
  {
    if entries == [] then Ok(map[])
    else
      var e := entries[|entries| - 1];
      match NxScripts(fs, entries[..|entries| - 1], decode)
      case Err(reason) => Err(reason)
      case Ok(found) =>
        if e.WalkFailure? then (if e.permission then Ok(found) else Err(e.reason))
        else match NxFile(fs, e, decode)
          case None => Ok(found)
          case Some(nx) => Ok(AddTargets(found, nx.targets))
  }

  lemma {:induction false} NxScriptsFailed(fs: FileSystem, a: seq<WalkEntry>, b: seq<WalkEntry>,
                                           decode: seq<string> -> Result<NxProjectConfig, string>)
    requires NxScripts(fs, a, decode).Err?
    ensures NxScripts(fs, a + b, decode) == NxScripts(fs, a, decode)
    decreases |b|
  {
    if b == [] {
      assert a + b == a;
    } else {
      assert (a + b)[..|a + b| - 1] == a + b[..|b| - 1];
      NxScriptsFailed(fs, a, b[..|b| - 1], decode);
    }
  }

  /** The script the loop of `ScanNxTargets` makes of a target. */
  method ScanTarget(name: string, target: NxTarget, projectDir: string) returns (script: Script)
    ensures script == ScannedScript(name, target)
  {
    var command := ResolveCommand(target.options, projectDir);
    var description := target.description;
    if description == "" {
      description := "Nx target: " + name;
    }
    script := Script(command, description, ProjectRootToken, map[]);
  }

  /** The scripts after visiting the targets named in `keys`, in that
      order: a name not seen before gets its scanned script. */
  function AddOver(found: map<string, Script>, targets: map<string, NxTarget>, keys: seq<string>): map<string, Script>
    requires forall i :: 0 <= i < |keys| ==> keys[i] in targets
    decreases |keys|
  {
    if keys == [] then found
    else
      var before := AddOver(found, targets, keys[..|keys| - 1]);
      var name := keys[|keys| - 1];
      if name in before then before else before[name := ScannedScript(name, targets[name])]
  }

  /** Visiting the targets in any order gives the same scripts. */
  lemma AddOverEach(found: map<string, Script>, targets: map<string, NxTarget>, keys: seq<string>)
    requires forall i :: 0 <= i < |keys| ==> keys[i] in targets
    ensures AddOver(found, targets, keys).Keys == found.Keys + Elems(keys)
    ensures FirstKept(found, targets, AddOver(found, targets, keys))
  {
    AddOverKeys(found, targets, keys);
    AddOverKept(found, targets, keys);
  }

  lemma {:induction false} AddOverKeys(found: map<string, Script>, targets: map<string, NxTarget>, keys: seq<string>)
    requires forall i :: 0 <= i < |keys| ==> keys[i] in targets
    ensures AddOver(found, targets, keys).Keys == found.Keys + Elems(keys)
    decreases |keys|
  {
    if keys != [] {
      var n := |keys| - 1;
      var init := keys[..n];
      assert forall i :: 0 <= i < n ==> init[i] == keys[i];
      AddOverKeys(found, targets, init);
      assert AddOver(found, targets, keys).Keys == AddOver(found, targets, init).Keys + {keys[n]};
      assert keys == init + [keys[n]];
      ElemsAppend(init, keys[n]);
    }
  }

  lemma {:induction false} AddOverKept(found: map<string, Script>, targets: map<string, NxTarget>, keys: seq<string>)
    requires forall i :: 0 <= i < |keys| ==> keys[i] in targets
    ensures FirstKept(found, targets, AddOver(found, targets, keys))
    decreases |keys|
  {
    if keys != [] {
      var n := |keys| - 1;
      var init := keys[..n];
      assert forall i :: 0 <= i < n ==> init[i] == keys[i];
      AddOverKept(found, targets, init);
      AddOverKeys(found, targets, init);
    }
  }

  /** Adds the targets of one project.json, in map iteration order, keeping
      the scripts already found. */
  method AddNewTargets(found: map<string, Script>, targets: map<string, NxTarget>, projectDir: string)
    returns (updated: map<string, Script>)
    ensures updated == AddTargets(found, targets)
  {
    var keys := EnumerateKeys(targets);
    assert forall i :: 0 <= i < |keys| ==> keys[i] in Elems(keys);
    updated := found;
    for j := 0 to |keys|
      invariant updated == AddOver(found, targets, keys[..j])
    {
      updated := AddTarget(found, targets, keys, j, updated, projectDir);
    }
    TakeAll(keys);
    AddOverAll(found, targets, keys);
  }

  /** One iteration of `AddNewTargets`: the `j`th target is added unless a
      script of its name is already there. */
  method AddTarget(found: map<string, Script>, targets: map<string, NxTarget>, keys: seq<string>, j: nat,
                   updated: map<string, Script>, projectDir: string)
    returns (updated': map<string, Script>)
    requires j < |keys| && forall i :: 0 <= i < |keys| ==> keys[i] in targets
    requires updated == AddOver(found, targets, keys[..j])
    ensures updated' == AddOver(found, targets, keys[..j + 1])
  {
    TakeStep(keys, j);
    var name := keys[j];
    updated' := updated;
    if name !in updated {
      var script := ScanTarget(name, targets[name], projectDir);
      updated' := updated[name := script];
    }
  }

  /** Visiting every target, in any order, gives `AddTargets`. */
  lemma AddOverAll(found: map<string, Script>, targets: map<string, NxTarget>, keys: seq<string>)
    requires forall i :: 0 <= i < |keys| ==> keys[i] in targets
    requires Elems(keys) == targets.Keys
    ensures AddOver(found, targets, keys) == AddTargets(found, targets)
  {
    AddOverEach(found, targets, keys);
    AddTargetsEach(found, targets, AddOver(found, targets, keys));
  }

  /** Each script of `updated` is the one found before, or the scanned
      script of a new target. */
  ghost predicate FirstKept(found: map<string, Script>, targets: map<string, NxTarget>, updated: map<string, Script>) {
    forall t :: t in updated ==>
      if t in found then updated[t] == found[t] else t in targets && updated[t] == ScannedScript(t, targets[t])
  }

  lemma AddTargetsEach(found: map<string, Script>, targets: map<string, NxTarget>, updated: map<string, Script>)
    requires updated.Keys == found.Keys + targets.Keys
    requires FirstKept(found, targets, updated)
    ensures updated == AddTargets(found, targets)
  {
  }

  /** `ScanNxTargets`: the scripts of every Nx target under the directory,
      the first definition of a name winning; a walk failure other than a
      permission error is returned, wrapped. The `targetNames` set the
      source also fills is never read and is not modelled. */
  method ScanNxTargets(fs: FileSystem, targetDirectory: string, decode: seq<string> -> Result<NxProjectConfig, string>)
    returns (r: Result<map<string, Script>, string>)
    ensures NxScripts(fs, fs.Walk(targetDirectory), decode).Ok? ==> r == NxScripts(fs, fs.Walk(targetDirectory), decode)
    ensures NxScripts(fs, fs.Walk(targetDirectory), decode).Err? ==>
              r == Err("failed to scan nx targets: " + NxScripts(fs, fs.Walk(targetDirectory), decode).error)
  {
    var entries := fs.Walk(targetDirectory);
    var scriptsMap: map<string, Script> := map[];
    var failure: Option<string> := None;
    assert entries[..0] == [];
    for i := 0 to |entries|
      invariant NxScripts(fs, entries[..i], decode) == Ok(scriptsMap)
    {
      TakeStep(entries, i);
      var entry := entries[i];
      if entry.WalkFailure? {
        if !entry.permission {
          failure := Some(entry.reason);
          NxScriptsFailed(fs, entries[..i + 1], entries[i + 1..], decode);
          assert entries[..i + 1] + entries[i + 1..] == entries;
          break;
        }
      } else if Paths.Base(entry.path) == "project.json" {
        var data := fs.Read(entry.path);
        if data.Ok? {
          var decoded := decode(data.value);
          if decoded.Ok? {
            scriptsMap := AddNewTargets(scriptsMap, decoded.value.targets, Paths.Dir(entry.path));
          }
        }
      }
    }
    if failure.Some? {
      return Err("failed to scan nx targets: " + failure.value);
    }
    TakeAll(entries);
    return Ok(scriptsMap);
  }

  /** A target name keeps the script of the first project.json that
      defines it: later files never change it. */
  lemma {:induction false} FirstDefinitionKept(fs: FileSystem, a: seq<WalkEntry>, b: seq<WalkEntry>,
                                               decode: seq<string> -> Result<NxProjectConfig, string>)
    requires NxScripts(fs, a + b, decode).Ok?
    ensures NxScripts(fs, a, decode).Ok?
    ensures forall t :: t in NxScripts(fs, a, decode).value ==>
              t in NxScripts(fs, a + b, decode).value
              && NxScripts(fs, a + b, decode).value[t] == NxScripts(fs, a, decode).value[t]
    decreases |b|
  {
    if b == [] {
      assert a + b == a;
    } else {
      var n := |b| - 1;
      assert (a + b)[..|a + b| - 1] == a + b[..n];
      FirstDefinitionKept(fs, a, b[..n], decode);
    }
  }

  /** Every scanned script runs in the project root and has a description. */
  lemma {:induction false} ScannedDescribed(fs: FileSystem, entries: seq<WalkEntry>,
                                            decode: seq<string> -> Result<NxProjectConfig, string>)
    requires NxScripts(fs, entries, decode).Ok?
    ensures forall t :: t in NxScripts(fs, entries, decode).value ==>
              NxScripts(fs, entries, decode).value[t].description != ""
              && NxScripts(fs, entries, decode).value[t].workingDir == ProjectRootToken
    decreases |entries|
  {
    if entries != [] {
      ScannedDescribed(fs, entries[..|entries| - 1], decode);
    }
  }
}
