/** Project discovery: the scanner walks the workspace's target directory,
    loads every app.yaml it meets and keeps the projects by their
    `<namespace>/<name>` key; the getters look projects and scripts up. The
    YAML decoding of an app.yaml into its record is a parameter. */
module ProjectScanner {
  import opened Wrappers
  import opened Text
  import opened StringOrder
  import opened Config
  import Paths
  import Executor

  /** `LoadAppConfig`, given what decoding the file's lines gives: read and
      parse errors are wrapped, an unnamed app is refused, and a missing
      namespace is taken from the directory above the project's. */
  function LoadAppConfig(fs: FileSystem, path: string, decode: seq<string> -> Result<AppConfig, string>)
    : (r: Result<AppConfig, string>)
    ensures fs.Read(path).Err? ==> r == Err("failed to read app config: " + fs.Read(path).error)
    ensures fs.Read(path).Ok? && decode(fs.Read(path).value).Err? ==>
              r == Err("failed to parse app config: " + decode(fs.Read(path).value).error)
    ensures r.Ok? ==> r.value.name != "" && r.value.namespace != ""
    ensures r.Ok? ==>
              && fs.Read(path).Ok? && decode(fs.Read(path).value).Ok?
              && var c := decode(fs.Read(path).value).value;
              && r.value == c.(namespace := r.value.namespace)
              && (c.namespace != "" ==> r.value == c)
              && (c.namespace == "" ==> r.value.namespace == Paths.Base(Paths.Dir(Paths.Dir(path))))
    ensures fs.Read(path).Ok? && decode(fs.Read(path).value).Ok? ==>
              (r.Ok? <==> decode(fs.Read(path).value).value.name != "")
  {
    match fs.Read(path)
    case Err(e) => Err("failed to read app config: " + e)
    case Ok(lines) =>
      match decode(lines)
      case Err(e) => Err("failed to parse app config: " + e)
      case Ok(c) =>
        if c.name == "" then Err("app name is required")
        else if c.namespace == "" then Ok(c.(namespace := Paths.Base(Paths.Dir(Paths.Dir(path)))))
        else Ok(c)
  }

  /** The key a project is kept under. */
  function ProjectKey(c: AppConfig): string {
    c.namespace + "/" + c.name
  }

  /** Where the walk of `ScanProjects` has got to: the projects so far, and
      the error that ended it, if any. */
  datatype Scan = Scan(projects: Projects, error: Option<string>)

  /** The walk of `ScanProjects` over the given entries from the projects
      `start`: a permission failure is skipped and any other ends the walk
      with its error; an app.yaml that loads adds its project under its
      key, replacing one of the same key; one that does not load is
      skipped. */
  function Discovered(fs: FileSystem, entries: seq<WalkEntry>, decode: seq<string> -> Result<AppConfig, string>,
                      start: Projects): Scan
    decreases |entries|
  {
    if entries == [] then Scan(start, None)
    else
      var before := Discovered(fs, entries[..|entries| - 1], decode, start);
      if before.error.Some? then before
      else Visited(fs, entries[|entries| - 1], decode, before.projects)
  }

  /** One entry of the walk, from the projects found so far. */
  function Visited(fs: FileSystem, e: WalkEntry, decode: seq<string> -> Result<AppConfig, string>,
                   projects: Projects): Scan
  {
    if e.WalkFailure? then (if e.permission then Scan(projects, None) else Scan(projects, Some(e.reason)))
    else if Paths.Base(e.path) != "app.yaml" then Scan(projects, None)
    else match LoadAppConfig(fs, e.path, decode)
      case Err(_) => Scan(projects, None)
      case Ok(c) => Scan(projects[ProjectKey(c) := AppProject(c, Paths.Dir(e.path))], None)
  }

  lemma {:induction false} DiscoveredFailed(fs: FileSystem, a: seq<WalkEntry>, b: seq<WalkEntry>,
                                            decode: seq<string> -> Result<AppConfig, string>, start: Projects)
    requires Discovered(fs, a, decode, start).error.Some?
    ensures Discovered(fs, a + b, decode, start) == Discovered(fs, a, decode, start)
    decreases |b|
  {
    if b == [] {
      assert a + b == a;
    } else {
      assert (a + b)[..|a + b| - 1] == a + b[..|b| - 1];
      DiscoveredFailed(fs, a, b[..|b| - 1], decode, start);
    }
  }

  /** Every project is kept under `<namespace>/<name>`, both non-empty. */
  predicate WellKeyed(projects: Projects) {
    forall k :: k in projects ==>
      && k == ProjectKey(projects[k].config)
      && projects[k].config.name != ""
      && projects[k].config.namespace != ""
  }

  /** The walk keeps the projects well keyed. */
  lemma {:induction false} DiscoveredWellKeyed(fs: FileSystem, entries: seq<WalkEntry>,
                                               decode: seq<string> -> Result<AppConfig, string>, start: Projects)
    requires WellKeyed(start)
    ensures WellKeyed(Discovered(fs, entries, decode, start).projects)
    decreases |entries|
  {
    if entries != [] {
      DiscoveredWellKeyed(fs, entries[..|entries| - 1], decode, start);
    }
  }

  /** The projects of a namespace are the keys starting with the
      namespace and a slash, as long as namespaces hold no slash. */
  lemma NamespacePrefix(projects: Projects, namespace: string, k: string)
    requires WellKeyed(projects) && k in projects
    requires '/' !in namespace && '/' !in projects[k].config.namespace
    ensures HasPrefix(k, namespace + "/") <==> projects[k].config.namespace == namespace
  {
    var own := projects[k].config.namespace;
    assert k == own + "/" + projects[k].config.name;
    assert k[|own|] == '/';
    assert forall i :: 0 <= i < |own| ==> k[i] == own[i];
    if HasPrefix(k, namespace + "/") {
      assert k[..|namespace| + 1] == namespace + "/";
      assert forall i :: 0 <= i < |namespace| ==> k[i] == namespace[i];
      assert k[|namespace|] == (namespace + "/")[|namespace|];
      assert |own| <= |namespace| && |namespace| <= |own|;
      assert namespace == k[..|namespace|] == own;
    }
  }

  /** A namespace that holds a slash is found under its first part too. */
  lemma NestedNamespace(c: AppConfig)
    requires c.namespace == "team/web" && c.name == "app"
    ensures HasPrefix(ProjectKey(c), "team" + "/")
  {
    assert ProjectKey(c)[..5] == "team/";
  }

  class Scanner {
    const projectConfig: ProjectConfig
    var projects: Projects

    /** `New`: a scanner with no projects yet. */
    constructor (projectConfig: ProjectConfig)
      ensures this.projectConfig == projectConfig && projects == map[]
    {
      this.projectConfig := projectConfig;
      projects := map[];
    }

    /** `ScanProjects`: walks the target directory; the projects found
        before a walk error stay in the map. */
    method ScanProjects(fs: FileSystem, decode: seq<string> -> Result<AppConfig, string>) returns (err: Option<string>)
      modifies this
      ensures var scan := Discovered(fs, fs.Walk(projectConfig.targetDirectory), decode, old(projects));
              projects == scan.projects && err == scan.error
    {
      var entries := fs.Walk(projectConfig.targetDirectory);
      ghost var start := projects;
      err := None;
      assert entries[..0] == [];
      for i := 0 to |entries|
        invariant Discovered(fs, entries[..i], decode, start) == Scan(projects, None)
      {
        TakeStep(entries, i);
        var visitErr := Visit(fs, entries[i], decode);
        if visitErr.Some? {
          err := visitErr;
          DiscoveredFailed(fs, entries[..i + 1], entries[i + 1..], decode, start);
          assert entries[..i + 1] + entries[i + 1..] == entries;
          return;
        }
      }
      TakeAll(entries);
    }

    /** The function `ScanProjects` gives the walk: a permission failure is
        skipped, another failure is returned, and an app.yaml that loads is
        stored under its key. */
    method Visit(fs: FileSystem, entry: WalkEntry, decode: seq<string> -> Result<AppConfig, string>)
      returns (err: Option<string>)
      modifies this
      ensures Scan(projects, err) == Visited(fs, entry, decode, old(projects))
    {
      err := None;
      if entry.WalkFailure? {
        if !entry.permission {
          err := Some(entry.reason);
        }
      } else if Paths.Base(entry.path) == "app.yaml" {
        var appConfig := LoadAppConfig(fs, entry.path, decode);
        if appConfig.Ok? {
          var projectKey := appConfig.value.namespace + "/" + appConfig.value.name;
          projects := projects[projectKey := AppProject(appConfig.value, Paths.Dir(entry.path))];
        }
      }
    }

    /** `GetProject`: the project under a key, when there is one. */
    method GetProject(key: string) returns (project: Option<AppProject>)
      ensures project.Some? <==> key in projects
      ensures project.Some? ==> project.value == projects[key]
    {
      if key in projects {
        return Some(projects[key]);
      }
      return None;
    }

    /** `GetProjectsByNamespace`: the projects whose key starts with the
        namespace and a slash, in map iteration order, which `keys`
        records. */
    method GetProjectsByNamespace(namespace: string) returns (result: seq<AppProject>, ghost keys: seq<string>)
      ensures IsOrdering(keys, set k | k in projects && HasPrefix(k, namespace + "/"))
      ensures |result| == |keys| && forall i :: 0 <= i < |keys| ==> keys[i] in projects && result[i] == projects[keys[i]]
    {
      var order := EnumerateKeys(projects);
      result, keys := [], [];
      for i := 0 to |order|
        invariant |result| == |keys| && NoDuplicates(keys)
        invariant forall j :: 0 <= j < |keys| ==> keys[j] in projects && result[j] == projects[keys[j]]
        invariant Elems(keys) == (set k | k in projects && HasPrefix(k, namespace + "/")) * Elems(order[..i])
        invariant forall x :: x in keys ==> x in order[..i]
      {
        TakeOneMore(order, i);
        ElemsAppend(order[..i], order[i]);
        if HasPrefix(order[i], namespace + "/") {
          assert forall j :: 0 <= j < i ==> order[j] != order[i];
          assert order[i] !in order[..i];
          ElemsAppend(keys, order[i]);
          result := result + [projects[order[i]]];
          keys := keys + [order[i]];
        }
      }
      TakeAll(order);
    }

    /** `GetAvailableScripts`: the workspace scripts the project does not
        disable, in map iteration order. */
    method GetAvailableScripts(project: AppProject) returns (names: seq<string>)
      ensures NoDuplicates(names)
      ensures Elems(names) == set s | s in projectConfig.scripts && !Executor.Disabled(project, s)
    {
      var order := EnumerateKeys(projectConfig.scripts);
      names := [];
      for i := 0 to |order|
        invariant NoDuplicates(names)
        invariant Elems(names) == (set s | s in projectConfig.scripts && !Executor.Disabled(project, s)) * Elems(order[..i])
        invariant forall x :: x in names ==> x in order[..i]
      {
        TakeOneMore(order, i);
        ElemsAppend(order[..i], order[i]);
        var scriptName := order[i];
        if scriptName !in project.config.scripts || project.config.scripts[scriptName] {
          assert forall j :: 0 <= j < i ==> order[j] != order[i];
          assert order[i] !in order[..i];
          ElemsAppend(names, scriptName);
          names := names + [scriptName];
        }
      }
      TakeAll(order);
    }
  }
}
