/** The registry of language scanners and the scan of a list of projects
    into a dependency graph. */
module Registry {
  import opened Wrappers
  import opened StringOrder
  import opened Config
  import opened Dependencies
  import GoScanner
  import Paths

  /** The scanners the program has: the Go scanner and the JavaScript
      scanner, which recognises no project yet. */
  datatype Scanner = Go | JavaScript

  /** `GetLanguage` */
  function Language(s: Scanner): string {
    match s
    case Go => GoScanner.Language
    case JavaScript => "javascript"
  }

  /** `CanScan` */
  predicate CanScan(s: Scanner, fs: FileSystem, projectPath: string) {
    match s
    case Go => GoScanner.CanScan(fs, projectPath)
    case JavaScript => false
  }

  /** What `ScanProject` returns. */
  function ScanWith(s: Scanner, fs: FileSystem, projectPath: string): Result<ProjectDependencies, string> {
    match s
    case Go => GoScanner.ScanManifest(fs, projectPath)
    case JavaScript => Err("JavaScript scanner not yet implemented")
  }

  /** `ScanProject` of the scanner at hand. */
  method ScanProject(s: Scanner, fs: FileSystem, projectPath: string) returns (r: Result<ProjectDependencies, string>)
    ensures r == ScanWith(s, fs, projectPath)
  {
    match s
    case Go =>
      r := GoScanner.ScanProject(fs, projectPath);
    case JavaScript =>
      r := Err("JavaScript scanner not yet implemented");
  }

  /** A successful scan describes the project it was asked for, in the
      scanner's language. */
  lemma ScanDescribesProject(s: Scanner, fs: FileSystem, projectPath: string)
    ensures ScanWith(s, fs, projectPath).Ok? ==>
              ScanWith(s, fs, projectPath).value.projectPath == projectPath
              && ScanWith(s, fs, projectPath).value.language == Language(s)
    ensures s == JavaScript ==> ScanWith(s, fs, projectPath).Err?
  {
  }

  /** The scanner `FindScanner` picks: the first registered one that can
      scan the project. */
  function FirstScanner(scanners: seq<Scanner>, fs: FileSystem, projectPath: string): Result<Scanner, string>
  {
    if scanners == [] then Err("no scanner found for project: " + projectPath)
    else if CanScan(scanners[0], fs, projectPath) then Ok(scanners[0])
    else FirstScanner(scanners[1..], fs, projectPath)
  }

  /** A scanner is found exactly when a registered one can scan the project;
      the one found is the first such. */
  lemma FirstScannerFound(scanners: seq<Scanner>, fs: FileSystem, projectPath: string)
    ensures FirstScanner(scanners, fs, projectPath).Ok? <==>
              exists i :: 0 <= i < |scanners| && CanScan(scanners[i], fs, projectPath)
    ensures FirstScanner(scanners, fs, projectPath).Ok? ==>
              exists i :: 0 <= i < |scanners| && scanners[i] == FirstScanner(scanners, fs, projectPath).value
                && CanScan(scanners[i], fs, projectPath)
                && forall j :: 0 <= j < i ==> !CanScan(scanners[j], fs, projectPath)
    ensures FirstScanner(scanners, fs, projectPath).Err? ==>
              FirstScanner(scanners, fs, projectPath).error == "no scanner found for project: " + projectPath
  {
    ScannerFoundIff(scanners, fs, projectPath);
    ScannerFoundFirst(scanners, fs, projectPath);
  }

  lemma {:induction false} ScannerFoundIff(scanners: seq<Scanner>, fs: FileSystem, projectPath: string)
    ensures FirstScanner(scanners, fs, projectPath).Ok? <==>
              exists i :: 0 <= i < |scanners| && CanScan(scanners[i], fs, projectPath)
    ensures FirstScanner(scanners, fs, projectPath).Err? ==>
              FirstScanner(scanners, fs, projectPath).error == "no scanner found for project: " + projectPath
    decreases |scanners|
  {
    if scanners != [] {
      ScannerFoundIff(scanners[1..], fs, projectPath);
      if !CanScan(scanners[0], fs, projectPath) {
        assert forall i :: 1 <= i < |scanners| ==> scanners[1..][i - 1] == scanners[i];
      }
    }
  }

  lemma {:induction false} ScannerFoundFirst(scanners: seq<Scanner>, fs: FileSystem, projectPath: string)
    ensures FirstScanner(scanners, fs, projectPath).Ok? ==>
              exists i :: 0 <= i < |scanners| && scanners[i] == FirstScanner(scanners, fs, projectPath).value
                && CanScan(scanners[i], fs, projectPath)
                && forall j :: 0 <= j < i ==> !CanScan(scanners[j], fs, projectPath)
    decreases |scanners|
  {
    if scanners != [] {
      var r := FirstScanner(scanners, fs, projectPath);
      if !CanScan(scanners[0], fs, projectPath) {
        ScannerFoundFirst(scanners[1..], fs, projectPath);
        if r.Ok? {
          var i :| 0 <= i < |scanners[1..]| && scanners[1..][i] == r.value
                    && CanScan(scanners[1..][i], fs, projectPath)
                    && forall j :: 0 <= j < i ==> !CanScan(scanners[1..][j], fs, projectPath);
          assert scanners[i + 1] == r.value;
          assert forall j :: 1 <= j < i + 1 ==> scanners[j] == scanners[1..][j - 1];
        }
      } else {
        assert scanners[0] == r.value;
      }
    }
  }

  /** The projects graph `ScanProjects` builds from the given project paths,
      or its error: projects no scanner can scan are skipped; the first scan
      that fails ends it. */
  function ScanAll(scanners: seq<Scanner>, fs: FileSystem, paths: seq<string>): Result<map<string, ProjectDependencies>, string>
    decreases |paths|
  {
    if paths == [] then Ok(map[])
    else
      var p := paths[|paths| - 1];
      match ScanAll(scanners, fs, paths[..|paths| - 1])
      case Err(e) => Err(e)
      case Ok(graph) =>
        match FirstScanner(scanners, fs, p)
        case Err(_) => Ok(graph)
        case Ok(s) =>
          match ScanWith(s, fs, p)
          case Err(e) => Err("failed to scan project " + p + ": " + e)
          case Ok(deps) => Ok(graph[deps.projectPath := deps])
  }

  /** A scan that fails at some project ends the whole scan. */
  lemma {:induction false} ScanAllFailed(scanners: seq<Scanner>, fs: FileSystem, a: seq<string>, b: seq<string>)
    requires ScanAll(scanners, fs, a).Err?
    ensures ScanAll(scanners, fs, a + b) == ScanAll(scanners, fs, a)
    decreases |b|
  {
    if b == [] {
      assert a + b == a;
    } else {
      assert (a + b)[..|a + b| - 1] == a + b[..|b| - 1];
      ScanAllFailed(scanners, fs, a, b[..|b| - 1]);
    }
  }

  /** The graph holds exactly the given projects that a registered scanner
      can scan, each under its own path. */
  lemma {:induction false} ScanAllProjects(scanners: seq<Scanner>, fs: FileSystem, paths: seq<string>)
    requires ScanAll(scanners, fs, paths).Ok?
    ensures var graph := ScanAll(scanners, fs, paths).value;
            forall p :: p in graph <==> p in paths && FirstScanner(scanners, fs, p).Ok?
    ensures var graph := ScanAll(scanners, fs, paths).value;
            forall p :: p in graph ==> graph[p].projectPath == p
    decreases |paths|
  {
    if paths != [] {
      var front := paths[..|paths| - 1];
      var p := paths[|paths| - 1];
      assert paths == front + [p];
      ScanAllProjects(scanners, fs, front);
      match FirstScanner(scanners, fs, p)
      case Err(_) =>
      case Ok(s) =>
        ScanDescribesProject(s, fs, p);
    }
  }

  /** The scanners, in registration order. */
  class ScannerRegistry {
    var scanners: seq<Scanner>

    /** `NewScannerRegistry` */
    constructor ()
      ensures scanners == []
    {
      scanners := [];
    }

    /** `RegisterScanner`: the scanner is tried after those registered
        before it. */
    method RegisterScanner(s: Scanner)
      modifies this
      ensures scanners == old(scanners) + [s]
    {
      scanners := scanners + [s];
    }

    /** `FindScanner` */
    method FindScanner(fs: FileSystem, projectPath: string) returns (r: Result<Scanner, string>)
      ensures r == FirstScanner(scanners, fs, projectPath)
    {
      for i := 0 to |scanners|
        invariant FirstScanner(scanners, fs, projectPath) == FirstScanner(scanners[i..], fs, projectPath)
      {
        assert scanners[i..][1..] == scanners[i + 1..];
        if CanScan(scanners[i], fs, projectPath) {
          return Ok(scanners[i]);
        }
      }
      return Err("no scanner found for project: " + projectPath);
    }

    /** `ScanProjects` */
    method ScanProjects(fs: FileSystem, projectPaths: seq<string>) returns (r: Result<DependencyGraph, string>)
      ensures r.Ok? <==> ScanAll(scanners, fs, projectPaths).Ok?
      ensures r.Err? ==> r.error == ScanAll(scanners, fs, projectPaths).error
      ensures r.Ok? ==> fresh(r.value) && r.value.projects == ScanAll(scanners, fs, projectPaths).value
    {
      var graph := new DependencyGraph();
      assert projectPaths[..0] == [];
      for i := 0 to |projectPaths|
        invariant ScanAll(scanners, fs, projectPaths[..i]) == Ok(graph.projects)
        invariant fresh(graph)
      {
        TakeStep(projectPaths, i);
        var projectPath := projectPaths[i];
        var scanner := FindScanner(fs, projectPath);
        if scanner.Ok? {
          var deps := ScanProject(scanner.value, fs, projectPath);
          if deps.Err? {
            ScanAllFailed(scanners, fs, projectPaths[..i + 1], projectPaths[i + 1..]);
            assert projectPaths[..i + 1] + projectPaths[i + 1..] == projectPaths;
            return Err("failed to scan project " + projectPath + ": " + deps.error);
          }
          graph.AddProject(deps.value);
        }
      }
      TakeAll(projectPaths);
      r := Ok(graph);
    }

    /** `ScanProjectsRecursive`: `ScanProjects` of the directories joined to
        the base directory. */
    method ScanProjectsRecursive(fs: FileSystem, baseDir: string, projectDirs: seq<string>)
      returns (r: Result<DependencyGraph, string>)
      ensures var paths := JoinedPaths(baseDir, projectDirs);
              && (r.Ok? <==> ScanAll(scanners, fs, paths).Ok?)
              && (r.Err? ==> r.error == ScanAll(scanners, fs, paths).error)
              && (r.Ok? ==> fresh(r.value) && r.value.projects == ScanAll(scanners, fs, paths).value)
    {
      ghost var paths := JoinedPaths(baseDir, projectDirs);
      var graph := new DependencyGraph();
      assert paths[..0] == [];
      for i := 0 to |projectDirs|
        invariant ScanAll(scanners, fs, paths[..i]) == Ok(graph.projects)
        invariant fresh(graph)
      {
        TakeStep(paths, i);
        var projectPath := Paths.Join(baseDir, projectDirs[i]);
        assert projectPath == paths[i];
        var scanner := FindScanner(fs, projectPath);
        if scanner.Ok? {
          var deps := ScanProject(scanner.value, fs, projectPath);
          if deps.Err? {
            ScanAllFailed(scanners, fs, paths[..i + 1], paths[i + 1..]);
            assert paths[..i + 1] + paths[i + 1..] == paths;
            return Err("failed to scan project " + projectPath + ": " + deps.error);
          }
          graph.AddProject(deps.value);
        }
      }
      TakeAll(paths);
      r := Ok(graph);
    }
  }

  /** The project paths of directories under a base directory. */
  function JoinedPaths(baseDir: string, dirs: seq<string>): (paths: seq<string>)
    ensures |paths| == |dirs|
  {
    seq(|dirs|, i requires 0 <= i < |dirs| => Paths.Join(baseDir, dirs[i]))
  }
}
