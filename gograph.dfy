/** The graph builder for the Go projects of a workspace. */
module GoGraph {
  import opened Wrappers
  import opened StringOrder
  import opened Config
  import opened Dependencies
  import GoScanner
  import opened Analyzer
  import Registry
  import Paths

  /** The graph `BuildGraph` builds from the given project directories,
      when the import scan of the i-th one listed its imports in the order
      `orders[i]`: directories without a go.mod are skipped, each record is
      stored under its directory, and the first analysis that fails ends
      it. */
  function Build(fs: FileSystem, workspaceRoot: string, dirs: seq<string>, orders: seq<seq<string>>)
    : Result<map<string, ProjectDependencies>, string>
    requires |orders| == |dirs|
    decreases |dirs|
  {
    if dirs == [] then Ok(map[])
    else
      var n := |dirs| - 1;
      var dir := dirs[n];
      var p := Paths.Join(workspaceRoot, dir);
      match Build(fs, workspaceRoot, dirs[..n], orders[..n])
      case Err(e) => Err(e)
      case Ok(graph) =>
        if !GoScanner.CanScan(fs, p) then Ok(graph)
        else match AnalysisError(fs, p)
          case Some(e) => Err("failed to analyze project " + p + ": " + e)
          case None => Ok(graph[dir := Analysis(fs, p, orders[n]).(projectPath := dir)])
  }

  /** The import orders are those the scans produced: for each analysed
      directory, an ordering of its imports. */
  ghost predicate ScannedOrders(fs: FileSystem, workspaceRoot: string, dirs: seq<string>, orders: seq<seq<string>>)
    requires |orders| == |dirs|
  {
    forall i :: 0 <= i < |dirs| ==> OrderScanned(fs, Paths.Join(workspaceRoot, dirs[i]), orders[i])
  }

  /** The import order of one analysed directory is an ordering of its
      imports. */
  ghost predicate OrderScanned(fs: FileSystem, p: string, order: seq<string>) {
    GoScanner.CanScan(fs, p) && AnalysisError(fs, p).None? ==> IsOrdering(order, ProjectImports(fs, p))
  }

  lemma OrdersStep(fs: FileSystem, workspaceRoot: string, dirs: seq<string>, orders: seq<seq<string>>, i: nat)
    requires |orders| == |dirs| && i < |dirs|
    requires ScannedOrders(fs, workspaceRoot, dirs[..i], orders[..i])
    requires OrderScanned(fs, Paths.Join(workspaceRoot, dirs[i]), orders[i])
    ensures ScannedOrders(fs, workspaceRoot, dirs[..i + 1], orders[..i + 1])
  {
    var ds, os := dirs[..i + 1], orders[..i + 1];
    forall k | 0 <= k < i + 1
      ensures OrderScanned(fs, Paths.Join(workspaceRoot, ds[k]), os[k])
    {
      if k < i {
        assert ds[k] == dirs[..i][k] && os[k] == orders[..i][k];
      }
    }
  }

  /** An analysis that fails ends the build. */
  lemma {:induction false} BuildFailed(fs: FileSystem, workspaceRoot: string, dirs: seq<string>, orders: seq<seq<string>>, n: nat)
    requires |orders| == |dirs| && n <= |dirs|
    requires Build(fs, workspaceRoot, dirs[..n], orders[..n]).Err?
    ensures Build(fs, workspaceRoot, dirs, orders) == Build(fs, workspaceRoot, dirs[..n], orders[..n])
    decreases |dirs| - n
  {
    if n < |dirs| {
      BuildOne(fs, workspaceRoot, dirs, orders, n);
      BuildFailed(fs, workspaceRoot, dirs, orders, n + 1);
      assert dirs[..n + 1][..n] == dirs[..n] && orders[..n + 1][..n] == orders[..n];
    } else {
      assert dirs[..n] == dirs && orders[..n] == orders;
    }
  }

  /** The graph holds one record per Go project directory, under that
      directory, which is also its project path. */
  lemma BuildProjects(fs: FileSystem, workspaceRoot: string, dirs: seq<string>, orders: seq<seq<string>>)
    requires |orders| == |dirs| && Build(fs, workspaceRoot, dirs, orders).Ok?
    ensures var graph := Build(fs, workspaceRoot, dirs, orders).value;
            forall dir :: dir in graph <==> dir in dirs && GoScanner.CanScan(fs, Paths.Join(workspaceRoot, dir))
    ensures var graph := Build(fs, workspaceRoot, dirs, orders).value;
            forall dir :: dir in graph ==> graph[dir].projectPath == dir && graph[dir].language == GoScanner.Language
  {
    BuildKeys(fs, workspaceRoot, dirs, orders);
    BuildRecords(fs, workspaceRoot, dirs, orders);
  }

  lemma {:induction false} BuildKeys(fs: FileSystem, workspaceRoot: string, dirs: seq<string>, orders: seq<seq<string>>)
    requires |orders| == |dirs| && Build(fs, workspaceRoot, dirs, orders).Ok?
    ensures var graph := Build(fs, workspaceRoot, dirs, orders).value;
            forall dir :: dir in graph <==> dir in dirs && GoScanner.CanScan(fs, Paths.Join(workspaceRoot, dir))
    decreases |dirs|
  {
    if dirs != [] {
      var n := |dirs| - 1;
      var before := Build(fs, workspaceRoot, dirs[..n], orders[..n]);
      assert before.Ok?;
      BuildKeys(fs, workspaceRoot, dirs[..n], orders[..n]);
      assert forall d :: d in dirs <==> d in dirs[..n] || d == dirs[n] by {
        assert dirs == dirs[..n] + [dirs[n]];
      }
      var graph := Build(fs, workspaceRoot, dirs, orders).value;
      var p := Paths.Join(workspaceRoot, dirs[n]);
      if GoScanner.CanScan(fs, p) {
        assert AnalysisError(fs, p).None?;
        assert graph == before.value[dirs[n] := Analysis(fs, p, orders[n]).(projectPath := dirs[n])];
      } else {
        assert graph == before.value;
      }
    }
  }

  lemma {:induction false} BuildRecords(fs: FileSystem, workspaceRoot: string, dirs: seq<string>, orders: seq<seq<string>>)
    requires |orders| == |dirs| && Build(fs, workspaceRoot, dirs, orders).Ok?
    ensures var graph := Build(fs, workspaceRoot, dirs, orders).value;
            forall dir :: dir in graph ==> graph[dir].projectPath == dir && graph[dir].language == GoScanner.Language
    decreases |dirs|
  {
    if dirs != [] {
      var n := |dirs| - 1;
      assert Build(fs, workspaceRoot, dirs[..n], orders[..n]).Ok?;
      BuildRecords(fs, workspaceRoot, dirs[..n], orders[..n]);
    }
  }

  /** A dependency graph builder for Go projects. */
  class GraphBuilder {
    var registry: Registry.ScannerRegistry

    /** `NewGraphBuilder`: a registry holding the Go scanner. */
    constructor ()
      ensures fresh(registry) && registry.scanners == [Registry.Go]
    {
      var r := new Registry.ScannerRegistry();
      r.RegisterScanner(Registry.Go);
      registry := r;
    }

    /** `BuildGraph`; `orders` are the orders in which the import scans
        listed each project's imports. */
    method BuildGraph(fs: FileSystem, workspaceRoot: string, projectDirs: seq<string>)
      returns (r: Result<DependencyGraph, string>, ghost orders: seq<seq<string>>)
      ensures |orders| == |projectDirs|
      ensures r.Ok? ==> ScannedOrders(fs, workspaceRoot, projectDirs, orders)
      ensures r.Ok? <==> Build(fs, workspaceRoot, projectDirs, orders).Ok?
      ensures r.Err? ==> r.error == Build(fs, workspaceRoot, projectDirs, orders).error
      ensures r.Ok? ==> fresh(r.value) && r.value.projects == Build(fs, workspaceRoot, projectDirs, orders).value
    {
      var graph := new DependencyGraph();
      orders := seq(|projectDirs|, i => []);
      assert projectDirs[..0] == [] && orders[..0] == [];
      for i := 0 to |projectDirs|
        invariant |orders| == |projectDirs|
        invariant ScannedOrders(fs, workspaceRoot, projectDirs[..i], orders[..i])
        invariant Build(fs, workspaceRoot, projectDirs[..i], orders[..i]) == Ok(graph.projects)
        invariant fresh(graph)
      {
        var projectPath := Paths.Join(workspaceRoot, projectDirs[i]);
        if GoScanner.CanScan(fs, projectPath) {
          var deps, imports := AnalyzeProjectDependencies(fs, projectPath);
          if deps.Err? {
            BuildOne(fs, workspaceRoot, projectDirs, orders, i);
            BuildFailed(fs, workspaceRoot, projectDirs, orders, i + 1);
            return Err("failed to analyze project " + projectPath + ": " + deps.error), orders;
          }
          assert orders[i := imports][..i] == orders[..i];
          orders := orders[i := imports];
          graph.AddProject(deps.value.(projectPath := projectDirs[i]));
        }
        BuildOne(fs, workspaceRoot, projectDirs, orders, i);
        OrdersStep(fs, workspaceRoot, projectDirs, orders, i);
      }
      assert projectDirs[..|projectDirs|] == projectDirs && orders[..|orders|] == orders;
      r := Ok(graph);
    }
  }

  /** One more directory of the build. */
  lemma BuildOne(fs: FileSystem, workspaceRoot: string, dirs: seq<string>, orders: seq<seq<string>>, i: nat)
    requires |orders| == |dirs| && i < |dirs|
    ensures var n := i + 1;
            var p := Paths.Join(workspaceRoot, dirs[i]);
            Build(fs, workspaceRoot, dirs[..n], orders[..n]) ==
              match Build(fs, workspaceRoot, dirs[..i], orders[..i])
              case Err(e) => Err(e)
              case Ok(graph) =>
                if !GoScanner.CanScan(fs, p) then Ok(graph)
                else match AnalysisError(fs, p)
                  case Some(e) => Err("failed to analyze project " + p + ": " + e)
                  case None => Ok(graph[dirs[i] := Analysis(fs, p, orders[i]).(projectPath := dirs[i])])
  {
    assert dirs[..i + 1][..i] == dirs[..i] && orders[..i + 1][..i] == orders[..i];
    assert dirs[..i + 1][i] == dirs[i] && orders[..i + 1][i] == orders[i];
  }

  /** The project paths, in the order given, of the records that depend on
      the package. */
  function Dependents(records: seq<ProjectDependencies>, packageName: string): seq<string>
    decreases |records|
  {
    if records == [] then []
    else
      var n := |records| - 1;
      Dependents(records[..n], packageName)
        + if Uses(records[n], packageName) then [records[n].projectPath] else []
  }

  /** The project depends directly or indirectly on the package. */
  predicate Uses(d: ProjectDependencies, packageName: string) {
    exists j :: 0 <= j < |d.dependencies| && d.dependencies[j].target == packageName
  }

  /** Every record of the graph is stored under its own project path. */
  ghost predicate KeyedByPath(graph: map<string, ProjectDependencies>) {
    forall p :: p in graph ==> graph[p].projectPath == p
  }

  predicate DistinctPaths(records: seq<ProjectDependencies>) {
    forall i, j :: 0 <= i < j < |records| ==> records[i].projectPath != records[j].projectPath
  }

  /** `FindProjectDependencies`, in the order the graph lists its records
      (`order`, the order of their keys). */
  method FindProjectDependencies(graph: DependencyGraph, packageName: string)
    returns (dependents: seq<string>, ghost order: seq<string>)
    ensures IsOrdering(order, graph.projects.Keys)
    ensures forall i :: 0 <= i < |order| ==> order[i] in graph.projects
    ensures dependents == Dependents(ValuesAt(graph.projects, order), packageName)
  {
    var records;
    records, order := graph.GetProjectsWithDependencies();
    assert records == ValuesAt(graph.projects, order);
    dependents := [];
    for i := 0 to |records|
      invariant dependents == Dependents(records[..i], packageName)
    {
      TakeStep(records, i);
      var project := records[i];
      var uses := false;
      for j := 0 to |project.dependencies|
        invariant uses <==> exists k :: 0 <= k < j && project.dependencies[k].target == packageName
      {
        if project.dependencies[j].target == packageName {
          uses := true;
          break;
        }
      }
      if uses {
        dependents := dependents + [project.projectPath];
      }
    }
    TakeAll(records);
  }

  /** In a graph whose records are stored under their own paths, the
      dependents are exactly the projects that use the package, once each. */
  lemma DependentsOfGraph(graph: map<string, ProjectDependencies>, order: seq<string>, packageName: string)
    requires KeyedByPath(graph) && IsOrdering(order, graph.Keys)
    requires forall i :: 0 <= i < |order| ==> order[i] in graph
    ensures var ds := Dependents(ValuesAt(graph, order), packageName);
            NoDuplicates(ds) && Elems(ds) == set p | p in graph && Uses(graph[p], packageName)
  {
    var records := ValuesAt(graph, order);
    assert forall i :: 0 <= i < |records| ==> records[i].projectPath == order[i];
    DependentsOf(records, packageName);
    var ds := Dependents(records, packageName);
    forall p | p in graph && Uses(graph[p], packageName)
      ensures p in ds
    {
      assert p in Elems(order);
      var i :| 0 <= i < |order| && order[i] == p;
      assert records[i] == graph[p];
    }
  }

  /** The dependents of a list of records are those of its records that use
      the package, in order. */
  lemma {:induction false} DependentsOf(records: seq<ProjectDependencies>, packageName: string)
    ensures forall x :: x in Dependents(records, packageName) <==>
              exists i :: 0 <= i < |records| && Uses(records[i], packageName) && records[i].projectPath == x
    ensures DistinctPaths(records) ==> NoDuplicates(Dependents(records, packageName))
    decreases |records|
  {
    if records != [] {
      var n := |records| - 1;
      var front := records[..n];
      DependentsOf(front, packageName);
      assert forall i :: 0 <= i < n ==> front[i] == records[i];
      if DistinctPaths(records) {
        assert DistinctPaths(front);
        assert records[n].projectPath !in Dependents(front, packageName);
      }
    }
  }
}
