/** The deep analysis of a Go project: the requirements of go.mod, each
    enriched with the import paths of the project's sources that fall under
    it. */
module Analyzer {
  import opened Wrappers
  import opened Text
  import opened StringOrder
  import opened Config
  import opened Dependencies
  import opened GoScanner
  import Paths

  /** `extractBasePackage`: a path without a dot is a local package and is
      its own base; otherwise the base is made of the first three
      segments. */
  function ExtractBasePackage(importPath: string): string {
    if !Contains(importPath, ".") then importPath
    else
      var parts := Split(importPath, '/');
      if |parts| >= 3 then Paths.JoinAll([parts[0], parts[1], parts[2]]) else importPath
  }

  /** A local import path (no dot) is its own base package. */
  lemma LocalPackage(importPath: string)
    requires '.' !in importPath
    ensures ExtractBasePackage(importPath) == importPath
  {
    ContainsChar(importPath, '.');
  }

  /** A module path host/owner/repo, and every import path below it, has
      that module as its base package. */
  lemma ModulePackage(parts: seq<string>)
    requires |parts| >= 3 && '.' in parts[0]
    requires forall i :: 0 <= i < |parts| ==> parts[i] != "" && '/' !in parts[i]
    requires Paths.IsName(parts[0]) && Paths.IsName(parts[1]) && Paths.IsName(parts[2])
    ensures ExtractBasePackage(Join(parts, "/")) == parts[0] + "/" + parts[1] + "/" + parts[2]
  {
    var p := Join(parts, "/");
    assert Contains(p, ".") by {
      DotInPath(parts);
    }
    assert Split(p, '/') == parts by {
      SplitJoin(parts, '/');
    }
    JoinThree(parts[0], parts[1], parts[2]);
  }

  lemma JoinThree(a: string, b: string, c: string)
    requires Paths.IsName(a) && Paths.IsName(b) && Paths.IsName(c)
    ensures Paths.JoinAll([a, b, c]) == a + "/" + b + "/" + c
  {
    var p := a + "/" + b + "/" + c;
    assert [a, b, c][1..] == [b, c] && [b, c][1..] == [c];
    assert Join([b, c], "/") == b + "/" + c;
    assert Join([a, b, c], "/") == a + "/" + (b + "/" + c);
    assert a + "/" + (b + "/" + c) == p;
    SplitJoin([a, b, c], '/');
    assert "/" == ['/'];
    Paths.CleanKeeps(p);
  }

  /** A path whose first segment holds a dot holds a dot. */
  lemma DotInPath(parts: seq<string>)
    requires |parts| >= 2 && '.' in parts[0]
    ensures Contains(Join(parts, "/"), ".")
  {
    var p := Join(parts, "/");
    assert p == parts[0] + ("/" + Join(parts[1..], "/"));
    var k :| 0 <= k < |parts[0]| && parts[0][k] == '.';
    assert p[k] == '.';
    ContainsChar(p, '.');
  }

  /** A two-segment module path with a dot, such as a gopkg.in path, is its
      own base package. */
  lemma TwoSegmentPackage(host: string, name: string)
    requires host != "" && name != "" && '/' !in host && '/' !in name && '.' in host
    ensures ExtractBasePackage(host + "/" + name) == host + "/" + name
  {
    var p := host + "/" + name;
    assert p == Join([host, name], "/");
    SplitJoin([host, name], '/');
    var k :| 0 <= k < |host| && host[k] == '.';
    assert p[k] == '.';
    ContainsChar(p, '.');
  }

  /** The imports, in the given order, whose base package is `base`: the
      value `usedImports[base]` ends with. */
  function UsedBy(imports: seq<string>, base: string): (r: seq<string>)
    ensures forall x :: x in r <==> x in imports && ExtractBasePackage(x) == base
    ensures NoDuplicates(imports) ==> NoDuplicates(r)
    decreases |imports|
  {
    if imports == [] then []
    else
      var front := imports[..|imports| - 1];
      var x := imports[|imports| - 1];
      assert imports == front + [x];
      var r := UsedBy(front, base);
      assert NoDuplicates(imports) ==> NoDuplicates(front) && x !in front;
      if ExtractBasePackage(x) == base then r + [x] else r
  }

  /** `usedImports` after the imports `imports`: each base package seen
      maps to the imports under it, and no other key is present. */
  ghost predicate Grouped(used: map<string, seq<string>>, imports: seq<string>) {
    forall b :: (b in used ==> used[b] == UsedBy(imports, b) != []) && (b !in used ==> UsedBy(imports, b) == [])
  }

  lemma GroupedStep(used: map<string, seq<string>>, imports: seq<string>, x: string)
    requires Grouped(used, imports)
    ensures var base := ExtractBasePackage(x);
            Grouped(used[base := (if base in used then used[base] else []) + [x]], imports + [x])
  {
    assert (imports + [x])[..|imports|] == imports;
  }

  /** One requirement after enrichment: when some import falls under its
      module, its import paths become those imports. */
  function Enrich(d: Dependency, imports: seq<string>): Dependency {
    var paths := UsedBy(imports, d.target);
    if paths != [] then d.(importPaths := paths) else d
  }

  function EnrichAll(deps: seq<Dependency>, imports: seq<string>): (r: seq<Dependency>)
    ensures |r| == |deps|
  {
    seq(|deps|, i requires 0 <= i < |deps| => Enrich(deps[i], imports))
  }

  /** Why the analysis of a project fails, if it does: the go.mod error as
      it is, or the import scan's error wrapped. */
  function AnalysisError(fs: FileSystem, projectPath: string): Option<string> {
    match ScanManifest(fs, projectPath)
    case Err(e) => Some(e)
    case Ok(_) =>
      match CollectImports(fs, fs.Walk(projectPath))
      case Err(e) => Some("failed to scan imports: " + e)
      case Ok(_) => None
  }

  /** The analysis of a project whose imports were listed in the given
      order. */
  function Analysis(fs: FileSystem, projectPath: string, imports: seq<string>): ProjectDependencies
    requires ScanManifest(fs, projectPath).Ok?
  {
    var d := ScanManifest(fs, projectPath).value;
    d.(dependencies := EnrichAll(d.dependencies, imports))
  }

  /** The imports found in a project, as a set. */
  function ProjectImports(fs: FileSystem, projectPath: string): set<string>
    requires CollectImports(fs, fs.Walk(projectPath)).Ok?
  {
    CollectImports(fs, fs.Walk(projectPath)).value
  }

  /** The `usedImports` loop: groups the imports by base package. */
  method GroupByBase(imports: seq<string>) returns (used: map<string, seq<string>>)
    ensures Grouped(used, imports)
  {
    used := map[];
    for i := 0 to |imports|
      invariant Grouped(used, imports[..i])
    {
      TakeOneMore(imports, i);
      GroupedStep(used, imports[..i], imports[i]);
      var base := ExtractBasePackage(imports[i]);
      var paths := if base in used then used[base] else [];
      used := used[base := paths + [imports[i]]];
    }
    TakeAll(imports);
  }

  lemma EnrichFromGroups(used: map<string, seq<string>>, imports: seq<string>, d: Dependency)
    requires Grouped(used, imports)
    ensures Enrich(d, imports) == if d.target in used then d.(importPaths := used[d.target]) else d
  {
    assert d.target in used ==> used[d.target] == UsedBy(imports, d.target) != [];
    assert d.target !in used ==> UsedBy(imports, d.target) == [];
  }

  /** The enrichment loop, which updates the requirements in place. */
  method EnrichDependencies(deps: seq<Dependency>, used: map<string, seq<string>>, ghost imports: seq<string>)
    returns (enriched: seq<Dependency>)
    requires Grouped(used, imports)
    ensures enriched == EnrichAll(deps, imports)
  {
    enriched := deps;
    for i := 0 to |enriched|
      invariant |enriched| == |deps|
      invariant forall j :: 0 <= j < i ==> enriched[j] == Enrich(deps[j], imports)
      invariant forall j :: i <= j < |enriched| ==> enriched[j] == deps[j]
    {
      var dep := enriched[i];
      EnrichFromGroups(used, imports, dep);
      if dep.target in used {
        enriched := enriched[i := dep.(importPaths := used[dep.target])];
      }
    }
  }

  /** `AnalyzeProjectDependencies`; `imports` is the order in which the
      import scan listed the project's imports. */
  method AnalyzeProjectDependencies(fs: FileSystem, projectPath: string)
    returns (r: Result<ProjectDependencies, string>, ghost imports: seq<string>)
    ensures r.Err? <==> AnalysisError(fs, projectPath).Some?
    ensures r.Err? ==> r.error == AnalysisError(fs, projectPath).value
    ensures r.Ok? ==> IsOrdering(imports, ProjectImports(fs, projectPath))
    ensures r.Ok? ==> r.value == Analysis(fs, projectPath, imports)
  {
    imports := [];
    var deps := ScanProject(fs, projectPath);
    if deps.Err? {
      return Err(deps.error), imports;
    }
    var scanned := ScanImports(fs, projectPath);
    if scanned.Err? {
      return Err("failed to scan imports: " + scanned.error), imports;
    }
    var imps := scanned.value;
    var usedImports := GroupByBase(imps);
    var dependencies := EnrichDependencies(deps.value.dependencies, usedImports, imps);
    r := Ok(deps.value.(dependencies := dependencies));
    imports := imps;
  }

  /** Enrichment keeps each requirement and its order; a requirement some
      import falls under gets exactly those imports, once each, and any
      other keeps its own import paths. */
  lemma Enrichment(fs: FileSystem, projectPath: string, imports: seq<string>, i: nat)
    requires ScanManifest(fs, projectPath).Ok? && CollectImports(fs, fs.Walk(projectPath)).Ok?
    requires IsOrdering(imports, ProjectImports(fs, projectPath))
    requires i < |ScanManifest(fs, projectPath).value.dependencies|
    ensures var d := ScanManifest(fs, projectPath).value.dependencies[i];
            var e := Analysis(fs, projectPath, imports).dependencies[i];
            var used := set x | x in ProjectImports(fs, projectPath) && ExtractBasePackage(x) == d.target;
            && e.(importPaths := d.importPaths) == d
            && (used != {} ==> IsOrdering(e.importPaths, used))
            && (used == {} ==> e.importPaths == d.importPaths)
  {
    var d := ScanManifest(fs, projectPath).value.dependencies[i];
    var paths := UsedBy(imports, d.target);
    var used := set x | x in ProjectImports(fs, projectPath) && ExtractBasePackage(x) == d.target;
    assert Elems(paths) == used;
    if paths != [] {
      assert paths[0] in used;
    }
    if used != {} {
      var x :| x in used;
      assert x in paths;
    }
  }
}
