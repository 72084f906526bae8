/** The language-neutral records of the dependency scanners and the graph
    that collects one record per scanned project. */
module Dependencies {
  import opened Wrappers
  import opened StringOrder

  /** One dependency of a project: the module it needs, the version asked
      for, whether it is direct, and the import paths that use it. */
  datatype Dependency = Dependency(
    source: string,
    target: string,
    version: string,
    isDirect: bool,
    importPaths: seq<string>)

  /** What a scanner found for one project. */
  datatype ProjectDependencies = ProjectDependencies(
    projectPath: string,
    language: string,
    dependencies: seq<Dependency>)

  /** The scanned projects, by project path. */
  class DependencyGraph {
    var projects: map<string, ProjectDependencies>

    /** `NewDependencyGraph`: a graph with no projects. */
    constructor ()
      ensures projects == map[]
    {
      projects := map[];
    }

    /** `AddProject`: stores the record under its own project path,
        replacing an earlier record for that path; every other entry stays. */
    method AddProject(deps: ProjectDependencies)
      modifies this
      ensures projects == old(projects)[deps.projectPath := deps]
      ensures forall p :: p != deps.projectPath && p in old(projects) ==> p in projects && projects[p] == old(projects)[p]
    {
      projects := projects[deps.projectPath := deps];
    }

    /** `GetDependencies`: the stored record, or an error naming the path. */
    function GetDependencies(projectPath: string): (r: Result<ProjectDependencies, string>)
      reads this
      ensures r.Ok? <==> projectPath in projects
      ensures r.Ok? ==> r.value == projects[projectPath]
      ensures r.Err? ==> r.error == "project not found: " + projectPath
    {
      if projectPath in projects then Ok(projects[projectPath])
      else Err("project not found: " + projectPath)
    }

    /** `GetProjectsWithDependencies`: every stored record once, in map
        iteration order (`order` is the order of the paths). */
    method GetProjectsWithDependencies() returns (result: seq<ProjectDependencies>, ghost order: seq<string>)
      ensures IsOrdering(order, projects.Keys)
      ensures |result| == |order| == |projects|
      ensures forall i :: 0 <= i < |result| ==> order[i] in projects && result[i] == projects[order[i]]
    {
      var paths := EnumerateKeys(projects);
      result := [];
      for i := 0 to |paths|
        invariant |result| == i
        invariant forall j :: 0 <= j < i ==> result[j] == projects[paths[j]]
      {
        result := result + [projects[paths[i]]];
      }
      order := paths;
    }
  }
}
