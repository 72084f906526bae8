/** The mapping of a Go module path to the key of the workspace project
    that provides it: each project's go.mod names its module, a module
    path naming one of them maps to its project directly, and otherwise a
    project whose key ends the module path, or whose module the path is a
    package of, is taken. Both tables are walked in Go's unspecified map
    order, so the properties are stated for every order. */
module ModuleKeys {
  import opened Wrappers
  import opened Text
  import opened StringOrder
  import opened Config
  import Paths

  /** The module a go.mod with the given lines declares: the rest of the
      first line whose trimmed text starts with "module ", trimmed. */
  function ModuleName(lines: seq<string>): Option<string>
    decreases |lines|
  {
    if lines == [] then None
    else if Starts(lines[0], "module ") then Some(TrimSpace(TrimPrefix(TrimSpace(lines[0]), "module ")))
    else ModuleName(lines[1..])
  }

  /** The module of a project, when its go.mod can be read and declares
      one. */
  function ModuleOf(fs: FileSystem, project: AppProject): Option<string> {
    match fs.Read(Paths.Join(project.path, "go.mod"))
    case Ok(lines) => ModuleName(lines)
    case Err(_) => None
  }

  /** The module-to-key table built by visiting the projects in `order`: a
      later project declaring the same module replaces the earlier one. */
  function ModuleTable(fs: FileSystem, projects: Projects, order: seq<string>): map<string, string>
    requires forall i :: 0 <= i < |order| ==> order[i] in projects
    decreases |order|
  {
    if order == [] then map[]
    else
      var table := ModuleTable(fs, projects, order[..|order| - 1]);
      var key := order[|order| - 1];
      match ModuleOf(fs, projects[key])
      case Some(name) => table[name := key]
      case None => table
  }

  /** The checks of the second pass, for a module path, a module of the
      table and the project key it maps to: the path ends with the key, or
      the module ends with the key and is the path, or the path is the
      module or one of its packages. */
  predicate Matches(modulePath: string, localModule: string, projectPath: string) {
    || HasSuffix(modulePath, "/" + projectPath)
    || HasSuffix(modulePath, projectPath)
    || ((HasSuffix(localModule, "/" + projectPath) || HasSuffix(localModule, projectPath)) && modulePath == localModule)
    || HasPrefix(modulePath, localModule + "/")
    || modulePath == localModule
  }

  /** The first pass over a go.mod's lines. */
  method ReadModuleName(lines: seq<string>) returns (name: Option<string>)
    ensures name == ModuleName(lines)
  {
    for i := 0 to |lines|
      invariant ModuleName(lines) == ModuleName(lines[i..])
    {
      assert lines[i..][1..] == lines[i + 1..];
      var trimmed := TrimSpace(lines[i]);
      if HasPrefix(trimmed, "module ") {
        return Some(TrimSpace(TrimPrefix(trimmed, "module ")));
      }
    }
    assert lines[|lines|..] == [];
    return None;
  }

  /** The first loop of `mapGoModuleToProjectKey`: the table of the
      modules the projects declare, visited in map order. */
  method BuildModuleTable(fs: FileSystem, projects: Projects)
    returns (table: map<string, string>, ghost order: seq<string>)
    ensures IsOrdering(order, projects.Keys)
    ensures table == ModuleTable(fs, projects, order)
  {
    var keys := EnumerateKeys(projects);
    order := keys;
    table := map[];
    for i := 0 to |keys|
      invariant table == ModuleTable(fs, projects, keys[..i])
    {
      TakeStep(keys, i);
      var name: Option<string> := None;
      var data := fs.Read(Paths.Join(projects[keys[i]].path, "go.mod"));
      if data.Ok? {
        name := ReadModuleName(data.value);
      }
      if name.Some? {
        table := table[name.value := keys[i]];
      }
    }
    TakeAll(keys);
  }

  /** `mapGoModuleToProjectKey`. `order` is the order the projects were
      visited in. */
  method MapGoModuleToProjectKey(fs: FileSystem, modulePath: string, projects: Projects)
    returns (key: string, ghost order: seq<string>)
    ensures IsOrdering(order, projects.Keys)
    ensures key == "" || key in projects
    ensures (exists k :: k in projects && ModuleOf(fs, projects[k]) == Some(modulePath)) ==>
              key in projects && ModuleOf(fs, projects[key]) == Some(modulePath)
    ensures key != "" ==>
              && key in projects
              && ModuleOf(fs, projects[key]).Some?
              && (ModuleOf(fs, projects[key]) == Some(modulePath) || Matches(modulePath, ModuleOf(fs, projects[key]).value, key))
    ensures var table := ModuleTable(fs, projects, order);
            modulePath in table ==> key == table[modulePath]
    ensures var table := ModuleTable(fs, projects, order);
            modulePath !in table ==>
              || (exists m :: m in table && table[m] == key && Matches(modulePath, m, key))
              || (key == "" && forall m :: m in table ==> !Matches(modulePath, m, table[m]))
  {
    var table;
    table, order := BuildModuleTable(fs, projects);
    TableSound(fs, projects, order);
    TableComplete(fs, projects, order);
    if modulePath in table {
      return table[modulePath], order;
    }
    key := FindMatch(modulePath, table);
  }

  /** The second loop of `mapGoModuleToProjectKey`: the key of the first
      module of the table, in map order, that the checks accept, or "". */
  method FindMatch(modulePath: string, table: map<string, string>) returns (key: string)
    ensures || (exists m :: m in table && table[m] == key && Matches(modulePath, m, key))
            || (key == "" && forall m :: m in table ==> !Matches(modulePath, m, table[m]))
  {
    var locals := EnumerateKeys(table);
    for i := 0 to |locals|
      invariant forall j :: 0 <= j < i ==> !Matches(modulePath, locals[j], table[locals[j]])
    {
      var projectPath := table[locals[i]];
      if Matches(modulePath, locals[i], projectPath) {
        return projectPath;
      }
    }
    assert forall m :: m in table ==> m in locals;
    return "";
  }

  /** Each module of the table is declared by the project it maps to. */
  predicate Declared(fs: FileSystem, projects: Projects, table: map<string, string>) {
    forall m :: m in table ==> table[m] in projects && ModuleOf(fs, projects[table[m]]) == Some(m)
  }

  lemma {:induction false} TableSound(fs: FileSystem, projects: Projects, order: seq<string>)
    requires forall i :: 0 <= i < |order| ==> order[i] in projects
    ensures Declared(fs, projects, ModuleTable(fs, projects, order))
    decreases |order|
  {
    if order != [] {
      var n := |order| - 1;
      assert forall i :: 0 <= i < n ==> order[..n][i] == order[i];
      TableSound(fs, projects, order[..n]);
      var before := ModuleTable(fs, projects, order[..n]);
      var key := order[n];
      match ModuleOf(fs, projects[key])
      case Some(name) =>
        assert ModuleTable(fs, projects, order) == before[name := key];
      case None =>
        assert ModuleTable(fs, projects, order) == before;
    }
  }

  /** Every module a visited project declares is in the table. */
  lemma TableComplete(fs: FileSystem, projects: Projects, order: seq<string>)
    requires forall i :: 0 <= i < |order| ==> order[i] in projects
    ensures var table := ModuleTable(fs, projects, order);
            forall i :: 0 <= i < |order| && ModuleOf(fs, projects[order[i]]).Some? ==>
              ModuleOf(fs, projects[order[i]]).value in table
  {
    forall i | 0 <= i < |order| && ModuleOf(fs, projects[order[i]]).Some?
      ensures ModuleOf(fs, projects[order[i]]).value in ModuleTable(fs, projects, order)
    {
      TableHas(fs, projects, order, i);
    }
  }

  /** The module of the project visited at position `i` is in the table. */
  lemma TableHas(fs: FileSystem, projects: Projects, order: seq<string>, i: nat)
    requires forall j :: 0 <= j < |order| ==> order[j] in projects
    requires i < |order|
    ensures ModuleOf(fs, projects[order[i]]).Some? ==>
              ModuleOf(fs, projects[order[i]]).value in ModuleTable(fs, projects, order)
  {
    var upto := order[..i + 1];
    assert upto[i] == order[i];
    TableHasLast(fs, projects, upto);
    TableMonotone(fs, projects, order, i + 1);
  }

  /** Visiting more projects only adds modules to the table. */
  lemma {:induction false} TableMonotone(fs: FileSystem, projects: Projects, order: seq<string>, k: nat)
    requires forall j :: 0 <= j < |order| ==> order[j] in projects
    requires k <= |order|
    ensures ModuleTable(fs, projects, order[..k]).Keys <= ModuleTable(fs, projects, order).Keys
    decreases |order|
  {
    if k < |order| {
      var n := |order| - 1;
      var init := order[..n];
      assert init[..k] == order[..k];
      assert forall j :: 0 <= j < |init| ==> init[j] in projects;
      TableMonotone(fs, projects, init, k);
      TableExtends(fs, projects, order);
      var a, b, c := ModuleTable(fs, projects, order[..k]), ModuleTable(fs, projects, init), ModuleTable(fs, projects, order);
      assert a.Keys <= b.Keys <= c.Keys;
    } else {
      assert order[..k] == order;
    }
  }

  /** One more project visited keeps every module of the table. */
  lemma TableExtends(fs: FileSystem, projects: Projects, order: seq<string>)
    requires order != [] && forall i :: 0 <= i < |order| ==> order[i] in projects
    ensures ModuleTable(fs, projects, order[..|order| - 1]).Keys <= ModuleTable(fs, projects, order).Keys
  {
    var before := ModuleTable(fs, projects, order[..|order| - 1]);
    var m := ModuleOf(fs, projects[order[|order| - 1]]);
    assert ModuleTable(fs, projects, order) == if m.Some? then before[m.value := order[|order| - 1]] else before;
  }

  /** The module of the last project visited is in the table. */
  lemma TableHasLast(fs: FileSystem, projects: Projects, order: seq<string>)
    requires order != [] && forall i :: 0 <= i < |order| ==> order[i] in projects
    ensures var m := ModuleOf(fs, projects[order[|order| - 1]]);
            m.Some? ==> m.value in ModuleTable(fs, projects, order)
  {
    var before := ModuleTable(fs, projects, order[..|order| - 1]);
    var m := ModuleOf(fs, projects[order[|order| - 1]]);
    assert ModuleTable(fs, projects, order) == if m.Some? then before[m.value := order[|order| - 1]] else before;
  }

  /** The checks with a separator are implied by those without, so a key
      that ends the module path matches even inside a path element, and a
      module that is the path matches whatever the key. */
  lemma MatchesSimplified(modulePath: string, localModule: string, projectPath: string)
    ensures Matches(modulePath, localModule, projectPath) <==>
              || HasSuffix(modulePath, projectPath)
              || HasPrefix(modulePath, localModule + "/")
              || modulePath == localModule
  {
    SuffixOfLonger(modulePath, "/", projectPath);
  }
}
