/** The script executor: placeholder substitution in command templates, the
    working directory and environment a script runs with, the mapping of a
    finished process to an execution result, and the fail-fast batch over
    several projects. Starting the process is an oracle `run` from the launch
    description to what the process did. */
module Executor {
  import opened Wrappers
  import opened Text
  import opened StringOrder
  import opened Config
  import Paths

  // ---------------------------------------------------------------------
  // Placeholders
  // ---------------------------------------------------------------------

  const ProjectRootVar: string := "{projectRoot}"
  const ProjectNameVar: string := "{projectName}"
  const NamespaceVar: string := "{namespace}"
  const WorkingDirVar: string := "{workingDir}"

  /** The placeholders `replaceVariables` knows. */
  const Variables: set<string> := {ProjectRootVar, ProjectNameVar, NamespaceVar, WorkingDirVar}

  /** The value of each placeholder for a project running in `workingDir`. */
  function Replacements(project: AppProject, workingDir: string): (m: map<string, string>)
    ensures m.Keys == Variables
  {
    map[ProjectRootVar := project.path,
        ProjectNameVar := project.config.name,
        NamespaceVar := project.config.namespace,
        WorkingDirVar := workingDir]
  }

  /** The successive `strings.ReplaceAll` calls, one per placeholder, in the
      order `order` visits them (Go's map iteration order is unspecified, so
      the model keeps it as a parameter and states its properties for every
      order). */
  function ReplaceEach(s: string, replacements: map<string, string>, order: seq<string>): string
    decreases |order|
  {
    if order == [] then s
    else if order[0] in replacements && order[0] != "" then
      ReplaceEach(ReplaceAll(s, order[0], replacements[order[0]]), replacements, order[1..])
    else ReplaceEach(s, replacements, order[1..])
  }

  /** `replaceVariables`: the fold over the replacement map. */
  method ReplaceVariables(command: string, project: AppProject, workingDir: string)
    returns (result: string, ghost order: seq<string>)
    ensures IsOrdering(order, Variables)
    ensures result == ReplaceEach(command, Replacements(project, workingDir), order)
  {
    var replacements := Replacements(project, workingDir);
    var variables := EnumerateKeys(replacements);
    result := command;
    var i := 0;
    while i < |variables|
      invariant 0 <= i <= |variables|
      invariant ReplaceEach(command, replacements, variables) == ReplaceEach(result, replacements, variables[i..])
    {
      DropFirst(variables, i);
      result := ReplaceAll(result, variables[i], replacements[variables[i]]);
      i := i + 1;
    }
    order := variables;
  }

  /** A text in which no placeholder occurs comes back unchanged, whatever
      the order. */
  lemma {:induction false} ReplaceEachAbsent(s: string, replacements: map<string, string>, order: seq<string>)
    requires forall v :: v in replacements && v != "" ==> !Contains(s, v)
    ensures ReplaceEach(s, replacements, order) == s
    decreases |order|
  {
    if order != [] {
      if order[0] in replacements && order[0] != "" {
        ReplaceAllAbsent(s, order[0], replacements[order[0]]);
      }
      ReplaceEachAbsent(s, replacements, order[1..]);
    }
  }

  /** `replaceVariables` leaves a command without placeholders as it is. */
  lemma NoVariablesUnchanged(command: string, project: AppProject, workingDir: string, order: seq<string>)
    requires forall v :: v in Variables ==> !Contains(command, v)
    ensures ReplaceEach(command, Replacements(project, workingDir), order) == command
  {
    ReplaceEachAbsent(command, Replacements(project, workingDir), order);
  }

  // ---------------------------------------------------------------------
  // Templates: a command as literal text interleaved with placeholders
  // ---------------------------------------------------------------------

  datatype Piece = Literal(text: string) | Variable(name: string)

  /** The text a piece contributes once the placeholders in `done` have been
      replaced. */
  function PieceText(p: Piece, values: map<string, string>, done: set<string>): string {
    match p
    case Literal(x) => x
    case Variable(v) => if v in done && v in values then values[v] else v
  }

  /** The template with the placeholders in `done` replaced by their values:
      with `done == {}` the template as written, with `done == Variables`
      its full expansion. */
  function Fill(t: seq<Piece>, values: map<string, string>, done: set<string>): string
    decreases |t|
  {
    if t == [] then "" else PieceText(t[0], values, done) + Fill(t[1..], values, done)
  }

  /** A literal holds no '{' and a variable is one of the placeholders. */
  predicate PieceOk(p: Piece) {
    match p
    case Literal(x) => '{' !in x
    case Variable(v) => v in Variables
  }

  /** A template whose literals and values cannot form or hide a placeholder. */
  ghost predicate WellFormed(t: seq<Piece>, values: map<string, string>) {
    (forall i :: 0 <= i < |t| ==> PieceOk(t[i]))
    && Variables <= values.Keys
    && (forall v :: v in values ==> '{' !in values[v])
  }

  /** Every placeholder starts with '{' and holds no other '{'. */
  lemma VariableShape(v: string)
    requires v in Variables
    ensures |v| > 1 && v[0] == '{' && '{' !in v[1..]
  {
  }

  /** Two different placeholders differ within the shorter one, so neither
      can match where the other begins. */
  lemma VariablesDiffer(p: string, q: string)
    requires p in Variables && q in Variables && p != q
    ensures exists k :: 0 <= k < |p| && k < |q| && p[k] != q[k]
  {
    if (p == ProjectRootVar && q == ProjectNameVar) || (p == ProjectNameVar && q == ProjectRootVar) {
      assert p[8] != q[8];
    } else {
      assert p[1] != q[1];
    }
  }

  /** Text that cannot start the pattern passes through unchanged. */
  lemma {:induction false} ReplaceAfterPlain(l: string, r: string, p: string, v: string)
    requires p != [] && p[0] !in l
    ensures ReplaceAll(l + r, p, v) == l + ReplaceAll(r, p, v)
    decreases |l|
  {
    if l != [] {
      var s := l + r;
      if |s| < |p| {
        assert ReplaceAll(r, p, v) == r;
      } else {
        assert s[..|p|][0] != p[0];
        ReplaceAfterPlain(l[1..], r, p, v);
        assert s[1..] == l[1..] + r;
        assert [l[0]] + (l[1..] + ReplaceAll(r, p, v)) == l + ReplaceAll(r, p, v);
      }
    } else {
      assert l + r == r;
      assert l + ReplaceAll(r, p, v) == ReplaceAll(r, p, v);
    }
  }

  /** An occurrence of the pattern is replaced. */
  lemma ReplaceAfterMatch(r: string, p: string, v: string)
    requires p != []
    ensures ReplaceAll(p + r, p, v) == v + ReplaceAll(r, p, v)
  {
    assert (p + r)[..|p|] == p;
    assert (p + r)[|p|..] == r;
  }

  /** A text that starts like the pattern but departs from it before either
      ends, and holds no second start of the pattern, passes through
      unchanged. */
  lemma ReplaceAfterOther(q: string, r: string, p: string, v: string, k: nat)
    requires k < |p| && k < |q| && p[k] != q[k] && p[0] !in q[1..]
    ensures ReplaceAll(q + r, p, v) == q + ReplaceAll(r, p, v)
  {
    var s := q + r;
    if |s| < |p| {
      ReplaceShort(r, p, v);
      ReplaceShort(s, p, v);
    } else {
      assert s[..|p|] != p by {
        assert s[..|p|][k] == q[k];
      }
      ReplaceAfterHead(q, r, p, v);
    }
  }

  lemma ReplaceAfterHead(q: string, r: string, p: string, v: string)
    requires q != [] && p != [] && |p| <= |q + r| && (q + r)[..|p|] != p && p[0] !in q[1..]
    ensures ReplaceAll(q + r, p, v) == q + ReplaceAll(r, p, v)
  {
    var s := q + r;
    ReplaceSkipHead(s, p, v);
    assert s[1..] == q[1..] + r;
    ReplaceAfterPlain(q[1..], r, p, v);
    assert [q[0]] + (q[1..] + ReplaceAll(r, p, v)) == q + ReplaceAll(r, p, v);
  }

  lemma ReplaceShort(s: string, p: string, v: string)
    requires p != [] && |s| < |p|
    ensures ReplaceAll(s, p, v) == s
  {
  }

  lemma ReplaceSkipHead(s: string, p: string, v: string)
    requires p != [] && |p| <= |s| && s[..|p|] != p
    ensures ReplaceAll(s, p, v) == [s[0]] + ReplaceAll(s[1..], p, v)
  {
  }

  /** Another placeholder passes through unchanged. */
  lemma ReplaceOtherVariable(q: string, r: string, p: string, v: string)
    requires p in Variables && q in Variables && p != q
    ensures ReplaceAll(q + r, p, v) == q + ReplaceAll(r, p, v)
  {
    VariableShape(p);
    VariableShape(q);
    VariablesDiffer(p, q);
    var k :| 0 <= k < |p| && k < |q| && p[k] != q[k];
    ReplaceAfterOther(q, r, p, v, k);
  }

  /** One `ReplaceAll` of a placeholder not yet replaced fills in exactly
      that placeholder. */
  lemma {:induction false} FillStep(t: seq<Piece>, values: map<string, string>, done: set<string>, p: string)
    requires WellFormed(t, values) && p in Variables && p !in done
    ensures ReplaceAll(Fill(t, values, done), p, values[p]) == Fill(t, values, done + {p})
    decreases |t|
  {
    if t != [] {
      assert WellFormed(t[1..], values) by {
        forall i | 0 <= i < |t[1..]| ensures PieceOk(t[1..][i]) {
          assert t[1..][i] == t[i + 1];
        }
      }
      FillStep(t[1..], values, done, p);
      var rest := Fill(t[1..], values, done);
      VariableShape(p);
      assert PieceOk(t[0]);
      match t[0]
      case Literal(x) =>
        ReplaceAfterPlain(x, rest, p, values[p]);
      case Variable(w) =>
        if w in done {
          ReplaceAfterPlain(values[w], rest, p, values[p]);
        } else if w == p {
          ReplaceAfterMatch(rest, p, values[p]);
        } else {
          ReplaceOtherVariable(w, rest, p, values[p]);
        }
    }
  }

  lemma ElemsCons<T>(s: seq<T>)
    requires s != []
    ensures Elems(s) == {s[0]} + Elems(s[1..])
  {
    assert s == [s[0]] + s[1..];
  }

  /** Replacing the placeholders of `order`, one after another, fills in
      exactly those placeholders. */
  lemma {:induction false} FillInOrder(t: seq<Piece>, values: map<string, string>, done: set<string>, order: seq<string>)
    requires WellFormed(t, values)
    requires NoDuplicates(order) && Elems(order) <= Variables && Elems(order) !! done
    ensures ReplaceEach(Fill(t, values, done), values, order) == Fill(t, values, done + Elems(order))
    decreases |order|
  {
    if order == [] {
      ElemsEmpty<string>();
      assert done + Elems(order) == done;
    } else {
      ElemsCons(order);
      assert order[0] in Variables;
      FillStep(t, values, done, order[0]);
      assert NoDuplicates(order[1..]) by {
        forall i, j | 0 <= i < j < |order[1..]| ensures order[1..][i] != order[1..][j] {
          assert order[1..][i] == order[i + 1] && order[1..][j] == order[j + 1];
        }
      }
      assert order[0] !in Elems(order[1..]) by {
        forall i | 0 <= i < |order[1..]| ensures order[1..][i] != order[0] {
          assert order[1..][i] == order[i + 1];
        }
      }
      FillInOrder(t, values, done + {order[0]}, order[1..]);
      assert done + {order[0]} + Elems(order[1..]) == done + Elems(order);
    }
  }

  /** The template as written does not depend on the values. */
  lemma {:induction false} FillNothing(t: seq<Piece>, values: map<string, string>)
    ensures Fill(t, values, {}) == Fill(t, map[], {})
    decreases |t|
  {
    if t != [] {
      FillNothing(t[1..], values);
    }
  }

  /** The text of a template, placeholders as written. */
  function Spell(t: seq<Piece>): string {
    Fill(t, map[], {})
  }

  /** The expansion of a template, every placeholder replaced by its value. */
  function Expand(t: seq<Piece>, values: map<string, string>): string {
    Fill(t, values, Variables)
  }

  /** When no literal and no value holds a '{', `replaceVariables` expands
      every placeholder of the template to its value, whatever order the
      map iteration takes. */
  lemma ExpandTemplate(t: seq<Piece>, values: map<string, string>, order: seq<string>)
    requires WellFormed(t, values) && IsOrdering(order, Variables)
    ensures ReplaceEach(Spell(t), values, order) == Expand(t, values)
  {
    FillNothing(t, values);
    FillInOrder(t, values, {}, order);
    assert {} + Elems(order) == Variables;
  }

  /** A value that itself holds a placeholder makes the result depend on the
      map's iteration order: a namespace spelled "{projectName}" is expanded
      once more when `{namespace}` is visited before `{projectName}`, and is
      left as written otherwise. */
  lemma OrderMatters(path: string, workingDir: string)
    ensures var project := AppProject(AppConfig("api", ProjectNameVar, "", [], map[], [], map[]), path);
            var values := Replacements(project, workingDir);
            && ReplaceEach(NamespaceVar, values, [NamespaceVar, ProjectNameVar, ProjectRootVar, WorkingDirVar]) == "api"
            && ReplaceEach(NamespaceVar, values, [ProjectNameVar, NamespaceVar, ProjectRootVar, WorkingDirVar]) == ProjectNameVar
  {
    var project := AppProject(AppConfig("api", ProjectNameVar, "", [], map[], [], map[]), path);
    var values := Replacements(project, workingDir);
    NamespaceFirst(values);
    ProjectNameFirst(values);
  }

  lemma ReplaceEachCons(s: string, values: map<string, string>, x: string, rest: seq<string>)
    requires x in values && x != ""
    ensures ReplaceEach(s, values, [x] + rest) == ReplaceEach(ReplaceAll(s, x, values[x]), values, rest)
  {
    assert ([x] + rest)[1..] == rest;
  }

  lemma NamespaceFirst(values: map<string, string>)
    requires values.Keys == Variables
    requires values[NamespaceVar] == ProjectNameVar && values[ProjectNameVar] == "api"
    ensures ReplaceEach(NamespaceVar, values, [NamespaceVar, ProjectNameVar, ProjectRootVar, WorkingDirVar]) == "api"
  {
    ReplaceAfterMatch("", NamespaceVar, ProjectNameVar);
    ReplaceShort("", NamespaceVar, ProjectNameVar);
    assert NamespaceVar + "" == NamespaceVar;
    ReplaceAfterMatch("", ProjectNameVar, "api");
    ReplaceShort("", ProjectNameVar, "api");
    assert ProjectNameVar + "" == ProjectNameVar;
    ReplaceShort("api", ProjectRootVar, values[ProjectRootVar]);
    ReplaceShort("api", WorkingDirVar, values[WorkingDirVar]);
    ReplaceEachCons("api", values, WorkingDirVar, []);
    ReplaceEachCons("api", values, ProjectRootVar, [WorkingDirVar]);
    ReplaceEachCons(ProjectNameVar, values, ProjectNameVar, [ProjectRootVar, WorkingDirVar]);
    ReplaceEachCons(NamespaceVar, values, NamespaceVar, [ProjectNameVar, ProjectRootVar, WorkingDirVar]);
    assert ReplaceAll(NamespaceVar, NamespaceVar, values[NamespaceVar]) == ProjectNameVar;
    assert ReplaceAll(ProjectNameVar, ProjectNameVar, values[ProjectNameVar]) == "api";
    assert ReplaceEach("api", values, []) == "api";
    assert ReplaceEach("api", values, [WorkingDirVar]) == "api";
    assert ReplaceEach("api", values, [ProjectRootVar, WorkingDirVar]) == "api";
    assert ReplaceEach(ProjectNameVar, values, [ProjectNameVar, ProjectRootVar, WorkingDirVar]) == "api";
    assert [NamespaceVar] + [ProjectNameVar, ProjectRootVar, WorkingDirVar] == [NamespaceVar, ProjectNameVar, ProjectRootVar, WorkingDirVar];
  }

  lemma ProjectNameFirst(values: map<string, string>)
    requires values.Keys == Variables
    requires values[NamespaceVar] == ProjectNameVar
    ensures ReplaceEach(NamespaceVar, values, [ProjectNameVar, NamespaceVar, ProjectRootVar, WorkingDirVar]) == ProjectNameVar
  {
    ReplaceShort(NamespaceVar, ProjectNameVar, values[ProjectNameVar]);
    ReplaceAfterMatch("", NamespaceVar, ProjectNameVar);
    ReplaceShort("", NamespaceVar, ProjectNameVar);
    assert NamespaceVar + "" == NamespaceVar;
    assert ProjectNameVar + "" == ProjectNameVar;
    ReplaceAfterOther(ProjectNameVar, "", ProjectRootVar, values[ProjectRootVar], 8);
    ReplaceAfterOther(ProjectNameVar, "", WorkingDirVar, values[WorkingDirVar], 1);
    ReplaceShort("", ProjectRootVar, values[ProjectRootVar]);
    ReplaceShort("", WorkingDirVar, values[WorkingDirVar]);
    ReplaceEachCons(ProjectNameVar, values, WorkingDirVar, []);
    ReplaceEachCons(ProjectNameVar, values, ProjectRootVar, [WorkingDirVar]);
    ReplaceEachCons(NamespaceVar, values, NamespaceVar, [ProjectRootVar, WorkingDirVar]);
    ReplaceEachCons(NamespaceVar, values, ProjectNameVar, [NamespaceVar, ProjectRootVar, WorkingDirVar]);
  }

  // ---------------------------------------------------------------------
  // Environment
  // ---------------------------------------------------------------------

  /** The entry `key=value` for one key of `env`, or nothing for a key it
      lacks. */
  function Entry(env: map<string, string>, key: string): seq<string> {
    if key in env then [key + "=" + env[key]] else []
  }

  /** The entries appended by `for key, value := range env` when the
      iteration visits the keys in `order`. */
  function Entries(env: map<string, string>, order: seq<string>): seq<string>
    decreases |order|
  {
    if order == [] then [] else Entries(env, order[..|order| - 1]) + Entry(env, order[|order| - 1])
  }

  /** The value a process sees for `name`: the last entry of the form
      `name=value` (os/exec keeps the last of duplicate keys), if any. */
  function Lookup(env: seq<string>, name: string): Option<string>
    decreases |env|
  {
    if env == [] then None
    else if HasPrefix(env[|env| - 1], name + "=") then Some(env[|env| - 1][|name| + 1..])
    else Lookup(env[..|env| - 1], name)
  }

  /** Appends the entries of `env` to `base`, in map iteration order. */
  method AppendEntries(base: seq<string>, env: map<string, string>)
    returns (result: seq<string>, ghost order: seq<string>)
    ensures IsOrdering(order, env.Keys)
    ensures result == base + Entries(env, order)
  {
    var keys := EnumerateKeys(env);
    result := base;
    for i := 0 to |keys|
      invariant result == base + Entries(env, keys[..i])
    {
      TakeOneMore(keys, i);
      assert keys[..i + 1][..i] == keys[..i];
      result := result + [keys[i] + "=" + env[keys[i]]];
    }
    TakeAll(keys);
    order := keys;
  }

  /** The environment a script runs with: the inherited one, then the
      script's variables, then the project's. */
  function Environment(inherited: seq<string>, script: Script, project: AppProject,
                       scriptOrder: seq<string>, projectOrder: seq<string>): seq<string>
  {
    inherited + Entries(script.environment, scriptOrder) + Entries(project.config.environment, projectOrder)
  }

  /** The last matching entry of a concatenation comes from its second part
      if that has one. */
  lemma {:induction false} LookupAppend(a: seq<string>, b: seq<string>, name: string)
    ensures Lookup(a + b, name) == if Lookup(b, name).Some? then Lookup(b, name) else Lookup(a, name)
    decreases |b|
  {
    if b == [] {
      assert a + b == a;
    } else {
      assert (a + b)[..|a + b| - 1] == a + b[..|b| - 1];
      assert (a + b)[|a + b| - 1] == b[|b| - 1];
      LookupAppend(a, b[..|b| - 1], name);
    }
  }

  /** With no '=' in either name, an entry `key=value` matches `name` exactly
      when the key is the name, and then yields the value. */
  lemma EntryMatches(key: string, value: string, name: string)
    requires '=' !in key && '=' !in name
    ensures HasPrefix(key + "=" + value, name + "=") <==> key == name
    ensures key == name ==> (key + "=" + value)[|name| + 1..] == value
  {
    var e := key + "=" + value;
    FirstAfter(key, value, '=');
    if HasPrefix(e, name + "=") {
      assert e == name + "=" + e[|name| + 1..];
      FirstAfter(name, e[|name| + 1..], '=');
      assert key == e[..|key|] && name == e[..|name|];
    }
    if key == name {
      assert e[..|name| + 1] == name + "=";
      assert e[|name| + 1..] == value;
    }
  }

  /** The first `c` after a text without `c` is the one that follows it. */
  lemma FirstAfter(a: string, b: string, c: char)
    requires c !in a
    ensures IndexOf(a + [c] + b, c) == |a|
  {
    var s := a + [c] + b;
    assert s[|a|] == c;
    assert s[..|a|] == a;
  }

  /** The entries of a map, looked up by name, give the map's value. */
  lemma {:induction false} LookupEntries(env: map<string, string>, order: seq<string>, name: string)
    requires forall k :: k in env ==> '=' !in k
    requires '=' !in name
    ensures Lookup(Entries(env, order), name) == if name in env && name in Elems(order) then Some(env[name]) else None
    decreases |order|
  {
    if order == [] {
      ElemsEmpty<string>();
    } else {
      var init := order[..|order| - 1];
      var last := order[|order| - 1];
      LookupEntries(env, init, name);
      LookupAppend(Entries(env, init), Entry(env, last), name);
      assert order == init + [last];
      ElemsAppend(init, last);
      if last in env {
        EntryMatches(last, env[last], name);
        assert Entry(env, last)[..0] == [];
      }
    }
  }

  /** For a key set in several places, the project's value wins over the
      script's, and the script's over the inherited one. */
  lemma EnvironmentPrecedence(inherited: seq<string>, script: Script, project: AppProject,
                              scriptOrder: seq<string>, projectOrder: seq<string>, name: string)
    requires IsOrdering(scriptOrder, script.environment.Keys)
    requires IsOrdering(projectOrder, project.config.environment.Keys)
    requires forall k :: k in script.environment ==> '=' !in k
    requires forall k :: k in project.config.environment ==> '=' !in k
    requires '=' !in name
    ensures Lookup(Environment(inherited, script, project, scriptOrder, projectOrder), name)
            == if name in project.config.environment then Some(project.config.environment[name])
               else if name in script.environment then Some(script.environment[name])
               else Lookup(inherited, name)
  {
    var s := Entries(script.environment, scriptOrder);
    var q := Entries(project.config.environment, projectOrder);
    LookupEntries(script.environment, scriptOrder, name);
    LookupEntries(project.config.environment, projectOrder, name);
    LookupAppend(inherited + s, q, name);
    LookupAppend(inherited, s, name);
  }

  // ---------------------------------------------------------------------
  // Captured output
  // ---------------------------------------------------------------------

  /** A line as `bufio.ScanLines` returns it: without a final carriage
      return. */
  function DropCarriageReturn(line: string): string {
    if line != [] && line[|line| - 1] == '\r' then line[..|line| - 1] else line
  }

  /** The lines `bufio.ScanLines` yields: the text split after each '\n',
      with a final line that lacks one still reported. */
  function ScanLines(s: string): seq<string>
    decreases |s|
  {
    if s == "" then []
    else
      var i := IndexOf(s, '\n');
      if i < 0 then [DropCarriageReturn(s)]
      else [DropCarriageReturn(s[..i])] + ScanLines(s[i + 1..])
  }

  /** `fmt.Fprintln` of each line in turn. */
  function Println(lines: seq<string>): string
    decreases |lines|
  {
    if lines == [] then "" else lines[0] + "\n" + Println(lines[1..])
  }

  /** `copyOutput`: what ends up in the builder for a stream `s`. */
  function CopyOutput(s: string): string {
    Println(ScanLines(s))
  }

  /** A stream produces captured text exactly when it produced any text. */
  lemma CopyOutputEmpty(s: string)
    ensures CopyOutput(s) == "" <==> s == ""
  {
    if s != "" {
      var lines := ScanLines(s);
      assert lines != [];
      assert |Println(lines)| >= |lines[0] + "\n"|;
    }
  }

  /** A stream without carriage returns is captured as it is, with a final
      newline added when its last line lacks one. */
  lemma {:induction false} CopyOutputText(s: string)
    requires '\r' !in s
    ensures CopyOutput(s) == if s == "" || s[|s| - 1] == '\n' then s else s + "\n"
    decreases |s|
  {
    if s != "" {
      var i := IndexOf(s, '\n');
      if i >= 0 {
        var rest := s[i + 1..];
        CopyLine(s, i);
        CopyOutputText(rest);
        CopiedTail(s[..i], rest, CopyOutput(rest));
      } else {
        LastLine(s);
      }
    }
  }

  /** A first line copied in front of the copy of the rest of the stream. */
  lemma CopiedTail(line: string, rest: string, copied: string)
    requires copied == if rest == "" || rest[|rest| - 1] == '\n' then rest else rest + "\n"
    ensures var s := line + "\n" + rest;
            line + "\n" + copied == if s[|s| - 1] == '\n' then s else s + "\n"
  {
    var s := line + "\n" + rest;
    if rest != "" {
      assert s[|s| - 1] == rest[|rest| - 1];
    }
  }

  /** The first line of a stream, up to its first '\n', is copied as it is. */
  lemma CopyLine(s: string, i: int)
    requires '\r' !in s && i == IndexOf(s, '\n') && i >= 0
    ensures '\r' !in s[i + 1..]
    ensures CopyOutput(s) == s[..i] + "\n" + CopyOutput(s[i + 1..])
    ensures s == s[..i] + "\n" + s[i + 1..]
  {
    var line, rest := s[..i], s[i + 1..];
    assert '\r' !in rest by {
      assert forall j :: 0 <= j < |rest| ==> rest[j] == s[i + 1 + j];
    }
    assert s == line + "\n" + rest by {
      assert s[i] == '\n';
    }
    assert DropCarriageReturn(line) == line by {
      KeptLine(s, i);
    }
    assert ScanLines(s) == [line] + ScanLines(rest);
    PrintlnCons(line, ScanLines(rest));
  }

  /** A line taken from a stream without carriage returns has none to drop. */
  lemma KeptLine(s: string, i: int)
    requires '\r' !in s && 0 <= i <= |s|
    ensures DropCarriageReturn(s[..i]) == s[..i]
  {
    if i > 0 {
      assert s[..i][i - 1] == s[i - 1];
      assert s[i - 1] in s;
    }
  }

  lemma PrintlnCons(line: string, lines: seq<string>)
    ensures Println([line] + lines) == line + "\n" + Println(lines)
  {
    assert ([line] + lines)[1..] == lines;
  }

  /** A stream without '\n' is one line, to which a newline is added. */
  lemma LastLine(s: string)
    requires '\r' !in s && s != "" && '\n' !in s
    ensures CopyOutput(s) == s + "\n" && s[|s| - 1] != '\n'
  {
    assert ScanLines(s) == [s];
    assert [s][1..] == [];
    assert Println([s]) == s + "\n" + "";
    assert s + "\n" + "" == s + "\n";
    assert s[|s| - 1] in s;
  }

  // ---------------------------------------------------------------------
  // Running one script
  // ---------------------------------------------------------------------

  /** What the process is started with: `sh -c command` in `dir` with the
      environment `env`. */
  datatype Launch = Launch(command: string, dir: string, env: seq<string>)

  /** How far the process got: a pipe or the start failed, or it ran and
      `Wait` reported an error or none, with what it wrote to its two
      streams. */
  datatype SpawnOutcome =
    | StdoutPipeFailed(reason: string)
    | StderrPipeFailed(reason: string)
    | StartFailed(reason: string)
    | Exited(waitError: Option<string>, stdout: string, stderr: string)

  /** The result of one script run (its duration is not modelled). */
  datatype ExecutionResult = ExecutionResult(
    projectKey: string,
    script: string,
    success: bool,
    output: string,
    error: string)

  /** The workspace scripts and the discovered projects an executor works on. */
  datatype Executor = Executor(projectConfig: ProjectConfig, projects: Projects)

  /** Why `ExecuteScript` or the batch returned an error value. */
  datatype ExecError =
    | ProjectNotFound(projectKey: string)
    | ScriptNotFound(scriptName: string)
    | Cancelled

  function ErrorText(e: ExecError): string {
    match e
    case ProjectNotFound(k) => "project " + k + " not found"
    case ScriptNotFound(s) => "script " + s + " not found"
    case Cancelled => "context canceled"
  }

  /** The project's app.yaml switches the script off (an absent entry means
      enabled). */
  predicate Disabled(project: AppProject, scriptName: string) {
    scriptName in project.config.scripts && !project.config.scripts[scriptName]
  }

  function DisabledResult(projectKey: string, scriptName: string): ExecutionResult {
    ExecutionResult(projectKey, scriptName, false, "", "script disabled for this project")
  }

  /** The result the source promises for a process that got as far as
      `outcome`: success exactly when `Wait` reported no error; on failure
      the error is the captured stderr, or the process error when stderr is
      empty; on success the error still carries stderr; the output is the
      captured stdout. */
  ghost predicate Reports(projectKey: string, scriptName: string, outcome: SpawnOutcome, r: ExecutionResult) {
    && r.projectKey == projectKey
    && r.script == scriptName
    && (r.success <==> outcome.Exited? && outcome.waitError.None?)
    && r.output == (if outcome.Exited? then CopyOutput(outcome.stdout) else "")
    && r.error == match outcome
                  case StdoutPipeFailed(m) => "failed to create stdout pipe: " + m
                  case StderrPipeFailed(m) => "failed to create stderr pipe: " + m
                  case StartFailed(m) => "failed to start command: " + m
                  case Exited(w, _, stderr) =>
                    if stderr != "" then CopyOutput(stderr) else if w.Some? then w.value else ""
  }

  /** The field-by-field construction of the result once the process has
      been tried. */
  method RecordOutcome(projectKey: string, scriptName: string, outcome: SpawnOutcome)
    returns (result: ExecutionResult)
    ensures Reports(projectKey, scriptName, outcome, result)
  {
    result := ExecutionResult(projectKey, scriptName, false, "", "");
    match outcome {
      case StdoutPipeFailed(m) =>
        result := result.(error := "failed to create stdout pipe: " + m);
      case StderrPipeFailed(m) =>
        result := result.(error := "failed to create stderr pipe: " + m);
      case StartFailed(m) =>
        result := result.(error := "failed to start command: " + m);
      case Exited(waitError, stdout, stderr) =>
        var outputText := CopyOutput(stdout);
        var errorText := CopyOutput(stderr);
        CopyOutputEmpty(stderr);
        if waitError.Some? {
          result := result.(success := false, error := errorText);
          if result.error == "" {
            result := result.(error := waitError.value);
          }
        } else {
          result := result.(success := true);
        }
        result := result.(output := outputText);
        if result.error == "" {
          result := result.(error := errorText);
        }
    }
  }

  /** The directory a script runs in: the project's, or the expanded
      template, taken as it is when absolute and under the project's
      directory otherwise. */
  function WorkingDirectory(project: AppProject, template: string, order: seq<string>): string {
    if template == "" then project.path
    else
      var expanded := ReplaceEach(template, Replacements(project, project.path), order);
      if Paths.IsAbs(expanded) then expanded else Paths.Join(project.path, expanded)
  }

  /** The launch for given map iteration orders. */
  function LaunchFor(project: AppProject, script: Script, inherited: seq<string>,
                     dirOrder: seq<string>, commandOrder: seq<string>,
                     scriptOrder: seq<string>, projectOrder: seq<string>): Launch
  {
    var dir := WorkingDirectory(project, script.workingDir, dirOrder);
    Launch(ReplaceEach(script.command, Replacements(project, dir), commandOrder), dir,
           Environment(inherited, script, project, scriptOrder, projectOrder))
  }

  /** `l` is how the source starts `script` for `project`, for some order of
      each map iteration it performs. */
  ghost predicate IsLaunchOf(project: AppProject, script: Script, inherited: seq<string>, l: Launch) {
    exists dirOrder, commandOrder, scriptOrder, projectOrder ::
      && (script.workingDir == "" || IsOrdering(dirOrder, Variables))
      && IsOrdering(commandOrder, Variables)
      && IsOrdering(scriptOrder, script.environment.Keys)
      && IsOrdering(projectOrder, project.config.environment.Keys)
      && l == LaunchFor(project, script, inherited, dirOrder, commandOrder, scriptOrder, projectOrder)
  }

  /** `r` is what `ExecuteScript` returns for a project and script that both
      exist. */
  ghost predicate Ran(e: Executor, projectKey: string, scriptName: string, inherited: seq<string>,
                      run: Launch -> SpawnOutcome, r: ExecutionResult)
  {
    && projectKey in e.projects
    && scriptName in e.projectConfig.scripts
    && if Disabled(e.projects[projectKey], scriptName) then r == DisabledResult(projectKey, scriptName)
       else exists l :: IsLaunchOf(e.projects[projectKey], e.projectConfig.scripts[scriptName], inherited, l)
                        && Reports(projectKey, scriptName, run(l), r)
  }

  /** `ExecuteScript`: the project is looked up first, then the script; a
      script the project disables yields a failed result and starts nothing;
      otherwise the process is started and its outcome recorded. `inherited`
      is the parent's environment and `run` starts a process. */
  method ExecuteScript(e: Executor, projectKey: string, scriptName: string,
                       inherited: seq<string>, run: Launch -> SpawnOutcome)
    returns (r: Result<ExecutionResult, ExecError>, launched: Option<Launch>)
    ensures projectKey !in e.projects ==> r == Err(ProjectNotFound(projectKey))
    ensures projectKey in e.projects && scriptName !in e.projectConfig.scripts ==> r == Err(ScriptNotFound(scriptName))
    ensures r.Ok? <==> projectKey in e.projects && scriptName in e.projectConfig.scripts
    ensures r.Ok? ==> Ran(e, projectKey, scriptName, inherited, run, r.value)
    ensures launched.Some? <==> r.Ok? && !Disabled(e.projects[projectKey], scriptName)
    ensures launched.Some? ==>
              && IsLaunchOf(e.projects[projectKey], e.projectConfig.scripts[scriptName], inherited, launched.value)
              && Reports(projectKey, scriptName, run(launched.value), r.value)
  {
    if projectKey !in e.projects {
      return Err(ProjectNotFound(projectKey)), None;
    }
    var project := e.projects[projectKey];
    if scriptName !in e.projectConfig.scripts {
      return Err(ScriptNotFound(scriptName)), None;
    }
    var script := e.projectConfig.scripts[scriptName];
    if scriptName in project.config.scripts && !project.config.scripts[scriptName] {
      return Ok(DisabledResult(projectKey, scriptName)), None;
    }

    var workingDir := project.path;
    ghost var dirOrder: seq<string> := [];
    if script.workingDir != "" {
      var expanded;
      expanded, dirOrder := ReplaceVariables(script.workingDir, project, project.path);
      if Paths.IsAbs(expanded) {
        workingDir := expanded;
      } else {
        workingDir := Paths.Join(project.path, expanded);
      }
    }
    var command, commandOrder := ReplaceVariables(script.command, project, workingDir);
    var env, scriptOrder := AppendEntries(inherited, script.environment);
    ghost var projectOrder;
    env, projectOrder := AppendEntries(env, project.config.environment);

    var launch := Launch(command, workingDir, env);
    assert launch == LaunchFor(project, script, inherited, dirOrder, commandOrder, scriptOrder, projectOrder);
    launched := Some(launch);
    var result := RecordOutcome(projectKey, scriptName, run(launch));
    r := Ok(result);
  }

  /** The directory a launch uses: the project's for an empty template; for
      a template without placeholders, the template itself when absolute and
      the template under the project's directory otherwise; for a template
      of literals and placeholders, its expansion, placed the same way. */
  lemma LaunchDirectory(project: AppProject, script: Script, inherited: seq<string>, l: Launch, t: seq<Piece>)
    requires IsLaunchOf(project, script, inherited, l)
    ensures script.workingDir == "" ==> l.dir == project.path
    ensures script.workingDir != "" && (forall v :: v in Variables ==> !Contains(script.workingDir, v)) ==>
              l.dir == if Paths.IsAbs(script.workingDir) then script.workingDir
                       else Paths.Join(project.path, script.workingDir)
    ensures script.workingDir != "" && script.workingDir == Spell(t) && WellFormed(t, Replacements(project, project.path)) ==>
              var expanded := Expand(t, Replacements(project, project.path));
              l.dir == if Paths.IsAbs(expanded) then expanded else Paths.Join(project.path, expanded)
  {
    var dirOrder, commandOrder, scriptOrder, projectOrder :|
      && (script.workingDir == "" || IsOrdering(dirOrder, Variables))
      && IsOrdering(commandOrder, Variables)
      && IsOrdering(scriptOrder, script.environment.Keys)
      && IsOrdering(projectOrder, project.config.environment.Keys)
      && l == LaunchFor(project, script, inherited, dirOrder, commandOrder, scriptOrder, projectOrder);
    if script.workingDir != "" {
      if forall v :: v in Variables ==> !Contains(script.workingDir, v) {
        NoVariablesUnchanged(script.workingDir, project, project.path, dirOrder);
      }
      if script.workingDir == Spell(t) && WellFormed(t, Replacements(project, project.path)) {
        ExpandTemplate(t, Replacements(project, project.path), dirOrder);
      }
    }
  }

  /** The command a launch runs: a command without placeholders as written;
      a command of literals and placeholders with every placeholder
      replaced by its value, `{workingDir}` by the directory it runs in. */
  lemma LaunchCommand(project: AppProject, script: Script, inherited: seq<string>, l: Launch, t: seq<Piece>)
    requires IsLaunchOf(project, script, inherited, l)
    ensures (forall v :: v in Variables ==> !Contains(script.command, v)) ==> l.command == script.command
    ensures script.command == Spell(t) && WellFormed(t, Replacements(project, l.dir)) ==>
              l.command == Expand(t, Replacements(project, l.dir))
  {
    var dirOrder, commandOrder, scriptOrder, projectOrder :|
      && (script.workingDir == "" || IsOrdering(dirOrder, Variables))
      && IsOrdering(commandOrder, Variables)
      && IsOrdering(scriptOrder, script.environment.Keys)
      && IsOrdering(projectOrder, project.config.environment.Keys)
      && l == LaunchFor(project, script, inherited, dirOrder, commandOrder, scriptOrder, projectOrder);
    if forall v :: v in Variables ==> !Contains(script.command, v) {
      NoVariablesUnchanged(script.command, project, l.dir, commandOrder);
    }
    if script.command == Spell(t) && WellFormed(t, Replacements(project, l.dir)) {
      ExpandTemplate(t, Replacements(project, l.dir), commandOrder);
    }
  }

  /** The environment a launch sees: the project's value for a key it sets,
      else the script's, else the inherited one. */
  lemma LaunchEnvironment(project: AppProject, script: Script, inherited: seq<string>, l: Launch, name: string)
    requires IsLaunchOf(project, script, inherited, l)
    requires forall k :: k in script.environment ==> '=' !in k
    requires forall k :: k in project.config.environment ==> '=' !in k
    requires '=' !in name
    ensures Lookup(l.env, name)
            == if name in project.config.environment then Some(project.config.environment[name])
               else if name in script.environment then Some(script.environment[name])
               else Lookup(inherited, name)
  {
    var dirOrder, commandOrder, scriptOrder, projectOrder :|
      && (script.workingDir == "" || IsOrdering(dirOrder, Variables))
      && IsOrdering(commandOrder, Variables)
      && IsOrdering(scriptOrder, script.environment.Keys)
      && IsOrdering(projectOrder, project.config.environment.Keys)
      && l == LaunchFor(project, script, inherited, dirOrder, commandOrder, scriptOrder, projectOrder);
    EnvironmentPrecedence(inherited, script, project, scriptOrder, projectOrder, name);
  }

  // ---------------------------------------------------------------------
  // Running a script on several projects
  // ---------------------------------------------------------------------

  /** The error a lookup of a project and a script reports. */
  function LookupError(e: Executor, projectKey: string, scriptName: string): ExecError {
    if projectKey !in e.projects then ProjectNotFound(projectKey) else ScriptNotFound(scriptName)
  }

  /** `results[i]` is the result of running the script on `projectKeys[i]`,
      which started with the context not yet done. */
  ghost predicate Completed(e: Executor, projectKeys: seq<string>, scriptName: string, inherited: seq<string>,
                            run: Launch -> SpawnOutcome, cancelled: nat -> bool, results: seq<ExecutionResult>)
  {
    && |results| <= |projectKeys|
    && forall i :: 0 <= i < |results| ==>
         && results[i].projectKey == projectKeys[i]
         && !cancelled(i)
         && Ran(e, projectKeys[i], scriptName, inherited, run, results[i])
  }

  lemma CompletedStep(e: Executor, projectKeys: seq<string>, scriptName: string, inherited: seq<string>,
                      run: Launch -> SpawnOutcome, cancelled: nat -> bool, results: seq<ExecutionResult>,
                      r: ExecutionResult)
    requires Completed(e, projectKeys, scriptName, inherited, run, cancelled, results)
    requires |results| < |projectKeys| && !cancelled(|results|)
    requires Ran(e, projectKeys[|results|], scriptName, inherited, run, r)
    ensures Completed(e, projectKeys, scriptName, inherited, run, cancelled, results + [r])
  {
    var n := |results|;
    assert r.projectKey == projectKeys[n] by {
      var project := e.projects[projectKeys[n]];
      if !Disabled(project, scriptName) {
        var l :| IsLaunchOf(project, e.projectConfig.scripts[scriptName], inherited, l)
                 && Reports(projectKeys[n], scriptName, run(l), r);
      }
    }
    forall i | 0 <= i < n + 1
      ensures (results + [r])[i].projectKey == projectKeys[i] && !cancelled(i)
              && Ran(e, projectKeys[i], scriptName, inherited, run, (results + [r])[i])
    {
      if i < n {
        assert (results + [r])[i] == results[i];
      }
    }
  }

  /** An `ExecuteScript` call whose caller keeps only the result. */
  method ExecuteScriptResult(e: Executor, projectKey: string, scriptName: string, inherited: seq<string>,
                             run: Launch -> SpawnOutcome)
    returns (r: Result<ExecutionResult, ExecError>)
    ensures r.Ok? <==> projectKey in e.projects && scriptName in e.projectConfig.scripts
    ensures r.Ok? ==> Ran(e, projectKey, scriptName, inherited, run, r.value)
    ensures r.Err? ==> r.error == LookupError(e, projectKey, scriptName)
  {
    var launched;
    r, launched := ExecuteScript(e, projectKey, scriptName, inherited, run);
  }

  /** `ExecuteScriptOnProjects`: runs the script on the projects in the
      order given and stops after the first unsuccessful result, which is
      kept. Before each project the context is checked: `cancelled(i)` says
      whether it is done when project `i` is about to start; then, like a
      lookup error, the run ends with the results so far and the error. */
  method ExecuteScriptOnProjects(e: Executor, projectKeys: seq<string>, scriptName: string,
                                 inherited: seq<string>, run: Launch -> SpawnOutcome, cancelled: nat -> bool)
    returns (results: seq<ExecutionResult>, err: Option<ExecError>)
    ensures Completed(e, projectKeys, scriptName, inherited, run, cancelled, results)
    ensures forall i :: 0 <= i < |results| - 1 ==> results[i].success
    ensures err.None? && |results| < |projectKeys| ==> |results| > 0 && !results[|results| - 1].success
    ensures err.Some? ==> |results| < |projectKeys| && (|results| == 0 || results[|results| - 1].success)
    ensures err == Some(Cancelled) <==> err.Some? && cancelled(|results|)
    ensures err.Some? && !cancelled(|results|) ==>
              && (projectKeys[|results|] !in e.projects || scriptName !in e.projectConfig.scripts)
              && err.value == LookupError(e, projectKeys[|results|], scriptName)
  {
    results := [];
    err := None;
    for i := 0 to |projectKeys|
      invariant |results| == i
      invariant Completed(e, projectKeys, scriptName, inherited, run, cancelled, results)
      invariant forall j :: 0 <= j < i ==> results[j].success
    {
      if cancelled(i) {
        err := Some(Cancelled);
        break;
      }
      var r := ExecuteScriptResult(e, projectKeys[i], scriptName, inherited, run);
      if r.Err? {
        err := Some(r.error);
        break;
      }
      CompletedStep(e, projectKeys, scriptName, inherited, run, cancelled, results, r.value);
      results := results + [r.value];
      if !r.value.success {
        break;
      }
    }
  }
}
