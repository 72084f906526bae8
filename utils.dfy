/** The helpers of the command-line layer: filtering and grouping the
    discovered projects, resolving a project given by key or by name, and
    the rewrite of the `projectConfigFormat:` line of duck.yaml. */
module CliUtils {
  import opened Wrappers
  import opened Text
  import opened StringOrder
  import opened Config

  /** `FilterOptions`: an empty namespace and an empty tag list filter
      nothing. */
  datatype FilterOptions = FilterOptions(namespace: string, tags: seq<string>)

  /** Whether a project passes the filter: its namespace is the one asked
      for, if any, and it carries every tag asked for. */
  predicate Selected(project: AppProject, opts: FilterOptions) {
    && (opts.namespace == "" || project.config.namespace == opts.namespace)
    && forall i :: 0 <= i < |opts.tags| ==> opts.tags[i] in project.config.tags
  }

  /** The inner tag loop: whether `tag` is among `tags`. */
  method HasTag(tags: seq<string>, tag: string) returns (found: bool)
    ensures found <==> tag in tags
  {
    found := false;
    for i := 0 to |tags|
      invariant tag !in tags[..i]
    {
      if tags[i] == tag {
        found := true;
        break;
      }
      TakeOneMore(tags, i);
    }
    if !found {
      TakeAll(tags);
    }
  }

  /** The `hasAllTags` loop, which stops at the first missing tag. */
  method HasAllTags(projectTags: seq<string>, required: seq<string>) returns (all: bool)
    ensures all <==> forall i :: 0 <= i < |required| ==> required[i] in projectTags
  {
    all := true;
    for i := 0 to |required|
      invariant forall j :: 0 <= j < i ==> required[j] in projectTags
    {
      var found := HasTag(projectTags, required[i]);
      if !found {
        all := false;
        break;
      }
    }
  }

  /** `FilterProjects`: the projects that pass the filter, under their own
      keys. */
  method FilterProjects(projects: Projects, opts: FilterOptions) returns (filtered: Projects)
    ensures forall k :: k in filtered <==> k in projects && Selected(projects[k], opts)
    ensures forall k :: k in filtered ==> filtered[k] == projects[k]
    ensures opts.namespace == "" && opts.tags == [] ==> filtered == projects
  {
    var keys := EnumerateKeys(projects);
    filtered := map[];
    for i := 0 to |keys|
      invariant forall k :: k in filtered <==> k in keys[..i] && Selected(projects[k], opts)
      invariant forall k :: k in filtered ==> filtered[k] == projects[k]
    {
      TakeOneMore(keys, i);
      var project := projects[keys[i]];
      if opts.namespace != "" && project.config.namespace != opts.namespace {
        continue;
      }
      if |opts.tags| > 0 {
        var hasAllTags := HasAllTags(project.config.tags, opts.tags);
        if !hasAllTags {
          continue;
        }
      }
      filtered := filtered[keys[i] := project];
    }
    TakeAll(keys);
  }

  /** The projects of a namespace among `ps`, in their order. */
  function Group(ps: seq<AppProject>, namespace: string): (g: seq<AppProject>)
    ensures forall p :: p in g <==> p in ps && p.config.namespace == namespace
    decreases |ps|
  {
    if ps == [] then []
    else
      var front := ps[..|ps| - 1];
      var p := ps[|ps| - 1];
      assert ps == front + [p];
      if p.config.namespace == namespace then Group(front, namespace) + [p] else Group(front, namespace)
  }

  /** The namespaces the projects of `ps` belong to. */
  function Namespaces(ps: seq<AppProject>): set<string> {
    set i | 0 <= i < |ps| :: ps[i].config.namespace
  }

  /** `OrganizeByNamespace`: each namespace that some project has maps to
      its projects, in the map iteration order `order`. */
  method OrganizeByNamespace(projects: Projects)
    returns (organized: map<string, seq<AppProject>>, ghost order: seq<string>)
    ensures IsOrdering(order, projects.Keys)
    ensures organized.Keys == Namespaces(ValuesAt(projects, order))
    ensures forall ns :: ns in organized ==> organized[ns] == Group(ValuesAt(projects, order), ns)
  {
    var keys := EnumerateKeys(projects);
    organized := map[];
    for i := 0 to |keys|
      invariant Organized(organized, ValuesAt(projects, keys[..i]))
    {
      var project := projects[keys[i]];
      ValuesAtStep(projects, keys, i);
      OrganizedStep(organized, ValuesAt(projects, keys[..i]), project);
      var namespace := project.config.namespace;
      var group := if namespace in organized then organized[namespace] else [];
      organized := organized[namespace := group + [project]];
    }
    TakeAll(keys);
    order := keys;
  }

  /** `organized` after the projects `ps`. */
  ghost predicate Organized(organized: map<string, seq<AppProject>>, ps: seq<AppProject>) {
    && organized.Keys == Namespaces(ps)
    && forall ns :: ns in organized ==> organized[ns] == Group(ps, ns)
  }

  lemma OrganizedStep(organized: map<string, seq<AppProject>>, ps: seq<AppProject>, p: AppProject)
    requires Organized(organized, ps)
    ensures var ns := p.config.namespace;
            Organized(organized[ns := (if ns in organized then organized[ns] else []) + [p]], ps + [p])
  {
    var ns := p.config.namespace;
    assert (ps + [p])[..|ps|] == ps;
    assert Namespaces(ps + [p]) == Namespaces(ps) + {ns} by {
      assert forall i :: 0 <= i < |ps| ==> (ps + [p])[i] == ps[i];
      assert (ps + [p])[|ps|] == p;
    }
    if ns !in organized {
      NoGroup(ps, ns);
    }
  }

  /** A namespace no project has has an empty group. */
  lemma NoGroup(ps: seq<AppProject>, namespace: string)
    requires namespace !in Namespaces(ps)
    ensures Group(ps, namespace) == []
  {
  }

  /** The sizes of the groups of the namespaces `nss`. */
  function GroupSizes(ps: seq<AppProject>, nss: seq<string>): nat {
    if nss == [] then 0 else |Group(ps, nss[0])| + GroupSizes(ps, nss[1..])
  }

  lemma {:induction false} GroupSizesStep(ps: seq<AppProject>, p: AppProject, nss: seq<string>)
    requires NoDuplicates(nss)
    ensures GroupSizes(ps + [p], nss) == GroupSizes(ps, nss) + (if p.config.namespace in nss then 1 else 0)
  {
    if nss != [] {
      assert (ps + [p])[..|ps|] == ps;
      GroupSizesStep(ps, p, nss[1..]);
      assert nss == [nss[0]] + nss[1..];
    }
  }

  /** Every project is in exactly one group: over all namespaces, the group
      sizes add up to the number of projects. */
  lemma {:induction false} GroupsPartition(ps: seq<AppProject>, nss: seq<string>)
    requires IsOrdering(nss, Namespaces(ps))
    ensures GroupSizes(ps, nss) == |ps|
    decreases |ps|
  {
    if ps == [] {
      GroupSizesEmpty(nss);
    } else {
      var front := ps[..|ps| - 1];
      var p := ps[|ps| - 1];
      assert ps == front + [p];
      var sub := Restrict(nss, Namespaces(front));
      GroupsPartition(front, sub);
      GroupSizesRestrict(front, nss, Namespaces(front));
      GroupSizesStep(front, p, nss);
      assert p.config.namespace in Namespaces(ps);
    }
  }

  lemma {:induction false} GroupSizesEmpty(nss: seq<string>)
    ensures GroupSizes([], nss) == 0
  {
    if nss != [] {
      GroupSizesEmpty(nss[1..]);
    }
  }

  /** The elements of `s` that are in `keep`, in order. */
  function Restrict(s: seq<string>, keep: set<string>): (r: seq<string>)
    ensures Elems(r) == Elems(s) * keep
    ensures NoDuplicates(s) ==> NoDuplicates(r)
  {
    if s == [] then []
    else
      assert s == [s[0]] + s[1..];
      assert Elems(s) == {s[0]} + Elems(s[1..]);
      var rest := Restrict(s[1..], keep);
      assert NoDuplicates(s) ==> s[0] !in s[1..] && NoDuplicates(s[1..]);
      assert Elems([s[0]] + rest) == {s[0]} + Elems(rest);
      assert s[0] in rest ==> s[0] in s[1..];
      if s[0] in keep then [s[0]] + rest else rest
  }

  /** Namespaces no project of `ps` has add nothing to the sizes. */
  lemma {:induction false} GroupSizesRestrict(ps: seq<AppProject>, nss: seq<string>, keep: set<string>)
    requires Namespaces(ps) <= keep
    ensures GroupSizes(ps, Restrict(nss, keep)) == GroupSizes(ps, nss)
  {
    if nss != [] {
      GroupSizesRestrict(ps, nss[1..], keep);
      if nss[0] !in keep {
        NoGroup(ps, nss[0]);
      }
    }
  }

  /** `ResolveProjectKey`: the identifier when it is a key; otherwise the
      key of some project with that name (the first one the map iteration
      meets); otherwise nothing. */
  method ResolveProjectKey(identifier: string, projects: Projects) returns (key: string, found: bool)
    ensures identifier in projects ==> found && key == identifier
    ensures found <==> identifier in projects || exists k :: k in projects && projects[k].config.name == identifier
    ensures found ==> key in projects && (key == identifier || projects[key].config.name == identifier)
    ensures !found ==> key == ""
  {
    if identifier in projects {
      return identifier, true;
    }
    var keys := EnumerateKeys(projects);
    for i := 0 to |keys|
      invariant forall j :: 0 <= j < i ==> projects[keys[j]].config.name != identifier
    {
      if projects[keys[i]].config.name == identifier {
        return keys[i], true;
      }
    }
    forall k | k in projects
      ensures projects[k].config.name != identifier
    {
      assert k in Elems(keys);
    }
    return "", false;
  }

  /** The line that records the configuration format. */
  function FormatLine(format: string): string {
    "projectConfigFormat: \"" + format + "\""
  }

  /** The comment put above the format line (written as two parts, which
      lets the solver see its first character). */
  const FormatComment := "#" + " Project configuration format: \"duck\" or \"nx\""

  /** The position of the first line whose trimmed text starts with
      `prefix`, if any. */
  function FirstWith(lines: seq<string>, prefix: string): (r: Option<nat>)
    ensures r.Some? ==> r.value < |lines| && Starts(lines[r.value], prefix)
    ensures r.Some? ==> forall j :: 0 <= j < r.value ==> !Starts(lines[j], prefix)
    ensures r.None? ==> forall j :: 0 <= j < |lines| ==> !Starts(lines[j], prefix)
  {
    if lines == [] then None
    else if Starts(lines[0], prefix) then Some(0)
    else
      var r := FirstWith(lines[1..], prefix);
      if r.None? then None else Some(r.value + 1)
  }

  /** The text `UpdateProjectConfigFormat` writes back, as lines. */
  function FormatUpdated(lines: seq<string>, format: string): seq<string> {
    match FirstWith(lines, "projectConfigFormat:")
    case Some(i) => lines[i := FormatLine(format)]
    case None =>
      match FirstWith(lines, "targetDirectory:")
      case Some(i) => lines[..i + 1] + ["", FormatComment, FormatLine(format)] + lines[i + 1..]
      case None => lines
  }

  /** `UpdateProjectConfigFormat` up to the write: the new lines of the
      file, or the read error. */
  method UpdateProjectConfigFormat(fs: FileSystem, configPath: string, format: string)
    returns (r: Result<seq<string>, string>)
    ensures fs.Read(configPath).Err? ==> r == Err("failed to read config file: " + fs.Read(configPath).error)
    ensures fs.Read(configPath).Ok? ==> r == Ok(FormatUpdated(fs.Read(configPath).value, format))
  {
    var data := fs.Read(configPath);
    if data.Err? {
      return Err("failed to read config file: " + data.error);
    }
    var lines := data.value;
    var updated := false;
    for i := 0 to |lines|
      invariant lines == data.value
      invariant FirstWith(lines[..i], "projectConfigFormat:").None?
    {
      if Starts(lines[i], "projectConfigFormat:") {
        FirstWithPrefix(data.value, i, "projectConfigFormat:");
        lines := lines[i := FormatLine(format)];
        updated := true;
        break;
      }
      FirstWithExtend(lines, i, "projectConfigFormat:");
    }
    if !updated {
      TakeAll(lines);
      for i := 0 to |lines|
        invariant FirstWith(lines, "projectConfigFormat:").None?
        invariant lines == data.value
        invariant FirstWith(lines[..i], "targetDirectory:").None?
      {
        if Starts(lines[i], "targetDirectory:") {
          FirstWithPrefix(data.value, i, "targetDirectory:");
          lines := lines[..i + 1] + ["", FormatComment, FormatLine(format)] + lines[i + 1..];
          break;
        }
        FirstWithExtend(lines, i, "targetDirectory:");
      }
      if lines == data.value {
        TakeAll(lines);
      }
    }
    r := Ok(lines);
  }

  lemma FirstWithExtend(lines: seq<string>, i: nat, prefix: string)
    requires i < |lines| && FirstWith(lines[..i], prefix).None?
    requires !Starts(lines[i], prefix)
    ensures FirstWith(lines[..i + 1], prefix).None?
  {
    var s := lines[..i + 1];
    forall j | 0 <= j < |s| ensures !Starts(s[j], prefix) {
      if j < i {
        assert lines[..i][j] == lines[j];
      }
    }
  }

  /** The first line with a prefix, found by scanning. */
  lemma FirstWithPrefix(lines: seq<string>, i: nat, prefix: string)
    requires i < |lines| && FirstWith(lines[..i], prefix).None?
    requires Starts(lines[i], prefix)
    ensures FirstWith(lines, prefix) == Some(i)
  {
    forall j | 0 <= j < i ensures !Starts(lines[j], prefix) {
      assert lines[..i][j] == lines[j];
    }
    FirstWithAt(lines, i, prefix);
  }

  /** The format line stands for itself once trimmed. */
  lemma FormatLineTrimmed(format: string)
    ensures TrimSpace(FormatLine(format)) == FormatLine(format)
    ensures HasPrefix(TrimSpace(FormatLine(format)), "projectConfigFormat:")
  {
    var l := FormatLine(format);
    assert l[0] == 'p' && l[|l| - 1] == '"';
    TrimSpaceUnchanged(l);
  }

  /** Setting the format twice gives the text of setting it once. */
  lemma FormatIdempotent(lines: seq<string>, format: string)
    ensures FormatUpdated(FormatUpdated(lines, format), format) == FormatUpdated(lines, format)
  {
    match FirstWith(lines, "projectConfigFormat:")
    case Some(i) =>
      ReplacedTwice(lines, format, i);
    case None =>
      match FirstWith(lines, "targetDirectory:")
      case Some(i) =>
        InsertedTwice(lines, format, i);
      case None =>
        assert FormatUpdated(lines, format) == lines;
  }

  lemma ReplacedTwice(lines: seq<string>, format: string, i: nat)
    requires FirstWith(lines, "projectConfigFormat:") == Some(i)
    ensures FormatUpdated(FormatUpdated(lines, format), format) == FormatUpdated(lines, format)
  {
    var once := lines[i := FormatLine(format)];
    assert FormatUpdated(lines, format) == once;
    ReplacedStays(lines, format, i);
    assert once[i := FormatLine(format)] == once;
  }

  lemma InsertedTwice(lines: seq<string>, format: string, i: nat)
    requires FirstWith(lines, "projectConfigFormat:").None?
    requires FirstWith(lines, "targetDirectory:") == Some(i)
    ensures FormatUpdated(FormatUpdated(lines, format), format) == FormatUpdated(lines, format)
  {
    var once := lines[..i + 1] + ["", FormatComment, FormatLine(format)] + lines[i + 1..];
    assert FormatUpdated(lines, format) == once;
    assert FirstWith(once, "projectConfigFormat:") == Some(i + 3) by {
      InsertedStays(lines, format, i);
    }
    assert FormatUpdated(once, format) == once[i + 3 := FormatLine(format)];
    assert once[i + 3 := FormatLine(format)] == once by {
      assert once[i + 3] == FormatLine(format);
    }
  }

  lemma ReplacedStays(lines: seq<string>, format: string, i: nat)
    requires FirstWith(lines, "projectConfigFormat:") == Some(i)
    ensures FirstWith(lines[i := FormatLine(format)], "projectConfigFormat:") == Some(i)
  {
    var once := lines[i := FormatLine(format)];
    FormatLineTrimmed(format);
    forall j | 0 <= j < i ensures !Starts(once[j], "projectConfigFormat:") {
      assert once[j] == lines[j];
    }
    FirstWithAt(once, i, "projectConfigFormat:");
  }

  lemma InsertedStays(lines: seq<string>, format: string, i: nat)
    requires FirstWith(lines, "projectConfigFormat:").None?
    requires i < |lines|
    ensures var once := lines[..i + 1] + ["", FormatComment, FormatLine(format)] + lines[i + 1..];
            FirstWith(once, "projectConfigFormat:") == Some(i + 3)
  {
    var once := lines[..i + 1] + ["", FormatComment, FormatLine(format)] + lines[i + 1..];
    FormatLineTrimmed(format);
    assert once[i + 3] == FormatLine(format);
    assert TrimSpace("") == "";
    assert TrimSpace(FormatComment)[0] == '#' by {
      assert FormatComment[0] == '#' && FormatComment[45] == '"';
      TrimSpaceUnchanged(FormatComment);
    }
    forall j | 0 <= j < i + 3 ensures !Starts(once[j], "projectConfigFormat:") {
      if j <= i {
        assert once[j] == lines[j];
      }
    }
    FirstWithAt(once, i + 3, "projectConfigFormat:");
  }

  /** The first line with a prefix, when the lines before it lack it. */
  lemma {:induction false} FirstWithAt(lines: seq<string>, k: nat, prefix: string)
    requires k < |lines| && Starts(lines[k], prefix)
    requires forall j :: 0 <= j < k ==> !Starts(lines[j], prefix)
    ensures FirstWith(lines, prefix) == Some(k)
    decreases k
  {
    if k > 0 {
      FirstWithAt(lines[1..], k - 1, prefix);
    }
  }

}
