/** The Go scanner: the go.mod line parser, the import-block parser of a Go
    source file, and the collection of the imports of a project's sources. */
module GoScanner {
  import opened Wrappers
  import opened Text
  import opened StringOrder
  import opened Config
  import opened Dependencies
  import Paths

  /** `GetLanguage` */
  const Language: string := "go"

  /** `CanScan`: the project directory holds a go.mod. */
  predicate CanScan(fs: FileSystem, projectPath: string) {
    fs.Exists(Paths.Join(projectPath, "go.mod"))
  }

  // ---------------------------------------------------------------------
  // go.mod
  // ---------------------------------------------------------------------

  /** `parseDependency`: the fields of a requirement are the module, the
      version and an optional `//indirect` marker. */
  function ParseDependency(parts: seq<string>): (d: Option<Dependency>)
    ensures d.None? <==> parts == []
  {
    if |parts| < 1 then None
    else
      var target := parts[0];
      var version := if |parts| >= 2 then parts[1] else "";
      var isDirect := !(|parts| >= 3 && parts[2] == "//indirect");
      Some(Dependency("", target, version, isDirect, [target]))
  }

  function Found(d: Option<Dependency>): seq<Dependency> {
    if d.Some? then [d.value] else []
  }

  /** The variables of the `ScanProject` loop. */
  datatype ManifestState = ManifestState(inRequireBlock: bool, dependencies: seq<Dependency>)

  const ManifestStart: ManifestState := ManifestState(false, [])

  /** One line of go.mod. */
  function ManifestStep(s: ManifestState, raw: string): ManifestState {
    var line := TrimSpace(raw);
    if line == "" || HasPrefix(line, "//") then s
    else if HasPrefix(line, "require (") then s.(inRequireBlock := true)
    else if HasPrefix(line, "require ") then
      var parts := Fields(line);
      if |parts| >= 2 then s.(dependencies := s.dependencies + Found(ParseDependency(parts[1..]))) else s
    else if HasPrefix(line, "replace (") || HasPrefix(line, "replace ") then s
    else if line == ")" then s.(inRequireBlock := false)
    else if s.inRequireBlock then s.(dependencies := s.dependencies + Found(ParseDependency(Fields(line))))
    else s
  }

  /** The lines of go.mod, one after another. */
  function ManifestRun(s: ManifestState, lines: seq<string>): ManifestState
    decreases |lines|
  {
    if lines == [] then s else ManifestStep(ManifestRun(s, lines[..|lines| - 1]), lines[|lines| - 1])
  }

  /** What `ScanProject` returns for a project directory: the error of
      opening go.mod, the error of reading it, or its requirements. */
  function ScanManifest(fs: FileSystem, projectPath: string): Result<ProjectDependencies, string> {
    var path := Paths.Join(projectPath, "go.mod");
    if fs.OpenError(path).Some? then Err("failed to open go.mod: " + fs.OpenError(path).value)
    else match fs.Read(path)
      case Err(e) => Err("error reading go.mod: " + e)
      case Ok(lines) => Ok(ProjectDependencies(projectPath, Language, ManifestRun(ManifestStart, lines).dependencies))
  }

  /** `ScanProject`: reads go.mod line by line, tracking whether a
      `require (` block is open. */
  method ScanProject(fs: FileSystem, projectPath: string) returns (r: Result<ProjectDependencies, string>)
    ensures r == ScanManifest(fs, projectPath)
  {
    var goModPath := Paths.Join(projectPath, "go.mod");
    var openError := fs.OpenError(goModPath);
    if openError.Some? {
      return Err("failed to open go.mod: " + openError.value);
    }
    var file := fs.Read(goModPath);
    var lines := if file.Ok? then file.value else [];
    var inRequireBlock := false;
    var dependencies: seq<Dependency> := [];
    for i := 0 to |lines|
      invariant ManifestState(inRequireBlock, dependencies) == ManifestRun(ManifestStart, lines[..i])
    {
      TakeStep(lines, i);
      var line := TrimSpace(lines[i]);
      if line == "" || HasPrefix(line, "//") {
      } else if HasPrefix(line, "require (") {
        inRequireBlock := true;
      } else if HasPrefix(line, "require ") {
        var parts := Fields(line);
        if |parts| >= 2 {
          var dep := ParseDependency(parts[1..]);
          if dep.Some? {
            dependencies := dependencies + [dep.value];
          }
        }
      } else if HasPrefix(line, "replace (") || HasPrefix(line, "replace ") {
      } else if line == ")" {
        inRequireBlock := false;
      } else if inRequireBlock {
        var dep := ParseDependency(Fields(line));
        if dep.Some? {
          dependencies := dependencies + [dep.value];
        }
      }
    }
    if file.Err? {
      return Err("error reading go.mod: " + file.error);
    }
    TakeAll(lines);
    r := Ok(ProjectDependencies(projectPath, Language, dependencies));
  }

  /** Scanning fails exactly when go.mod cannot be read, and the message
      tells an open that failed from a read that failed after the open. A
      directory that `CanScan` accepts can still fail. */
  lemma ScanFailures(fs: FileSystem, projectPath: string)
    ensures var path := Paths.Join(projectPath, "go.mod");
            var r := ScanManifest(fs, projectPath);
            && (r.Err? <==> fs.Read(path).Err?)
            && (fs.OpenError(path).Some? ==> r == Err("failed to open go.mod: " + fs.OpenError(path).value))
            && (fs.OpenError(path).None? && fs.Read(path).Err? ==> r == Err("error reading go.mod: " + fs.Read(path).error))
            && (fs.OpenError(path).None? <==> CanScan(fs, projectPath) && !fs.files[path].Unreadable?)
  {
  }

  /** Reading go.mod in two parts is reading it whole. */
  lemma {:induction false} ManifestRunAppend(s: ManifestState, a: seq<string>, b: seq<string>)
    ensures ManifestRun(s, a + b) == ManifestRun(ManifestRun(s, a), b)
    decreases |b|
  {
    if b == [] {
      assert a + b == a;
    } else {
      assert (a + b)[..|a + b| - 1] == a + b[..|b| - 1];
      assert (a + b)[|a + b| - 1] == b[|b| - 1];
      ManifestRunAppend(s, a, b[..|b| - 1]);
    }
  }

  /** Reading one more line is one more step. */
  lemma ManifestRunLast(s: ManifestState, lines: seq<string>)
    requires lines != []
    ensures ManifestRun(s, lines) == ManifestStep(ManifestRun(s, lines[..|lines| - 1]), lines[|lines| - 1])
  {
  }

  /** Dependencies found so far are never dropped or reordered. */
  lemma {:induction false} ManifestGrows(s: ManifestState, lines: seq<string>)
    ensures var r := ManifestRun(s, lines);
            |s.dependencies| <= |r.dependencies| && r.dependencies[..|s.dependencies|] == s.dependencies
    decreases |lines|
  {
    if lines != [] {
      var before := ManifestRun(s, lines[..|lines| - 1]);
      ManifestGrows(s, lines[..|lines| - 1]);
      StepGrows(before, lines[|lines| - 1]);
      var after := ManifestStep(before, lines[|lines| - 1]).dependencies;
      assert after[..|s.dependencies|] == after[..|before.dependencies|][..|s.dependencies|];
    }
  }

  /** One line can only add dependencies at the end. */
  lemma StepGrows(s: ManifestState, raw: string)
    ensures var r := ManifestStep(s, raw);
            |s.dependencies| <= |r.dependencies| && r.dependencies[..|s.dependencies|] == s.dependencies
  {
  }

  /** A line of text inside a require block: not blank, not a comment, not
      a require or replace directive, not the closing parenthesis. */
  predicate BlockLine(l: string) {
    var t := TrimSpace(l);
    t != "" && !HasPrefix(t, "//") && !HasPrefix(t, "require ") && !HasPrefix(t, "replace ") && t != ")"
  }

  /** A trimmed line that is not blank starts with a field. */
  lemma TrimmedHasFields(l: string)
    requires TrimSpace(l) != ""
    ensures Fields(TrimSpace(l)) != []
  {
    var u := TrimLeftWhere(l, IsSpace);
    var t := TrimSpace(l);
    assert t[0] == u[0];
    assert !IsSpace(t[0]);
    assert TrimLeftWhere(t, IsSpace) == t;
  }

  /** "require (" and "replace (" begin with "require " and "replace ". */
  lemma DirectivePrefixes(t: string)
    ensures HasPrefix(t, "require (") ==> HasPrefix(t, "require ")
    ensures HasPrefix(t, "replace (") ==> HasPrefix(t, "replace ")
  {
    if HasPrefix(t, "require (") {
      assert t[..8] == t[..9][..8];
    }
    if HasPrefix(t, "replace (") {
      assert t[..8] == t[..9][..8];
    }
  }

  /** Inside a require block, each line yields one dependency, parsed from
      its fields, in order. */
  lemma {:induction false} InRequireBlock(deps: seq<Dependency>, block: seq<string>)
    requires forall i :: 0 <= i < |block| ==> BlockLine(block[i])
    ensures var r := ManifestRun(ManifestState(true, deps), block);
            r.inRequireBlock && ParsedBlock(deps, block, r.dependencies)
    decreases |block|
  {
    if block == [] {
      assert deps[..|deps|] == deps;
    } else {
      var init := block[..|block| - 1];
      var last := block[|block| - 1];
      assert forall i :: 0 <= i < |init| ==> init[i] == block[i];
      InRequireBlock(deps, init);
      var r0 := ManifestRun(ManifestState(true, deps), init);
      assert BlockLine(last);
      BlockLineStep(r0, last);
      var d := ParseDependency(Fields(TrimSpace(last)));
      ParsedStep(deps, init, r0.dependencies, last, d.value);
      TakeOneMore(block, |block| - 1);
      TakeAll(block);
      ManifestRunLast(ManifestState(true, deps), block);
    }
  }

  /** `ds` is `deps` followed by the dependencies parsed from the lines of
      `block`, in order. */
  predicate ParsedBlock(deps: seq<Dependency>, block: seq<string>, ds: seq<Dependency>) {
    && |ds| == |deps| + |block|
    && ds[..|deps|] == deps
    && forall i :: 0 <= i < |block| ==> Some(ds[|deps| + i]) == ParseDependency(Fields(TrimSpace(block[i])))
  }

  lemma ParsedStep(deps: seq<Dependency>, block: seq<string>, ds: seq<Dependency>, l: string, d: Dependency)
    requires ParsedBlock(deps, block, ds) && Some(d) == ParseDependency(Fields(TrimSpace(l)))
    ensures ParsedBlock(deps, block + [l], ds + [d])
  {
    var ds' := ds + [d];
    var block' := block + [l];
    assert ds'[..|deps|] == ds[..|deps|];
    forall i | 0 <= i < |block'|
      ensures Some(ds'[|deps| + i]) == ParseDependency(Fields(TrimSpace(block'[i])))
    {
      if i < |block| {
        assert ds'[|deps| + i] == ds[|deps| + i];
        assert block'[i] == block[i];
      }
    }
  }

  /** One line of a require block adds the dependency of its fields. */
  lemma BlockLineStep(s: ManifestState, l: string)
    requires s.inRequireBlock && BlockLine(l)
    ensures ParseDependency(Fields(TrimSpace(l))).Some?
    ensures ManifestStep(s, l) == s.(dependencies := s.dependencies + [ParseDependency(Fields(TrimSpace(l))).value])
  {
    DirectivePrefixes(TrimSpace(l));
    TrimmedHasFields(l);
  }

  /** `require ( ... )`: the block's lines, and nothing else, are added, in
      order, one dependency each, and the block is closed afterwards. */
  lemma RequireBlock(deps: seq<Dependency>, block: seq<string>)
    requires forall i :: 0 <= i < |block| ==> BlockLine(block[i])
    ensures var r := ManifestRun(ManifestState(false, deps), ["require ("] + block + [")"]);
            && !r.inRequireBlock
            && |r.dependencies| == |deps| + |block|
            && r.dependencies[..|deps|] == deps
            && forall i :: 0 <= i < |block| ==>
                 Some(r.dependencies[|deps| + i]) == ParseDependency(Fields(TrimSpace(block[i])))
  {
    var s := ManifestState(false, deps);
    TrimSpaceUnchanged("require (");
    TrimSpaceUnchanged(")");
    assert ManifestRun(s, ["require ("]) == ManifestState(true, deps);
    InRequireBlock(deps, block);
    var r1 := ManifestRun(ManifestState(true, deps), block);
    assert ManifestRun(r1, [")"]) == r1.(inRequireBlock := false);
    ManifestRunAppend(s, ["require ("], block);
    ManifestRunAppend(s, ["require ("] + block, [")"]);
  }

  /** Outside a require block, a line that is not a require directive adds
      nothing (module, go, replace, comments...); a replace directive adds
      nothing anywhere. */
  lemma IgnoredLines(s: ManifestState, l: string)
    ensures !s.inRequireBlock && !HasPrefix(TrimSpace(l), "require ") ==> ManifestStep(s, l) == s
    ensures HasPrefix(TrimSpace(l), "replace ") ==> ManifestStep(s, l) == s
  {
    var t := TrimSpace(l);
    DirectivePrefixes(t);
    if HasPrefix(t, "replace ") {
      assert !HasPrefix(t, "require ") by {
        assert t[..8][2] != "require "[2];
      }
    }
  }

  /** The line `require M V` is already trimmed. */
  lemma RequireLineTrimmed(m: string, v: string)
    requires m != "" && v != "" && NoSpace(v)
    ensures TrimSpace("require " + m + " " + v) == "require " + m + " " + v
  {
    var line := "require " + m + " " + v;
    assert line[0] == 'r';
    assert line[|line| - 1] == v[|v| - 1];
    TrimSpaceUnchanged(line);
  }

  /** The line `require M V` is a single-line require directive. */
  lemma RequireLinePrefix(m: string, v: string)
    requires m != "" && m[0] != '('
    ensures var line := "require " + m + " " + v;
            HasPrefix(line, "require ") && !HasPrefix(line, "require (") && !HasPrefix(line, "//")
  {
    var line := "require " + m + " " + v;
    assert line[8] == m[0];
    assert line[..8] == "require ";
    assert line[0] == 'r';
  }

  /** The line `require M V` has the three fields `require`, M and V. */
  lemma RequireLineFields(m: string, v: string)
    requires m != "" && NoSpace(m) && v != "" && NoSpace(v)
    ensures Fields("require " + m + " " + v) == ["require", m, v]
  {
    assert "require " + m + " " + v == "require" + " " + m + " " + v;
    FieldsThree("require", m, v);
  }

  /** `require M V` on one line adds the one dependency M at version V. */
  lemma SingleRequire(s: ManifestState, m: string, v: string)
    requires m != "" && NoSpace(m) && m[0] != '('
    requires v != "" && NoSpace(v)
    ensures ManifestStep(s, "require " + m + " " + v)
            == s.(dependencies := s.dependencies + [Dependency("", m, v, true, [m])])
  {
    RequireLineTrimmed(m, v);
    RequireLinePrefix(m, v);
    RequireLineFields(m, v);
    assert ["require", m, v][1..] == [m, v];
  }

  lemma MarkerWords()
    ensures NoSpace("//indirect") && NoSpace("//") && NoSpace("indirect")
  {
  }

  /** The indirect marker is recognised only when written `//indirect`, as
      one field: `// indirect`, as go mod tidy writes it, leaves the
      dependency marked direct. */
  lemma IndirectMarker(m: string, v: string)
    requires m != "" && NoSpace(m) && v != "" && NoSpace(v)
    ensures !ParseDependency(Fields(m + " " + v + " " + "//indirect")).value.isDirect
    ensures ParseDependency(Fields(m + " " + v + " " + "//" + " " + "indirect")).value.isDirect
  {
    MarkerWords();
    FieldsThree(m, v, "//indirect");
    FieldsFour(m, v, "//", "indirect");
  }

  // ---------------------------------------------------------------------
  // Imports of one source file
  // ---------------------------------------------------------------------

  const Quote: set<char> := {'"'}

  /** `parseImportLine`: the path of an import spec, without white space and
      quotes; for an aliased import, the last field. */
  function ParseImportLine(raw: string): string {
    var line := Trim(TrimSpace(raw), Quote);
    var parts := Fields(line);
    if |parts| > 1 then Trim(parts[|parts| - 1], Quote) else line
  }

  /** `"path"` yields the path. */
  lemma ImportQuoted(p: string)
    requires p != "" && NoSpace(p) && '"' !in p
    ensures ParseImportLine("\"" + p + "\"") == p
  {
    var raw := "\"" + p + "\"";
    TrimSpaceUnchanged(raw);
    TrimAround("\"", p, "\"", Quote);
    assert p == Join([p], " ");
    FieldsJoin([p]);
  }

  /** The line `alias "path"` is already trimmed and, without its quotes,
      is `alias "path`. */
  lemma AliasedLineTrimmed(alias: string, p: string)
    requires alias != "" && '"' !in alias && !IsSpace(alias[0])
    requires p != "" && '"' !in p
    ensures var raw := alias + " \"" + p + "\"";
            TrimSpace(raw) == raw && Trim(raw, Quote) == alias + " " + ("\"" + p)
  {
    var line := alias + " " + ("\"" + p);
    var raw := line + "\"";
    assert raw == alias + " \"" + p + "\"";
    assert raw[0] == alias[0];
    TrimSpaceUnchanged(raw);
    assert raw == "" + line + "\"";
    assert line[0] == alias[0] && line[|line| - 1] == p[|p| - 1];
    TrimAround("", line, "\"", Quote);
  }

  /** An import spec of two fields yields its second field, unquoted. */
  lemma TwoFieldImport(raw: string, alias: string, q: string)
    requires Fields(Trim(TrimSpace(raw), Quote)) == [alias, q]
    ensures ParseImportLine(raw) == Trim(q, Quote)
  {
  }

  lemma QuotedNoSpace(p: string)
    requires NoSpace(p)
    ensures NoSpace("\"" + p)
  {
    assert forall i :: 1 <= i < |"\"" + p| ==> ("\"" + p)[i] == p[i - 1];
  }

  /** `alias "path"` yields its second field, `"path`, unquoted. */
  lemma AliasedField(alias: string, p: string)
    requires alias != "" && NoSpace(alias) && '"' !in alias
    requires p != "" && NoSpace(p) && '"' !in p
    ensures ParseImportLine(alias + " \"" + p + "\"") == Trim("\"" + p, Quote)
  {
    var q := "\"" + p;
    AliasedLineTrimmed(alias, p);
    QuotedNoSpace(p);
    FieldsTwo(alias, q);
    TwoFieldImport(alias + " \"" + p + "\"", alias, q);
  }

  lemma UnquoteOpen(p: string)
    requires p != "" && '"' !in p
    ensures Trim("\"" + p, Quote) == p
  {
    assert "\"" + p + "" == "\"" + p;
    TrimAround("\"", p, "", Quote);
  }

  /** `alias "path"` yields the path. */
  lemma ImportAliased(alias: string, p: string)
    requires alias != "" && NoSpace(alias) && '"' !in alias
    requires p != "" && NoSpace(p) && '"' !in p
    ensures ParseImportLine(alias + " \"" + p + "\"") == p
  {
    AliasedField(alias, p);
    UnquoteOpen(p);
  }


  /** The variables of the `parseImportsFromFile` loop; `stopped` records
      that the loop has left early. */
  datatype ImportState = ImportState(inImportBlock: bool, imports: seq<string>, stopped: bool)

  const ImportStart: ImportState := ImportState(false, [], false)

  function NonEmpty(imp: string): seq<string> {
    if imp != "" then [imp] else []
  }

  /** One line of a Go source file. Outside an import block, the first line
      that is neither blank, a comment, an import nor a package clause ends
      the scan. */
  function ImportStep(s: ImportState, raw: string): ImportState {
    if s.stopped then s
    else
      var line := TrimSpace(raw);
      if line == "" || HasPrefix(line, "//") then s
      else if HasPrefix(line, "import (") then s.(inImportBlock := true)
      else if HasPrefix(line, "import ") then s.(imports := s.imports + NonEmpty(ParseImportLine(line[7..])))
      else if s.inImportBlock && line == ")" then s.(inImportBlock := false)
      else if s.inImportBlock then s.(imports := s.imports + NonEmpty(ParseImportLine(line)))
      else if !HasPrefix(line, "import") && line != "package main" && !HasPrefix(line, "package ") then s.(stopped := true)
      else s
  }

  function ImportRun(s: ImportState, lines: seq<string>): ImportState
    decreases |lines|
  {
    if lines == [] then s else ImportStep(ImportRun(s, lines[..|lines| - 1]), lines[|lines| - 1])
  }

  /** What `parseImportsFromFile` returns for a file. */
  function FileImports(fs: FileSystem, path: string): Result<seq<string>, string> {
    match fs.Read(path)
    case Err(e) => Err(e)
    case Ok(lines) => Ok(ImportRun(ImportStart, lines).imports)
  }

  lemma {:induction false} ImportRunAppend(s: ImportState, a: seq<string>, b: seq<string>)
    ensures ImportRun(s, a + b) == ImportRun(ImportRun(s, a), b)
    decreases |b|
  {
    if b == [] {
      assert a + b == a;
    } else {
      assert (a + b)[..|a + b| - 1] == a + b[..|b| - 1];
      assert (a + b)[|a + b| - 1] == b[|b| - 1];
      ImportRunAppend(s, a, b[..|b| - 1]);
    }
  }

  /** Once the scan has stopped, no later line changes anything. */
  lemma {:induction false} ImportRunStopped(s: ImportState, lines: seq<string>)
    requires s.stopped
    ensures ImportRun(s, lines) == s
    decreases |lines|
  {
    if lines != [] {
      ImportRunStopped(s, lines[..|lines| - 1]);
    }
  }

  /** Stopping after line `i` leaves the result of the first `i + 1` lines. */
  lemma StoppedAt(lines: seq<string>, i: nat)
    requires i < |lines| && ImportRun(ImportStart, lines[..i + 1]).stopped
    ensures ImportRun(ImportStart, lines) == ImportRun(ImportStart, lines[..i + 1])
  {
    assert lines == lines[..i + 1] + lines[i + 1..];
    ImportRunAppend(ImportStart, lines[..i + 1], lines[i + 1..]);
    ImportRunStopped(ImportRun(ImportStart, lines[..i + 1]), lines[i + 1..]);
  }

  /** `parseImportsFromFile`: the import paths of the file's import
      declarations, in the order they are written. */
  method ParseImportsFromFile(fs: FileSystem, path: string) returns (r: Result<seq<string>, string>)
    ensures r == FileImports(fs, path)
  {
    var file := fs.Read(path);
    if file.Err? {
      return Err(file.error);
    }
    var lines := file.value;
    var inImportBlock := false;
    var imports: seq<string> := [];
    for i := 0 to |lines|
      invariant ImportRun(ImportStart, lines[..i]) == ImportState(inImportBlock, imports, false)
    {
      TakeStep(lines, i);
      var line := TrimSpace(lines[i]);
      if line == "" || HasPrefix(line, "//") {
      } else if HasPrefix(line, "import (") {
        inImportBlock := true;
      } else if HasPrefix(line, "import ") {
        var imp := ParseImportLine(line[7..]);
        if imp != "" {
          imports := imports + [imp];
        }
      } else if inImportBlock && line == ")" {
        inImportBlock := false;
      } else {
        if inImportBlock {
          var imp := ParseImportLine(line);
          if imp != "" {
            imports := imports + [imp];
          }
        }
        if !inImportBlock && !HasPrefix(line, "import") && line != "package main" && !HasPrefix(line, "package ") {
          StoppedAt(lines, i);
          break;
        }
      }
    }
    TakeAll(lines);
    r := Ok(imports);
  }

  /** An import path written between quotes. */
  function Quoted(p: string): string {
    "\"" + p + "\""
  }

  /** A path suitable for quoting: a non-empty word without quotes. */
  predicate PlainPath(p: string) {
    p != "" && NoSpace(p) && '"' !in p
  }

  /** The lines of an import block listing the given paths. */
  function QuoteAll(paths: seq<string>): (block: seq<string>)
    ensures |block| == |paths|
  {
    seq(|paths|, i requires 0 <= i < |paths| => Quoted(paths[i]))
  }

  lemma QuoteAllInit(paths: seq<string>)
    requires paths != []
    ensures QuoteAll(paths)[..|paths| - 1] == QuoteAll(paths[..|paths| - 1])
    ensures QuoteAll(paths)[|paths| - 1] == Quoted(paths[|paths| - 1])
  {
  }

  /** A line that does not start with "import" is no import declaration. */
  lemma NotImport(t: string)
    requires !HasPrefix(t, "import")
    ensures !HasPrefix(t, "import (") && !HasPrefix(t, "import ")
  {
    PrefixOfLonger(t, "import", " (");
    PrefixOfLonger(t, "import", " ");
  }

  /** A quoted path is a trimmed line that is neither a comment, an import
      declaration nor the end of a block. */
  lemma QuotedLine(p: string)
    requires PlainPath(p)
    ensures var line := Quoted(p);
            && TrimSpace(line) == line && line != "" && line != ")"
            && !HasPrefix(line, "//") && !HasPrefix(line, "import (") && !HasPrefix(line, "import ")
  {
    var line := Quoted(p);
    TrimSpaceUnchanged(line);
    assert line[0] == '"';
    NotImport(line);
  }

  /** Inside an import block, a quoted path is recorded. */
  lemma BlockImportStep(s: ImportState, p: string)
    requires s.inImportBlock && !s.stopped && PlainPath(p)
    ensures ImportStep(s, Quoted(p)) == s.(imports := s.imports + [p])
  {
    QuotedLine(p);
    ImportQuoted(p);
  }

  /** Inside an import block, each quoted path is recorded, in order. */
  lemma {:induction false} InImportBlock(imports: seq<string>, paths: seq<string>)
    requires forall i :: 0 <= i < |paths| ==> PlainPath(paths[i])
    ensures ImportRun(ImportState(true, imports, false), QuoteAll(paths)) == ImportState(true, imports + paths, false)
    decreases |paths|
  {
    if paths == [] {
      assert imports + paths == imports;
    } else {
      var init := paths[..|paths| - 1];
      var last := paths[|paths| - 1];
      var s := ImportState(true, imports, false);
      assert forall i :: 0 <= i < |init| ==> init[i] == paths[i];
      InImportBlock(imports, init);
      QuoteAllInit(paths);
      var block := QuoteAll(paths);
      assert ImportRun(s, block) == ImportStep(ImportRun(s, QuoteAll(init)), Quoted(last));
      BlockImportStep(ImportState(true, imports + init, false), last);
      AppendLast(imports, paths);
    }
  }

  /** An import block of quoted paths records exactly those paths, in
      order, and closes again. */
  lemma ImportBlock(imports: seq<string>, paths: seq<string>)
    requires forall i :: 0 <= i < |paths| ==> PlainPath(paths[i])
    ensures ImportRun(ImportState(false, imports, false), ["import ("] + QuoteAll(paths) + [")"])
            == ImportState(false, imports + paths, false)
  {
    var block := QuoteAll(paths);
    var s := ImportState(false, imports, false);
    TrimSpaceUnchanged("import (");
    TrimSpaceUnchanged(")");
    assert ImportRun(s, ["import ("]) == ImportState(true, imports, false);
    InImportBlock(imports, paths);
    ImportRunAppend(s, ["import ("], block);
    ImportRunAppend(s, ["import ("] + block, [")"]);
  }

  /** `import "path"` records the path. */
  lemma SingleImport(s: ImportState, p: string)
    requires !s.stopped && PlainPath(p)
    ensures ImportStep(s, "import " + Quoted(p)) == s.(imports := s.imports + [p])
  {
    SingleImportShape(p);
    ImportQuoted(p);
    ImportDeclaration(s, "import " + Quoted(p), p);
  }

  /** How the line `import "path"` reads once trimmed. */
  lemma SingleImportShape(p: string)
    requires PlainPath(p)
    ensures var line := "import " + Quoted(p);
            && TrimSpace(line) == line
            && !HasPrefix(line, "//") && !HasPrefix(line, "import (") && HasPrefix(line, "import ")
            && line[7..] == Quoted(p)
  {
    var line := "import " + Quoted(p);
    assert TrimSpace(line) == line by {
      assert line[0] == 'i' && line[|line| - 1] == '"';
      TrimSpaceUnchanged(line);
    }
    assert !HasPrefix(line, "//") by { assert line[0] == 'i'; }
    assert !HasPrefix(line, "import (") by { assert line[7] == '"'; }
    assert HasPrefix(line, "import ") by { assert line[..7] == "import "; }
  }

  /** A trimmed single import declaration records its path. */
  lemma ImportDeclaration(s: ImportState, line: string, p: string)
    requires !s.stopped && p != "" && |line| >= 7
    requires TrimSpace(line) == line
    requires !HasPrefix(line, "//") && !HasPrefix(line, "import (") && HasPrefix(line, "import ")
    requires ParseImportLine(line[7..]) == p
    ensures ImportStep(s, line) == s.(imports := s.imports + [p])
  {
  }

  /** Outside an import block, the first line of code ends the scan: no
      later line, even an import, is recorded. */
  lemma StopsAtCode(s: ImportState, l: string, rest: seq<string>)
    requires !s.stopped && !s.inImportBlock
    requires var t := TrimSpace(l);
             t != "" && !HasPrefix(t, "//") && !HasPrefix(t, "import") && !HasPrefix(t, "package ")
    ensures ImportRun(s, [l] + rest) == s.(stopped := true)
  {
    var t := TrimSpace(l);
    NotImport(t);
    assert HasPrefix("package main", "package ");
    assert ImportRun(s, [l]) == s.(stopped := true);
    ImportRunAppend(s, [l], rest);
    ImportRunStopped(s.(stopped := true), rest);
  }

  // ---------------------------------------------------------------------
  // Imports of a project
  // ---------------------------------------------------------------------

  /** The files whose imports are collected: Go sources other than tests. */
  predicate Parsed(e: WalkEntry) {
    e.Visit? && !e.isDir && HasSuffix(e.path, ".go") && !HasSuffix(e.path, "_test.go")
  }

  /** The walk of `ScanImports` over the given entries: the first failure
      (of the walk, or of reading a parsed file) ends it, otherwise the set
      of the parsed files' imports. */
  function CollectImports(fs: FileSystem, entries: seq<WalkEntry>): Result<set<string>, string>
    decreases |entries|
  {
    if entries == [] then Ok({})
    else
      var e := entries[|entries| - 1];
      match CollectImports(fs, entries[..|entries| - 1])
      case Err(reason) => Err(reason)
      case Ok(found) =>
        if e.WalkFailure? then Err(e.reason)
        else if !Parsed(e) then Ok(found)
        else match FileImports(fs, e.path)
          case Err(reason) => Err(reason)
          case Ok(imps) => Ok(found + Elems(imps))
  }

  /** A failure ends the walk: what follows it is never looked at. */
  lemma {:induction false} CollectFailed(fs: FileSystem, a: seq<WalkEntry>, b: seq<WalkEntry>)
    requires CollectImports(fs, a).Err?
    ensures CollectImports(fs, a + b) == CollectImports(fs, a)
    decreases |b|
  {
    if b == [] {
      assert a + b == a;
    } else {
      assert (a + b)[..|a + b| - 1] == a + b[..|b| - 1];
      CollectFailed(fs, a, b[..|b| - 1]);
    }
  }

  /** `ScanImports`: every import path of the project's Go sources, once
      each, in map iteration order; or the first failure. */
  method ScanImports(fs: FileSystem, projectPath: string) returns (r: Result<seq<string>, string>)
    ensures r.Ok? <==> CollectImports(fs, fs.Walk(projectPath)).Ok?
    ensures r.Err? ==> r.error == CollectImports(fs, fs.Walk(projectPath)).error
    ensures r.Ok? ==> IsOrdering(r.value, CollectImports(fs, fs.Walk(projectPath)).value)
  {
    var entries := fs.Walk(projectPath);
    var imports: map<string, bool> := map[];
    var failure: Option<string> := None;
    assert entries[..0] == [];
    assert imports.Keys == {};
    for i := 0 to |entries|
      invariant CollectImports(fs, entries[..i]) == Ok(imports.Keys)
    {
      TakeStep(entries, i);
      var entry := entries[i];
      if entry.WalkFailure? {
        failure := Some(entry.reason);
        CollectFailed(fs, entries[..i + 1], entries[i + 1..]);
        assert entries[..i + 1] + entries[i + 1..] == entries;
        break;
      }
      if !entry.isDir && HasSuffix(entry.path, ".go") && !HasSuffix(entry.path, "_test.go") {
        var fileImports := ParseImportsFromFile(fs, entry.path);
        if fileImports.Err? {
          failure := Some(fileImports.error);
          CollectFailed(fs, entries[..i + 1], entries[i + 1..]);
          assert entries[..i + 1] + entries[i + 1..] == entries;
          break;
        }
        var imps := fileImports.value;
        ghost var before := imports.Keys;
        for j := 0 to |imps|
          invariant imports.Keys == before + Elems(imps[..j])
        {
          TakeOneMore(imps, j);
          ElemsAppend(imps[..j], imps[j]);
          imports := imports[imps[j] := true];
        }
        TakeAll(imps);
      }
    }
    if failure.Some? {
      return Err(failure.value);
    }
    TakeAll(entries);
    var result := EnumerateKeys(imports);
    r := Ok(result);
  }

  /** The imports collected are exactly those of the parsed files, and the
      walk succeeds exactly when it meets no failure and every parsed file
      can be read. */
  lemma {:induction false} CollectedImports(fs: FileSystem, entries: seq<WalkEntry>)
    ensures CollectImports(fs, entries).Ok? <==>
              forall i :: 0 <= i < |entries| ==>
                entries[i].Visit? && (Parsed(entries[i]) ==> FileImports(fs, entries[i].path).Ok?)
    ensures CollectImports(fs, entries).Ok? ==>
              forall x :: x in CollectImports(fs, entries).value <==>
                exists i :: 0 <= i < |entries| && Parsed(entries[i]) && x in FileImports(fs, entries[i].path).value
    decreases |entries|
  {
    if entries != [] {
      var init := entries[..|entries| - 1];
      var e := entries[|entries| - 1];
      CollectedImports(fs, init);
      assert forall i :: 0 <= i < |init| ==> init[i] == entries[i];
    }
  }
}
