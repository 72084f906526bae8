/** The sync of discovered dependencies into a project's manifests: the
    app.yaml and the project.json in the project's directory are each
    updated when present, independently of each other, and the failures
    are reported together. */
module Sync {
  import opened Wrappers
  import opened Text
  import opened Config
  import opened Json
  import Paths
  import AppYaml
  import ProjectJson

  /** The result of `os.WriteFile` for a path: the error writing it gives,
      for the paths that cannot be written. */
  type WriteErrors = map<string, string>

  /** What one manifest update ends with: the content written, or the
      error, once the write has been attempted. */
  function Written<T>(update: Result<T, string>, path: string, writeErrors: WriteErrors): Result<T, string> {
    if update.Err? then update
    else if path in writeErrors then Err(writeErrors[path])
    else update
  }

  /** What the project.json update ends with once the write has been
      attempted; a panic happens before the write. */
  function WrittenJson(update: ProjectJson.JsonOutcome, path: string, writeErrors: WriteErrors): ProjectJson.JsonOutcome {
    match update
    case Panicked(_) => update
    case Returned(result) => ProjectJson.Returned(Written(result, path, writeErrors))
  }

  /** The result of the project.json update, with a panic read as an
      error. */
  function ReturnedResult(outcome: ProjectJson.JsonOutcome): Result<map<string, Json>, string> {
    match outcome
    case Returned(result) => result
    case Panicked(message) => Err(message)
  }

  /** The outcome of the sync: the lines written to app.yaml, the document
      written to project.json, and the error returned; or, when the
      project.json update panics, the lines already written to app.yaml and
      the panic, which nothing recovers. */
  datatype SyncResult =
    | SyncResult(yaml: Option<seq<string>>, json: Option<map<string, Json>>, error: Option<string>)
    | Aborted(yaml: Option<seq<string>>, panic: string)

  /** The failure message of a present manifest whose update failed. */
  function Failure<T>(present: bool, outcome: Result<T, string>, heading: string): seq<string> {
    if present && outcome.Err? then [heading + outcome.error] else []
  }

  /** How `%v` prints a slice of errors. */
  function ErrorList(messages: seq<string>): string {
    "[" + Join(messages, " ") + "]"
  }

  const NoManifest := "no app.yaml or project.json found"

  /** The outcome of `syncDependenciesToConfig`. */
  ghost function SyncOf(fs: FileSystem, projectPath: string, dependencies: seq<string>,
                        decode: string -> Result<Json, string>, writeErrors: WriteErrors): SyncResult
  {
    SyncAt(fs, Paths.Join(projectPath, "app.yaml"), Paths.Join(projectPath, "project.json"), dependencies, decode, writeErrors)
  }

  /** The outcome of the sync for the given manifest paths. */
  ghost function SyncAt(fs: FileSystem, yamlPath: string, jsonPath: string, dependencies: seq<string>,
                        decode: string -> Result<Json, string>, writeErrors: WriteErrors): SyncResult
  {
    var yaml := Written(YamlUpdate(fs, yamlPath, dependencies), yamlPath, writeErrors);
    var outcome := WrittenJson(JsonUpdate(fs, jsonPath, dependencies, decode), jsonPath, writeErrors);
    var yamlWritten := if fs.Exists(yamlPath) && yaml.Ok? then Some(yaml.value) else None;
    if fs.Exists(jsonPath) && outcome.Panicked? then Aborted(yamlWritten, outcome.message)
    else
      var json := ReturnedResult(outcome);
      var failures := Failure(fs.Exists(yamlPath), yaml, "failed to update app.yaml: ")
                    + Failure(fs.Exists(jsonPath), json, "failed to update project.json: ");
      SyncResult(
        yamlWritten,
        if fs.Exists(jsonPath) && json.Ok? then Some(json.value) else None,
        if failures != [] then Some("sync errors: " + ErrorList(failures))
        else if !fs.Exists(yamlPath) && !fs.Exists(jsonPath) then Some(NoManifest)
        else None)
  }

  ghost function YamlUpdate(fs: FileSystem, path: string, dependencies: seq<string>): Result<seq<string>, string> {
    match fs.Read(path)
    case Err(e) => Err(e)
    case Ok(lines) => Ok(AppYaml.AppYamlLines(lines, dependencies))
  }

  ghost function JsonUpdate(fs: FileSystem, path: string, dependencies: seq<string>,
                            decode: string -> Result<Json, string>): ProjectJson.JsonOutcome {
    match fs.Read(path)
    case Err(e) => ProjectJson.Returned(Err(e))
    case Ok(lines) => ProjectJson.ProjectJsonDocument(lines, dependencies, decode)
  }

  /** `syncDependenciesToConfig`, with the writes' outcomes given by
      `writeErrors`; `Aborted` stands for the panic that ends the program. */
  method SyncDependenciesToConfig(fs: FileSystem, projectPath: string, dependencies: seq<string>,
                                  decode: string -> Result<Json, string>, writeErrors: WriteErrors)
    returns (r: SyncResult)
    ensures r == SyncOf(fs, projectPath, dependencies, decode, writeErrors)
  {
    var yamlPath := Paths.Join(projectPath, "app.yaml");
    var jsonPath := Paths.Join(projectPath, "project.json");
    var hasAppYaml := fs.Exists(yamlPath);
    var hasProjectJson := fs.Exists(jsonPath);
    var errors: seq<string> := [];
    var yaml: Option<seq<string>> := None;
    var json: Option<map<string, Json>> := None;
    if hasAppYaml {
      var r := WriteAppYaml(fs, yamlPath, dependencies, writeErrors);
      if r.Err? {
        errors := errors + ["failed to update app.yaml: " + r.error];
      } else {
        yaml := Some(r.value);
      }
    }
    if hasProjectJson {
      var outcome := WriteProjectJson(fs, jsonPath, dependencies, decode, writeErrors);
      if outcome.Panicked? {
        return Aborted(yaml, outcome.message);
      }
      if outcome.result.Err? {
        errors := errors + ["failed to update project.json: " + outcome.result.error];
      } else {
        json := Some(outcome.result.value);
      }
    }
    if |errors| > 0 {
      return SyncResult(yaml, json, Some("sync errors: " + ErrorList(errors)));
    }
    if !hasAppYaml && !hasProjectJson {
      return SyncResult(yaml, json, Some(NoManifest));
    }
    return SyncResult(yaml, json, None);
  }

  /** The update of app.yaml, then its write. */
  method WriteAppYaml(fs: FileSystem, path: string, dependencies: seq<string>, writeErrors: WriteErrors)
    returns (r: Result<seq<string>, string>)
    ensures r == Written(YamlUpdate(fs, path, dependencies), path, writeErrors)
  {
    r := AppYaml.UpdateAppYamlDependencies(fs, path, dependencies);
    if r.Ok? && path in writeErrors {
      r := Err(writeErrors[path]);
    }
  }

  /** The update of project.json, then its write. */
  method WriteProjectJson(fs: FileSystem, path: string, dependencies: seq<string>,
                          decode: string -> Result<Json, string>, writeErrors: WriteErrors)
    returns (r: ProjectJson.JsonOutcome)
    ensures r == WrittenJson(JsonUpdate(fs, path, dependencies, decode), path, writeErrors)
  {
    r := ProjectJson.UpdateProjectJsonDependencies(fs, path, dependencies, decode);
    if r.Returned? && r.result.Ok? && path in writeErrors {
      r := ProjectJson.Returned(Err(writeErrors[path]));
    }
  }

  /** Two file systems that agree on a path. */
  predicate SameEntry(fs1: FileSystem, fs2: FileSystem, path: string) {
    && (path in fs1.files <==> path in fs2.files)
    && (path in fs1.files ==> fs1.files[path] == fs2.files[path])
  }

  /** Each manifest is updated independently of the other: what is written
      to app.yaml depends on app.yaml alone, and what is written to
      project.json on project.json alone, whatever happens to the other
      file. */
  lemma SyncIndependent(fs1: FileSystem, fs2: FileSystem, projectPath: string, dependencies: seq<string>,
                        decode: string -> Result<Json, string>, writeErrors: WriteErrors)
    ensures SameEntry(fs1, fs2, Paths.Join(projectPath, "app.yaml")) ==>
              SyncOf(fs1, projectPath, dependencies, decode, writeErrors).yaml
              == SyncOf(fs2, projectPath, dependencies, decode, writeErrors).yaml
    ensures SameEntry(fs1, fs2, Paths.Join(projectPath, "project.json")) ==>
              var r1 := SyncOf(fs1, projectPath, dependencies, decode, writeErrors);
              var r2 := SyncOf(fs2, projectPath, dependencies, decode, writeErrors);
              && (r1.Aborted? <==> r2.Aborted?)
              && (r1.SyncResult? ==> r1.json == r2.json)
  {
    var yamlPath := Paths.Join(projectPath, "app.yaml");
    var jsonPath := Paths.Join(projectPath, "project.json");
    assert SyncOf(fs1, projectPath, dependencies, decode, writeErrors)
        == SyncAt(fs1, yamlPath, jsonPath, dependencies, decode, writeErrors);
    assert SyncOf(fs2, projectPath, dependencies, decode, writeErrors)
        == SyncAt(fs2, yamlPath, jsonPath, dependencies, decode, writeErrors);
    if SameEntry(fs1, fs2, yamlPath) {
      YamlIndependent(fs1, fs2, yamlPath, jsonPath, dependencies, decode, writeErrors);
    }
    if SameEntry(fs1, fs2, jsonPath) {
      JsonIndependent(fs1, fs2, yamlPath, jsonPath, dependencies, decode, writeErrors);
    }
  }

  lemma YamlIndependent(fs1: FileSystem, fs2: FileSystem, yamlPath: string, jsonPath: string, dependencies: seq<string>,
                        decode: string -> Result<Json, string>, writeErrors: WriteErrors)
    requires SameEntry(fs1, fs2, yamlPath)
    ensures SyncAt(fs1, yamlPath, jsonPath, dependencies, decode, writeErrors).yaml
            == SyncAt(fs2, yamlPath, jsonPath, dependencies, decode, writeErrors).yaml
  {
    assert fs1.Read(yamlPath) == fs2.Read(yamlPath);
  }

  lemma JsonIndependent(fs1: FileSystem, fs2: FileSystem, yamlPath: string, jsonPath: string, dependencies: seq<string>,
                        decode: string -> Result<Json, string>, writeErrors: WriteErrors)
    requires SameEntry(fs1, fs2, jsonPath)
    ensures var r1 := SyncAt(fs1, yamlPath, jsonPath, dependencies, decode, writeErrors);
            var r2 := SyncAt(fs2, yamlPath, jsonPath, dependencies, decode, writeErrors);
            && (r1.Aborted? <==> r2.Aborted?)
            && (r1.SyncResult? ==> r1.json == r2.json)
  {
    assert fs1.Read(jsonPath) == fs2.Read(jsonPath);
  }

  /** The sync panics exactly when a present project.json decodes to
      `null`, after app.yaml has been updated. Otherwise it succeeds
      exactly when some manifest is present and every present one is
      updated; with neither present it reports that; and the error of a
      failed update names the file and carries the update's own error,
      while the other file's update still stands. */
  lemma SyncReportsFailures(fs: FileSystem, projectPath: string, dependencies: seq<string>,
                            decode: string -> Result<Json, string>, writeErrors: WriteErrors)
    ensures var yamlPath := Paths.Join(projectPath, "app.yaml");
            var jsonPath := Paths.Join(projectPath, "project.json");
            var r := SyncOf(fs, projectPath, dependencies, decode, writeErrors);
            var yaml := Written(YamlUpdate(fs, yamlPath, dependencies), yamlPath, writeErrors);
            var json := WrittenJson(JsonUpdate(fs, jsonPath, dependencies, decode), jsonPath, writeErrors);
            && (r.Aborted? <==> fs.Exists(jsonPath) && json.Panicked?)
            && (r.Aborted? ==> r.panic == ProjectJson.NilMapAssignment)
            && (fs.Exists(yamlPath) && yaml.Ok? <==> r.yaml.Some?)
            && (r.SyncResult? ==>
                  && (r.error.None? <==> (fs.Exists(yamlPath) || fs.Exists(jsonPath))
                                         && (fs.Exists(yamlPath) ==> yaml.Ok?)
                                         && (fs.Exists(jsonPath) ==> json.result.Ok?))
                  && (r.error == Some(NoManifest) <==> !fs.Exists(yamlPath) && !fs.Exists(jsonPath))
                  && (fs.Exists(yamlPath) && yaml.Err? ==>
                        r.error.Some? && Contains(r.error.value, "failed to update app.yaml: " + yaml.error))
                  && (fs.Exists(jsonPath) && json.result.Err? ==>
                        r.error.Some? && Contains(r.error.value, "failed to update project.json: " + json.result.error))
                  && (fs.Exists(jsonPath) && json.result.Ok? <==> r.json.Some?))
  {
    var yamlPath := Paths.Join(projectPath, "app.yaml");
    var jsonPath := Paths.Join(projectPath, "project.json");
    assert SyncOf(fs, projectPath, dependencies, decode, writeErrors)
        == SyncAt(fs, yamlPath, jsonPath, dependencies, decode, writeErrors);
    var yaml := Written(YamlUpdate(fs, yamlPath, dependencies), yamlPath, writeErrors);
    var outcome := WrittenJson(JsonUpdate(fs, jsonPath, dependencies, decode), jsonPath, writeErrors);
    if !(fs.Exists(jsonPath) && outcome.Panicked?) {
      var json := ReturnedResult(outcome);
      var first := Failure(fs.Exists(yamlPath), yaml, "failed to update app.yaml: ");
      var second := Failure(fs.Exists(jsonPath), json, "failed to update project.json: ");
      var failures := first + second;
      if failures != [] {
        assert "sync errors: "[0] != NoManifest[0];
        ErrorsListed(first, second);
        if fs.Exists(jsonPath) && json.Err? {
          assert (first + second)[|first|] == "failed to update project.json: " + json.error;
        }
      }
    }
  }

  /** Each of at most two failures is printed in the error. */
  lemma ErrorsListed(first: seq<string>, second: seq<string>)
    requires |first| <= 1 && |second| <= 1
    ensures forall i :: 0 <= i < |first + second| ==>
              Contains("sync errors: " + ErrorList(first + second), (first + second)[i])
  {
    var failures := first + second;
    if |failures| == 2 {
      assert Join(failures, " ") == failures[0] + " " + failures[1];
      var text := "sync errors: " + ErrorList(failures);
      assert text == "sync errors: [" + failures[0] + (" " + failures[1] + "]");
      ContainsMiddle("sync errors: [", failures[0], " " + failures[1] + "]");
      assert text == "sync errors: [" + failures[0] + " " + failures[1] + "]";
      ContainsMiddle("sync errors: [" + failures[0] + " ", failures[1], "]");
    } else if |failures| == 1 {
      assert "sync errors: " + ErrorList(failures) == "sync errors: [" + failures[0] + "]";
      ContainsMiddle("sync errors: [", failures[0], "]");
    }
  }
}
