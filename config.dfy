/** The records the core consumes, as its configuration loaders produce them
    (the YAML and JSON decoding itself is not part of this model), and the
    read-only view of the file system that the scanners and writers see. */
module Config {
  import opened Wrappers

  /** One project's app.yaml, decoded. */
  datatype AppConfig = AppConfig(
    name: string,
    namespace: string,
    description: string,
    dependencies: seq<string>,
    scripts: map<string, bool>,
    tags: seq<string>,
    environment: map<string, string>)

  /** A discovered project: its configuration and its directory. */
  datatype AppProject = AppProject(config: AppConfig, path: string)

  /** A named command template of the workspace configuration. */
  datatype Script = Script(
    command: string,
    description: string,
    workingDir: string,
    environment: map<string, string>)

  /** The workspace configuration (duck.yaml), decoded. */
  datatype ProjectConfig = ProjectConfig(targetDirectory: string, scripts: map<string, Script>)

  /** Projects by project key. */
  type Projects = map<string, AppProject>

  /** A path that `os.Stat` finds, as the program sees it: a file with its
      lines (the text split at "\n"); one that cannot be opened, with the
      reason; or one that opens but whose reading fails, with the reason,
      as a directory does. */
  datatype FileContent =
    | Readable(lines: seq<string>)
    | Unreadable(reason: string)
    | ReadFailure(reason: string)

  /** What `filepath.Walk` hands its callback: a visited path, or an error for
      a path it could not read. */
  datatype WalkEntry =
    | Visit(path: string, isDir: bool)
    | WalkFailure(path: string, permission: bool, reason: string)

  /** A snapshot of the file system: the files that exist (`os.Stat`
      succeeds) with their contents, and for each directory that can be
      walked the sequence of entries `filepath.Walk` visits, in its order. */
  datatype FileSystem = FileSystem(files: map<string, FileContent>, trees: map<string, seq<WalkEntry>>) {

    predicate Exists(path: string) {
      path in files
    }

    /** The error of `os.Open`, if any. */
    function OpenError(path: string): Option<string> {
      if path !in files then Some("open " + path + ": no such file or directory")
      else if files[path].Unreadable? then Some(files[path].reason)
      else None
    }

    /** `os.ReadFile`, as lines: the error of opening or of reading. */
    function Read(path: string): Result<seq<string>, string> {
      if path !in files then Err("open " + path + ": no such file or directory")
      else match files[path]
        case Readable(lines) => Ok(lines)
        case Unreadable(reason) => Err(reason)
        case ReadFailure(reason) => Err(reason)
    }

    /** The entries `filepath.Walk(root, ...)` visits; a root that cannot be
        read yields the single failure Walk reports for it. */
    function Walk(root: string): seq<WalkEntry> {
      if root in trees then trees[root]
      else [WalkFailure(root, false, "lstat " + root + ": no such file or directory")]
    }
  }
}
