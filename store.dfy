/**
 * The working tree the server reads and writes: the board configuration file
 * `.kanban/config.json` and one directory of Markdown ticket files per board
 * under `tickets/`.  A ticket file is held as its parsed front matter (a
 * key-to-value map) and its body text; the listing order of a directory is
 * whatever the file system returns, given as a `Lister`.
 */
module FileStore {
  import opened Wrappers
  import opened KanbanTypes

  /** The content of the configuration file. */
  datatype ConfigFile =
    | Missing                // no file
    | Garbage                // not JSON, or JSON of the wrong shape
    | Json(config: Config)   // JSON of the configuration's shape, valid or not

  /** A front-matter value: a YAML string, number or list of comments. */
  datatype FrontValue = Text(text: string) | Number(number: real) | Comments(comments: seq<Comment>)

  /**
   * The front matter of a ticket file as the keys the server reads, each of
   * which may be absent; other keys are never read.
   */
  datatype FrontMatter = FrontMatter(
    id: Option<FrontValue>, board: Option<FrontValue>, title: Option<FrontValue>, status: Option<FrontValue>,
    owner: Option<FrontValue>, priority: Option<FrontValue>, order: Option<FrontValue>,
    createdAt: Option<FrontValue>, updatedAt: Option<FrontValue>, comments: Option<FrontValue>)

  const NoFrontMatter := FrontMatter(None, None, None, None, None, None, None, None, None, None)

  /** A file in a board's ticket directory: unreadable or malformed, or front matter and body. */
  datatype Doc = Malformed | Doc(front: FrontMatter, body: string)

  type Dir = map<string, Doc>

  datatype Disk = Disk(config: ConfigFile, dirs: map<string, Dir>)

  /** The file system's listing order of a directory. */
  type Lister = Dir -> seq<string>

  /** A lister that returns every name of the directory exactly once. */
  ghost predicate ListsExactly(lister: Lister) {
    forall d: Dir :: (forall f :: f in lister(d) <==> f in d) && NoDuplicates(lister(d))
  }

  predicate NoDuplicates<T(==)>(s: seq<T>) {
    forall i, j :: 0 <= i < j < |s| ==> s[i] != s[j]
  }

  /** Why an operation stopped: a schema rejected a value, or an `Error` was thrown with a message. */
  datatype Failure = ValidationError | Thrown(message: string)

  /** The outcome of an asynchronous server operation: its value, or the failure it rejected with. */
  datatype Outcome<+T> = Done(value: T) | Threw(failure: Failure)

  /** `mkdir -p tickets/<slug>`: an existing directory is kept as it is. */
  function EnsureTicketsDir(disk: Disk, slug: string): (d: Disk)
    ensures slug in d.dirs && d.config == disk.config
    ensures forall s :: s in disk.dirs ==> s in d.dirs && d.dirs[s] == disk.dirs[s]
    ensures forall s :: s in d.dirs ==> s in disk.dirs || s == slug
    ensures slug !in disk.dirs ==> d.dirs[slug] == map[]
  {
    if slug in disk.dirs then disk else disk.(dirs := disk.dirs[slug := map[]])
  }
}
