/**
 * The records of the kanban board (board configuration, tickets, comments)
 * and the git status and sync reports, with the default configuration and
 * the allow-listed git roots.
 */
module KanbanTypes {
  import opened Wrappers

  datatype Column = Column(id: string, name: string)

  datatype Priority = Priority(id: string, name: string, color: string)

  datatype User = User(id: string, name: string, avatar: Option<string>)

  datatype Board = Board(id: string, name: string, slug: string, columns: seq<Column>)

  datatype Config = Config(boards: seq<Board>, priorities: seq<Priority>, users: seq<User>)

  datatype Comment = Comment(id: string, author: string, text: string, createdAt: string)

  /**
   * A ticket as the server reads it from its Markdown file.  The optional
   * JavaScript properties are `Option`s; `order` is a real number standing
   * for the double the browser computes; `filename` is the internal
   * `_filename` property.
   */
  datatype Ticket = Ticket(
    id: string,
    board: string,
    title: string,
    status: string,
    owner: Option<string>,
    priority: Option<string>,
    order: Option<real>,
    createdAt: string,
    updatedAt: string,
    body: Option<string>,
    comments: Option<seq<Comment>>,
    filename: Option<string>)

  /** The kinds a changed file can be reported with. */
  datatype FileKind = Modified | Added | Deleted | Untracked | Staged

  datatype GitFileStatus = GitFileStatus(path: string, kind: FileKind)

  datatype GitStatus = GitStatus(
    branch: string,
    ahead: nat,
    behind: nat,
    modified: nat,
    untracked: nat,
    staged: nat,
    hasChanges: bool,
    files: seq<GitFileStatus>)

  datatype SyncResult = SyncResult(
    success: bool,
    message: string,
    pulled: bool,
    committed: bool,
    pushed: bool,
    error: Option<string>)

  /** The four columns a board gets when none are given. */
  const DefaultColumns: seq<Column> := [
    Column("backlog", "Backlog"),
    Column("in-progress", "In Progress"),
    Column("review", "Review"),
    Column("done", "Done")
  ]

  const DefaultConfig: Config := Config(
    [Board("board_1", "Main", "main", DefaultColumns)],
    [
      Priority("critical", "Critical", "#ef4444"),
      Priority("high", "High", "#f97316"),
      Priority("medium", "Medium", "#eab308"),
      Priority("low", "Low", "#3b82f6")
    ],
    [User("user_1", "Justin", None)])

  /** The repository roots the sync engine stages and reports on. */
  const TrackedPaths: seq<string> := [".kanban", "tickets"]
}
