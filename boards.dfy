/**
 * The board configuration store: reading the configuration file (falling
 * back to the built-in configuration), validating before every write, and the
 * read-modify-write operations on boards, priorities and users.
 */
module Boards {
  import opened Wrappers
  import opened KanbanTypes
  import opened Schemas
  import opened FileStore

  /** `readConfig`: the file's configuration when it is there and valid, the built-in one otherwise. */
  function ReadConfig(disk: Disk): (c: Config)
    ensures ConfigValid(c)
    ensures disk.config.Json? && ConfigValid(disk.config.config) ==> c == disk.config.config
    ensures !(disk.config.Json? && ConfigValid(disk.config.config)) ==> c == DefaultConfig
  {
    DefaultConfigValid();
    if disk.config.Json? && ConfigValid(disk.config.config) then disk.config.config else DefaultConfig
  }

  /** `writeConfig`: the schema check, then the file is replaced. */
  function WriteConfig(disk: Disk, c: Config): (r: Outcome<Disk>)
    ensures r.Done? <==> ConfigValid(c)
    ensures r.Done? ==> r.value.dirs == disk.dirs
  {
    if ConfigValid(c) then Done(disk.(config := Json(c))) else Threw(ValidationError)
  }

  /** What is written is what is read back. */
  lemma ReadAfterWrite(disk: Disk, c: Config)
    requires WriteConfig(disk, c).Done?
    ensures ReadConfig(WriteConfig(disk, c).value) == c
  {
  }

  /**
   * `initializeConfig`: an absent file is created with the built-in
   * configuration (and the default board's ticket directory); an existing
   * file, even an unreadable one, is only read.
   */
  function InitializeConfig(disk: Disk): (r: (Config, Disk))
    ensures disk.config.Missing? ==> r.1.config == Json(DefaultConfig) && "main" in r.1.dirs
    ensures !disk.config.Missing? ==> r.1 == disk
  {
    if disk.config.Missing? then
      DefaultConfigValid();
      (DefaultConfig, EnsureTicketsDir(WriteConfig(disk, DefaultConfig).value, "main"))
    else (ReadConfig(disk), disk)
  }

  /** The configuration `initializeConfig` returns is the one every later read sees, and it is valid. */
  lemma InitializeThenRead(disk: Disk)
    ensures var r := InitializeConfig(disk); ReadConfig(r.1) == r.0 && ConfigValid(r.0)
  {
    DefaultConfigValid();
  }

  /** `boards.find(b => b.slug === slug)`. */
  function FindBySlug(boards: seq<Board>, slug: string): (r: Option<Board>)
    ensures r.None? <==> forall i :: 0 <= i < |boards| ==> boards[i].slug != slug
    ensures r.Some? ==> r.value in boards && r.value.slug == slug
  {
    if boards == [] then None
    else if boards[0].slug == slug then Some(boards[0])
    else FindBySlug(boards[1..], slug)
  }

  /** `find` returns the first board with the slug. */
  lemma {:induction false} FindBySlugFirst(boards: seq<Board>, slug: string, i: nat)
    requires i < |boards| && boards[i].slug == slug
    requires forall k :: 0 <= k < i ==> boards[k].slug != slug
    ensures FindBySlug(boards, slug) == Some(boards[i])
    decreases i
  {
    if i > 0 {
      FindBySlugFirst(boards[1..], slug, i - 1);
    }
  }

  /** `boards.findIndex(b => b.id === id)`: the first index, or -1. */
  function IndexOfId(boards: seq<Board>, id: string): (i: int)
    ensures -1 <= i < |boards|
    ensures i == -1 <==> forall k :: 0 <= k < |boards| ==> boards[k].id != id
    ensures i >= 0 ==> boards[i].id == id && forall k :: 0 <= k < i ==> boards[k].id != id
  {
    if boards == [] then -1
    else if boards[0].id == id then 0
    else
      var j := IndexOfId(boards[1..], id);
      if j == -1 then -1 else j + 1
  }

  /** `getBoardBySlug`. */
  function BoardBySlug(disk: Disk, slug: string): Option<Board> {
    FindBySlug(ReadConfig(disk).boards, slug)
  }

  function SlugTakenMessage(slug: string): string {
    "Board with slug \"" + slug + "\" already exists"
  }

  function BoardIdNotFoundMessage(id: string): string {
    "Board with id \"" + id + "\" not found"
  }

  /**
   * `createBoard`: refuses a slug already in use, appends the new board
   * (with the four default columns when none are given), writes the
   * configuration and creates the board's ticket directory.  `boardId` is the
   * clock-derived `board_<ms>` id.
   */
  method CreateBoard(disk: Disk, name: string, slug: string, columns: Option<seq<Column>>, boardId: string)
    returns (disk': Disk, out: Outcome<Board>)
    ensures var before := ReadConfig(disk); var board := Board(boardId, name, slug, columns.GetOr(DefaultColumns));
      && (FindBySlug(before.boards, slug).Some? ==> out == Threw(Thrown(SlugTakenMessage(slug))))
      && (FindBySlug(before.boards, slug).None? && !BoardValid(board) ==> out == Threw(ValidationError))
      && (out.Threw? ==> disk' == disk)
      && (out.Done? ==>
            && out.value == board
            && ReadConfig(disk') == before.(boards := before.boards + [board])
            && slug in disk'.dirs
            && (forall s :: s in disk.dirs ==> s in disk'.dirs && disk'.dirs[s] == disk.dirs[s]))
      && (out.Done? <==> FindBySlug(before.boards, slug).None? && BoardValid(board))
  {
    var config := ReadConfig(disk);
    if FindBySlug(config.boards, slug).Some? {
      return disk, Threw(Thrown(SlugTakenMessage(slug)));
    }
    var board := Board(boardId, name, slug, if columns.Some? then columns.value else DefaultColumns);
    AppendBoardValid(config, board);
    config := config.(boards := config.boards + [board]);
    var written := WriteConfig(disk, config);
    if written.Threw? {
      return disk, Threw(written.failure);
    }
    disk' := EnsureTicketsDir(written.value, slug);
    out := Done(board);
  }

  /** The board after an update: a non-empty name and any given column list replace the old ones. */
  function Updated(board: Board, name: Option<string>, columns: Option<seq<Column>>): Board {
    board.(name := if name.Some? && name.value != "" then name.value else board.name,
           columns := columns.GetOr(board.columns))
  }

  /**
   * `updateBoard`: an unknown id is refused; otherwise the first board with
   * that id is updated in place and the configuration written.
   */
  function UpdateBoardSpec(disk: Disk, id: string, name: Option<string>, columns: Option<seq<Column>>): (r: (Disk, Outcome<Board>))
    ensures var before := ReadConfig(disk); var i := IndexOfId(before.boards, id);
      && (i == -1 ==> r == (disk, Threw(Thrown(BoardIdNotFoundMessage(id)))))
      && (i >= 0 ==>
            var board := Updated(before.boards[i], name, columns);
            && (BoardValid(board) ==>
                  r.1 == Done(board) && ReadConfig(r.0) == before.(boards := before.boards[i := board]) && r.0.dirs == disk.dirs)
            && (!BoardValid(board) ==> r == (disk, Threw(ValidationError))))
  {
    var config := ReadConfig(disk);
    var i := IndexOfId(config.boards, id);
    if i == -1 then (disk, Threw(Thrown(BoardIdNotFoundMessage(id))))
    else
      var board := Updated(config.boards[i], name, columns);
      ReplaceBoardValid(config, i, board);
      var written := WriteConfig(disk, config.(boards := config.boards[i := board]));
      if written.Threw? then (disk, Threw(written.failure)) else (written.value, Done(board))
  }

  /** `updateBoard` as the source writes it: the fields of the found board are assigned one by one. */
  method UpdateBoard(disk: Disk, id: string, name: Option<string>, columns: Option<seq<Column>>)
    returns (disk': Disk, out: Outcome<Board>)
    ensures (disk', out) == UpdateBoardSpec(disk, id, name, columns)
  {
    var config := ReadConfig(disk);
    var i := IndexOfId(config.boards, id);
    if i == -1 {
      return disk, Threw(Thrown(BoardIdNotFoundMessage(id)));
    }
    var board := config.boards[i];
    if name.Some? && name.value != "" {
      board := board.(name := name.value);
    }
    if columns.Some? {
      board := board.(columns := columns.value);
    }
    config := config.(boards := config.boards[i := board]);
    var written := WriteConfig(disk, config);
    if written.Threw? {
      return disk, Threw(written.failure);
    }
    disk', out := written.value, Done(board);
  }

  /**
   * `deleteBoard`: removes the first board with that id; the write cannot be
   * refused, since the rest of a valid configuration is valid.  The ticket
   * directory is kept.
   */
  method DeleteBoard(disk: Disk, id: string) returns (disk': Disk, out: Outcome<()>)
    ensures var before := ReadConfig(disk); var i := IndexOfId(before.boards, id);
      && (i == -1 ==> out == Threw(Thrown(BoardIdNotFoundMessage(id))) && disk' == disk)
      && (i >= 0 ==>
            out == Done(()) && disk'.dirs == disk.dirs &&
            ReadConfig(disk') == before.(boards := before.boards[..i] + before.boards[i + 1..]))
  {
    var config := ReadConfig(disk);
    var i := IndexOfId(config.boards, id);
    if i == -1 {
      return disk, Threw(Thrown(BoardIdNotFoundMessage(id)));
    }
    RemoveBoardValid(config, i);
    config := config.(boards := config.boards[..i] + config.boards[i + 1..]);
    var written := WriteConfig(disk, config);
    disk', out := written.value, Done(());
  }

  /** `updatePriorities`: replaces the priority list only. */
  method UpdatePriorities(disk: Disk, priorities: seq<Priority>) returns (disk': Disk, out: Outcome<()>)
    ensures var before := ReadConfig(disk);
      && (out.Done? <==> PrioritiesValid(priorities))
      && (out.Done? ==> ReadConfig(disk') == before.(priorities := priorities) && disk'.dirs == disk.dirs)
      && (out.Threw? ==> out.failure == ValidationError && disk' == disk)
  {
    var config := ReadConfig(disk);
    config := config.(priorities := priorities);
    var written := WriteConfig(disk, config);
    if written.Threw? {
      return disk, Threw(written.failure);
    }
    disk', out := written.value, Done(());
  }

  /** `updateUsers`: replaces the user list only. */
  method UpdateUsers(disk: Disk, users: seq<User>) returns (disk': Disk, out: Outcome<()>)
    ensures var before := ReadConfig(disk);
      && (out.Done? <==> UsersValid(users))
      && (out.Done? ==> ReadConfig(disk') == before.(users := users) && disk'.dirs == disk.dirs)
      && (out.Threw? ==> out.failure == ValidationError && disk' == disk)
  {
    var config := ReadConfig(disk);
    config := config.(users := users);
    var written := WriteConfig(disk, config);
    if written.Threw? {
      return disk, Threw(written.failure);
    }
    disk', out := written.value, Done(());
  }
}
