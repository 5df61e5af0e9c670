/**
 * The `/api/boards` route: `GET` returns the configuration (creating it on
 * first use); `POST` dispatches on the body's `action` to board creation,
 * board update (re-homing the tickets of removed columns), board deletion
 * and the settings update, and maps failures to status codes (a schema
 * rejection to 400, any other error to 500).
 */
module BoardsRoute {
  import opened Wrappers
  import opened Text
  import opened KanbanTypes
  import opened Schemas
  import opened FileStore
  import opened Boards
  import opened Tickets

  /** The JSON bodies the route answers with. */
  datatype Body =
    | ConfigJson(config: Config)
    | BoardJson(board: Board)
    | SuccessJson                // `{ success: true }`
    | ErrorJson(error: string)   // `{ error: <message> }`
    | ValidationErrorJson        // `{ error: 'Validation error', details }`

  datatype Response = Response(status: int, body: Body)

  /**
   * A `POST` body.  `Unshaped(action)` is a JSON body whose fields do not
   * have the types the action's schema wants (or whose action is unknown);
   * `NotJson` is a body that does not parse, or one that parses to
   * `null` so that reading its `action` throws a `TypeError`, with the
   * thrown error's message: both reach the catch as a non-validation error.
   */
  datatype Request =
    | Create(create: CreateBoardInput)
    | Update(update: UpdateBoardInput)
    | Delete(id: string)
    | UpdateSettings(settings: UpdateConfigInput)
    | Unshaped(action: string)
    | NotJson(message: string)

  const KnownActions: set<string> := {"create", "update", "delete", "updateConfig"}

  const ValidationFailed := Response(400, ValidationErrorJson)
  const BoardNotFound := Response(404, ErrorJson("Board not found"))
  const InvalidAction := Response(400, ErrorJson("Invalid action"))

  /** The `catch` block: a `ZodError` is a 400, anything else a 500 carrying its message. */
  function FailureResponse(f: Failure): (r: Response)
    ensures r.status == 400 <==> f.ValidationError?
    ensures r.status == 500 <==> f.Thrown?
    ensures f.Thrown? ==> r.body == ErrorJson(f.message)
  {
    match f
    case ValidationError => ValidationFailed
    case Thrown(message) => Response(500, ErrorJson(message))
  }

  /** `GET`: the configuration `initializeConfig` returns. */
  function Get(disk: Disk): (r: (Disk, Response))
    ensures r.1 == Response(200, ConfigJson(ReadConfig(r.0)))
    ensures ConfigValid(r.1.body.config)
    ensures !disk.config.Missing? ==> r.0 == disk
  {
    var init := InitializeConfig(disk);
    InitializeThenRead(disk);
    (init.1, Response(200, ConfigJson(init.0)))
  }

  /**
   * The slug of a board created without one: the lower-cased name with every
   * run of other characters turned into `-`.  For a non-empty name it passes
   * the slug schema, though it may start or end with `-`.
   */
  function DefaultSlug(name: string): (r: string)
    ensures name != "" ==> SlugValid(r)
    ensures |r| <= |name|
  {
    DashRuns(Lower(name))
  }

  /** Unlike the ticket slug, the default board slug keeps leading and trailing dashes. */
  lemma DefaultSlugKeepsEdgeDashes()
    ensures DefaultSlug("A!") == "a-"
    ensures DefaultSlug("!a") == "-a"
  {
    assert Lower("A!") == "a!";
    assert "a!"[1..] == "!" && "!"[1..] == [];
    assert !IsLowerAlnum('!') && IsLowerAlnum('a');
    assert SkipRun([]) == [];
    assert SkipRun("!") == SkipRun([]);
    assert DashRuns("!") == "-";
    assert Lower("!a") == "!a";
    assert "!a"[1..] == "a" && "a"[1..] == [];
    assert SkipRun("a") == "a";
    assert SkipRun("!a") == SkipRun("a");
    assert DashRuns("a") == "a";
  }

  /** The slug a creation request ends up with: its own when given and non-empty. */
  function SlugFor(data: CreateBoardInput): string {
    if data.slug.Some? && data.slug.value != "" then data.slug.value else DefaultSlug(data.name)
  }

  /** What the `create` action does to the store and answers. */
  ghost predicate CreateHandled(disk: Disk, data: CreateBoardInput, boardId: string, disk': Disk, resp: Response) {
    var slug := SlugFor(data);
    var before := ReadConfig(disk);
    var board := Board(boardId, data.name, slug, data.columns.GetOr(DefaultColumns));
    && (!CreateBoardValid(data) ==> disk' == disk && resp == ValidationFailed)
    && (CreateBoardValid(data) && FindBySlug(before.boards, slug).Some? ==>
          disk' == disk && resp == Response(500, ErrorJson(SlugTakenMessage(slug))))
    && (CreateBoardValid(data) && FindBySlug(before.boards, slug).None? && !BoardValid(board) ==>
          disk' == disk && resp == ValidationFailed)
    && (CreateBoardValid(data) && FindBySlug(before.boards, slug).None? && BoardValid(board) ==>
          && resp == Response(200, BoardJson(board))
          && ReadConfig(disk') == before.(boards := before.boards + [board])
          && slug in disk'.dirs
          && forall s :: s in disk.dirs ==> s in disk'.dirs && disk'.dirs[s] == disk.dirs[s])
  }

  /** The `create` action: parse, default the slug, create the board. */
  method HandleCreate(disk: Disk, data: CreateBoardInput, boardId: string) returns (disk': Disk, resp: Response)
    ensures CreateHandled(disk, data, boardId, disk', resp)
  {
    if !CreateBoardValid(data) {
      return disk, ValidationFailed;
    }
    var slug := if data.slug.Some? && data.slug.value != "" then data.slug.value else DefaultSlug(data.name);
    var out;
    disk', out := CreateBoard(disk, data.name, slug, data.columns, boardId);
    if out.Threw? {
      return disk', FailureResponse(out.failure);
    }
    resp := Response(200, BoardJson(out.value));
  }

  /** A valid creation request without a slug never fails the slug schema; it fails only on a taken slug or empty columns. */
  lemma CreateWithoutSlug(disk: Disk, data: CreateBoardInput, boardId: string)
    requires CreateBoardValid(data) && data.slug.None?
    ensures var board := Board(boardId, data.name, SlugFor(data), data.columns.GetOr(DefaultColumns));
      BoardValid(board) <==> boardId != "" && |data.columns.GetOr(DefaultColumns)| >= 1
  {
    var cols := data.columns.GetOr(DefaultColumns);
    assert SlugFor(data) == DefaultSlug(data.name);
    if data.columns.None? {
      assert ColumnsValid(DefaultColumns) by {
        forall i | 0 <= i < |DefaultColumns| ensures ColumnValid(DefaultColumns[i]) {
          assert i == 0 || i == 1 || i == 2 || i == 3;
        }
      }
    }
    assert ColumnsValid(cols);
  }

  /** The columns of the existing board whose id the new column list no longer has. */
  function RemovedColumns(existing: seq<Column>, columns: seq<Column>): (r: seq<Column>)
    ensures forall c :: c in r <==> c in existing && !HasColumn(columns, c.id)
    ensures |r| <= |existing|
  {
    if existing == [] then []
    else (if HasColumn(columns, existing[0].id) then [] else [existing[0]]) + RemovedColumns(existing[1..], columns)
  }

  /** The loop that moves the tickets of each removed column, in order, to `to`; the first failure stops it. */
  function RehomeSpec(disk: Disk, lister: Lister, slug: string, removed: seq<Column>, to: string, now: string): (r: (Disk, Outcome<()>))
    ensures r.1.Threw? ==> r.1.failure.Thrown?
    decreases |removed|
  {
    if removed == [] then (disk, Done(()))
    else
      var moved := MoveTicketsSpec(disk, lister, slug, removed[0].id, to, now);
      if moved.1.Threw? then moved
      else RehomeSpec(moved.0, lister, slug, removed[1..], to, now)
  }

  /** The re-homing loop as the route writes it: `if (firstColumn)` is checked on every pass. */
  method Rehome(disk: Disk, lister: Lister, slug: string, removed: seq<Column>, columns: seq<Column>, now: string)
    returns (disk': Disk, out: Outcome<()>)
    ensures columns != [] ==> (disk', out) == RehomeSpec(disk, lister, slug, removed, columns[0].id, now)
    ensures columns == [] ==> (disk', out) == (disk, Done(()))
  {
    disk' := disk;
    for k := 0 to |removed|
      invariant columns != [] ==> RehomeSpec(disk', lister, slug, removed[k..], columns[0].id, now) == RehomeSpec(disk, lister, slug, removed, columns[0].id, now)
      invariant columns == [] ==> disk' == disk
    {
      if columns != [] {
        var moved;
        disk', moved := MoveTicketsToColumn(disk', lister, slug, removed[k].id, columns[0].id, now);
        if moved.Threw? {
          return disk', moved;
        }
        assert removed[k..][1..] == removed[k + 1..];
      }
    }
    out := Done(());
  }

  /** The moves an update asks for: none without a non-empty new column list. */
  function Moves(disk: Disk, lister: Lister, existing: Board, columns: Option<seq<Column>>, now: string): (Disk, Outcome<()>) {
    if columns.Some? && columns.value != [] then
      RehomeSpec(disk, lister, existing.slug, RemovedColumns(existing.columns, columns.value), columns.value[0].id, now)
    else (disk, Done(()))
  }

  lemma {:induction false} RehomeKeepsConfig(disk: Disk, lister: Lister, slug: string, removed: seq<Column>, to: string, now: string)
    ensures RehomeSpec(disk, lister, slug, removed, to, now).0.config == disk.config
    decreases |removed|
  {
    if removed != [] {
      var moved := MoveTicketsSpec(disk, lister, slug, removed[0].id, to, now);
      MoveTicketsKeepsConfig(disk, lister, slug, removed[0].id, to, now);
      RehomeKeepsConfig(moved.0, lister, slug, removed[1..], to, now);
    }
  }

  /** Re-homing tickets never changes the configuration, whether it succeeds or not. */
  lemma MovesKeepConfig(disk: Disk, lister: Lister, existing: Board, columns: Option<seq<Column>>, now: string)
    ensures Moves(disk, lister, existing, columns, now).0.config == disk.config
  {
    if columns.Some? && columns.value != [] {
      RehomeKeepsConfig(disk, lister, existing.slug, RemovedColumns(existing.columns, columns.value), columns.value[0].id, now);
    }
  }

  /** One pass of the re-homing loop. */
  lemma RehomeUnfold(disk: Disk, lister: Lister, slug: string, removed: seq<Column>, to: string, now: string)
    requires removed != []
    ensures var moved := MoveTicketsSpec(disk, lister, slug, removed[0].id, to, now);
      RehomeSpec(disk, lister, slug, removed, to, now)
        == if moved.1.Threw? then moved else RehomeSpec(moved.0, lister, slug, removed[1..], to, now)
  {
  }

  /** The board `slug` lists at least one ticket with `status`. */
  predicate HasTicketIn(disk: Disk, lister: Lister, slug: string, status: string) {
    TicketsForBoard(disk, lister, slug).1.Done? && WithStatus(TicketsForBoard(disk, lister, slug).1.value, status) != []
  }

  /**
   * Re-homing to a status the board does not have fails at the first removed
   * column that holds a ticket, and leaves the store as it was.
   */
  lemma {:induction false} RehomeRejected(disk: Disk, lister: Lister, slug: string, removed: seq<Column>, to: string, now: string, j: nat)
    requires BoardBySlug(disk, slug).Some? && to != "" && !HasColumn(BoardBySlug(disk, slug).value.columns, to)
    requires j < |removed| && HasTicketIn(disk, lister, slug, removed[j].id)
    ensures RehomeSpec(disk, lister, slug, removed, to, now) == (disk, Threw(Thrown(InvalidStatusMessage(to, slug))))
    decreases j
  {
    HasTicketNeedsDir(disk, lister, slug, removed[j].id);
    RehomeUnfold(disk, lister, slug, removed, to, now);
    if HasTicketIn(disk, lister, slug, removed[0].id) {
      MoveRejectsUnknownTarget(disk, lister, slug, removed[0].id, to, now);
    } else {
      MoveNothingToMove(disk, lister, slug, removed[0].id, to, now);
      assert removed[1..][j - 1] == removed[j];
      RehomeRejected(disk, lister, slug, removed[1..], to, now, j - 1);
    }
  }

  /** Re-homing into a column of the board succeeds on a well-kept directory read in full. */
  lemma {:induction false} RehomeSucceeds(disk: Disk, lister: Lister, slug: string, removed: seq<Column>, to: string, now: string)
    requires ListsExactly(lister) && BoardBySlug(disk, slug).Some? && KeptBoard(disk, slug)
    requires to == "" || HasColumn(BoardBySlug(disk, slug).value.columns, to)
    ensures RehomeSpec(disk, lister, slug, removed, to, now).1.Done?
    decreases |removed|
  {
    if removed != [] {
      var moved := MoveTicketsSpec(disk, lister, slug, removed[0].id, to, now);
      MoveTicketsSucceeds(disk, lister, slug, removed[0].id, to, now);
      MoveTicketsKeepsWellKept(disk, lister, slug, removed[0].id, to, now);
      MoveTicketsKeepsConfig(disk, lister, slug, removed[0].id, to, now);
      assert BoardBySlug(moved.0, slug) == BoardBySlug(disk, slug);
      RehomeSucceeds(moved.0, lister, slug, removed[1..], to, now);
    }
  }

  /** A successful re-homing keeps every ticket already landed in `to` there. */
  lemma {:induction false} RehomeKeepsLanded(disk: Disk, lister: Lister, slug: string, removed: seq<Column>, to: string, now: string, a: string)
    requires RehomeSpec(disk, lister, slug, removed, to, now).1.Done? && KeptBoard(disk, slug)
    requires Landed(disk, slug, a, to)
    ensures Landed(RehomeSpec(disk, lister, slug, removed, to, now).0, slug, a, to)
    decreases |removed|
  {
    if removed != [] {
      var moved := MoveTicketsSpec(disk, lister, slug, removed[0].id, to, now);
      RehomeUnfold(disk, lister, slug, removed, to, now);
      MoveTicketsKeepsLanded(disk, lister, slug, removed[0].id, to, now, a);
      MoveTicketsKeepsWellKept(disk, lister, slug, removed[0].id, to, now);
      RehomeKeepsLanded(moved.0, lister, slug, removed[1..], to, now, a);
    }
  }

  /**
   * One ticket of the route's re-homing: a listed ticket in the `k`-th
   * removed column ends in a file with status `to`.
   */
  lemma {:induction false} RehomeLandsTicket(disk: Disk, lister: Lister, slug: string, removed: seq<Column>, to: string, now: string,
                                              t: Ticket, k: nat)
    requires RehomeSpec(disk, lister, slug, removed, to, now).1.Done?
    requires ListsExactly(lister) && BoardBySlug(disk, slug).Some? && KeptBoard(disk, slug)
    requires k < |removed| && t in TicketsForBoard(disk, lister, slug).1.value && t.status == removed[k].id
    ensures Landed(RehomeSpec(disk, lister, slug, removed, to, now).0, slug, t.id, to)
    decreases k
  {
    var from := removed[0].id;
    var moved := MoveTicketsSpec(disk, lister, slug, from, to, now);
    RehomeUnfold(disk, lister, slug, removed, to, now);
    ListedTicket(disk, lister, slug, t);
    if t.status == from {
      ListedGenerated(disk, lister, slug);
      MoveTicketsKeepsWellKept(disk, lister, slug, from, to, now);
      MoveTicketsLands(disk, lister, slug, from, to, now);
      RehomeKeepsLanded(moved.0, lister, slug, removed[1..], to, now, t.id);
    } else {
      var f := TicketFilename(t.id, t.title);
      MoveTicketsKeepsOtherStatus(disk, lister, slug, from, to, now, t.id, t.title);
      TicketsForBoardComplete(moved.0, lister, slug, f);
      assert FileTicket(moved.0.dirs[slug], f) == t;
      assert removed[1..][k - 1] == removed[k];
      RehomeLandsTicket(moved.0, lister, slug, removed[1..], to, now, t, k - 1);
    }
  }

  /**
   * The route's re-homing promise: when it succeeds, every listed ticket of
   * every removed column ends in a file with status `to`.
   */
  lemma RehomeLands(disk: Disk, lister: Lister, slug: string, removed: seq<Column>, to: string, now: string)
    requires RehomeSpec(disk, lister, slug, removed, to, now).1.Done?
    requires ListsExactly(lister) && BoardBySlug(disk, slug).Some? && KeptBoard(disk, slug)
    ensures forall c, t :: c in removed && t in TicketsForBoard(disk, lister, slug).1.value && t.status == c.id ==>
      Landed(RehomeSpec(disk, lister, slug, removed, to, now).0, slug, t.id, to)
  {
    forall c, t | c in removed && t in TicketsForBoard(disk, lister, slug).1.value && t.status == c.id
      ensures Landed(RehomeSpec(disk, lister, slug, removed, to, now).0, slug, t.id, to)
    {
      var k :| 0 <= k < |removed| && removed[k] == c;
      RehomeLandsTicket(disk, lister, slug, removed, to, now, t, k);
    }
  }

  /** A successful re-homing leaves the file of every ticket outside the removed columns exactly as it was. */
  lemma {:induction false} RehomeKeepsOthers(disk: Disk, lister: Lister, slug: string, removed: seq<Column>, to: string, now: string,
                                              a: string, x: string)
    requires RehomeSpec(disk, lister, slug, removed, to, now).1.Done?
    requires BoardBySlug(disk, slug).Some? && KeptBoard(disk, slug) && HoldsTicket(disk, slug, a, x)
    requires !HasColumn(removed, FileTicket(disk.dirs[slug], TicketFilename(a, x)).status)
    ensures var d := RehomeSpec(disk, lister, slug, removed, to, now).0;
      HoldsTicket(d, slug, a, x) && d.dirs[slug][TicketFilename(a, x)] == disk.dirs[slug][TicketFilename(a, x)]
    decreases |removed|
  {
    if removed != [] {
      var from := removed[0].id;
      var moved := MoveTicketsSpec(disk, lister, slug, from, to, now);
      var status := FileTicket(disk.dirs[slug], TicketFilename(a, x)).status;
      RehomeUnfold(disk, lister, slug, removed, to, now);
      assert status != from;
      MoveTicketsKeepsOtherStatus(disk, lister, slug, from, to, now, a, x);
      assert HasColumn(removed[1..], status) ==> HasColumn(removed, status);
      RehomeKeepsOthers(moved.0, lister, slug, removed[1..], to, now, a, x);
    }
  }

  /** A board with a ticket in some column has its ticket directory. */
  lemma HasTicketNeedsDir(disk: Disk, lister: Lister, slug: string, status: string)
    requires HasTicketIn(disk, lister, slug, status)
    ensures slug in disk.dirs
  {
    var listed := TicketsForBoard(disk, lister, slug).1.value;
    assert WithStatus(listed, status)[0] in listed;
    ListedNeedsDir(disk, lister, slug);
  }

  /** A board outcome as a response. */
  function BoardResponse(out: Outcome<Board>): Response {
    if out.Threw? then FailureResponse(out.failure) else Response(200, BoardJson(out.value))
  }

  /**
   * The `update` action as the route writes it: the tickets of removed
   * columns are moved to the first new column BEFORE the board is written,
   * so the move is checked against the old column list.
   */
  function UpdateAsWritten(disk: Disk, lister: Lister, data: UpdateBoardInput, now: string): (r: (Disk, Response))
    ensures !UpdateBoardValid(data) ==> r == (disk, ValidationFailed)
    ensures UpdateBoardValid(data) && IndexOfId(ReadConfig(disk).boards, data.id) == -1 ==> r == (disk, BoardNotFound)
    ensures (&& UpdateBoardValid(data) && IndexOfId(ReadConfig(disk).boards, data.id) >= 0
             && Moves(disk, lister, ReadConfig(disk).boards[IndexOfId(ReadConfig(disk).boards, data.id)], data.columns, now).1.Threw?)
      ==> ReadConfig(r.0) == ReadConfig(disk) && r.1.status == 500
  {
    if !UpdateBoardValid(data) then (disk, ValidationFailed)
    else
      var config := ReadConfig(disk);
      var i := IndexOfId(config.boards, data.id);
      if i == -1 then (disk, BoardNotFound)
      else
        var moved := Moves(disk, lister, config.boards[i], data.columns, now);
        MovesKeepConfig(disk, lister, config.boards[i], data.columns, now);
        if moved.1.Threw? then (moved.0, FailureResponse(moved.1.failure))
        else
          var updated := UpdateBoardSpec(moved.0, data.id, data.name, data.columns);
          (updated.0, BoardResponse(updated.1))
  }

  /**
   * The scenario the ordering breaks: the new first column is a new column and
   * a removed column holds a ticket.  The request answers 500 and neither the
   * board nor any ticket changes.
   */
  lemma UpdateAsWrittenRejectsNewFirstColumn(disk: Disk, lister: Lister, data: UpdateBoardInput, now: string, j: nat)
    requires UpdateBoardValid(data) && data.columns.Some? && data.columns.value != []
    requires IndexOfId(ReadConfig(disk).boards, data.id) >= 0
    requires var existing := ReadConfig(disk).boards[IndexOfId(ReadConfig(disk).boards, data.id)];
      && BoardBySlug(disk, existing.slug) == Some(existing)
      && !HasColumn(existing.columns, data.columns.value[0].id)
      && j < |existing.columns| && !HasColumn(data.columns.value, existing.columns[j].id)
      && HasTicketIn(disk, lister, existing.slug, existing.columns[j].id)
    ensures var existing := ReadConfig(disk).boards[IndexOfId(ReadConfig(disk).boards, data.id)];
      UpdateAsWritten(disk, lister, data, now) == (disk, Response(500, ErrorJson(InvalidStatusMessage(data.columns.value[0].id, existing.slug))))
  {
    var config := ReadConfig(disk);
    var existing := config.boards[IndexOfId(config.boards, data.id)];
    var cols := data.columns.value;
    var removed := RemovedColumns(existing.columns, cols);
    assert existing.columns[j] in removed;
    var k :| 0 <= k < |removed| && removed[k] == existing.columns[j];
    assert ColumnValid(cols[0]);
    RehomeRejected(disk, lister, existing.slug, removed, cols[0].id, now, k);
  }

  /** A one-board store whose `todo` column holds one ticket. */
  const ExampleBoard := Board("b1", "Board", "b", [Column("todo", "To do")])
  const ExampleDisk := Disk(Json(Config([ExampleBoard], [], [])),
    map["b" := map["t1-x.md" := Doc(NoFrontMatter.(status := Some(Text("todo"))), "")]])
  /** A request replacing the `todo` column by a new `new` column. */
  const ExampleUpdate := UpdateBoardInput("b1", None, Some([Column("new", "New")]))

  /** The example store is valid, finds its board by id and by slug, and lists the ticket in `todo`. */
  lemma ExampleStore(lister: Lister)
    requires lister(ExampleDisk.dirs["b"]) == ["t1-x.md"]
    ensures ReadConfig(ExampleDisk).boards == [ExampleBoard]
    ensures IndexOfId([ExampleBoard], "b1") == 0
    ensures BoardBySlug(ExampleDisk, "b") == Some(ExampleBoard)
    ensures HasTicketIn(ExampleDisk, lister, "b", "todo")
  {
    assert SlugValid("b") by { assert IsSlugChar("b"[0]); }
    assert ConfigValid(Config([ExampleBoard], [], []));
    var dir := ExampleDisk.dirs["b"];
    assert EndsWith("t1-x.md", ".md");
    assert ["t1-x.md"][..0] == [];
    assert TicketsIn(dir, ["t1-x.md"]) == [FileTicket(dir, "t1-x.md")];
    assert FileTicket(dir, "t1-x.md").status == "todo";
    assert WithStatus([FileTicket(dir, "t1-x.md")], "todo") != [];
  }

  /**
   * The scenario on a concrete store: replacing the only column answers 500
   * and leaves the board as it was, while the corrected handler stores it.
   */
  lemma ReplacingOnlyColumnFails(lister: Lister, now: string)
    requires lister(ExampleDisk.dirs["b"]) == ["t1-x.md"]
    ensures UpdateAsWritten(ExampleDisk, lister, ExampleUpdate, now) == (ExampleDisk, Response(500, ErrorJson(InvalidStatusMessage("new", "b"))))
    ensures ReadConfig(UpdateCorrected(ExampleDisk, lister, ExampleUpdate, now).0).boards == [ExampleBoard.(columns := [Column("new", "New")])]
  {
    ExampleRejected(lister, now);
    ExampleStored(lister, now);
  }

  lemma ExampleRejected(lister: Lister, now: string)
    requires lister(ExampleDisk.dirs["b"]) == ["t1-x.md"]
    ensures UpdateAsWritten(ExampleDisk, lister, ExampleUpdate, now) == (ExampleDisk, Response(500, ErrorJson(InvalidStatusMessage("new", "b"))))
  {
    ExampleStore(lister);
    var cols := [Column("new", "New")];
    assert !HasColumn(ExampleBoard.columns, "new") && !HasColumn(cols, "todo");
    assert ColumnsValid(cols);
    UpdateAsWrittenRejectsNewFirstColumn(ExampleDisk, lister, ExampleUpdate, now, 0);
  }

  lemma ExampleStored(lister: Lister, now: string)
    requires lister(ExampleDisk.dirs["b"]) == ["t1-x.md"]
    ensures ReadConfig(UpdateCorrected(ExampleDisk, lister, ExampleUpdate, now).0).boards == [ExampleBoard.(columns := [Column("new", "New")])]
  {
    ExampleStore(lister);
    var cols := [Column("new", "New")];
    assert ColumnsValid(cols);
    UpdateCorrectedStoresBoard(ExampleDisk, lister, ExampleUpdate, now);
  }

  /**
   * The `update` action with the board written first: the first new column
   * then exists when the tickets of the removed columns are moved to it.
   */
  function UpdateCorrected(disk: Disk, lister: Lister, data: UpdateBoardInput, now: string): (r: (Disk, Response))
    ensures !UpdateBoardValid(data) ==> r == (disk, ValidationFailed)
    ensures r.1.status == 404 <==> UpdateBoardValid(data) && forall k :: 0 <= k < |ReadConfig(disk).boards| ==> ReadConfig(disk).boards[k].id != data.id
    ensures r.1.status == 404 ==> r.0 == disk
    ensures var before := ReadConfig(disk); var i := IndexOfId(before.boards, data.id);
      r.1.status == 200 ==> UpdateBoardValid(data) && i >= 0 && r.1 == Response(200, BoardJson(Updated(before.boards[i], data.name, data.columns)))
    ensures r.1.status in {200, 400, 404, 500}
  {
    if !UpdateBoardValid(data) then (disk, ValidationFailed)
    else
      var config := ReadConfig(disk);
      var i := IndexOfId(config.boards, data.id);
      if i == -1 then (disk, BoardNotFound)
      else
        var updated := UpdateBoardSpec(disk, data.id, data.name, data.columns);
        if updated.1.Threw? then (updated.0, FailureResponse(updated.1.failure))
        else
          var moved := Moves(updated.0, lister, config.boards[i], data.columns, now);
          if moved.1.Threw? then (moved.0, FailureResponse(moved.1.failure))
          else (moved.0, Response(200, BoardJson(updated.1.value)))
  }

  /**
   * The corrected update: a valid request for an existing board whose updated
   * form is valid always stores the updated board, whatever the ticket moves
   * do; it answers 200 exactly when every move succeeded.
   */
  lemma UpdateCorrectedStoresBoard(disk: Disk, lister: Lister, data: UpdateBoardInput, now: string)
    requires UpdateBoardValid(data) && IndexOfId(ReadConfig(disk).boards, data.id) >= 0
    requires BoardValid(Updated(ReadConfig(disk).boards[IndexOfId(ReadConfig(disk).boards, data.id)], data.name, data.columns))
    ensures var before := ReadConfig(disk); var i := IndexOfId(before.boards, data.id);
      var board := Updated(before.boards[i], data.name, data.columns);
      var r := UpdateCorrected(disk, lister, data, now);
      && ReadConfig(r.0) == before.(boards := before.boards[i := board])
      && (r.1.status == 200 <==> r.1 == Response(200, BoardJson(board)))
      && (r.1.status == 200 || r.1.status == 500)
  {
    var before := ReadConfig(disk);
    var i := IndexOfId(before.boards, data.id);
    var updated := UpdateBoardSpec(disk, data.id, data.name, data.columns);
    MovesKeepConfig(updated.0, lister, before.boards[i], data.columns, now);
  }

  /**
   * The corrected update's promise: a valid request for an existing board
   * (the first with its slug) whose updated form is valid, with a non-empty
   * new column list, answers 200 with the stored board, and every ticket of
   * a removed column ends in a file with the first new column as status.
   */
  lemma UpdateCorrectedLands(disk: Disk, lister: Lister, data: UpdateBoardInput, now: string)
    requires UpdateBoardValid(data) && data.columns.Some? && data.columns.value != []
    requires ListsExactly(lister)
    requires var before := ReadConfig(disk); var i := IndexOfId(before.boards, data.id);
      && i >= 0 && BoardValid(Updated(before.boards[i], data.name, data.columns))
      && (forall k :: 0 <= k < i ==> before.boards[k].slug != before.boards[i].slug)
      && KeptBoard(disk, before.boards[i].slug)
    ensures var before := ReadConfig(disk); var i := IndexOfId(before.boards, data.id);
      var existing := before.boards[i]; var board := Updated(existing, data.name, data.columns);
      var r := UpdateCorrected(disk, lister, data, now);
      && r.1 == Response(200, BoardJson(board))
      && ReadConfig(r.0) == before.(boards := before.boards[i := board])
      && forall c, t ::
           (&& c in RemovedColumns(existing.columns, data.columns.value)
            && TicketsForBoard(disk, lister, existing.slug).1.Done?
            && t in TicketsForBoard(disk, lister, existing.slug).1.value && t.status == c.id)
           ==> Landed(r.0, existing.slug, t.id, data.columns.value[0].id)
  {
    var before := ReadConfig(disk);
    var i := IndexOfId(before.boards, data.id);
    var existing := before.boards[i];
    var board := Updated(existing, data.name, data.columns);
    var slug := existing.slug;
    var cols := data.columns.value;
    var removed := RemovedColumns(existing.columns, cols);
    var updated := UpdateBoardSpec(disk, data.id, data.name, data.columns);
    assert updated.1 == Done(board) && updated.0.dirs == disk.dirs;
    FindBySlugFirst(before.boards, slug, i);
    FindBySlugFirst(before.boards[i := board], slug, i);
    assert BoardBySlug(updated.0, slug) == Some(board);
    assert HasColumn(board.columns, cols[0].id);
    RehomeSucceeds(updated.0, lister, slug, removed, cols[0].id, now);
    MovesKeepConfig(updated.0, lister, existing, data.columns, now);
    RehomeLands(updated.0, lister, slug, removed, cols[0].id, now);
    assert TicketsForBoard(updated.0, lister, slug).1 == TicketsForBoard(disk, lister, slug).1;
  }

  /**
   * The source's order on its everyday path: when the new first column is
   * already a column of the stored board, the moves succeed against the old
   * column list, then the board is written; the request answers 200 with
   * the stored board, and every ticket of a removed column has landed in
   * the first new column.
   */
  lemma UpdateAsWrittenLands(disk: Disk, lister: Lister, data: UpdateBoardInput, now: string)
    requires UpdateBoardValid(data) && data.columns.Some? && data.columns.value != []
    requires ListsExactly(lister)
    requires var before := ReadConfig(disk); var i := IndexOfId(before.boards, data.id);
      && i >= 0 && BoardValid(Updated(before.boards[i], data.name, data.columns))
      && (forall k :: 0 <= k < i ==> before.boards[k].slug != before.boards[i].slug)
      && KeptBoard(disk, before.boards[i].slug)
      && HasColumn(before.boards[i].columns, data.columns.value[0].id)
    ensures var before := ReadConfig(disk); var i := IndexOfId(before.boards, data.id);
      var existing := before.boards[i]; var board := Updated(existing, data.name, data.columns);
      var r := UpdateAsWritten(disk, lister, data, now);
      && r.1 == Response(200, BoardJson(board))
      && ReadConfig(r.0) == before.(boards := before.boards[i := board])
      && forall c, t ::
           (&& c in RemovedColumns(existing.columns, data.columns.value)
            && TicketsForBoard(disk, lister, existing.slug).1.Done?
            && t in TicketsForBoard(disk, lister, existing.slug).1.value && t.status == c.id)
           ==> Landed(r.0, existing.slug, t.id, data.columns.value[0].id)
  {
    var before := ReadConfig(disk);
    var i := IndexOfId(before.boards, data.id);
    var existing := before.boards[i];
    var slug := existing.slug;
    var cols := data.columns.value;
    var removed := RemovedColumns(existing.columns, cols);
    FindBySlugFirst(before.boards, slug, i);
    assert BoardBySlug(disk, slug) == Some(existing);
    RehomeSucceeds(disk, lister, slug, removed, cols[0].id, now);
    RehomeLands(disk, lister, slug, removed, cols[0].id, now);
    var moved := Moves(disk, lister, existing, data.columns, now);
    MovesKeepConfig(disk, lister, existing, data.columns, now);
    assert ReadConfig(moved.0) == before;
    var updated := UpdateBoardSpec(moved.0, data.id, data.name, data.columns);
    assert updated.0.dirs == moved.0.dirs;
  }

  /** The `update` action as served: validation, the 404, then the board write and the ticket moves. */
  method HandleUpdate(disk: Disk, lister: Lister, data: UpdateBoardInput, now: string) returns (disk': Disk, resp: Response)
    ensures (disk', resp) == UpdateCorrected(disk, lister, data, now)
  {
    if !UpdateBoardValid(data) {
      return disk, ValidationFailed;
    }
    var config := ReadConfig(disk);
    var i := IndexOfId(config.boards, data.id);
    if i == -1 {
      return disk, BoardNotFound;
    }
    var existing := config.boards[i];
    var board;
    disk', board := UpdateBoard(disk, data.id, data.name, data.columns);
    if board.Threw? {
      return disk', FailureResponse(board.failure);
    }
    if data.columns.Some? {
      var removed := RemovedColumns(existing.columns, data.columns.value);
      var moved;
      disk', moved := Rehome(disk', lister, existing.slug, removed, data.columns.value, now);
      if moved.Threw? {
        return disk', FailureResponse(moved.failure);
      }
    }
    resp := Response(200, BoardJson(board.value));
  }

  /** What the `delete` action does to the store and answers. */
  ghost predicate DeleteHandled(disk: Disk, id: string, disk': Disk, resp: Response) {
    var before := ReadConfig(disk);
    var i := IndexOfId(before.boards, id);
    && (!DeleteBoardValid(id) ==> disk' == disk && resp == ValidationFailed)
    && (DeleteBoardValid(id) && i == -1 ==> disk' == disk && resp == Response(500, ErrorJson(BoardIdNotFoundMessage(id))))
    && (DeleteBoardValid(id) && i >= 0 ==>
          && resp == Response(200, SuccessJson) && disk'.dirs == disk.dirs
          && ReadConfig(disk') == before.(boards := before.boards[..i] + before.boards[i + 1..]))
  }

  /** The `delete` action: an unknown id is a 500, not a 404. */
  method HandleDelete(disk: Disk, id: string) returns (disk': Disk, resp: Response)
    ensures DeleteHandled(disk, id, disk', resp)
  {
    if !DeleteBoardValid(id) {
      return disk, ValidationFailed;
    }
    var out;
    disk', out := DeleteBoard(disk, id);
    if out.Threw? {
      return disk', FailureResponse(out.failure);
    }
    resp := Response(200, SuccessJson);
  }

  /** What the `updateConfig` action does to the store and answers. */
  ghost predicate SettingsHandled(disk: Disk, data: UpdateConfigInput, disk': Disk, resp: Response) {
    var before := ReadConfig(disk);
    var after := before.(priorities := data.priorities.GetOr(before.priorities), users := data.users.GetOr(before.users));
    && (!UpdateConfigValid(data) ==> disk' == disk && resp == ValidationFailed)
    && (UpdateConfigValid(data) ==>
          resp == Response(200, ConfigJson(after)) && ReadConfig(disk') == after && disk'.dirs == disk.dirs)
  }

  /** The `updateConfig` action: priorities, then users, each only when given; then the stored configuration. */
  method HandleSettings(disk: Disk, data: UpdateConfigInput) returns (disk': Disk, resp: Response)
    ensures SettingsHandled(disk, data, disk', resp)
  {
    if !UpdateConfigValid(data) {
      return disk, ValidationFailed;
    }
    disk' := disk;
    var out;
    if data.priorities.Some? {
      disk', out := UpdatePriorities(disk', data.priorities.value);
    }
    if data.users.Some? {
      disk', out := UpdateUsers(disk', data.users.value);
    }
    resp := Response(200, ConfigJson(ReadConfig(disk')));
  }

  /** `POST`: the action dispatch, with an unparsable body a 500 and an unknown action a 400. */
  method Post(disk: Disk, lister: Lister, req: Request, boardId: string, now: string) returns (disk': Disk, resp: Response)
    ensures req.Create? ==> CreateHandled(disk, req.create, boardId, disk', resp)
    ensures req.Update? ==> (disk', resp) == UpdateCorrected(disk, lister, req.update, now)
    ensures req.Delete? ==> DeleteHandled(disk, req.id, disk', resp)
    ensures req.UpdateSettings? ==> SettingsHandled(disk, req.settings, disk', resp)
    ensures req.Unshaped? ==> disk' == disk && resp == (if req.action in KnownActions then ValidationFailed else InvalidAction)
    ensures req.NotJson? ==> disk' == disk && resp == Response(500, ErrorJson(req.message))
  {
    match req {
      case NotJson(message) =>
        return disk, Response(500, ErrorJson(message));
      case Create(data) =>
        disk', resp := HandleCreate(disk, data, boardId);
      case Update(data) =>
        disk', resp := HandleUpdate(disk, lister, data, now);
      case Delete(id) =>
        disk', resp := HandleDelete(disk, id);
      case UpdateSettings(data) =>
        disk', resp := HandleSettings(disk, data);
      case Unshaped(action) =>
        if action in KnownActions {
          return disk, ValidationFailed;
        }
        return disk, InvalidAction;
    }
  }
}
