# ticket-board, modelled in Dafny

ticket-board is a kanban board that keeps its state in the working tree of a
git repository. Each board has ordered columns. Each ticket is a Markdown
file with YAML front matter under `tickets/<board-slug>/`. The board
configuration lives in `.kanban/config.json`. A "sync" action commits,
rebases and pushes that state with git.

This project models the logic of that application and proves properties of
the model:

- **Git status and sync engine** (`git.dfy`, module `Git`).
  - `git(cmd)` is an oracle. It answers each command given the history of commands issued before it.
  - Each operation returns the trace of the commands it issued, so ordering ("nothing after the fetch failed") can be stated.
  - The functions `ChangedFiles`, `Status` and `SyncSpec` are the specification.
  - The methods `GetChangedFiles` (three push loops) and `Sync` (a result record updated field by field, and an add loop) are written as the source writes them and proved equal to the specification.
- **File-backed store** (`store.dfy`, `boards.dfy`, `tickets.dfy`, `schemas.dfy`).
  - The working tree is a value `Disk`: the configuration file (missing, unparsable or JSON) and one map of file name to parsed front matter and body per board directory.
  - Directory listing order is a parameter (`Lister`).
  - Every server operation takes a disk and returns the new disk with an `Outcome`: a value, or the error it throws.
  - The zod schemas are validity predicates.
- **The boards API route** (`boards_route.dfy`): the `POST` dispatch, the default slug, and the re-homing of tickets from removed columns.
- **Rules embedded in the UI components**:
  - `kanban_board.dfy`: search, grouping, the drag-and-drop order computation, and column rename/delete.
  - `ticket_detail.dfy`: the comment list, the empty-HTML test, Markdown paragraph wrapping and the save record.
  - `column_manager.dfy`: the column dialog.
  - `create_ticket_modal.dfy`: the create form.
  - `user_avatar.dfy`: initials and the colour hash.
  - `holiday_effects.dfy`: the Easter computus and the holiday windows.

  React state that a handler updates is a `class` whose methods update its fields.

Shared modules:

- `wrappers.dfy`: `Option`.
- `text.dfy`: the JavaScript string operations used (`toLowerCase`, `trim`, `split`, the slug regex).
- `types.dfy`: the records of `src/lib/types.ts` and the constants of `src/lib/constants.ts`.

## Model

| member | source | states |
|---|---|---|
| Text.Lower | src/lib/server/tickets.ts:22 | lower-casing keeps the length and maps each ASCII upper-case letter to its lower-case letter, every other character unchanged |
| Text.Upper | src/components/user-avatar.tsx:25 | upper-casing keeps the length and upper-cases each character (ASCII letters only) |
| Text.TrimStartSpec | src/components/kanban-board.tsx:158 | the start-trimmed string is the longest suffix that does not start with white space |
| Text.TrimEndSpec | src/components/kanban-board.tsx:158 | the end-trimmed string is the longest prefix that does not end with white space |
| Text.TrimEmptyIffBlank | src/components/kanban-board.tsx:158 | a string trims to empty exactly when every character is white space (the `!query.trim()` test) |
| Text.TrimIdempotent | src/components/create-ticket-modal.tsx:76 | trimming a trimmed string changes nothing |
| Text.TrimShape | src/lib/server/tickets.ts:51 | the trimmed string is a contiguous slice with no white space at either end |
| Text.Split | src/components/user-avatar.tsx:22 | `split` always yields at least one piece |
| Text.SplitJoin | src/components/ticket-detail.tsx:90 | joining the pieces of a split with the separator gives back the string |
| Text.SplitPiecesAvoidSeparator | src/components/ticket-detail.tsx:90 | no piece of a split contains the separator |
| Text.NonEmpty | src/lib/server/git.ts:70-94 | `filter(Boolean)` keeps exactly the non-empty pieces of its input: each kept piece is a non-empty input piece, and each non-empty input piece is kept |
| Text.NonEmptyDistributes | src/lib/server/git.ts:70-94 | the filter distributes over concatenation, so the kept pieces stay in input order |
| Text.SkipRun | src/lib/server/tickets.ts:23 | what is left is a suffix of the input that is empty or starts with a character of `[a-z0-9]`, and it is shorter whenever the input starts outside that class |
| Text.DashRuns | src/lib/server/tickets.ts:23 | the output holds only `[a-z0-9-]`, has no two dashes in a row and is no longer than the input; it starts with a dash only when the input starts outside `[a-z0-9]` |
| FileStore.EnsureTicketsDir | src/lib/server/boards.ts:21-28 | the board directory exists afterwards, an existing one and every other directory are unchanged, and the configuration is untouched |
| Schemas.DefaultConfigValid | src/lib/constants.ts:14-37 | the built-in configuration passes the configuration schema |
| Schemas.DuplicateSlugsAccepted | src/lib/schemas.ts:27-31 | the configuration schema requires no uniqueness: two boards with the same id and slug are accepted |
| Schemas.AppendBoardValid | src/lib/schemas.ts:20-31 | a valid configuration with a board appended is valid exactly when that board is |
| Schemas.ReplaceBoardValid | src/lib/schemas.ts:20-31 | a valid configuration with one board replaced is valid exactly when the replacement is |
| Schemas.RemoveBoardValid | src/lib/schemas.ts:27-31 | removing a board keeps a configuration valid |
| Boards.ReadConfig | src/lib/server/boards.ts:52-62 | the result is always valid: the stored configuration when it is present and valid, the built-in one otherwise |
| Boards.WriteConfig | src/lib/server/boards.ts:67-71 | the write succeeds exactly when the configuration is valid, and it never touches the ticket directories |
| Boards.ReadAfterWrite | src/lib/server/boards.ts:52-71 | what is written is what the next read returns |
| Boards.InitializeConfig | src/lib/server/boards.ts:33-47 | a missing file is created with the built-in configuration and the `main` ticket directory; an existing file (even an invalid one) leaves the store as it is |
| Boards.InitializeThenRead | src/lib/server/boards.ts:33-62 | the configuration returned is valid and is what every later read sees |
| Boards.FindBySlug | src/lib/server/boards.ts:84-87 | nothing is found exactly when no board has the slug, and what is found is a board with that slug |
| Boards.FindBySlugFirst | src/lib/server/boards.ts:84-87 | `find` returns the first board with the slug |
| Boards.IndexOfId | src/lib/server/boards.ts:124 | -1 exactly when no board has the id, otherwise the first index holding that id |
| Boards.CreateBoard | src/lib/server/boards.ts:92-117 | a taken slug throws and changes nothing; otherwise the board (with backlog, in-progress, review, done when no columns are given) is appended after the existing boards, and its directory is created; success exactly when the slug is free and the board is valid |
| Boards.UpdateBoardSpec | src/lib/server/boards.ts:122-144 | an unknown id throws and changes nothing; otherwise the first board with the id gets the non-empty name and the given columns at its own index, every other board is unchanged, and an invalid result is refused unwritten |
| Boards.UpdateBoard | src/lib/server/boards.ts:122-144 | the field-by-field update computes exactly `UpdateBoardSpec` |
| Boards.DeleteBoard | src/lib/server/boards.ts:149-161 | an unknown id throws; otherwise exactly the first board with the id is removed, the others keep their order, and the ticket directories stay |
| Boards.UpdatePriorities | src/lib/server/boards.ts:166-170 | only the priority list is replaced, and only when it is valid; otherwise nothing is written |
| Boards.UpdateUsers | src/lib/server/boards.ts:175-179 | only the user list is replaced, and only when it is valid; otherwise nothing is written |
| Tickets.StripDashEdges | src/lib/server/tickets.ts:24 | the result is no longer than the input, and starts with a dash only if the input started with two |
| Tickets.Slugify | src/lib/server/tickets.ts:20-26 | the slug holds only `[a-z0-9-]`, has no two dashes in a row, does not start with a dash, and is at most 50 characters long |
| Tickets.StripDashEdgesIsSlice | src/lib/server/tickets.ts:24 | the stripped string is a contiguous slice of its input |
| Tickets.StripDashEdgesEnds | src/lib/server/tickets.ts:23-24 | after the dash runs are collapsed, stripping leaves no dash at either end |
| Tickets.SlugTrailingDashOnlyFromCut | src/lib/server/tickets.ts:24-25 | a slug ending in a dash is exactly 50 characters long: the dash comes from the cut |
| Tickets.SlugifiedIsValidSlug | src/lib/server/tickets.ts:20-26 | a non-empty slug passes the board slug rule `^[a-z0-9-]+$` |
| Tickets.SlugifyFixesSlugForm | src/lib/server/tickets.ts:20-26 | a string already in slug form is left as it is, so slugify is idempotent on its outputs |
| Tickets.TicketFilename | src/lib/server/tickets.ts:31-33 | the file name is exactly the id, a dash, `Slugify` of the title, then `.md` |
| Tickets.SameFilenameIffSameSlug | src/lib/server/tickets.ts:31-33 | for one id, two titles give the same file name exactly when they give the same slug |
| Tickets.GeneratedIdPrefix | src/lib/server/tickets.ts:11-32 | two generated ids, each followed by a dash and some text, give the same string only when the ids are equal |
| Tickets.FilenameDeterminesId | src/lib/server/tickets.ts:11-33 | two generated ids never share a file name |
| Tickets.SerializeTicket | src/lib/server/tickets.ts:60-78 | the six required fields are always written; owner and priority only when non-empty, order whenever present, comments only when non-empty |
| Tickets.ParseTicketFile | src/lib/server/tickets.ts:38-55 | the parsed ticket carries the given file name and the trimmed body; the comment list is the stored one, or empty when missing; a numeric order is kept and a missing one stays absent; a missing owner or priority stays absent |
| Tickets.ParseSerialized | src/lib/server/tickets.ts:38-78 | parsing a serialized ticket gives back every field, with an empty owner or priority dropped, the body trimmed and missing comments as `[]` |
| Tickets.TicketsIn | src/lib/server/tickets.ts:94-106 | at most one ticket per listed name, each the parse of a readable `.md` file of the directory carrying that file name |
| Tickets.TicketsInHasListed | src/lib/server/tickets.ts:94-106 | every readable ticket file the listing names is among the tickets read |
| Tickets.ListTickets | src/lib/server/tickets.ts:96-108 | the read-and-push loop returns exactly `TicketsIn` of the listing |
| Tickets.TicketsForBoard | src/lib/server/tickets.ts:83-113 | fails exactly for an unknown board, then with its message and nothing changed; otherwise the board directory is ensured |
| Tickets.TicketsForBoardComplete | src/lib/server/tickets.ts:83-113 | with a listing that names every file, every readable ticket file of the board is returned |
| Tickets.GetTicketsForBoard | src/lib/server/tickets.ts:83-113 | the method with its loop computes exactly `TicketsForBoard` |
| Tickets.FindById | src/lib/server/tickets.ts:120 | nothing is found exactly when no ticket has the id; otherwise a listed ticket with that id |
| Tickets.TicketById | src/lib/server/tickets.ts:118-121 | the lookup fails only for an unknown board; a found ticket has the id and is a ticket of the board's directory |
| Tickets.CreateTicket | src/lib/server/tickets.ts:126-169 | an unknown board or a status that is not one of its column ids throws before anything is written; a known board and a column status always succeed; the written ticket has the requested board, title, status, owner, priority and body, no order and no comments, both timestamps `now`, and is stored under `<id>-<slug>.md` |
| Tickets.CreatedTicketReadsBack | src/lib/server/tickets.ts:126-169 | a created ticket reads back from its file as written, with the requested status |
| Tickets.Applied | src/lib/server/tickets.ts:203-211 | the updated ticket keeps its id, board, creation date and file name, and its `updatedAt` is the new timestamp; each supplied field takes the new value and each omitted one keeps the old; a supplied owner or priority that is null or empty clears the field (`UpdateRules`) |
| Tickets.Rewrite | src/lib/server/tickets.ts:222-232 | the new file is written and the old one is removed exactly when the name changed |
| Tickets.UpdateTicketSpec | src/lib/server/tickets.ts:174-236 | a failure is always a thrown error that changes at most the ensured directory; success needs a known board and a found ticket; conversely a known board, a found ticket and a status that is absent, empty or one of the board's column ids always succeed, so a falsy status is never validated |
| Tickets.UpdateTicketRefusals | src/lib/server/tickets.ts:187-200 | an unknown board, an unknown ticket, and a truthy status that is not a column id each throw before any ticket file is written |
| Tickets.UpdateTicketWrites | src/lib/server/tickets.ts:202-235 | after a successful update, exactly one file holds the ticket, under the name derived from its new title; the old file is gone if the name changed; every other file and directory is unchanged |
| Tickets.ApplyUpdates | src/lib/server/tickets.ts:203-211 | the field-by-field assignments compute exactly `Applied` |
| Tickets.UpdateTicket | src/lib/server/tickets.ts:174-236 | the method computes exactly `UpdateTicketSpec` |
| Tickets.DeleteTicket | src/lib/server/tickets.ts:241-249 | an unknown ticket throws; otherwise exactly the ticket's file is removed |
| Tickets.CreateKeepsWellKept | src/lib/server/tickets.ts:126-169 | creating a ticket under a fresh generated id keeps the board's directory well kept: every ticket file is named after its own generated id and title, and no two files share an id |
| Tickets.DeleteKeepsWellKept | src/lib/server/tickets.ts:241-249 | deleting a ticket keeps the board's directory well kept |
| Tickets.UpdateKeepsWellKept | src/lib/server/tickets.ts:174-236 | a successful update keeps the board's directory well kept: the rewritten file is named after the ticket's id and new title, and the old one is gone |
| Tickets.UpdateKeepsHolding | src/lib/server/tickets.ts:174-236 | after a successful update every ticket that had a file still has one |
| Tickets.ListedTicket | src/lib/server/tickets.ts:83-113 | in a well-kept directory a listed ticket is exactly the parse of the file named after its id and title |
| Tickets.WithStatus | src/lib/server/tickets.ts:260 | keeps every ticket with that status and nothing else |
| Tickets.MoveEach | src/lib/server/tickets.ts:262-264 | a failure of the update loop is always a thrown error, never a schema failure |
| Tickets.MoveTicketsSpec | src/lib/server/tickets.ts:254-265 | an unknown board throws and changes nothing; any failure is a thrown error |
| Tickets.MoveTicketsToColumn | src/lib/server/tickets.ts:254-265 | the awaited update loop computes exactly `MoveTicketsSpec` |
| Tickets.MoveRejectsUnknownTarget | src/lib/server/tickets.ts:254-265 | moving into a status that is not a column id fails at the first ticket to move, and nothing is written |
| Tickets.UpdateLands | src/lib/server/tickets.ts:204-223 | a successful status update leaves the ticket in a file with the new status |
| Tickets.UpdateKeepsFile | src/lib/server/tickets.ts:222-232 | updating one generated id leaves the file of another ticket untouched |
| Tickets.UpdateKeepsLanded | src/lib/server/tickets.ts:222-232 | updating another generated id keeps a ticket that already moved where it is |
| Tickets.StatusUpdateKeepsLanded | src/lib/server/tickets.ts:262-264 | a status update to `to` keeps every already-moved ticket moved |
| Tickets.MoveEachKeepsLanded | src/lib/server/tickets.ts:262-264 | a moved ticket stays moved through the rest of a successful loop |
| Tickets.MoveEachLands | src/lib/server/tickets.ts:262-264 | after a successful loop every moved ticket sits in a file with the new status |
| Tickets.MoveEachKeepsFile | src/lib/server/tickets.ts:262-264 | a successful loop leaves the file of every ticket it does not move unchanged |
| Tickets.MoveTicketsLands | src/lib/server/tickets.ts:254-265 | after a successful move every ticket that had status `from` has status `to` |
| Tickets.MoveTicketsKeepsOthers | src/lib/server/tickets.ts:254-265 | after a successful move the file of every ticket whose status was not `from` is unchanged |
| Tickets.MoveEachSucceeds | src/lib/server/tickets.ts:262-264 | on a well-kept directory of a known board, a target that is empty or one of its column ids, and tickets that each have a file, the update loop never throws |
| Tickets.MoveEachKeepsWellKept | src/lib/server/tickets.ts:262-264 | a successful update loop keeps the directory well kept |
| Tickets.MoveTicketsSucceeds | src/lib/server/tickets.ts:254-265 | on a complete listing of a well-kept directory of a known board, a move into an empty target or one of its column ids always succeeds |
| Tickets.MoveTicketsKeepsWellKept | src/lib/server/tickets.ts:254-265 | a successful move keeps the directory well kept |
| Tickets.MoveTicketsKeepsLanded | src/lib/server/tickets.ts:254-265 | a ticket already in `to` stays in `to` through a successful move |
| Tickets.MoveTicketsKeepsOtherStatus | src/lib/server/tickets.ts:254-265 | in a well-kept directory, the file of a ticket whose status is not `from` is unchanged by a successful move, and the board and its well-kept state stay |
| Tickets.UpdateKeepsConfig | src/lib/server/tickets.ts:174-236 | updating a ticket never touches the configuration file |
| Tickets.MoveTicketsKeepsConfig | src/lib/server/tickets.ts:254-265 | moving tickets never touches the configuration file, whether it succeeds or not |
| Tickets.MoveNothingToMove | src/lib/server/tickets.ts:259-264 | with no ticket in the source column, a move succeeds and changes nothing |
| Tickets.ListedNeedsDir | src/lib/server/tickets.ts:89-93 | a board that lists any ticket already has its ticket directory |
| BoardsRoute.FailureResponse | src/app/api/boards/route.ts:81-92 | a schema failure answers 400; any other error answers 500 with its message |
| BoardsRoute.Get | src/app/api/boards/route.ts:7-18 | `GET` answers 200 with the configuration `initializeConfig` returns |
| BoardsRoute.DefaultSlug | src/app/api/boards/route.ts:27 | the default slug of a non-empty name passes the slug schema, and it is never longer than the name |
| BoardsRoute.DefaultSlugKeepsEdgeDashes | src/app/api/boards/route.ts:27 | unlike `slugify`, the default slug keeps edge dashes: `"A!"` gives `"a-"` and `"!a"` gives `"-a"` |
| BoardsRoute.HandleCreate | src/app/api/boards/route.ts:25-30 | a schema failure answers 400 and a taken slug 500, both changing nothing; otherwise the board under the given or default slug is appended, its directory created and the board returned |
| BoardsRoute.CreateWithoutSlug | src/app/api/boards/route.ts:26-28 | a valid request without a slug never fails on the slug; it fails only on a taken slug or an empty column list |
| BoardsRoute.RemovedColumns | src/app/api/boards/route.ts:43-45 | a column is removed exactly when it is an existing column whose id is absent from the new list |
| BoardsRoute.RehomeSpec | src/app/api/boards/route.ts:47-52 | a failure of the re-homing loop is always a thrown error |
| BoardsRoute.RehomeSucceeds | src/app/api/boards/route.ts:47-52 | on a complete listing of a well-kept directory of a known board, re-homing into an empty target or one of its column ids never throws |
| BoardsRoute.RehomeLands | src/app/api/boards/route.ts:47-52 | after successful re-homing, every listed ticket whose status was a removed column's id has landed in the first column |
| BoardsRoute.RehomeKeepsLanded | src/app/api/boards/route.ts:47-52 | a ticket already in the first column stays there through the re-homing |
| BoardsRoute.RehomeKeepsOthers | src/app/api/boards/route.ts:47-52 | the file of every ticket whose status is not a removed column's id is unchanged by successful re-homing |
| BoardsRoute.Rehome | src/app/api/boards/route.ts:47-52 | the loop, which tests `firstColumn` on every pass, computes exactly `RehomeSpec` |
| BoardsRoute.MovesKeepConfig | src/app/api/boards/route.ts:47-52 | re-homing never changes the configuration |
| BoardsRoute.RehomeRejected | src/app/api/boards/route.ts:47-52 | re-homing to a status the stored board lacks fails at the first removed column that holds a ticket, and leaves the store as it was |
| BoardsRoute.UpdateAsWrittenRejectsNewFirstColumn | src/app/api/boards/route.ts:41-58 | as written, when the new first column is a new column and a removed column holds a ticket, the update answers 500 and the stored board is unchanged |
| BoardsRoute.ExampleStore | src/app/api/boards/route.ts:41-58 | the example store is valid and lists its ticket in `todo` |
| BoardsRoute.ReplacingOnlyColumnFails | src/app/api/boards/route.ts:41-58 | on a concrete store, replacing the only column answers 500 as written, while the corrected order stores the board |
| BoardsRoute.UpdateCorrected | src/app/api/boards/route.ts:32-60 | with the board written first: an invalid request answers 400 and an unknown id 404, both with the store unchanged; 200 only for a valid request naming a stored board, and then with that board updated by the request; no other status than 200, 400, 404 or 500 |
| BoardsRoute.UpdateCorrectedStoresBoard | src/app/api/boards/route.ts:32-60 | with the board written before the tickets move, a valid update of an existing board always stores the updated board |
| BoardsRoute.UpdateCorrectedLands | src/app/api/boards/route.ts:41-58 | with the board written first, on a complete listing, a unique slug and a well-kept directory, the update answers 200 with the new board, stores it, and every listed ticket of a removed column has landed in the new first column |
| BoardsRoute.UpdateAsWritten | src/app/api/boards/route.ts:41-58 | the source's order: a schema failure answers 400 and an unknown id 404, both with nothing changed; a failed move answers 500 with the configuration unchanged |
| BoardsRoute.UpdateAsWrittenLands | src/app/api/boards/route.ts:41-58 | in the source's order, when the new first column is already a column of the stored board (on a complete listing, a unique slug and a well-kept directory), the moves succeed, the update answers 200 with the new board, stores it, and every listed ticket of a removed column has landed in the new first column |
| BoardsRoute.HandleUpdate | src/app/api/boards/route.ts:32-60 | a schema failure answers 400, an unknown id 404 with nothing changed; otherwise the board is written, then the tickets of the removed columns are moved (the corrected order, see Findings) |
| BoardsRoute.HandleDelete | src/app/api/boards/route.ts:62-66 | a schema failure answers 400 and an unknown id 500, both changing nothing; otherwise exactly the first board with the id is removed and the answer is `success` |
| BoardsRoute.HandleSettings | src/app/api/boards/route.ts:68-78 | the given priorities and then the given users are written, each only when supplied; the answer is the stored configuration |
| BoardsRoute.Post | src/app/api/boards/route.ts:20-94 | the four actions are dispatched to their handlers; an unparsable or `null` body answers 500 and any other action 400 `Invalid action` |
| Git.Run | src/lib/server/git.ts:11-22 | a command succeeds exactly when the process exits normally, with its output trimmed; an error always carries a non-empty text |
| Git.IsGitRepo | src/lib/server/git.ts:27-34 | true exactly when `rev-parse --git-dir` succeeds; one query is issued |
| Git.CurrentBranch | src/lib/server/git.ts:39-45 | the branch name, or `unknown` when the query fails |
| Git.DivergenceOf | src/lib/server/git.ts:50-58 | the first tab field is `behind` and the second `ahead`; a failed query or an unparsable field gives 0 |
| Git.AheadBehind | src/lib/server/git.ts:50-59 | one `rev-list` query is issued, and a failed one gives 0 ahead and 0 behind |
| Git.TrackedPathIsPrefixTest | src/lib/server/git.ts:112-114 | the allow-list is a prefix test: `ticketsX/a` counts and `README.md` does not |
| Git.NameStatusKind | src/lib/server/git.ts:75-87 | a staged listing gives `staged`; otherwise `D` gives `deleted` and every other letter `modified` |
| Git.ScanNameStatus | src/lib/server/git.ts:70-90 | every entry is under an allow-listed root with the listing's kind; every line the loop reaches (it and all lines before it have a tab) whose path is tracked yields its entry; the scan is complete exactly when every line has a tab; at most one entry per line |
| Git.ScanNameStatusKinds | src/lib/server/git.ts:75-87 | every staged entry is `staged`; an unstaged entry is `deleted` exactly for status `D` |
| Git.ScanUntracked | src/lib/server/git.ts:94-101 | every entry is a tracked path of kind `untracked`, and every tracked line yields its entry |
| Git.ReplyNameStatus | src/lib/server/git.ts:68-90 | entries are tracked and of the listing's kind; a failed query lists nothing and ends the collection |
| Git.ReplyUntracked | src/lib/server/git.ts:93-101 | entries are tracked and untracked; a failed query lists nothing |
| Git.NameStatusListing | src/lib/server/git.ts:68-90 | the listing of one `--name-status` query holds tracked entries of its kind, and nothing when the query fails |
| Git.UntrackedListing | src/lib/server/git.ts:93-101 | the listing of the `ls-files --others` query holds tracked entries, and nothing when the query fails |
| Git.ListingsConcat | src/lib/server/git.ts:64-107 | staged, unstaged and untracked entries concatenated appear in that order |
| Git.ChangedFilesTrace | src/lib/server/git.ts:64-107 | the queries issued are the staged listing, possibly followed by the unstaged one, possibly followed by the untracked one, and nothing but queries |
| Git.ChangedFilesComplete | src/lib/server/git.ts:64-107 | nothing a listing reached is lost: every tracked line of the staged listing, of the unstaged listing once the staged one completed, and of the untracked listing once both completed, is among the returned files |
| Git.ChangedFilesListings | src/lib/server/git.ts:64-107 | every returned entry is under an allow-listed root, and all staged entries come before unstaged ones, which come before untracked ones |
| Git.FailedQueryKeepsEarlierEntries | src/lib/server/git.ts:64-107 | when a query fails, the entries collected by earlier queries are returned unchanged and no later query is issued |
| Git.LineWithoutTabEndsCollection | src/lib/server/git.ts:71-106 | a staged line without a tab throws: nothing more is queried |
| Git.PushNameStatus | src/lib/server/git.ts:70-90 | the push loop over a `--name-status` reply appends exactly the scanned entries |
| Git.PushUntracked | src/lib/server/git.ts:94-101 | the push loop over the untracked reply appends exactly the scanned entries |
| Git.GetChangedFiles | src/lib/server/git.ts:64-107 | the three-loop method computes exactly `ChangedFiles` (entries and queries issued) |
| Git.CountKind | src/lib/server/git.ts:124-126 | a count never exceeds the number of entries |
| Git.CountKindsPartition | src/lib/server/git.ts:124-126 | the counts of the four kinds produced add up to the number of entries |
| Git.StatusCounts | src/lib/server/git.ts:119-138 | `hasChanges` holds exactly when files is non-empty; the counts add up with the deleted entries to the length, so modified+untracked+staged ≤ length; every entry is tracked |
| Git.StatusTrace | src/lib/server/git.ts:119-138 | status reporting issues only queries: branch, divergence, then the listings |
| Git.GetGitStatus | src/lib/server/git.ts:119-138 | the method computes exactly `Status` |
| Git.IsClean | src/lib/server/git.ts:143-146 | clean exactly when no tracked file has changes |
| Git.AddCommands | src/lib/server/git.ts:171-177 | one `git add` per allow-listed root, in order |
| Git.CommitPhase | src/lib/server/git.ts:168-186 | the adds and the dated commit are issued; add failures are ignored; `committed` holds exactly when the commit succeeded |
| Git.LocalCommit | src/lib/server/git.ts:163-186 | the run starts with the fetch; a commit is reported only when the status showed changes, and the commit is then the last command |
| Git.LocalCommitSteps | src/lib/server/git.ts:163-186 | with changes, one `git add` per root and then the dated commit follow the status queries, and the commit is reported exactly when it exits normally; without changes nothing follows the status queries and no commit is reported |
| Git.MessagesDistinct | src/lib/server/git.ts:199-245 | no success message equals the conflict message, and the three failure messages differ |
| Git.PushPhaseOutcome | src/lib/server/git.ts:210-226 | `push` is issued exactly when a fresh `ahead` > 0 or a commit was made; without it the report is finished as it stands; a successful push sets `pushed`; a push error containing `rejected` gives the rejected message with that error and nothing pushed; any other push error gives `Sync failed` with its text; the report never carries the conflict message |
| Git.PullPhaseOutcome | src/lib/server/git.ts:189-207 | a conflict issues only `rebase --abort` after the pull and reports neither pull nor push; `pulled` means `pull --rebase` was issued; `pushed` means the push was the last command; the report stays consistent |
| Git.PullPhaseClassifies | src/lib/server/git.ts:189-207 | `pull --rebase` is issued exactly when the fresh `behind` > 0; without it the push step follows; a successful pull sets `pulled` and then pushes; a conflict with a successful abort gives the conflict message with the pull's error, nothing pulled; a failed abort or any other pull error gives `Sync failed` with that error text |
| Git.PullPhaseExtends | src/lib/server/git.ts:189-226 | the pull and push steps only append commands |
| Git.PushPhaseShape | src/lib/server/git.ts:210-226 | the push step issues the divergence query and at most the push, never a forced push |
| Git.SyncAfterFetch | src/lib/server/git.ts:163-226 | after a successful fetch, the run is the commit step followed by the pull step |
| Git.SyncFetchFailure | src/lib/server/git.ts:153-245 | a failed fetch ends the run with `Sync failed` and the fetch's error text, nothing pulled, committed or pushed, and no other command issued |
| Git.SyncOutcome | src/lib/server/git.ts:152-246 | every run starts with a fetch; success holds exactly when no error is recorded; the success message lists pulled, committed, pushed in that order, or `Already up to date`; a conflict ends with `rebase --abort`; `pushed` means the push was the last command; `committed` means there were changes and the commit was issued |
| Git.SyncPulledIssued | src/lib/server/git.ts:189-197 | a run that reports `pulled` issued `pull --rebase` |
| Git.FinishStep | src/lib/server/git.ts:229-237 | the performed actions are collected and joined into the message exactly as `Finish` |
| Git.CommitStep | src/lib/server/git.ts:168-186 | the add loop and the commit compute exactly `CommitPhase` |
| Git.PushStep | src/lib/server/git.ts:210-226 | the method computes exactly `PushPhase` |
| Git.PullStep | src/lib/server/git.ts:189-207 | the method computes exactly `PullPhase` |
| Git.Sync | src/lib/server/git.ts:152-246 | the field-by-field method with its early return computes exactly `SyncSpec` |
| KanbanBoard.FilteredTickets | src/components/kanban-board.tsx:157-166 | a blank query keeps every ticket; otherwise a ticket is kept exactly when the lower-cased, untrimmed query occurs in its lower-cased title, body or id |
| KanbanBoard.SearchFindsOwnId | src/components/kanban-board.tsx:157-166 | searching for a ticket's own id or title finds it |
| KanbanBoard.AppendSorted | src/components/kanban-board.tsx:174-175 | a sorted list stays sorted when an element that no earlier one sorts after is appended |
| KanbanBoard.InsertByOrderSorted | src/components/kanban-board.tsx:174-175 | inserting into a sorted list keeps it sorted, with missing orders last |
| KanbanBoard.SortByOrderSpec | src/components/kanban-board.tsx:174-175 | the sort yields a permutation of its input sorted by ascending order, missing orders last |
| KanbanBoard.GroupSpec | src/components/kanban-board.tsx:169-178 | a column's group is sorted and holds exactly the filtered tickets whose status is the column id |
| KanbanBoard.TicketsByColumn | src/components/kanban-board.tsx:169-178 | the loop fills a record with exactly the column ids as keys, each holding its group |
| KanbanBoard.UnknownStatusUngrouped | src/components/kanban-board.tsx:169-178 | a ticket whose status is no column id appears in no group |
| KanbanBoard.ArrayMove | src/components/kanban-board.tsx:212 | a move keeps the length, puts the moved element at the target index, and keeps the order of the others |
| KanbanBoard.ArrayMoveMultiset | src/components/kanban-board.tsx:212 | a move is a permutation |
| KanbanBoard.ColumnIndex | src/components/kanban-board.tsx:208-209 | -1 exactly when no column has the id, otherwise the first index holding it |
| KanbanBoard.TicketIndex | src/components/kanban-board.tsx:240 | -1 exactly when no ticket has the id, otherwise the first index holding it |
| KanbanBoard.Without | src/components/kanban-board.tsx:251-253 | exactly the tickets with another id remain |
| KanbanBoard.WithoutDistributes | src/components/kanban-board.tsx:251-253 | the filter distributes over concatenation, so the remaining tickets keep their order and the new-order neighbours are the old ones around the gap |
| KanbanBoard.WithoutSorted | src/components/kanban-board.tsx:247-253 | removing tickets from a sorted group keeps it sorted |
| KanbanBoard.NewOrderAppends | src/components/kanban-board.tsx:257-262 | appending gives 0 in an empty column, and an order after every ordered ticket when the last one has an order |
| KanbanBoard.NewOrderPrepends | src/components/kanban-board.tsx:263-268 | inserting first gives an order before every ordered ticket of the column |
| KanbanBoard.NewOrderBetween | src/components/kanban-board.tsx:269-274 | inserting between two ordered neighbours gives an order strictly between them when they differ, and equal to both when they are equal |
| KanbanBoard.HandleDragEnd | src/components/kanban-board.tsx:193-283 | the handler with its `let` variables computes exactly `DragEndSpec`: the column reorder, the drop target, the new order and the update |
| KanbanBoard.ComputeNewOrder | src/components/kanban-board.tsx:255-274 | the `newOrder` steps compute exactly `NewOrder`, with nothing where the source reads a missing neighbour |
| KanbanBoard.ColumnDragIsMove | src/components/kanban-board.tsx:203-217 | a column drag asks for a reorder exactly when the ids differ and both are columns, and the new list is a move of the old |
| KanbanBoard.MoveOnlyWhenChanged | src/components/kanban-board.tsx:276-282 | an update is asked for only when the status or the order changes |
| KanbanBoard.DropOnColumnGoesLast | src/components/kanban-board.tsx:229-262 | a drop on `column-<id>` moves the ticket to that column with order 0 in an empty column, and after every ordered ticket otherwise |
| KanbanBoard.DropOnShownTicketSucceeds | src/components/kanban-board.tsx:235-274 | a drop on a ticket shown in its column never reads a missing neighbour |
| KanbanBoard.RenameColumn | src/components/kanban-board.tsx:285-290 | only the columns with that id take the new name; ids and order are kept |
| KanbanBoard.RenameIdempotent | src/components/kanban-board.tsx:285-290 | renaming twice is renaming once |
| KanbanBoard.RenameRemovesNothing | src/components/kanban-board.tsx:285-290 | a rename sent to the server removes no column, so it moves no ticket |
| KanbanBoard.WithoutColumn | src/components/kanban-board.tsx:292-295 | exactly the columns with another id remain |
| KanbanBoard.DeleteRemovesExactly | src/components/kanban-board.tsx:292-295 | a delete removes exactly the columns with that id, and the new first column is an old one |
| TicketDetail.StripTags | src/components/ticket-detail.tsx:139 | stripping never lengthens the text and keeps only characters of the input |
| TicketDetail.AfterFirst | src/components/ticket-detail.tsx:139 | the rest after the first occurrence of a character is shorter and holds only characters of the input |
| TicketDetail.StripTagsSpec | src/components/ticket-detail.tsx:139 | the stripped string holds no tag, and a tag-free string is left as it is |
| TicketDetail.EmptyParagraphIsEmpty | src/components/ticket-detail.tsx:138-141 | `<p></p>` is empty HTML |
| TicketDetail.ParagraphWithTextIsNotEmpty | src/components/ticket-detail.tsx:138-141 | markup around a letter is not empty HTML |
| TicketDetail.IsEmptyHtml | src/components/ticket-detail.tsx:138-141 | HTML is empty exactly when what is left after removing its tags is all white space |
| TicketDetail.TagFreeEmptyIffBlank | src/components/ticket-detail.tsx:138-141 | a tag-free string is empty HTML exactly when it is all white space |
| TicketDetail.AddComment | src/components/ticket-detail.tsx:143-155 | empty HTML adds nothing; otherwise exactly one comment with author `owner \|\| 'user_1'` is appended and earlier comments are unchanged |
| TicketDetail.EditComment | src/components/ticket-detail.tsx:165-175 | the comments with that id take the new text; length and order are kept |
| TicketDetail.EditKeepsIdentity | src/components/ticket-detail.tsx:165-175 | editing keeps every id, author and date |
| TicketDetail.EditIdempotent | src/components/ticket-detail.tsx:165-175 | saving the same edit twice is saving it once |
| TicketDetail.DeleteComments | src/components/ticket-detail.tsx:182-185 | exactly the comments with another id remain |
| TicketDetail.DeleteDistributes | src/components/ticket-detail.tsx:182-185 | the filter distributes over concatenation, so the remaining comments keep their order |
| TicketDetail.DeleteAbsentId | src/components/ticket-detail.tsx:182-185 | deleting an id no comment has changes nothing |
| TicketDetail.DeleteUndoesAdd | src/components/ticket-detail.tsx:143-185 | deleting a comment just added under a fresh id gives back the earlier list |
| TicketDetail.ConvertMarkdownToHtml | src/components/ticket-detail.tsx:85-92 | the empty text gives the empty text; otherwise the `\n\n` pieces of the rewritten text are each wrapped in `<p>…</p>`, so the result starts with `<p>` |
| TicketDetail.SplitWithoutSeparator | src/components/ticket-detail.tsx:90 | a text without a blank line is one piece |
| TicketDetail.SingleParagraph | src/components/ticket-detail.tsx:85-92 | a rewritten text without a blank line becomes one paragraph |
| TicketDetail.LoadBodyIdempotent | src/components/ticket-detail.tsx:77-78 | loading an already loaded body leaves it as it is |
| TicketDetail.OrNull | src/components/ticket-detail.tsx:99-100 | an empty string is sent as null, any other one as itself |
| TicketDetail.OrEmpty | src/components/ticket-detail.tsx:75-76 | an absent value shows as the empty string |
| TicketDetail.OwnerRoundTrip | src/components/ticket-detail.tsx:71-104 | opening a ticket and saving it unchanged sends back its owner and priority, with an empty one as null |
| TicketDetail.TicketForm.constructor | src/components/ticket-detail.tsx:59-69 | the form starts empty, with no comment being edited |
| TicketDetail.TicketForm.Load | src/components/ticket-detail.tsx:71-83 | opening a ticket loads its fields, absent ones as empty strings, the body through `LoadBody`, and clears the new comment and the comment being edited |
| TicketDetail.TicketForm.Updates | src/components/ticket-detail.tsx:94-104 | the saved record has the edited fields, with an empty owner or priority as null |
| TicketDetail.TicketForm.HandleAddComment | src/components/ticket-detail.tsx:143-155 | the comment list becomes `AddComment` of the old one, and the input is cleared exactly when a comment was added; the ticket fields, the saving flag and the comment being edited stay as they were |
| TicketDetail.TicketForm.HandleEditComment | src/components/ticket-detail.tsx:157-163 | editing starts only for a comment that exists, with its text; the comments, the new comment input, the ticket fields and the saving flag stay as they were |
| TicketDetail.TicketForm.HandleSaveCommentEdit | src/components/ticket-detail.tsx:165-175 | nothing changes without an editing id or with empty HTML; otherwise the list becomes `EditComment` of the old one and editing ends; the ticket fields, the new comment input and the saving flag stay as they were |
| TicketDetail.TicketForm.HandleCancelCommentEdit | src/components/ticket-detail.tsx:177-180 | editing ends; the comments, the ticket fields, the new comment input and the saving flag stay as they were |
| TicketDetail.TicketForm.HandleDeleteComment | src/components/ticket-detail.tsx:182-185 | a confirmed delete makes the list `DeleteComments` of the old one; a refused one changes nothing; the ticket fields, the new comment input, the saving flag and the comment being edited stay as they were |
| TicketDetail.FindComment | src/components/ticket-detail.tsx:158 | nothing is found exactly when no comment has the id; otherwise the first comment with it |
| ColumnManager.AddColumn | src/components/column-manager.tsx:188-197 | a blank name adds nothing; otherwise exactly one column with the trimmed name is appended and the others are unchanged |
| ColumnManager.AddedNameTrimmed | src/components/column-manager.tsx:188-197 | an added column's name is non-blank and already trimmed |
| ColumnManager.DeleteUndoesAdd | src/components/column-manager.tsx:178-197 | deleting a column just added under a fresh id gives back the earlier list |
| ColumnManager.DeleteRemovesAtMostOne | src/components/column-manager.tsx:178-186 | with distinct ids a delete removes at most one column |
| ColumnManager.WithoutColumnDistributes | src/components/column-manager.tsx:178-186 | the delete filter distributes over concatenation, so the remaining columns keep their order |
| ColumnManager.DeleteKeepsSavable | src/components/column-manager.tsx:178-186 | with distinct ids, a delete from two or more columns leaves the dialog savable |
| ColumnManager.ItemSaveRenames | src/components/column-manager.tsx:68-75 | a saved item edit gives its column a non-blank trimmed name and keeps every id |
| ColumnManager.Manager.constructor | src/components/column-manager.tsx:145-148 | the dialog starts with the given columns and an empty name field |
| ColumnManager.Manager.HandleDragEnd | src/components/column-manager.tsx:162-172 | a drop on itself or outside the list changes nothing; a drop on another column moves the dragged column to its place; the result is always a permutation |
| ColumnManager.Manager.HandleRename | src/components/column-manager.tsx:174-176 | only the columns with that id get the new name |
| ColumnManager.Manager.HandleDelete | src/components/column-manager.tsx:178-186 | at most one column, or no confirmation, changes nothing; otherwise exactly the columns with that id are removed |
| ColumnManager.Manager.HandleAddColumn | src/components/column-manager.tsx:188-197 | the list becomes `AddColumn` of the old one, and the name field is cleared exactly when a column was added |
| ColumnManager.ColumnItem.constructor | src/components/column-manager.tsx:50-52 | the editor starts closed, holding the column's name |
| ColumnManager.ColumnItem.HandleSave | src/components/column-manager.tsx:68-75 | a non-blank name is sent trimmed for the column's id; a blank one sends nothing and reverts to the column's name; editing ends |
| ColumnManager.ColumnItem.HandleCancel | src/components/column-manager.tsx:77-80 | the name reverts and editing ends |
| CreateTicketModal.DefaultStatus | src/components/create-ticket-modal.tsx:56-64 | the default status, else the first column id, else the empty string |
| CreateTicketModal.CreatePayload | src/components/create-ticket-modal.tsx:70-80 | nothing is submitted exactly when the title is blank or the priority empty or `none`; otherwise the title is trimmed, an empty or `none` owner is left out, and a blank body is left out, any other trimmed |
| CreateTicketModal.CreatePayloadIdempotent | src/components/create-ticket-modal.tsx:70-80 | submitting the submitted record again gives the same record |
| CreateTicketModal.SubmittedPassesSchema | src/components/create-ticket-modal.tsx:70-80 | a submitted record with a non-empty board and status passes the server's ticket schema |
| CreateTicketModal.CreateForm.constructor | src/components/create-ticket-modal.tsx:52-60 | the form starts reset: priority `high`, owner `bot`, the default status |
| CreateTicketModal.CreateForm.ResetForm | src/components/create-ticket-modal.tsx:62-68 | the form is back to its defaults |
| CreateTicketModal.CreateForm.HandleCreate | src/components/create-ticket-modal.tsx:70-89 | the submitted record is `CreatePayload` of the form; only a successful create resets and closes the form, a failed one keeps it |
| CreateTicketModal.CreateForm.HandleClose | src/components/create-ticket-modal.tsx:91-94 | closing always resets the form |
| UserAvatar.FirstChars | src/components/user-avatar.tsx:23-24 | one character per non-empty word: the first character of each, in order |
| UserAvatar.Initials | src/components/user-avatar.tsx:20-27 | at most two characters, none an ASCII lower-case letter |
| UserAvatar.SplitAfterWord | src/components/user-avatar.tsx:22 | splitting at the first space gives the word before it, then the pieces of the rest |
| UserAvatar.SplitJoinedWords | src/components/user-avatar.tsx:22 | words without spaces joined by single spaces split back into the same words |
| UserAvatar.InitialsOfTwoWords | src/components/user-avatar.tsx:20-27 | a first and a last name give the upper-cased first letter of each |
| UserAvatar.InitialsSkipEmptyWords | src/components/user-avatar.tsx:21-24 | empty words contribute nothing: `" ann"` gives `"A"` |
| UserAvatar.Int32 | src/components/user-avatar.tsx:52 | the value is in the 32-bit signed range and congruent to its input modulo 2^32 |
| UserAvatar.ShiftLeft5 | src/components/user-avatar.tsx:52 | `<< 5` is a 32-bit signed value congruent to 32 times its input modulo 2^32 |
| UserAvatar.HashBound | src/components/user-avatar.tsx:50-53 | the hash is at most the name's length times 2^31 + 0x110000 in absolute value, so a double holds it exactly for names shorter than about 4.19 million characters |
| UserAvatar.ColorFromName | src/components/user-avatar.tsx:29-56 | the loop keeps the hash of the prefix read so far; the colour is the entry at `abs(hash) % 17`, so always one of the 17 classes |
| UserAvatar.EmptyNameIsRed | src/components/user-avatar.tsx:50-55 | the empty name gets `bg-red-500` |
| UserAvatar.SingleLetterColor | src/components/user-avatar.tsx:50-55 | `"a"` hashes to 97 and gets `bg-violet-500` |
| HolidayEffects.EasterDate | src/components/holiday-effects.tsx:26-42 | the computed Easter Sunday lies between 22 March and 25 April |
| HolidayEffects.EasterFromBounds | src/components/holiday-effects.tsx:34-40 | for every admissible `a`, `h` and `l` the month and day formulas give 22 to 31 March or 1 to 25 April |
| HolidayEffects.EasterInSpring | src/components/holiday-effects.tsx:25-42 | Easter Sunday falls between 22 March and 25 April |
| HolidayEffects.Easter2024 | src/components/holiday-effects.tsx:26-41 | 2024 gives 31 March |
| HolidayEffects.Easter2025 | src/components/holiday-effects.tsx:26-41 | 2025 gives 20 April |
| HolidayEffects.InEasterWindow | src/components/holiday-effects.tsx:60-67 | a date in the Easter window is between the 67th and the 122nd day of the year (one later in leap years) |
| HolidayEffects.CurrentHoliday | src/components/holiday-effects.tsx:44-74 | Halloween exactly in 15 October to 2 November; Easter exactly in its window outside the other two; every other day gives the Christmas snowflakes, never nothing |
| HolidayEffects.MonthStarts | src/components/holiday-effects.tsx:60-69 | the day numbers of the first days of February to June |
| HolidayEffects.EasterDayOfYear | src/components/holiday-effects.tsx:60-69 | Easter Sunday is the 81st to 115th day of the year, one later in leap years |
| HolidayEffects.EasterWindowInSpring | src/components/holiday-effects.tsx:50-69 | a moment in the Easter window lies in March to May, so the earlier windows never hide it |
| HolidayEffects.EasterWindowClosesAtMidnight | src/components/holiday-effects.tsx:64-67 | the seventh day after Easter counts only at midnight: 8 April 2024 at 1 ms past midnight is outside |
| HolidayEffects.ParticleCount | src/components/holiday-effects.tsx:107-114 | no particles exactly while unmounted or disabled; once mounted and enabled, 30 exactly for Halloween, otherwise 50 |
| HolidayEffects.ParticlesShown | src/components/holiday-effects.tsx:107-114 | once mounted and enabled, the count is 30 exactly in the Halloween window and 50 otherwise |

## Left out

- The git subprocess layer (`child_process.exec`, its 10 MB buffer, what git does to the repository) is an oracle from the command history to a reply. The repeated status polling and overlapping syncs are concurrency and are not modelled.
- The file system is a value. `fs` errors other than "missing" (permissions, a full disk), `mkdir` of `.kanban`, and the `readdir` failure branch of `getTicketsForBoard` (which returns `[]`) are not modelled. The ticket directory is created just before the listing, so the listing cannot miss it.
- The JSON, YAML front matter and zod formats are not modelled. The configuration file is missing, unparsable or a parsed record. A ticket file is unreadable or a front-matter map plus body. Schemas are predicates on records, so a request whose JSON shape is wrong is one "unshaped" case, and a body that does not parse or parses to `null` (whose `action` cannot be read) is one "not JSON" case.
- Clocks and randomness are parameters: the ticket id, the `board_`, `col_` and comment ids, the ISO timestamps, and the current date and time. `generateTicketId` is modelled only by the shape of its output (`T-` then no dash).
- Tickets.MoveEach: one timestamp `now` is passed to every update of the loop, whereas each `updateTicket` reads the clock again, so the moved tickets' `updatedAt` values may differ in the source.
- Tickets.ParseTicketFile: a front matter without `id` or `title` gives the empty string, whereas the source keeps `undefined`, which later names a file `undefined-…` or makes `slugify` throw on the title.
- Git.DivergenceOf: a count field is read only when it is a non-empty run of decimal digits, and 0 otherwise. JavaScript's `Number` also accepts surrounding white space, a sign, exponents, hexadecimal and fractions (`" 3"`, `"+3"`, `"1e1"`, `"0x10"`, `"3.5"`), where the model gives 0. Plain decimal counts, which `rev-list --count` prints, are read the same way.
- Boards.ReadConfig: for a missing or invalid file the source returns the shared `DEFAULT_CONFIG` object itself (src/lib/server/boards.ts:45, :60), and the mutators change that object in place before `writeConfig` validates it (src/lib/server/boards.ts:112, :133, :137, :140, :157, :168, :177). A refused write, such as an update to an empty column list while the file is unparsable, therefore alters the default that every later fallback read in the same process returns; `GET` can then serve an invalid configuration, or answer 500 when `initializeConfig`'s write of the altered default fails. The model returns a fresh default on each read, so this aliasing is not captured, and "the result is always valid" holds only for the unaltered default.
- BoardsRoute.HandleUpdate: the served update (and `Post`'s `update` branch) writes the board first and then moves the tickets of the removed columns, the corrected order of the Findings below. src/app/api/boards/route.ts:47-58 moves the tickets first and then calls `updateBoard`; `BoardsRoute.UpdateAsWritten` models that order.
- BoardsRoute.UpdateCorrectedStoresBoard: states only that the board is stored, for any listing. That the moves then succeed and the tickets land in the new first column is `BoardsRoute.UpdateCorrectedLands`, under three premises: the listing is complete; no earlier board has the same slug (the schema allows duplicates, and the move looks the board up by slug); and the ticket directory is well kept, which `Tickets.CreateKeepsWellKept`, `UpdateKeepsWellKept`, `DeleteKeepsWellKept` and `MoveTicketsKeepsWellKept` preserve.
- Case mapping is ASCII-only. Dafny characters are not UTF-16 code units, so `charCodeAt` of a character outside the Basic Multilingual Plane is not modelled.
- Ticket orders are reals. The rounding of repeated midpoints in doubles is not modelled.
- UserAvatar.ColorFromName: the hash is computed exactly, as a double holds it only while it stays below 2^53. `HashBound` bounds it by the name's length times 2^31 + 0x110000, which is below 2^53 only for names shorter than about 4.19 million characters. Longer names are not modelled faithfully.
- KanbanBoard.SortByOrderSpec: the sort's stability among equal orders is not stated. The proved property is sorted plus permutation.
- TicketDetail.ConvertMarkdownToHtml: the image, bold and italic regex rewrites are parameters (`InlineRewrites`). Only the paragraph split and wrapping are modelled.
- ColumnManager.Manager.HandleDragEnd: when either id is not in the list, the model keeps the list unchanged, whereas `arrayMove` with index -1 would splice from the end. The drag library only reports ids of rendered columns, so this case does not arise.
- HolidayEffects.CurrentHoliday: JavaScript `Date` is replaced by year, month, day and milliseconds since midnight in local time. Daylight-saving shifts and negative years are not modelled.
- The particles' random positions and sizes, all rendering, dialogs, the clipboard and the rich-text editor are not modelled. `confirm` answers are boolean inputs, and `alert` is the unchanged state.
- Ticket deletion from the detail dialog, copy-link and the hooks that call the HTTP API are not modelled; they only forward to the server operations modelled here.
- The `console.error` logging is not modelled: src/lib/server/git.ts:103, src/lib/server/tickets.ts:104 and :110, src/app/api/boards/route.ts:12 and :88 only write to the server log before the error path the model follows.
- The ticket and git HTTP routes are not modelled. They only gate `getGitStatus` and `sync` behind `isGitRepo` and map results to status codes.

## Findings

| source | as written | input that shows it | evidently intended | confidence | as-written member | corrected member |
|---|---|---|---|---|---|---|
| src/app/api/boards/route.ts:41-58 | the tickets of removed columns are moved before `updateBoard` writes the new columns, and `updateTicket` checks the target status against the stored (old) columns | an update whose new first column is a new column while a removed column still holds a ticket (e.g. replacing a board's only column `todo` by `doing`) | write the board first, then move the tickets into the new first column | not executed | BoardsRoute.UpdateAsWrittenRejectsNewFirstColumn | BoardsRoute.UpdateCorrectedLands |

Under the code as written, the request answers 500 and neither the board nor any ticket changes (`BoardsRoute.ReplacingOnlyColumnFails` shows it on a concrete store). `BoardsRoute.HandleUpdate` uses the corrected order, under which `BoardsRoute.UpdateCorrectedLands` proves that the update answers 200, stores the board, and moves every ticket of a removed column into the new first column. The board component's own delete cannot trigger the fault, because its new first column is always an existing one (`KanbanBoard.DeleteRemovesExactly`), and with an existing first column the code as written answers 200 and lands the tickets (`BoardsRoute.UpdateAsWrittenLands`). The column dialog can trigger it: it can add a column, drag it first and delete the old columns in one save.
