/**
 * The zod schemas that guard the configuration file and the request bodies,
 * as validity predicates over the records they accept.
 */
module Schemas {
  import opened Wrappers
  import opened Text
  import opened KanbanTypes

  /** `z.string().min(1)`. */
  predicate Filled(s: string) { |s| > 0 }

  /** `z.string().min(1).regex(/^[a-z0-9-]+$/)`. */
  predicate SlugValid(s: string) {
    Filled(s) && forall i :: 0 <= i < |s| ==> IsSlugChar(s[i])
  }

  predicate ColumnValid(c: Column) { Filled(c.id) && Filled(c.name) }

  predicate ColumnsValid(cs: seq<Column>) { forall i :: 0 <= i < |cs| ==> ColumnValid(cs[i]) }

  predicate PriorityValid(p: Priority) { Filled(p.id) && Filled(p.name) && Filled(p.color) }

  predicate PrioritiesValid(ps: seq<Priority>) { forall i :: 0 <= i < |ps| ==> PriorityValid(ps[i]) }

  /** The avatar is an optional string of any length. */
  predicate UserValid(u: User) { Filled(u.id) && Filled(u.name) }

  predicate UsersValid(us: seq<User>) { forall i :: 0 <= i < |us| ==> UserValid(us[i]) }

  predicate BoardValid(b: Board) {
    Filled(b.id) && Filled(b.name) && SlugValid(b.slug) && |b.columns| >= 1 && ColumnsValid(b.columns)
  }

  predicate BoardsValid(bs: seq<Board>) { forall i :: 0 <= i < |bs| ==> BoardValid(bs[i]) }

  /** `KanbanConfigSchema`: every element valid; ids and slugs need not be distinct. */
  predicate ConfigValid(c: Config) {
    BoardsValid(c.boards) && PrioritiesValid(c.priorities) && UsersValid(c.users)
  }

  predicate CommentValid(c: Comment) { Filled(c.id) && Filled(c.author) && Filled(c.text) }

  predicate CommentsValid(cs: seq<Comment>) { forall i :: 0 <= i < |cs| ==> CommentValid(cs[i]) }

  /** `TicketSchema`: the internal file name is not part of it. */
  predicate TicketValid(t: Ticket) {
    Filled(t.id) && Filled(t.board) && Filled(t.title) && Filled(t.status) &&
    (t.comments.Some? ==> CommentsValid(t.comments.value))
  }

  /** The body of a board creation request. */
  datatype CreateBoardInput = CreateBoardInput(name: string, slug: Option<string>, columns: Option<seq<Column>>)

  predicate CreateBoardValid(r: CreateBoardInput) {
    Filled(r.name) && (r.slug.Some? ==> SlugValid(r.slug.value)) && (r.columns.Some? ==> ColumnsValid(r.columns.value))
  }

  /** The body of a board update request. */
  datatype UpdateBoardInput = UpdateBoardInput(id: string, name: Option<string>, columns: Option<seq<Column>>)

  predicate UpdateBoardValid(r: UpdateBoardInput) {
    Filled(r.id) && (r.name.Some? ==> Filled(r.name.value)) && (r.columns.Some? ==> ColumnsValid(r.columns.value))
  }

  predicate DeleteBoardValid(id: string) { Filled(id) }

  /** The body of a ticket creation request. */
  datatype CreateTicketInput = CreateTicketInput(
    board: string, title: string, status: string, owner: Option<string>, priority: string, body: Option<string>)

  predicate CreateTicketValid(r: CreateTicketInput) {
    Filled(r.board) && Filled(r.title) && Filled(r.status) && Filled(r.priority)
  }

  /**
   * The body of a ticket update request.  `owner` and `priority` are
   * nullable: `None` is an absent field, `Some(None)` an explicit `null`.
   */
  datatype UpdateTicketInput = UpdateTicketInput(
    title: Option<string>, status: Option<string>,
    owner: Option<Option<string>>, priority: Option<Option<string>>,
    body: Option<string>, order: Option<real>, comments: Option<seq<Comment>>)

  predicate UpdateTicketValid(r: UpdateTicketInput) {
    (r.title.Some? ==> Filled(r.title.value)) && (r.status.Some? ==> Filled(r.status.value)) &&
    (r.comments.Some? ==> CommentsValid(r.comments.value))
  }

  /** The body of a settings update request. */
  datatype UpdateConfigInput = UpdateConfigInput(priorities: Option<seq<Priority>>, users: Option<seq<User>>)

  predicate UpdateConfigValid(r: UpdateConfigInput) {
    (r.priorities.Some? ==> PrioritiesValid(r.priorities.value)) && (r.users.Some? ==> UsersValid(r.users.value))
  }

  /** The built-in configuration passes its own schema. */
  lemma DefaultConfigValid()
    ensures ConfigValid(DefaultConfig)
  {
    var b := DefaultConfig.boards[0];
    assert b.slug == "main";
    assert SlugValid(b.slug) by {
      assert forall i :: 0 <= i < 4 ==> IsSlugChar("main"[i]);
    }
  }

  /** Two boards may share a slug and an id and the configuration is still accepted. */
  lemma DuplicateSlugsAccepted()
    ensures exists c :: ConfigValid(c) && |c.boards| == 2 && c.boards[0].slug == c.boards[1].slug && c.boards[0].id == c.boards[1].id
  {
    DefaultConfigValid();
    var b := DefaultConfig.boards[0];
    var c := DefaultConfig.(boards := [b, b]);
    assert ConfigValid(c);
  }

  /** A valid configuration stays valid with a board appended exactly when that board is valid. */
  lemma {:induction false} AppendBoardValid(c: Config, b: Board)
    requires ConfigValid(c)
    ensures ConfigValid(c.(boards := c.boards + [b])) <==> BoardValid(b)
  {
    var bs := c.boards + [b];
    assert bs[|bs| - 1] == b;
    assert forall i :: 0 <= i < |c.boards| ==> bs[i] == c.boards[i];
  }

  /** A valid configuration stays valid with one board replaced exactly when the replacement is valid. */
  lemma {:induction false} ReplaceBoardValid(c: Config, i: nat, b: Board)
    requires ConfigValid(c) && i < |c.boards|
    ensures ConfigValid(c.(boards := c.boards[i := b])) <==> BoardValid(b)
  {
    assert c.boards[i := b][i] == b;
  }

  /** Removing a board keeps a valid configuration valid. */
  lemma {:induction false} RemoveBoardValid(c: Config, i: nat)
    requires ConfigValid(c) && i < |c.boards|
    ensures ConfigValid(c.(boards := c.boards[..i] + c.boards[i + 1..]))
  {
    var bs := c.boards[..i] + c.boards[i + 1..];
    assert forall k :: 0 <= k < |bs| ==> bs[k] == c.boards[if k < i then k else k + 1];
  }
}
