/**
 * The ticket store: one Markdown file per ticket in the board's directory,
 * named after the ticket's id and a slug of its title, with the ticket's
 * fields as front matter and its description as the body.
 */
module Tickets {
  import opened Wrappers
  import opened Text
  import opened KanbanTypes
  import opened Schemas
  import opened FileStore
  import opened Boards

  /** `replace(/^-|-$/g, '')`: one leading and one trailing dash go. */
  function StripDashEdges(s: string): (r: string)
    ensures |r| <= |s|
    ensures (r == [] || r[0] != '-') || (|s| >= 2 && s[0] == '-' && s[1] == '-')
  {
    var a := if |s| > 0 && s[0] == '-' then s[1..] else s;
    if |a| > 0 && a[|a| - 1] == '-' then a[..|a| - 1] else a
  }

  /** The dash-run form before the 50-character cut. */
  function SlugBeforeCut(title: string): string {
    StripDashEdges(DashRuns(Lower(title)))
  }

  /**
   * `slugify`: lower case, every run of characters outside `[a-z0-9]`
   * becomes one dash, a leading and a trailing dash are dropped, and the
   * result is cut to 50 characters.
   */
  function Slugify(title: string): (slug: string)
    ensures |slug| <= 50
    ensures forall i :: 0 <= i < |slug| ==> IsSlugChar(slug[i])
    ensures forall i :: 0 <= i < |slug| - 1 ==> !(slug[i] == '-' && slug[i + 1] == '-')
    ensures slug == [] || slug[0] != '-'
  {
    var s := SlugBeforeCut(title);
    StripDashEdgesEnds(DashRuns(Lower(title)));
    if |s| <= 50 then s else s[..50]
  }

  /** The stripped form is a contiguous slice of its input. */
  lemma StripDashEdgesIsSlice(d: string)
    ensures var s := StripDashEdges(d); var lead := if |d| > 0 && d[0] == '-' then 1 else 0;
      lead + |s| <= |d| && s == d[lead..lead + |s|]
  {
  }

  /** Stripping keeps the slug characters and single dashes, and leaves no dash at either end. */
  lemma StripDashEdgesEnds(d: string)
    requires forall i :: 0 <= i < |d| ==> IsSlugChar(d[i])
    requires forall i :: 0 <= i < |d| - 1 ==> !(d[i] == '-' && d[i + 1] == '-')
    ensures var s := StripDashEdges(d);
      && (forall i :: 0 <= i < |s| ==> IsSlugChar(s[i]))
      && (forall i :: 0 <= i < |s| - 1 ==> !(s[i] == '-' && s[i + 1] == '-'))
      && (s == [] || (s[0] != '-' && s[|s| - 1] != '-'))
  {
    StripDashEdgesIsSlice(d);
    var a := if |d| > 0 && d[0] == '-' then d[1..] else d;
    assert forall i :: 0 <= i < |a| - 1 ==> !(a[i] == '-' && a[i + 1] == '-');
    if |a| >= 2 && a[|a| - 1] == '-' {
      assert a[|a| - 2] != '-';
    }
  }

  /** A trailing dash in a slug can only come from the 50-character cut. */
  lemma SlugTrailingDashOnlyFromCut(title: string)
    ensures var slug := Slugify(title);
      slug != [] && slug[|slug| - 1] == '-' ==> |SlugBeforeCut(title)| > 50
  {
    StripDashEdgesEnds(DashRuns(Lower(title)));
  }

  /** A non-empty slug passes the board slug rule. */
  lemma SlugifiedIsValidSlug(title: string)
    ensures Slugify(title) != [] ==> SlugValid(Slugify(title))
  {
  }

  /** Strings that already have the slug form: lower-case alphanumerics and single inner dashes, at most 50. */
  predicate SlugForm(s: string) {
    && |s| <= 50
    && (forall i :: 0 <= i < |s| ==> IsSlugChar(s[i]))
    && (forall i :: 0 <= i < |s| - 1 ==> !(s[i] == '-' && s[i + 1] == '-'))
    && (s == [] || (s[0] != '-' && s[|s| - 1] != '-'))
  }

  /** Slug characters with no two dashes in a row: what `DashRuns` produces. */
  predicate DashFree(s: string) {
    && (forall i :: 0 <= i < |s| ==> IsSlugChar(s[i]))
    && (forall i :: 0 <= i < |s| - 1 ==> !(s[i] == '-' && s[i + 1] == '-'))
  }

  /** Dropping the first character keeps the property, and a leading dash is followed by a non-dash. */
  lemma DashFreeTail(s: string)
    requires s != [] && DashFree(s)
    ensures DashFree(s[1..])
    ensures s[0] == '-' ==> s[1..] == [] || IsLowerAlnum(s[1])
  {
    var t := s[1..];
    forall i | 0 <= i < |t| ensures IsSlugChar(t[i]) {
      assert t[i] == s[i + 1];
    }
    forall i | 0 <= i < |t| - 1 ensures !(t[i] == '-' && t[i + 1] == '-') {
      assert t[i] == s[i + 1] && t[i + 1] == s[i + 2];
    }
  }

  lemma {:induction false} DashRunsKeepsSlugChars(s: string)
    requires DashFree(s)
    ensures DashRuns(s) == s
    decreases |s|
  {
    if s != [] {
      var t := s[1..];
      DashFreeTail(s);
      DashRunsKeepsSlugChars(t);
      if IsLowerAlnum(s[0]) {
        assert DashRuns(s) == [s[0]] + DashRuns(t);
      } else {
        assert SkipRun(t) == t;
        assert SkipRun(s) == t;
        assert DashRuns(s) == "-" + DashRuns(t);
      }
      assert s == [s[0]] + t;
    }
  }

  /** Lower-casing leaves slug characters as they are. */
  lemma LowerKeepsSlugChars(s: string)
    requires forall i :: 0 <= i < |s| ==> IsSlugChar(s[i])
    ensures Lower(s) == s
  {
    forall i | 0 <= i < |s| ensures Lower(s)[i] == s[i] {
      assert IsSlugChar(s[i]);
    }
  }

  /** Without a dash at either end there is nothing to strip. */
  lemma StripDashEdgesKeeps(s: string)
    requires s == [] || (s[0] != '-' && s[|s| - 1] != '-')
    ensures StripDashEdges(s) == s
  {
  }

  /** A slug-form string comes through every step before the cut unchanged. */
  lemma SlugBeforeCutKeeps(s: string)
    requires SlugForm(s)
    ensures SlugBeforeCut(s) == s
  {
    LowerKeepsSlugChars(s);
    assert DashFree(s);
    DashRunsKeepsSlugChars(s);
    StripDashEdgesKeeps(s);
  }

  /** `slugify` leaves a slug-form string as it is, so slugs are its fixed points. */
  lemma SlugifyFixesSlugForm(s: string)
    requires SlugForm(s)
    ensures Slugify(s) == s
  {
    SlugBeforeCutKeeps(s);
  }

  /** `getTicketFilename`: `<id>-<slug>.md`. */
  function TicketFilename(id: string, title: string): (name: string)
    ensures name == id + "-" + Slugify(title) + ".md"
    ensures StartsWith(name, id + "-") && EndsWith(name, ".md")
  {
    var name := id + "-" + Slugify(title) + ".md";
    assert name[..|id| + 1] == id + "-";
    assert name[|name| - 3..] == ".md";
    name
  }

  /** Two titles give the same file name for an id exactly when they give the same slug. */
  lemma SameFilenameIffSameSlug(id: string, t1: string, t2: string)
    ensures TicketFilename(id, t1) == TicketFilename(id, t2) <==> Slugify(t1) == Slugify(t2)
  {
    var n1 := TicketFilename(id, t1);
    var n2 := TicketFilename(id, t2);
    if n1 == n2 {
      assert Slugify(t1) == n1[|id| + 1..|n1| - 3];
      assert Slugify(t2) == n2[|id| + 1..|n2| - 3];
    }
  }

  /** The ids `generateTicketId` makes: `T-` then upper-case base-36 digits. */
  predicate GeneratedId(id: string) {
    |id| >= 2 && id[0] == 'T' && id[1] == '-' && forall i :: 2 <= i < |id| ==> IsUpperAscii(id[i]) || IsDigit(id[i])
  }

  /** A generated id ends before the first dash that follows its `T-` prefix. */
  lemma {:induction false} GeneratedIdPrefix(a: string, b: string, x: string, y: string)
    requires GeneratedId(a) && GeneratedId(b)
    requires a + "-" + x == b + "-" + y
    ensures a == b
  {
    var n := a + "-" + x;
    assert n[|a|] == '-' && n[|b|] == '-';
    assert forall i :: 2 <= i < |a| ==> n[i] == a[i] && n[i] != '-';
    assert forall i :: 2 <= i < |b| ==> n[i] == b[i] && n[i] != '-';
    assert |a| == |b|;
    assert a == n[..|a|] && b == n[..|b|];
  }

  /** For generated ids the file name determines the id: no two generated ids share a file name. */
  lemma FilenameDeterminesId(a: string, b: string, t1: string, t2: string)
    requires GeneratedId(a) && GeneratedId(b)
    requires TicketFilename(a, t1) == TicketFilename(b, t2)
    ensures a == b
  {
    var x, y := Slugify(t1), Slugify(t2);
    var n := TicketFilename(a, t1);
    assert n == (a + "-" + x) + ".md" == (b + "-" + y) + ".md";
    assert n[..|n| - 3] == a + "-" + x;
    assert n[..|n| - 3] == b + "-" + y;
    GeneratedIdPrefix(a, b, x, y);
  }

  /** A JavaScript truthy string: present and non-empty. */
  predicate Truthy(s: Option<string>) { s.Some? && s.value != "" }

  /**
   * The front matter `serializeTicket` writes: the six required fields
   * always, owner and priority when non-empty, the order whenever it is set
   * (0 included), the comments when there are any.
   */
  function Serialized(t: Ticket): Doc {
    Doc(FrontMatter(
          Some(Text(t.id)), Some(Text(t.board)), Some(Text(t.title)), Some(Text(t.status)),
          if Truthy(t.owner) then Some(Text(t.owner.value)) else None,
          if Truthy(t.priority) then Some(Text(t.priority.value)) else None,
          if t.order.Some? then Some(Number(t.order.value)) else None,
          Some(Text(t.createdAt)), Some(Text(t.updatedAt)),
          if t.comments.Some? && |t.comments.value| > 0 then Some(Comments(t.comments.value)) else None),
        t.body.GetOr(""))
  }

  /** `serializeTicket`: the required fields, then each optional one that is set, one assignment at a time. */
  method SerializeTicket(t: Ticket) returns (doc: Doc)
    ensures doc == Serialized(t)
  {
    var front := NoFrontMatter.(
      id := Some(Text(t.id)), board := Some(Text(t.board)), title := Some(Text(t.title)),
      status := Some(Text(t.status)), createdAt := Some(Text(t.createdAt)), updatedAt := Some(Text(t.updatedAt)));
    if t.owner.Some? && t.owner.value != "" { front := front.(owner := Some(Text(t.owner.value))); }
    if t.priority.Some? && t.priority.value != "" { front := front.(priority := Some(Text(t.priority.value))); }
    if t.order.Some? { front := front.(order := Some(Number(t.order.value))); }
    if t.comments.Some? && |t.comments.value| > 0 { front := front.(comments := Some(Comments(t.comments.value))); }
    var body := if t.body.Some? && t.body.value != "" then t.body.value else "";
    doc := Doc(front, body);
  }

  /** A required string field: `data.key`, read as the empty text when it is missing or not a string. */
  function TextField(v: Option<FrontValue>): string {
    if v.Some? && v.value.Text? then v.value.text else ""
  }

  function OptionalText(v: Option<FrontValue>): Option<string> {
    if v.Some? && v.value.Text? then Some(v.value.text) else None
  }

  /** `parseTicketFile`: the front-matter fields, the trimmed body, `comments || []` and the file name. */
  function ParseTicketFile(front: FrontMatter, body: string, filename: string): (t: Ticket)
    ensures t.filename == Some(filename) && t.comments.Some? && t.body == Some(Trim(body))
    ensures front.comments.Some? && front.comments.value.Comments? ==> t.comments == Some(front.comments.value.comments)
    ensures front.comments.None? ==> t.comments == Some([])
    ensures front.order.Some? && front.order.value.Number? ==> t.order == Some(front.order.value.number)
    ensures front.order.None? ==> t.order.None?
    ensures front.owner.None? ==> t.owner.None?
    ensures front.priority.None? ==> t.priority.None?
  {
    Ticket(
      TextField(front.id), TextField(front.board), TextField(front.title), TextField(front.status),
      OptionalText(front.owner), OptionalText(front.priority),
      if front.order.Some? && front.order.value.Number? then Some(front.order.value.number) else None,
      TextField(front.createdAt), TextField(front.updatedAt),
      Some(Trim(body)),
      Some(if front.comments.Some? && front.comments.value.Comments? then front.comments.value.comments else []),
      Some(filename))
  }

  /** What a ticket reads back as: empty owner or priority gone, body trimmed, comments defaulted, the file name attached. */
  function Normalized(t: Ticket, filename: string): Ticket {
    t.(owner := if Truthy(t.owner) then t.owner else None,
       priority := if Truthy(t.priority) then t.priority else None,
       body := Some(Trim(t.body.GetOr(""))),
       comments := Some(t.comments.GetOr([])),
       filename := Some(filename))
  }

  /** Parsing a serialized ticket gives back every written field. */
  lemma ParseSerialized(t: Ticket, filename: string)
    ensures var doc := Serialized(t); ParseTicketFile(doc.front, doc.body, filename) == Normalized(t, filename)
  {
    var front := Serialized(t).front;
  }

  /** A name `getTicketsForBoard` turns into a ticket: a `.md` file that can be read and parsed. */
  predicate IsTicketFile(dir: Dir, f: string) {
    EndsWith(f, ".md") && f in dir && dir[f].Doc?
  }

  /** The ticket a readable ticket file holds. */
  function FileTicket(dir: Dir, f: string): Ticket
    requires IsTicketFile(dir, f)
  {
    ParseTicketFile(dir[f].front, dir[f].body, f)
  }

  /**
   * The tickets of a directory listed in the order `names`: files not ending
   * in `.md` are passed over, files that cannot be read or parsed skipped.
   */
  function TicketsIn(dir: Dir, names: seq<string>): (ts: seq<Ticket>)
    ensures |ts| <= |names|
    ensures forall i :: 0 <= i < |ts| ==>
      ts[i].filename.Some? && IsTicketFile(dir, ts[i].filename.value) && ts[i] == FileTicket(dir, ts[i].filename.value)
  {
    if names == [] then []
    else
      var f := names[|names| - 1];
      TicketsIn(dir, names[..|names| - 1]) + (if IsTicketFile(dir, f) then [FileTicket(dir, f)] else [])
  }

  /** Every readable ticket file the listing names is among the tickets read. */
  lemma {:induction false} TicketsInHasListed(dir: Dir, names: seq<string>, f: string)
    requires f in names && IsTicketFile(dir, f)
    ensures FileTicket(dir, f) in TicketsIn(dir, names)
    decreases |names|
  {
    if names[|names| - 1] != f {
      assert f in names[..|names| - 1];
      TicketsInHasListed(dir, names[..|names| - 1], f);
    }
  }

  /** The loop of `getTicketsForBoard` over the directory listing, each file read and parsed in turn. */
  method ListTickets(dir: Dir, names: seq<string>) returns (tickets: seq<Ticket>)
    ensures tickets == TicketsIn(dir, names)
  {
    tickets := [];
    for i := 0 to |names|
      invariant tickets == TicketsIn(dir, names[..i])
    {
      assert names[..i + 1][..i] == names[..i];
      var f := names[i];
      if EndsWith(f, ".md") {
        if f in dir && dir[f].Doc? {
          tickets := tickets + [ParseTicketFile(dir[f].front, dir[f].body, f)];
        }
      }
    }
    assert names[..|names|] == names;
  }

  function BoardNotFoundMessage(slug: string): string {
    "Board \"" + slug + "\" not found"
  }

  function TicketNotFoundMessage(id: string, slug: string): string {
    "Ticket \"" + id + "\" not found in board \"" + slug + "\""
  }

  function InvalidStatusMessage(status: string, slug: string): string {
    "Invalid status \"" + status + "\" for board \"" + slug + "\""
  }

  /**
   * `getTicketsForBoard`: an unknown board is refused; otherwise its ticket
   * directory is created if missing and its readable tickets returned in
   * listing order.
   */
  function TicketsForBoard(disk: Disk, lister: Lister, slug: string): (r: (Disk, Outcome<seq<Ticket>>))
    ensures r.1.Threw? <==> BoardBySlug(disk, slug).None?
    ensures r.1.Threw? ==> r.0 == disk && r.1.failure == Thrown(BoardNotFoundMessage(slug))
    ensures r.1.Done? ==> r.0 == EnsureTicketsDir(disk, slug)
  {
    if BoardBySlug(disk, slug).None? then (disk, Threw(Thrown(BoardNotFoundMessage(slug))))
    else
      var d := EnsureTicketsDir(disk, slug);
      (d, Done(TicketsIn(d.dirs[slug], lister(d.dirs[slug]))))
  }

  /** With a listing that names every file, every readable ticket file of the board is read. */
  lemma TicketsForBoardComplete(disk: Disk, lister: Lister, slug: string, f: string)
    requires ListsExactly(lister)
    requires BoardBySlug(disk, slug).Some? && slug in disk.dirs && IsTicketFile(disk.dirs[slug], f)
    ensures var r := TicketsForBoard(disk, lister, slug); r.1.Done? && FileTicket(disk.dirs[slug], f) in r.1.value
  {
    var dir := disk.dirs[slug];
    assert f in lister(dir);
    TicketsInHasListed(dir, lister(dir), f);
  }

  method GetTicketsForBoard(disk: Disk, lister: Lister, slug: string) returns (disk': Disk, out: Outcome<seq<Ticket>>)
    ensures (disk', out) == TicketsForBoard(disk, lister, slug)
  {
    if BoardBySlug(disk, slug).None? {
      return disk, Threw(Thrown(BoardNotFoundMessage(slug)));
    }
    disk' := EnsureTicketsDir(disk, slug);
    var dir := disk'.dirs[slug];
    var tickets := ListTickets(dir, lister(dir));
    out := Done(tickets);
  }

  /** `tickets.find(t => t.id === id)`. */
  function FindById(tickets: seq<Ticket>, id: string): (r: Option<Ticket>)
    ensures r.None? <==> forall i :: 0 <= i < |tickets| ==> tickets[i].id != id
    ensures r.Some? ==> r.value.id == id && r.value in tickets
  {
    if tickets == [] then None
    else if tickets[0].id == id then Some(tickets[0])
    else FindById(tickets[1..], id)
  }

  /** `board.columns.some(c => c.id === status)`. */
  predicate HasColumn(columns: seq<Column>, status: string) {
    exists i :: 0 <= i < |columns| && columns[i].id == status
  }

  /** The fields of a new ticket. */
  datatype NewTicket = NewTicket(
    board: string, title: string, status: string, owner: Option<string>, priority: Option<string>, body: Option<string>)

  /** Writes one file into a board's ticket directory. */
  function WriteTicketFile(disk: Disk, slug: string, f: string, doc: Doc): Disk
    requires slug in disk.dirs
  {
    disk.(dirs := disk.dirs[slug := disk.dirs[slug][f := doc]])
  }

  /**
   * `createTicket`: an unknown board or a status that is none of the board's
   * column ids is refused before anything is written; otherwise the ticket
   * directory is ensured and the ticket written under `<id>-<slug>.md`.
   * `id` and `now` are the generated id and the ISO timestamp.
   */
  function CreateTicket(disk: Disk, data: NewTicket, id: string, now: string): (r: (Disk, Outcome<Ticket>))
    ensures BoardBySlug(disk, data.board).None? ==> r == (disk, Threw(Thrown(BoardNotFoundMessage(data.board))))
    ensures BoardBySlug(disk, data.board).Some? && !HasColumn(BoardBySlug(disk, data.board).value.columns, data.status) ==>
      r == (disk, Threw(Thrown(InvalidStatusMessage(data.status, data.board))))
    ensures r.1.Done? ==>
      var f := TicketFilename(id, data.title); var d := EnsureTicketsDir(disk, data.board);
      && r.1.value.filename == Some(f)
      && r.0 == WriteTicketFile(d, data.board, f, Serialized(r.1.value.(filename := None)))
      && r.1.value.createdAt == now && r.1.value.updatedAt == now && r.1.value.id == id
    ensures BoardBySlug(disk, data.board).Some? && HasColumn(BoardBySlug(disk, data.board).value.columns, data.status) ==> r.1.Done?
    ensures r.1.Done? ==>
      var t := r.1.value;
      && t.board == data.board && t.title == data.title && t.status == data.status
      && t.owner == data.owner && t.priority == data.priority && t.body == data.body
      && t.order.None? && t.comments.None?
  {
    var board := BoardBySlug(disk, data.board);
    if board.None? then (disk, Threw(Thrown(BoardNotFoundMessage(data.board))))
    else if !HasColumn(board.value.columns, data.status) then (disk, Threw(Thrown(InvalidStatusMessage(data.status, data.board))))
    else
      var d := EnsureTicketsDir(disk, data.board);
      var ticket := Ticket(id, data.board, data.title, data.status, data.owner, data.priority, None, now, now, data.body, None, None);
      var f := TicketFilename(id, data.title);
      (WriteTicketFile(d, data.board, f, Serialized(ticket)), Done(ticket.(filename := Some(f))))
  }

  /** A created ticket reads back from its file as written, with empty fields normalised. */
  lemma CreatedTicketReadsBack(disk: Disk, data: NewTicket, id: string, now: string)
    requires CreateTicket(disk, data, id, now).1.Done?
    ensures var r := CreateTicket(disk, data, id, now); var t := r.1.value; var f := t.filename.value;
      && IsTicketFile(r.0.dirs[data.board], f)
      && FileTicket(r.0.dirs[data.board], f) == Normalized(t.(filename := None), f)
      && FileTicket(r.0.dirs[data.board], f).status == data.status
  {
    var t := CreateTicket(disk, data, id, now).1.value;
    ParseSerialized(t.(filename := None), t.filename.value);
  }

  /** The field rules of an update: a supplied field replaces the old value, an omitted one stays, a null or empty owner or priority clears it. */
  predicate UpdateRules(t: Ticket, u: UpdateTicketInput, t': Ticket) {
    && (u.title.Some? ==> t'.title == u.title.value)
    && (u.title.None? ==> t'.title == t.title)
    && (u.status.Some? ==> t'.status == u.status.value)
    && (u.status.None? ==> t'.status == t.status)
    && (u.owner.None? ==> t'.owner == t.owner)
    && (u.owner.Some? && Truthy(u.owner.value) ==> t'.owner == u.owner.value)
    && (u.owner.Some? && !Truthy(u.owner.value) ==> t'.owner.None?)
    && (u.priority.None? ==> t'.priority == t.priority)
    && (u.priority.Some? && Truthy(u.priority.value) ==> t'.priority == u.priority.value)
    && (u.priority.Some? && !Truthy(u.priority.value) ==> t'.priority.None?)
    && (u.body.Some? ==> t'.body == u.body)
    && (u.body.None? ==> t'.body == t.body)
    && (u.order.Some? ==> t'.order == u.order)
    && (u.order.None? ==> t'.order == t.order)
    && (u.comments.Some? ==> t'.comments == u.comments)
    && (u.comments.None? ==> t'.comments == t.comments)
  }

  /** The ticket after an update: every supplied field replaces the old one, a null or empty owner or priority clears it. */
  function Applied(t: Ticket, u: UpdateTicketInput, now: string): (t': Ticket)
    ensures t'.id == t.id && t'.board == t.board && t'.createdAt == t.createdAt && t'.filename == t.filename
    ensures t'.updatedAt == now
    ensures UpdateRules(t, u, t')
  {
    Ticket(t.id, t.board, Supplied(u.title, t.title), Supplied(u.status, t.status),
      Assigned(u.owner, t.owner), Assigned(u.priority, t.priority),
      if u.order.Some? then u.order else t.order, t.createdAt, now,
      if u.body.Some? then u.body else t.body,
      if u.comments.Some? then u.comments else t.comments,
      t.filename)
  }

  /** A field the update may supply: the supplied value, or the current one when omitted. */
  function Supplied(supplied: Option<string>, current: string): (v: string)
    ensures supplied.Some? ==> v == supplied.value
    ensures supplied.None? ==> v == current
  {
    if supplied.Some? then supplied.value else current
  }

  /** An owner or priority the update may supply: omitted keeps the current one, null or empty clears it. */
  function Assigned(supplied: Option<Option<string>>, current: Option<string>): (v: Option<string>)
    ensures supplied.None? ==> v == current
    ensures supplied.Some? && Truthy(supplied.value) ==> v == supplied.value
    ensures supplied.Some? && !Truthy(supplied.value) ==> v.None?
  {
    if supplied.None? then current else if Truthy(supplied.value) then supplied.value else None
  }

  /** Writes the new file, then removes the old one when the name changed. */
  function Rewrite(dir: Dir, oldName: string, newName: string, doc: Doc): (dir': Dir)
    ensures newName in dir' && dir'[newName] == doc
    ensures oldName != newName ==> oldName !in dir'
    ensures forall f :: f != oldName && f != newName ==> (f in dir' <==> f in dir) && (f in dir ==> dir'[f] == dir[f])
  {
    var written := dir[newName := doc];
    if oldName != newName then written - {oldName} else written
  }

  /** `getTicketById`: the first ticket with that id in listing order, read from its file. */
  function TicketById(disk: Disk, lister: Lister, slug: string, id: string): (r: (Disk, Outcome<Option<Ticket>>))
    ensures r.0 == TicketsForBoard(disk, lister, slug).0
    ensures r.1.Threw? <==> BoardBySlug(disk, slug).None?
    ensures r.1.Threw? ==> r.1.failure == Thrown(BoardNotFoundMessage(slug))
    ensures r.1.Done? && r.1.value.Some? ==>
      var t := r.1.value.value;
      && slug in r.0.dirs && t.id == id && t.filename.Some?
      && IsTicketFile(r.0.dirs[slug], t.filename.value) && t == FileTicket(r.0.dirs[slug], t.filename.value)
  {
    var listed := TicketsForBoard(disk, lister, slug);
    if listed.1.Threw? then (listed.0, Threw(listed.1.failure))
    else (listed.0, Done(FindById(listed.1.value, id)))
  }

  /**
   * `updateTicket`: the ticket is looked up by id, a truthy status must be a
   * column id, the fields are updated, and the ticket is rewritten under the
   * name its id and title give, the old file removed when the name changed.
   */
  function UpdateTicketSpec(disk: Disk, lister: Lister, slug: string, id: string, u: UpdateTicketInput, now: string)
    : (r: (Disk, Outcome<Ticket>))
    ensures r.1.Threw? ==> r.0 == TicketsForBoard(disk, lister, slug).0
    ensures r.1.Threw? ==> r.1.failure.Thrown?
    ensures r.1.Done? ==> BoardBySlug(disk, slug).Some? && TicketById(disk, lister, slug, id).1.value.Some?
    ensures (&& BoardBySlug(disk, slug).Some?
             && TicketById(disk, lister, slug, id).1.Done? && TicketById(disk, lister, slug, id).1.value.Some?
             && (!Truthy(u.status) || HasColumn(BoardBySlug(disk, slug).value.columns, u.status.value)))
      ==> r.1.Done?
  {
    var lookup := TicketById(disk, lister, slug, id);
    var d := lookup.0;
    if lookup.1.Threw? then (d, Threw(lookup.1.failure))
    else if lookup.1.value.None? then (d, Threw(Thrown(TicketNotFoundMessage(id, slug))))
    else if Truthy(u.status) && !HasColumn(BoardBySlug(d, slug).value.columns, u.status.value) then
      (d, Threw(Thrown(InvalidStatusMessage(u.status.value, slug))))
    else
      var t := Applied(lookup.1.value.value, u, now);
      var newName := TicketFilename(t.id, t.title);
      (d.(dirs := d.dirs[slug := Rewrite(d.dirs[slug], t.filename.value, newName, Serialized(t))]),
       Done(t.(filename := Some(newName))))
  }

  /** The refusals of `updateTicket`, each before any ticket file is written. */
  lemma UpdateTicketRefusals(disk: Disk, lister: Lister, slug: string, id: string, u: UpdateTicketInput, now: string)
    ensures var r := UpdateTicketSpec(disk, lister, slug, id, u, now); var lookup := TicketById(disk, lister, slug, id);
      && (BoardBySlug(disk, slug).None? ==> r == (disk, Threw(Thrown(BoardNotFoundMessage(slug)))))
      && (lookup.1.Done? && lookup.1.value.None? ==> r == (EnsureTicketsDir(disk, slug), Threw(Thrown(TicketNotFoundMessage(id, slug)))))
      && (lookup.1.Done? && lookup.1.value.Some? && Truthy(u.status) && !HasColumn(BoardBySlug(disk, slug).value.columns, u.status.value) ==>
            r == (EnsureTicketsDir(disk, slug), Threw(Thrown(InvalidStatusMessage(u.status.value, slug)))))
      && (r.1.Threw? ==> r.0.config == disk.config && forall s :: s in disk.dirs ==> s in r.0.dirs && r.0.dirs[s] == disk.dirs[s])
  {
  }

  /**
   * A successful update: the returned ticket is the found one with the
   * updates applied, it reads back from the file its id and new title name,
   * the old file is gone when the name changed, and every other file and
   * every other board directory is unchanged.
   */
  lemma UpdateTicketWrites(disk: Disk, lister: Lister, slug: string, id: string, u: UpdateTicketInput, now: string)
    requires UpdateTicketSpec(disk, lister, slug, id, u, now).1.Done?
    ensures var r := UpdateTicketSpec(disk, lister, slug, id, u, now);
      var d := EnsureTicketsDir(disk, slug);
      var found := TicketById(disk, lister, slug, id).1.value.value;
      var t := r.1.value; var oldName := found.filename.value; var newName := TicketFilename(id, t.title);
      && t == Applied(found, u, now).(filename := Some(newName))
      && slug in r.0.dirs && IsTicketFile(r.0.dirs[slug], newName)
      && FileTicket(r.0.dirs[slug], newName) == Normalized(t.(filename := None), newName)
      && (oldName != newName ==> oldName !in r.0.dirs[slug])
      && (forall f :: f != oldName && f != newName ==>
            (f in r.0.dirs[slug] <==> f in d.dirs[slug]) && (f in d.dirs[slug] ==> r.0.dirs[slug][f] == d.dirs[slug][f]))
      && r.0.config == disk.config
      && (forall s :: s != slug ==> (s in r.0.dirs <==> s in disk.dirs) && (s in disk.dirs ==> r.0.dirs[s] == disk.dirs[s]))
  {
    var found := TicketById(disk, lister, slug, id).1.value.value;
    var t := Applied(found, u, now);
    ParseSerialized(t, TicketFilename(id, t.title));
  }

  /** The field assignments of `updateTicket`, one supplied field at a time, then the new timestamp. */
  method ApplyUpdates(t: Ticket, u: UpdateTicketInput, now: string) returns (ticket: Ticket)
    ensures ticket == Applied(t, u, now)
  {
    var a := Applied(t, u, now);
    ticket := t;
    if u.title.Some? { ticket := ticket.(title := u.title.value); }
    assert ticket == t.(title := a.title);
    if u.status.Some? { ticket := ticket.(status := u.status.value); }
    assert ticket == t.(title := a.title, status := a.status);
    if u.owner.Some? { ticket := ticket.(owner := if Truthy(u.owner.value) then u.owner.value else None); }
    assert ticket == t.(title := a.title, status := a.status, owner := a.owner);
    if u.priority.Some? { ticket := ticket.(priority := if Truthy(u.priority.value) then u.priority.value else None); }
    assert ticket == t.(title := a.title, status := a.status, owner := a.owner, priority := a.priority);
    if u.body.Some? { ticket := ticket.(body := u.body); }
    assert ticket == a.(order := t.order, comments := t.comments, updatedAt := t.updatedAt);
    if u.order.Some? { ticket := ticket.(order := u.order); }
    assert ticket == a.(comments := t.comments, updatedAt := t.updatedAt);
    if u.comments.Some? { ticket := ticket.(comments := u.comments); }
    assert ticket == a.(updatedAt := t.updatedAt);
    ticket := ticket.(updatedAt := now);
  }

  /** `updateTicket` as the source writes it: the looked-up ticket's fields assigned one by one, then the write and the unlink. */
  method UpdateTicket(disk: Disk, lister: Lister, slug: string, id: string, u: UpdateTicketInput, now: string)
    returns (disk': Disk, out: Outcome<Ticket>)
    ensures (disk', out) == UpdateTicketSpec(disk, lister, slug, id, u, now)
  {
    var d, listed := GetTicketsForBoard(disk, lister, slug);
    if listed.Threw? {
      return d, Threw(listed.failure);
    }
    var found := FindById(listed.value, id);
    if found.None? {
      return d, Threw(Thrown(TicketNotFoundMessage(id, slug)));
    }
    // the board was found by the listing just before, on the same configuration
    var board := BoardBySlug(d, slug).value;
    if u.status.Some? && u.status.value != "" && !HasColumn(board.columns, u.status.value) {
      return d, Threw(Thrown(InvalidStatusMessage(u.status.value, slug)));
    }
    var ticket := ApplyUpdates(found.value, u, now);
    var oldName := ticket.filename.value;
    var newName := TicketFilename(ticket.id, ticket.title);
    var doc := SerializeTicket(ticket);
    var dir := d.dirs[slug][newName := doc];
    if oldName != newName {
      dir := dir - {oldName};
    }
    disk' := d.(dirs := d.dirs[slug := dir]);
    out := Done(ticket.(filename := Some(newName)));
  }

  /** `deleteTicket`: the ticket is looked up by id and its file removed. */
  function DeleteTicket(disk: Disk, lister: Lister, slug: string, id: string): (r: (Disk, Outcome<()>))
    ensures var lookup := TicketById(disk, lister, slug, id);
      && (lookup.1.Threw? ==> r == (disk, Threw(lookup.1.failure)))
      && (lookup.1.Done? && lookup.1.value.None? ==> r == (lookup.0, Threw(Thrown(TicketNotFoundMessage(id, slug)))))
      && (lookup.1.Done? && lookup.1.value.Some? ==>
            var f := lookup.1.value.value.filename.value;
            && r.1.Done? && r.0.config == disk.config && slug in r.0.dirs
            && r.0.dirs[slug].Keys == lookup.0.dirs[slug].Keys - {f}
            && (forall g :: g in r.0.dirs[slug] ==> r.0.dirs[slug][g] == lookup.0.dirs[slug][g])
            && (forall s :: s != slug ==> (s in r.0.dirs <==> s in disk.dirs) && (s in disk.dirs ==> r.0.dirs[s] == disk.dirs[s])))
  {
    var lookup := TicketById(disk, lister, slug, id);
    var d := lookup.0;
    if lookup.1.Threw? then (d, Threw(lookup.1.failure))
    else if lookup.1.value.None? then (d, Threw(Thrown(TicketNotFoundMessage(id, slug))))
    else (d.(dirs := d.dirs[slug := d.dirs[slug] - {lookup.1.value.value.filename.value}]), Done(()))
  }

  /** The update `moveTicketsToColumn` sends for each ticket: the status only. */
  function StatusUpdate(status: string): UpdateTicketInput {
    UpdateTicketInput(None, Some(status), None, None, None, None, None)
  }

  /** `tickets.filter(t => t.status === status)`. */
  function WithStatus(tickets: seq<Ticket>, status: string): (r: seq<Ticket>)
    ensures forall i :: 0 <= i < |r| ==> r[i].status == status && r[i] in tickets
    ensures forall t :: t in tickets && t.status == status ==> t in r
  {
    if tickets == [] then []
    else (if tickets[0].status == status then [tickets[0]] else []) + WithStatus(tickets[1..], status)
  }

  /** The updates of `moveTicketsToColumn`, one ticket after the other, stopping at the first refusal. */
  function MoveEach(disk: Disk, lister: Lister, slug: string, toMove: seq<Ticket>, to: string, now: string): (r: (Disk, Outcome<()>))
    ensures r.1.Threw? ==> r.1.failure.Thrown?
    decreases |toMove|
  {
    if toMove == [] then (disk, Done(()))
    else
      var step := UpdateTicketSpec(disk, lister, slug, toMove[0].id, StatusUpdate(to), now);
      if step.1.Threw? then (step.0, Threw(step.1.failure))
      else MoveEach(step.0, lister, slug, toMove[1..], to, now)
  }

  /** A successful move is a successful first update followed by a successful move of the rest. */
  lemma MoveEachStep(disk: Disk, lister: Lister, slug: string, toMove: seq<Ticket>, to: string, now: string)
    requires toMove != [] && MoveEach(disk, lister, slug, toMove, to, now).1.Done?
    ensures var step := UpdateTicketSpec(disk, lister, slug, toMove[0].id, StatusUpdate(to), now);
      step.1.Done? && MoveEach(disk, lister, slug, toMove, to, now) == MoveEach(step.0, lister, slug, toMove[1..], to, now)
  {
  }

  /** `moveTicketsToColumn`: every ticket read with status `from` is updated to status `to`. */
  function MoveTicketsSpec(disk: Disk, lister: Lister, slug: string, from: string, to: string, now: string): (r: (Disk, Outcome<()>))
    ensures TicketsForBoard(disk, lister, slug).1.Threw? ==> r == (disk, Threw(Thrown(BoardNotFoundMessage(slug))))
    ensures r.1.Threw? ==> r.1.failure.Thrown?
  {
    var listed := TicketsForBoard(disk, lister, slug);
    if listed.1.Threw? then (listed.0, Threw(listed.1.failure))
    else MoveEach(listed.0, lister, slug, WithStatus(listed.1.value, from), to, now)
  }

  /** `moveTicketsToColumn` as the source writes it: a loop of awaited updates. */
  method MoveTicketsToColumn(disk: Disk, lister: Lister, slug: string, from: string, to: string, now: string)
    returns (disk': Disk, out: Outcome<()>)
    ensures (disk', out) == MoveTicketsSpec(disk, lister, slug, from, to, now)
  {
    var listed;
    disk', listed := GetTicketsForBoard(disk, lister, slug);
    if listed.Threw? {
      return disk', Threw(listed.failure);
    }
    var toMove := WithStatus(listed.value, from);
    ghost var start := disk';
    for i := 0 to |toMove|
      invariant MoveEach(disk', lister, slug, toMove[i..], to, now) == MoveEach(start, lister, slug, toMove, to, now)
    {
      var updated;
      disk', updated := UpdateTicket(disk', lister, slug, toMove[i].id, StatusUpdate(to), now);
      if updated.Threw? {
        return disk', Threw(updated.failure);
      }
      assert toMove[i..][1..] == toMove[i + 1..];
    }
    out := Done(());
  }

  /**
   * Moving tickets into a status that is not one of the board's columns is
   * refused at the first ticket, and nothing is written.
   */
  lemma MoveRejectsUnknownTarget(disk: Disk, lister: Lister, slug: string, from: string, to: string, now: string)
    requires BoardBySlug(disk, slug).Some?
    requires to != "" && !HasColumn(BoardBySlug(disk, slug).value.columns, to)
    requires WithStatus(TicketsForBoard(disk, lister, slug).1.value, from) != []
    ensures MoveTicketsSpec(disk, lister, slug, from, to, now) == (disk, Threw(Thrown(InvalidStatusMessage(to, slug))))
  {
    var listed := TicketsForBoard(disk, lister, slug);
    var toMove := WithStatus(listed.1.value, from);
    var first := toMove[0];
    assert first in listed.1.value;
    var d := listed.0;
    assert slug in disk.dirs by {
      var k :| 0 <= k < |listed.1.value| && listed.1.value[k] == first;
      assert IsTicketFile(d.dirs[slug], first.filename.value);
    }
    assert d == disk;
    assert TicketsForBoard(d, lister, slug) == listed;
    assert FindById(listed.1.value, first.id).Some?;
  }

  /** Some file of the board named for `id` holds a ticket with that id and `status`. */
  ghost predicate Landed(disk: Disk, slug: string, id: string, status: string) {
    slug in disk.dirs &&
    exists title :: IsTicketFile(disk.dirs[slug], TicketFilename(id, title)) &&
      FileTicket(disk.dirs[slug], TicketFilename(id, title)).id == id &&
      FileTicket(disk.dirs[slug], TicketFilename(id, title)).status == status
  }

  /** A successful status update lands the ticket in its new status. */
  lemma UpdateLands(disk: Disk, lister: Lister, slug: string, id: string, to: string, now: string)
    requires UpdateTicketSpec(disk, lister, slug, id, StatusUpdate(to), now).1.Done?
    ensures Landed(UpdateTicketSpec(disk, lister, slug, id, StatusUpdate(to), now).0, slug, id, to)
  {
    UpdateTicketWrites(disk, lister, slug, id, StatusUpdate(to), now);
    var r := UpdateTicketSpec(disk, lister, slug, id, StatusUpdate(to), now);
    var title := r.1.value.title;
    assert IsTicketFile(r.0.dirs[slug], TicketFilename(id, title));
  }

  /** The file named for ticket `a` holds a ticket with that id. */
  ghost predicate HoldsTicket(disk: Disk, slug: string, a: string, title: string) {
    slug in disk.dirs && IsTicketFile(disk.dirs[slug], TicketFilename(a, title)) &&
    FileTicket(disk.dirs[slug], TicketFilename(a, title)).id == a
  }

  /** A successful update of another generated id leaves the file of ticket `a` untouched. */
  lemma UpdateKeepsFile(disk: Disk, lister: Lister, slug: string, a: string, x: string, b: string, u: UpdateTicketInput, now: string)
    requires UpdateTicketSpec(disk, lister, slug, b, u, now).1.Done?
    requires HoldsTicket(disk, slug, a, x) && a != b && GeneratedId(a) && GeneratedId(b)
    ensures var d := UpdateTicketSpec(disk, lister, slug, b, u, now).0;
      HoldsTicket(d, slug, a, x) && d.dirs[slug][TicketFilename(a, x)] == disk.dirs[slug][TicketFilename(a, x)]
  {
    UpdateTicketWrites(disk, lister, slug, b, u, now);
    var r := UpdateTicketSpec(disk, lister, slug, b, u, now);
    var found := TicketById(disk, lister, slug, b).1.value.value;
    var f := TicketFilename(a, x);
    assert EnsureTicketsDir(disk, slug) == disk;
    if f == TicketFilename(b, r.1.value.title) {
      FilenameDeterminesId(a, b, x, r.1.value.title);
    }
    assert f != found.filename.value;
    assert IsTicketFile(r.0.dirs[slug], f) && r.0.dirs[slug][f] == disk.dirs[slug][f];
  }

  /** A successful update of another generated id leaves a landed ticket where it is. */
  lemma UpdateKeepsLanded(disk: Disk, lister: Lister, slug: string, a: string, b: string, u: UpdateTicketInput, to: string, now: string)
    requires UpdateTicketSpec(disk, lister, slug, b, u, now).1.Done?
    requires Landed(disk, slug, a, to) && a != b && GeneratedId(a) && GeneratedId(b)
    ensures Landed(UpdateTicketSpec(disk, lister, slug, b, u, now).0, slug, a, to)
  {
    var x :| IsTicketFile(disk.dirs[slug], TicketFilename(a, x)) &&
      FileTicket(disk.dirs[slug], TicketFilename(a, x)).id == a &&
      FileTicket(disk.dirs[slug], TicketFilename(a, x)).status == to;
    UpdateKeepsFile(disk, lister, slug, a, x, b, u, now);
    var d := UpdateTicketSpec(disk, lister, slug, b, u, now).0;
    assert IsTicketFile(d.dirs[slug], TicketFilename(a, x));
  }

  /** A successful status update to `to` of any generated id keeps every landed ticket landed. */
  lemma StatusUpdateKeepsLanded(disk: Disk, lister: Lister, slug: string, a: string, b: string, to: string, now: string)
    requires UpdateTicketSpec(disk, lister, slug, b, StatusUpdate(to), now).1.Done?
    requires Landed(disk, slug, a, to) && GeneratedId(a) && GeneratedId(b)
    ensures Landed(UpdateTicketSpec(disk, lister, slug, b, StatusUpdate(to), now).0, slug, a, to)
  {
    if b == a {
      UpdateLands(disk, lister, slug, b, to, now);
    } else {
      UpdateKeepsLanded(disk, lister, slug, a, b, StatusUpdate(to), to, now);
    }
  }

  /** Once landed, a generated id stays landed through the rest of a successful move. */
  lemma {:induction false} MoveEachKeepsLanded(disk: Disk, lister: Lister, slug: string, toMove: seq<Ticket>, a: string, to: string, now: string)
    requires MoveEach(disk, lister, slug, toMove, to, now).1.Done?
    requires Landed(disk, slug, a, to) && GeneratedId(a)
    requires forall t :: t in toMove ==> GeneratedId(t.id)
    ensures Landed(MoveEach(disk, lister, slug, toMove, to, now).0, slug, a, to)
    decreases |toMove|
  {
    if toMove != [] {
      var b := toMove[0].id;
      var step := UpdateTicketSpec(disk, lister, slug, b, StatusUpdate(to), now);
      MoveEachStep(disk, lister, slug, toMove, to, now);
      StatusUpdateKeepsLanded(disk, lister, slug, a, b, to, now);
      MoveEachKeepsLanded(step.0, lister, slug, toMove[1..], a, to, now);
    }
  }

  /** After a successful move of tickets with generated ids, each of them sits in a file with the new status. */
  lemma {:induction false} MoveEachLands(disk: Disk, lister: Lister, slug: string, toMove: seq<Ticket>, to: string, now: string)
    requires MoveEach(disk, lister, slug, toMove, to, now).1.Done?
    requires forall t :: t in toMove ==> GeneratedId(t.id)
    ensures forall i :: 0 <= i < |toMove| ==> Landed(MoveEach(disk, lister, slug, toMove, to, now).0, slug, toMove[i].id, to)
    decreases |toMove|
  {
    if toMove != [] {
      var b := toMove[0].id;
      var step := UpdateTicketSpec(disk, lister, slug, b, StatusUpdate(to), now);
      MoveEachStep(disk, lister, slug, toMove, to, now);
      UpdateLands(disk, lister, slug, b, to, now);
      MoveEachKeepsLanded(step.0, lister, slug, toMove[1..], b, to, now);
      MoveEachLands(step.0, lister, slug, toMove[1..], to, now);
      forall i | 1 <= i < |toMove|
        ensures Landed(MoveEach(disk, lister, slug, toMove, to, now).0, slug, toMove[i].id, to)
      {
        assert toMove[i] == toMove[1..][i - 1];
      }
    }
  }

  /** A successful move leaves the file of every ticket it does not move exactly as it was. */
  lemma {:induction false} MoveEachKeepsFile(disk: Disk, lister: Lister, slug: string, toMove: seq<Ticket>, a: string, x: string, to: string, now: string)
    requires MoveEach(disk, lister, slug, toMove, to, now).1.Done?
    requires HoldsTicket(disk, slug, a, x) && GeneratedId(a)
    requires forall t :: t in toMove ==> GeneratedId(t.id) && t.id != a
    ensures var d := MoveEach(disk, lister, slug, toMove, to, now).0;
      HoldsTicket(d, slug, a, x) && d.dirs[slug][TicketFilename(a, x)] == disk.dirs[slug][TicketFilename(a, x)]
    decreases |toMove|
  {
    if toMove != [] {
      var step := UpdateTicketSpec(disk, lister, slug, toMove[0].id, StatusUpdate(to), now);
      MoveEachStep(disk, lister, slug, toMove, to, now);
      UpdateKeepsFile(disk, lister, slug, a, x, toMove[0].id, StatusUpdate(to), now);
      MoveEachKeepsFile(step.0, lister, slug, toMove[1..], a, x, to, now);
    }
  }

  /**
   * `moveTicketsToColumn(from, to)`: when it succeeds, every ticket that had
   * status `from` (with a generated id) is in a file with status `to`.
   */
  lemma MoveTicketsLands(disk: Disk, lister: Lister, slug: string, from: string, to: string, now: string)
    requires MoveTicketsSpec(disk, lister, slug, from, to, now).1.Done?
    requires forall t :: t in TicketsForBoard(disk, lister, slug).1.value && t.status == from ==> GeneratedId(t.id)
    ensures forall t :: t in TicketsForBoard(disk, lister, slug).1.value && t.status == from ==>
      Landed(MoveTicketsSpec(disk, lister, slug, from, to, now).0, slug, t.id, to)
  {
    var listed := TicketsForBoard(disk, lister, slug);
    var toMove := WithStatus(listed.1.value, from);
    MoveEachLands(listed.0, lister, slug, toMove, to, now);
    forall t | t in listed.1.value && t.status == from
      ensures Landed(MoveTicketsSpec(disk, lister, slug, from, to, now).0, slug, t.id, to)
    {
      var i :| 0 <= i < |toMove| && toMove[i] == t;
    }
  }

  /**
   * `moveTicketsToColumn(from, to)`: when it succeeds, the file of every
   * ticket whose status was not `from` is unchanged.
   */
  lemma MoveTicketsKeepsOthers(disk: Disk, lister: Lister, slug: string, from: string, to: string, now: string, a: string, x: string)
    requires MoveTicketsSpec(disk, lister, slug, from, to, now).1.Done?
    requires forall t :: t in TicketsForBoard(disk, lister, slug).1.value ==> GeneratedId(t.id)
    requires HoldsTicket(disk, slug, a, x) && GeneratedId(a)
    requires forall t :: t in TicketsForBoard(disk, lister, slug).1.value && t.id == a ==> t.status != from
    ensures var d := MoveTicketsSpec(disk, lister, slug, from, to, now).0;
      HoldsTicket(d, slug, a, x) && d.dirs[slug][TicketFilename(a, x)] == disk.dirs[slug][TicketFilename(a, x)]
  {
    var listed := TicketsForBoard(disk, lister, slug);
    var toMove := WithStatus(listed.1.value, from);
    assert listed.0 == disk;
    MoveEachKeepsFile(listed.0, lister, slug, toMove, a, x, to, now);
  }

  /** `updateTicket` never touches the configuration file. */
  lemma UpdateKeepsConfig(disk: Disk, lister: Lister, slug: string, id: string, u: UpdateTicketInput, now: string)
    ensures UpdateTicketSpec(disk, lister, slug, id, u, now).0.config == disk.config
  {
    UpdateTicketRefusals(disk, lister, slug, id, u, now);
    if UpdateTicketSpec(disk, lister, slug, id, u, now).1.Done? {
      UpdateTicketWrites(disk, lister, slug, id, u, now);
    }
  }

  lemma {:induction false} MoveEachKeepsConfig(disk: Disk, lister: Lister, slug: string, toMove: seq<Ticket>, to: string, now: string)
    ensures MoveEach(disk, lister, slug, toMove, to, now).0.config == disk.config
    decreases |toMove|
  {
    if toMove != [] {
      var step := UpdateTicketSpec(disk, lister, slug, toMove[0].id, StatusUpdate(to), now);
      UpdateKeepsConfig(disk, lister, slug, toMove[0].id, StatusUpdate(to), now);
      MoveEachKeepsConfig(step.0, lister, slug, toMove[1..], to, now);
    }
  }

  /** `moveTicketsToColumn` never touches the configuration file, whether it succeeds or not. */
  lemma MoveTicketsKeepsConfig(disk: Disk, lister: Lister, slug: string, from: string, to: string, now: string)
    ensures MoveTicketsSpec(disk, lister, slug, from, to, now).0.config == disk.config
  {
    var listed := TicketsForBoard(disk, lister, slug);
    if listed.1.Done? {
      MoveEachKeepsConfig(listed.0, lister, slug, WithStatus(listed.1.value, from), to, now);
    }
  }

  /** With no ticket in the source column of an existing board's directory, a move changes nothing and succeeds. */
  lemma MoveNothingToMove(disk: Disk, lister: Lister, slug: string, from: string, to: string, now: string)
    requires BoardBySlug(disk, slug).Some? && slug in disk.dirs
    requires WithStatus(TicketsForBoard(disk, lister, slug).1.value, from) == []
    ensures MoveTicketsSpec(disk, lister, slug, from, to, now) == (disk, Done(()))
  {
  }

  /** A board that lists any ticket already has its ticket directory. */
  lemma ListedNeedsDir(disk: Disk, lister: Lister, slug: string)
    requires TicketsForBoard(disk, lister, slug).1.Done? && TicketsForBoard(disk, lister, slug).1.value != []
    ensures slug in disk.dirs
  {
    var listed := TicketsForBoard(disk, lister, slug);
    var first := listed.1.value[0];
    assert IsTicketFile(listed.0.dirs[slug], first.filename.value);
  }

  /**
   * A ticket directory as the server keeps it: every ticket file holds a
   * generated id and is named for that id and its title, and no two ticket
   * files hold the same id.
   */
  ghost predicate WellKept(dir: Dir) {
    && (forall f :: IsTicketFile(dir, f) ==>
          GeneratedId(FileTicket(dir, f).id) && f == TicketFilename(FileTicket(dir, f).id, FileTicket(dir, f).title))
    && (forall f, g :: IsTicketFile(dir, f) && IsTicketFile(dir, g) && FileTicket(dir, f).id == FileTicket(dir, g).id ==> f == g)
  }

  /** The board's ticket directory is well kept when it exists. */
  ghost predicate KeptBoard(disk: Disk, slug: string) {
    slug in disk.dirs ==> WellKept(disk.dirs[slug])
  }

  /** Creating a ticket under a fresh generated id keeps the board's directory well kept. */
  lemma CreateKeepsWellKept(disk: Disk, data: NewTicket, id: string, now: string)
    requires CreateTicket(disk, data, id, now).1.Done? && KeptBoard(disk, data.board) && GeneratedId(id)
    requires data.board in disk.dirs ==> forall f :: IsTicketFile(disk.dirs[data.board], f) ==> FileTicket(disk.dirs[data.board], f).id != id
    ensures var r := CreateTicket(disk, data, id, now); data.board in r.0.dirs && WellKept(r.0.dirs[data.board])
  {
    var r := CreateTicket(disk, data, id, now);
    var name := TicketFilename(id, data.title);
    var dir := EnsureTicketsDir(disk, data.board).dirs[data.board];
    var dir' := r.0.dirs[data.board];
    ParseSerialized(r.1.value.(filename := None), name);
    assert WellKept(dir);
    assert dir' == dir[name := Serialized(r.1.value.(filename := None))];
    assert IsTicketFile(dir', name) && FileTicket(dir', name).id == id && FileTicket(dir', name).title == data.title;
    forall f | IsTicketFile(dir', f) && f != name
      ensures IsTicketFile(dir, f) && FileTicket(dir', f) == FileTicket(dir, f) && FileTicket(dir, f).id != id
    {
    }
  }

  /** Deleting a ticket keeps the board's directory well kept. */
  lemma DeleteKeepsWellKept(disk: Disk, lister: Lister, slug: string, id: string)
    requires KeptBoard(disk, slug)
    ensures KeptBoard(DeleteTicket(disk, lister, slug, id).0, slug)
  {
    var r := DeleteTicket(disk, lister, slug, id);
    if slug in r.0.dirs {
      var dir := EnsureTicketsDir(disk, slug).dirs[slug];
      assert WellKept(dir);
      forall f | IsTicketFile(r.0.dirs[slug], f)
        ensures IsTicketFile(dir, f) && FileTicket(r.0.dirs[slug], f) == FileTicket(dir, f)
      {
      }
    }
  }

  /** A ticket listed from a well-kept directory sits in the file its id and title name. */
  lemma ListedTicket(disk: Disk, lister: Lister, slug: string, t: Ticket)
    requires KeptBoard(disk, slug) && TicketsForBoard(disk, lister, slug).1.Done?
    requires t in TicketsForBoard(disk, lister, slug).1.value
    ensures slug in disk.dirs && TicketsForBoard(disk, lister, slug).0 == disk
    ensures GeneratedId(t.id) && HoldsTicket(disk, slug, t.id, t.title)
    ensures t == FileTicket(disk.dirs[slug], TicketFilename(t.id, t.title))
  {
    var listed := TicketsForBoard(disk, lister, slug);
    var i :| 0 <= i < |listed.1.value| && listed.1.value[i] == t;
    assert IsTicketFile(listed.0.dirs[slug], t.filename.value);
  }

  /** After a successful update, every ticket file but the written one is an untouched file of another id. */
  lemma UpdateLeavesOthers(disk: Disk, lister: Lister, slug: string, b: string, u: UpdateTicketInput, now: string, f: string)
    requires UpdateTicketSpec(disk, lister, slug, b, u, now).1.Done? && KeptBoard(disk, slug)
    requires var r := UpdateTicketSpec(disk, lister, slug, b, u, now);
      slug in r.0.dirs && IsTicketFile(r.0.dirs[slug], f) && f != TicketFilename(b, r.1.value.title)
    ensures var r := UpdateTicketSpec(disk, lister, slug, b, u, now); var dir := EnsureTicketsDir(disk, slug).dirs[slug];
      IsTicketFile(dir, f) && FileTicket(r.0.dirs[slug], f) == FileTicket(dir, f) && FileTicket(dir, f).id != b
  {
    UpdateTicketWrites(disk, lister, slug, b, u, now);
    var r := UpdateTicketSpec(disk, lister, slug, b, u, now);
    var dir := EnsureTicketsDir(disk, slug).dirs[slug];
    var found := TicketById(disk, lister, slug, b).1.value.value;
    var oldName := found.filename.value;
    assert WellKept(dir);
    assert IsTicketFile(dir, oldName) && found == FileTicket(dir, oldName) && found.id == b;
    assert f != oldName;
    assert f in dir && r.0.dirs[slug][f] == dir[f];
    assert FileTicket(dir, f).id == b ==> f == oldName;
  }

  /** The file a successful update writes holds the updated id under the name its id and new title give. */
  lemma UpdateWritesNamed(disk: Disk, lister: Lister, slug: string, b: string, u: UpdateTicketInput, now: string)
    requires UpdateTicketSpec(disk, lister, slug, b, u, now).1.Done? && KeptBoard(disk, slug)
    ensures var r := UpdateTicketSpec(disk, lister, slug, b, u, now); var newName := TicketFilename(b, r.1.value.title);
      && slug in r.0.dirs && IsTicketFile(r.0.dirs[slug], newName) && GeneratedId(b)
      && FileTicket(r.0.dirs[slug], newName).id == b && FileTicket(r.0.dirs[slug], newName).title == r.1.value.title
  {
    UpdateTicketWrites(disk, lister, slug, b, u, now);
    var dir := EnsureTicketsDir(disk, slug).dirs[slug];
    var found := TicketById(disk, lister, slug, b).1.value.value;
    assert WellKept(dir);
    assert IsTicketFile(dir, found.filename.value) && found == FileTicket(dir, found.filename.value) && found.id == b;
  }

  /** A successful update keeps the board's directory well kept. */
  lemma UpdateKeepsWellKept(disk: Disk, lister: Lister, slug: string, b: string, u: UpdateTicketInput, now: string)
    requires UpdateTicketSpec(disk, lister, slug, b, u, now).1.Done? && KeptBoard(disk, slug)
    ensures var r := UpdateTicketSpec(disk, lister, slug, b, u, now); slug in r.0.dirs && WellKept(r.0.dirs[slug])
  {
    UpdateWritesNamed(disk, lister, slug, b, u, now);
    var r := UpdateTicketSpec(disk, lister, slug, b, u, now);
    var dir := EnsureTicketsDir(disk, slug).dirs[slug];
    var dir' := r.0.dirs[slug];
    var newName := TicketFilename(b, r.1.value.title);
    assert WellKept(dir);
    forall f | IsTicketFile(dir', f)
      ensures GeneratedId(FileTicket(dir', f).id) && f == TicketFilename(FileTicket(dir', f).id, FileTicket(dir', f).title)
    {
      if f != newName {
        UpdateLeavesOthers(disk, lister, slug, b, u, now, f);
      }
    }
    forall f, g | IsTicketFile(dir', f) && IsTicketFile(dir', g) && FileTicket(dir', f).id == FileTicket(dir', g).id
      ensures f == g
    {
      if f != newName {
        UpdateLeavesOthers(disk, lister, slug, b, u, now, f);
      }
      if g != newName {
        UpdateLeavesOthers(disk, lister, slug, b, u, now, g);
      }
    }
  }

  /** A successful update keeps a file for every id that had one. */
  lemma UpdateKeepsHolding(disk: Disk, lister: Lister, slug: string, b: string, u: UpdateTicketInput, now: string, a: string, x: string)
    requires UpdateTicketSpec(disk, lister, slug, b, u, now).1.Done? && KeptBoard(disk, slug)
    requires HoldsTicket(disk, slug, a, x)
    ensures exists y :: HoldsTicket(UpdateTicketSpec(disk, lister, slug, b, u, now).0, slug, a, y)
  {
    UpdateTicketWrites(disk, lister, slug, b, u, now);
    var r := UpdateTicketSpec(disk, lister, slug, b, u, now);
    if a == b {
      assert HoldsTicket(r.0, slug, b, r.1.value.title);
    } else {
      var found := TicketById(disk, lister, slug, b).1.value.value;
      assert IsTicketFile(disk.dirs[slug], found.filename.value) && found == FileTicket(disk.dirs[slug], found.filename.value);
      UpdateKeepsFile(disk, lister, slug, a, x, b, u, now);
    }
  }

  /**
   * Moving tickets that each have a file of the board succeeds when the
   * target is a column of the board: every update finds its ticket.
   */
  lemma {:induction false} MoveEachSucceeds(disk: Disk, lister: Lister, slug: string, toMove: seq<Ticket>, to: string, now: string)
    requires ListsExactly(lister) && BoardBySlug(disk, slug).Some? && KeptBoard(disk, slug)
    requires to == "" || HasColumn(BoardBySlug(disk, slug).value.columns, to)
    requires forall t :: t in toMove ==> exists x :: HoldsTicket(disk, slug, t.id, x)
    ensures MoveEach(disk, lister, slug, toMove, to, now).1.Done?
    decreases |toMove|
  {
    if toMove != [] {
      var b := toMove[0].id;
      assert toMove[0] in toMove;
      var x :| HoldsTicket(disk, slug, b, x);
      var f := TicketFilename(b, x);
      TicketsForBoardComplete(disk, lister, slug, f);
      var listed := TicketsForBoard(disk, lister, slug).1.value;
      var k :| 0 <= k < |listed| && listed[k] == FileTicket(disk.dirs[slug], f);
      assert FindById(listed, b).Some?;
      var step := UpdateTicketSpec(disk, lister, slug, b, StatusUpdate(to), now);
      assert step.1.Done?;
      UpdateKeepsWellKept(disk, lister, slug, b, StatusUpdate(to), now);
      UpdateKeepsConfig(disk, lister, slug, b, StatusUpdate(to), now);
      assert BoardBySlug(step.0, slug) == BoardBySlug(disk, slug);
      forall t | t in toMove[1..]
        ensures exists y :: HoldsTicket(step.0, slug, t.id, y)
      {
        assert t in toMove;
        var y :| HoldsTicket(disk, slug, t.id, y);
        UpdateKeepsHolding(disk, lister, slug, b, StatusUpdate(to), now, t.id, y);
      }
      MoveEachSucceeds(step.0, lister, slug, toMove[1..], to, now);
    }
  }

  /** A successful move keeps the board's directory well kept. */
  lemma {:induction false} MoveEachKeepsWellKept(disk: Disk, lister: Lister, slug: string, toMove: seq<Ticket>, to: string, now: string)
    requires MoveEach(disk, lister, slug, toMove, to, now).1.Done? && slug in disk.dirs && WellKept(disk.dirs[slug])
    ensures var r := MoveEach(disk, lister, slug, toMove, to, now); slug in r.0.dirs && WellKept(r.0.dirs[slug])
    decreases |toMove|
  {
    if toMove != [] {
      var step := UpdateTicketSpec(disk, lister, slug, toMove[0].id, StatusUpdate(to), now);
      MoveEachStep(disk, lister, slug, toMove, to, now);
      UpdateKeepsWellKept(disk, lister, slug, toMove[0].id, StatusUpdate(to), now);
      MoveEachKeepsWellKept(step.0, lister, slug, toMove[1..], to, now);
    }
  }

  /**
   * `moveTicketsToColumn` into a column of the board succeeds on a
   * well-kept directory read in full.
   */
  lemma MoveTicketsSucceeds(disk: Disk, lister: Lister, slug: string, from: string, to: string, now: string)
    requires ListsExactly(lister) && BoardBySlug(disk, slug).Some? && KeptBoard(disk, slug)
    requires to == "" || HasColumn(BoardBySlug(disk, slug).value.columns, to)
    ensures MoveTicketsSpec(disk, lister, slug, from, to, now).1.Done?
  {
    var listed := TicketsForBoard(disk, lister, slug);
    var toMove := WithStatus(listed.1.value, from);
    forall t | t in toMove
      ensures exists x :: HoldsTicket(listed.0, slug, t.id, x)
    {
      var i :| 0 <= i < |toMove| && toMove[i] == t;
      ListedTicket(disk, lister, slug, t);
    }
    assert BoardBySlug(listed.0, slug) == BoardBySlug(disk, slug);
    MoveEachSucceeds(listed.0, lister, slug, toMove, to, now);
  }

  /** A successful `moveTicketsToColumn` keeps the board's directory well kept. */
  lemma MoveTicketsKeepsWellKept(disk: Disk, lister: Lister, slug: string, from: string, to: string, now: string)
    requires MoveTicketsSpec(disk, lister, slug, from, to, now).1.Done? && KeptBoard(disk, slug)
    ensures var r := MoveTicketsSpec(disk, lister, slug, from, to, now); slug in r.0.dirs && WellKept(r.0.dirs[slug])
  {
    var listed := TicketsForBoard(disk, lister, slug);
    MoveEachKeepsWellKept(listed.0, lister, slug, WithStatus(listed.1.value, from), to, now);
  }

  /** A successful `moveTicketsToColumn(from, to)` keeps every ticket already landed in `to` there. */
  lemma MoveTicketsKeepsLanded(disk: Disk, lister: Lister, slug: string, from: string, to: string, now: string, a: string)
    requires MoveTicketsSpec(disk, lister, slug, from, to, now).1.Done? && KeptBoard(disk, slug)
    requires Landed(disk, slug, a, to)
    ensures Landed(MoveTicketsSpec(disk, lister, slug, from, to, now).0, slug, a, to)
  {
    var listed := TicketsForBoard(disk, lister, slug);
    var toMove := WithStatus(listed.1.value, from);
    var x :| IsTicketFile(disk.dirs[slug], TicketFilename(a, x)) && FileTicket(disk.dirs[slug], TicketFilename(a, x)).id == a &&
      FileTicket(disk.dirs[slug], TicketFilename(a, x)).status == to;
    assert GeneratedId(a);
    forall t | t in toMove
      ensures GeneratedId(t.id)
    {
      var i :| 0 <= i < |toMove| && toMove[i] == t;
      ListedTicket(disk, lister, slug, t);
    }
    MoveEachKeepsLanded(listed.0, lister, slug, toMove, a, to, now);
  }

  /** The tickets the board lists all have generated ids. */
  lemma ListedGenerated(disk: Disk, lister: Lister, slug: string)
    requires KeptBoard(disk, slug) && TicketsForBoard(disk, lister, slug).1.Done?
    ensures forall t :: t in TicketsForBoard(disk, lister, slug).1.value ==> GeneratedId(t.id)
  {
    forall t | t in TicketsForBoard(disk, lister, slug).1.value
      ensures GeneratedId(t.id)
    {
      ListedTicket(disk, lister, slug, t);
    }
  }

  /**
   * A successful `moveTicketsToColumn(from, ...)` leaves the file of a
   * ticket whose status is not `from` exactly as it was, the directory well
   * kept and the board where it was.
   */
  lemma MoveTicketsKeepsOtherStatus(disk: Disk, lister: Lister, slug: string, from: string, to: string, now: string, a: string, x: string)
    requires MoveTicketsSpec(disk, lister, slug, from, to, now).1.Done?
    requires BoardBySlug(disk, slug).Some? && KeptBoard(disk, slug) && HoldsTicket(disk, slug, a, x)
    requires FileTicket(disk.dirs[slug], TicketFilename(a, x)).status != from
    ensures var d := MoveTicketsSpec(disk, lister, slug, from, to, now).0;
      && HoldsTicket(d, slug, a, x) && d.dirs[slug][TicketFilename(a, x)] == disk.dirs[slug][TicketFilename(a, x)]
      && KeptBoard(d, slug) && BoardBySlug(d, slug) == BoardBySlug(disk, slug)
  {
    var f := TicketFilename(a, x);
    var t := FileTicket(disk.dirs[slug], f);
    ListedGenerated(disk, lister, slug);
    forall t' | t' in TicketsForBoard(disk, lister, slug).1.value && t'.id == a
      ensures t'.status != from
    {
      ListedTicket(disk, lister, slug, t');
      assert TicketFilename(a, t'.title) == f;
    }
    MoveTicketsKeepsOthers(disk, lister, slug, from, to, now, a, x);
    MoveTicketsKeepsWellKept(disk, lister, slug, from, to, now);
    MoveTicketsKeepsConfig(disk, lister, slug, from, to, now);
    assert BoardBySlug(MoveTicketsSpec(disk, lister, slug, from, to, now).0, slug) == BoardBySlug(disk, slug);
  }
}
