/**
 * The ticket detail dialog: the edit form loaded from a ticket, the
 * empty-HTML test, the comment list operations, the Markdown-to-HTML
 * conversion of an old body, and the update sent on save.
 */
module TicketDetail {
  import opened Wrappers
  import opened Text
  import opened KanbanTypes
  import opened Seqs

  /* ------------------------------------------------------------- empty HTML */

  /** `html.replace(/<[^>]*>/g, '')`: each `<` that has a `>` after it starts a tag, removed up to the first such `>`. */
  function StripTags(s: string): (r: string)
    ensures |r| <= |s|
    ensures forall c :: c in r ==> c in s
    decreases |s|
  {
    if s == [] then []
    else if s[0] == '<' && '>' in s[1..] then StripTags(AfterFirst(s[1..], '>'))
    else [s[0]] + StripTags(s[1..])
  }

  /** The part of `s` after the first occurrence of `c`. */
  function AfterFirst(s: string, c: char): (r: string)
    requires c in s
    ensures |r| < |s| && forall d :: d in r ==> d in s
    decreases |s|
  {
    if s[0] == c then s[1..] else AfterFirst(s[1..], c)
  }

  /** No `<` in `s` is followed, anywhere later, by a `>`: `s` holds no tag. */
  predicate TagFree(s: string) {
    forall i, j :: 0 <= i < j < |s| && s[i] == '<' ==> s[j] != '>'
  }

  /** What is left once the tags are stripped holds no tag, and a string without tags is left as it is. */
  lemma StripTagsSpec(s: string)
    ensures TagFree(StripTags(s))
    ensures TagFree(s) ==> StripTags(s) == s
  {
    StripTagsLeavesNoTag(s);
    if TagFree(s) {
      StripTagsKeepsTagFree(s);
    }
  }

  lemma {:induction false} StripTagsLeavesNoTag(s: string)
    ensures TagFree(StripTags(s))
    decreases |s|
  {
    if s == [] {
    } else if s[0] == '<' && '>' in s[1..] {
      StripTagsLeavesNoTag(AfterFirst(s[1..], '>'));
    } else {
      StripTagsLeavesNoTag(s[1..]);
      var rest := StripTags(s[1..]);
      var r := [s[0]] + rest;
      assert StripTags(s) == r;
      forall i, j | 0 <= i < j < |r| && r[i] == '<' ensures r[j] != '>' {
        if i == 0 {
          assert r[j] in rest;
        } else {
          assert r[i] == rest[i - 1] && r[j] == rest[j - 1];
        }
      }
    }
  }

  lemma {:induction false} StripTagsKeepsTagFree(s: string)
    requires TagFree(s)
    ensures StripTags(s) == s
    decreases |s|
  {
    if s != [] {
      var t := s[1..];
      if s[0] == '<' {
        forall d | d in t ensures d != '>' {
          var j :| 0 <= j < |t| && t[j] == d;
          assert s[j + 1] == d;
        }
      }
      forall i, j | 0 <= i < j < |t| && t[i] == '<' ensures t[j] != '>' {
        assert s[i + 1] == '<' && s[j + 1] == t[j];
      }
      StripTagsKeepsTagFree(t);
      assert StripTags(s) == [s[0]] + StripTags(t);
      assert s == [s[0]] + t;
    }
  }

  /** `isEmptyHtml`: nothing but white space is left once every tag is removed. */
  function IsEmptyHtml(html: string): (b: bool)
    ensures b <==> IsBlank(StripTags(html))
  {
    TrimEmptyIffBlank(StripTags(html));
    Trim(StripTags(html)) == ""
  }

  /** Markup with no text in it is empty. */
  lemma EmptyParagraphIsEmpty()
    ensures IsEmptyHtml("<p></p>")
  {
    var s := "<p></p>";
    assert s[1..][1] == '>';
    assert AfterFirst(s[1..], '>') == "</p>";
    var t := "</p>";
    assert t[1..][2] == '>';
    assert t[1..][0] != '>' && t[1..][1..][0] != '>';
    assert AfterFirst(t[1..], '>') == "";
    assert StripTags(t) == StripTags("");
    assert StripTags(s) == "";
  }

  /** Markup around text is not empty. */
  lemma ParagraphWithTextIsNotEmpty()
    ensures !IsEmptyHtml("<b>a")
  {
    var s := "<b>a";
    assert s[1..][1] == '>';
    assert AfterFirst(s[1..], '>') == "a";
    assert StripTags(s) == StripTags("a");
    assert StripTags("a") == "a" + StripTags([]);
    TrimEmptyIffBlank("a");
    assert !IsSpace("a"[0]);
  }

  lemma TagFreeEmptyIffBlank(s: string)
    requires TagFree(s)
    ensures IsEmptyHtml(s) <==> IsBlank(s)
  {
    StripTagsSpec(s);
    TrimEmptyIffBlank(s);
  }

  /* --------------------------------------------------------------- comments */

  /** The author of a new comment: the selected owner, or `user_1` when there is none. */
  function CommentAuthor(owner: string): string {
    if owner == "" then "user_1" else owner
  }

  /** `handleAddComment` on the list: empty HTML adds nothing, anything else one comment at the end. */
  function AddComment(comments: seq<Comment>, text: string, owner: string, id: string, createdAt: string): (r: seq<Comment>)
    ensures IsEmptyHtml(text) ==> r == comments
    ensures !IsEmptyHtml(text) ==>
      (|r| == |comments| + 1 && r[..|comments|] == comments && r[|comments|] == Comment(id, CommentAuthor(owner), text, createdAt))
  {
    if IsEmptyHtml(text) then comments else comments + [Comment(id, CommentAuthor(owner), text, createdAt)]
  }

  /** `handleSaveCommentEdit` on the list: the comments with that id take the new text. */
  function EditComment(comments: seq<Comment>, id: string, text: string): (r: seq<Comment>)
    ensures |r| == |comments|
    ensures forall i :: 0 <= i < |r| ==> r[i] == (if comments[i].id == id then comments[i].(text := text) else comments[i])
  {
    seq(|comments|, i requires 0 <= i < |comments| => if comments[i].id == id then comments[i].(text := text) else comments[i])
  }

  /** Editing keeps each comment's id, author and date, and gives the edited ones the new text. */
  lemma EditKeepsIdentity(comments: seq<Comment>, id: string, text: string)
    ensures var r := EditComment(comments, id, text);
      forall i :: 0 <= i < |r| ==>
        && r[i].id == comments[i].id && r[i].author == comments[i].author && r[i].createdAt == comments[i].createdAt
        && (comments[i].id == id ==> r[i].text == text)
  {
  }

  /** Saving the same edit twice is saving it once. */
  lemma EditIdempotent(comments: seq<Comment>, id: string, text: string)
    ensures EditComment(EditComment(comments, id, text), id, text) == EditComment(comments, id, text)
  {
  }

  /** `handleDeleteComment` on the list: the comments with that id go, the others keep their order. */
  function DeleteComments(comments: seq<Comment>, id: string): (r: seq<Comment>)
    ensures forall c :: c in r <==> c in comments && c.id != id
    ensures |r| <= |comments|
  {
    if comments == [] then []
    else (if comments[0].id == id then [] else [comments[0]]) + DeleteComments(comments[1..], id)
  }

  /** Deleting an id no comment has changes nothing. */
  lemma {:induction false} DeleteAbsentId(comments: seq<Comment>, id: string)
    requires forall c :: c in comments ==> c.id != id
    ensures DeleteComments(comments, id) == comments
    decreases |comments|
  {
    if comments != [] {
      assert comments[0] in comments;
      DeleteAbsentId(comments[1..], id);
      assert comments == [comments[0]] + comments[1..];
    }
  }

  /** One step of the filter: the head is kept or dropped, then the rest is filtered. */
  lemma DeleteCons(x: Comment, xs: seq<Comment>, id: string)
    ensures DeleteComments([x] + xs, id) == (if x.id == id then [] else [x]) + DeleteComments(xs, id)
  {
    assert ([x] + xs)[0] == x && ([x] + xs)[1..] == xs;
  }

  lemma {:induction false} DeleteAppend(comments: seq<Comment>, c: Comment, id: string)
    ensures DeleteComments(comments + [c], id) == DeleteComments(comments, id) + (if c.id == id then [] else [c])
    decreases |comments|
  {
    if comments == [] {
      DeleteCons(c, [], id);
      assert comments + [c] == [c] + [];
    } else {
      var x, xs := comments[0], comments[1..];
      ConsAppend(comments, c);
      DeleteCons(x, xs + [c], id);
      DeleteCons(x, xs, id);
      DeleteAppend(xs, c, id);
      AppendAssoc(if x.id == id then [] else [x], DeleteComments(xs, id), if c.id == id then [] else [c]);
    }
  }

  /** The filter distributes over concatenation, so what it keeps stays in the original order. */
  lemma {:induction false} DeleteDistributes(a: seq<Comment>, b: seq<Comment>, id: string)
    ensures DeleteComments(a + b, id) == DeleteComments(a, id) + DeleteComments(b, id)
    decreases |a|
  {
    if a == [] {
      assert a + b == b;
    } else {
      var x, xs := a[0], a[1..];
      assert a == [x] + xs;
      assert a + b == [x] + (xs + b);
      DeleteCons(x, xs + b, id);
      DeleteCons(x, xs, id);
      DeleteDistributes(xs, b, id);
      AppendAssoc(if x.id == id then [] else [x], DeleteComments(xs, id), DeleteComments(b, id));
    }
  }

  /** Deleting a comment just added under a fresh id gives back the list from before. */
  lemma DeleteUndoesAdd(comments: seq<Comment>, text: string, owner: string, id: string, createdAt: string)
    requires forall c :: c in comments ==> c.id != id
    ensures DeleteComments(AddComment(comments, text, owner, id, createdAt), id) == comments
  {
    DeleteAbsentId(comments, id);
    if !IsEmptyHtml(text) {
      DeleteAppend(comments, Comment(id, CommentAuthor(owner), text, createdAt), id);
    }
  }

  /* ---------------------------------------------------------- Markdown body */

  const ParagraphBreak := "\n\n"

  /** `pieces.map(p => '<p>' + p + '</p>').join('')`. */
  function Paragraphs(pieces: seq<string>): string {
    if pieces == [] then "" else "<p>" + pieces[0] + "</p>" + Paragraphs(pieces[1..])
  }

  /**
   * The image, bold and italic regular-expression rewrites, applied in that
   * order before the paragraphs are wrapped; they are taken as given.
   */
  datatype InlineRewrites = InlineRewrites(image: string -> string, bold: string -> string, italic: string -> string)

  function Inline(rewrites: InlineRewrites, markdown: string): string {
    rewrites.italic(rewrites.bold(rewrites.image(markdown)))
  }

  /** `convertMarkdownToHtml` as a value. */
  function MarkdownToHtml(markdown: string, rewrites: InlineRewrites): string {
    if markdown == "" then "" else Paragraphs(Split(Inline(rewrites, markdown), ParagraphBreak))
  }

  /** `convertMarkdownToHtml` as written: `html` is reassigned by each rewrite, then split and wrapped. */
  method ConvertMarkdownToHtml(markdown: string, rewrites: InlineRewrites) returns (html: string)
    ensures html == MarkdownToHtml(markdown, rewrites)
    ensures markdown == "" <==> html == ""
    ensures markdown != "" ==> StartsWith(html, "<p>")
  {
    if markdown == "" {
      return "";
    }
    html := rewrites.image(markdown);
    html := rewrites.bold(html);
    html := rewrites.italic(html);
    var pieces := Split(html, ParagraphBreak);
    html := Paragraphs(pieces);
    assert html == "<p>" + (pieces[0] + "</p>" + Paragraphs(pieces[1..]));
  }

  /** A text without a paragraph break is one piece. */
  lemma {:induction false} SplitWithoutSeparator(s: string, sep: string)
    requires |sep| > 0 && !Contains(s, sep)
    ensures Split(s, sep) == [s]
    decreases |s|
  {
    if |s| >= |sep| {
      SplitWithoutSeparator(s[1..], sep);
      assert [s[0]] + s[1..] == s;
    }
  }

  /** A rewritten text without a blank line becomes a single paragraph. */
  lemma SingleParagraph(markdown: string, rewrites: InlineRewrites)
    requires markdown != "" && !Contains(Inline(rewrites, markdown), ParagraphBreak)
    ensures MarkdownToHtml(markdown, rewrites) == "<p>" + Inline(rewrites, markdown) + "</p>"
  {
    var x := Inline(rewrites, markdown);
    SplitWithoutSeparator(x, ParagraphBreak);
    assert [x][1..] == [];
    assert Paragraphs([x]) == "<p>" + x + "</p>" + Paragraphs([]);
  }

  /** A body that starts with `<` is taken as HTML; any other body is converted. */
  function LoadBody(body: Option<string>, rewrites: InlineRewrites): string {
    var content := body.GetOr("");
    if StartsWith(content, "<") then content else MarkdownToHtml(content, rewrites)
  }

  /** Loading a body already loaded leaves it as it is: converted bodies start with `<`. */
  lemma LoadBodyIdempotent(body: Option<string>, rewrites: InlineRewrites)
    ensures LoadBody(Some(LoadBody(body, rewrites)), rewrites) == LoadBody(body, rewrites)
  {
    var content := body.GetOr("");
    if !StartsWith(content, "<") && content != "" {
      var pieces := Split(Inline(rewrites, content), ParagraphBreak);
      assert MarkdownToHtml(content, rewrites) == "<p>" + (pieces[0] + "</p>" + Paragraphs(pieces[1..]));
    }
  }

  /* ------------------------------------------------------------------- save */

  /** The update `handleSave` sends. */
  datatype TicketUpdates = TicketUpdates(
    title: string, status: string, owner: Option<string>, priority: Option<string>, body: string, comments: seq<Comment>)

  /** `value || null` on a form string. */
  function OrNull(s: string): (r: Option<string>)
    ensures r.None? <==> s == ""
    ensures r.Some? ==> r.value == s
  {
    if s == "" then None else Some(s)
  }

  /** `ticket.owner || ''` and the like: an absent value shows as the empty string. */
  function OrEmpty(s: Option<string>): (r: string)
    ensures s.None? ==> r == ""
    ensures s.Some? ==> r == s.value
  {
    s.GetOr("")
  }

  /** Opening a ticket and saving it unchanged sends back its owner and priority, except that an empty one becomes null. */
  lemma OwnerRoundTrip(s: Option<string>)
    ensures OrNull(OrEmpty(s)) == (if s == Some("") then None else s)
  {
  }

  /** The edit form. */
  class TicketForm {
    var title: string
    var status: string
    var owner: string
    var priority: string
    var body: string
    var comments: seq<Comment>
    var newComment: string
    var editingCommentId: Option<string>
    var editingCommentText: string
    var saving: bool

    constructor ()
      ensures title == "" && status == "" && owner == "" && priority == "" && body == ""
      ensures comments == [] && newComment == "" && editingCommentId.None? && editingCommentText == "" && !saving
    {
      title, status, owner, priority, body := "", "", "", "", "";
      comments, newComment, editingCommentId, editingCommentText, saving := [], "", None, "", false;
    }

    /** The effect run when a ticket is opened: the form takes its values. */
    method Load(ticket: Ticket, rewrites: InlineRewrites)
      modifies this
      ensures title == ticket.title && status == ticket.status
      ensures owner == OrEmpty(ticket.owner) && priority == OrEmpty(ticket.priority)
      ensures body == LoadBody(ticket.body, rewrites)
      ensures comments == ticket.comments.GetOr([]) && newComment == "" && editingCommentId.None?
      ensures editingCommentText == old(editingCommentText) && saving == old(saving)
    {
      title := ticket.title;
      status := ticket.status;
      owner := OrEmpty(ticket.owner);
      priority := OrEmpty(ticket.priority);
      var bodyContent := OrEmpty(ticket.body);
      if StartsWith(bodyContent, "<") {
        body := bodyContent;
      } else {
        body := ConvertMarkdownToHtml(bodyContent, rewrites);
      }
      comments := ticket.comments.GetOr([]);
      newComment := "";
      editingCommentId := None;
    }

    /** `handleSave`'s update: empty owner and priority are sent as null. */
    function Updates(): (u: TicketUpdates)
      reads this
      ensures u.owner.None? <==> owner == ""
      ensures u.priority.None? <==> priority == ""
      ensures u.title == title && u.status == status && u.body == body && u.comments == comments
    {
      TicketUpdates(title, status, OrNull(owner), OrNull(priority), body, comments)
    }

    /** The ticket fields the form edits; the comment handlers leave them alone. */
    function Fields(): (string, string, string, string, string)
      reads this
    {
      (title, status, owner, priority, body)
    }

    /** The save button is disabled while saving or while the title is blank. */
    predicate SaveDisabled()
      reads this
    {
      saving || Trim(title) == ""
    }

    method HandleAddComment(id: string, createdAt: string)
      modifies this
      ensures comments == AddComment(old(comments), old(newComment), owner, id, createdAt)
      ensures newComment == (if IsEmptyHtml(old(newComment)) then old(newComment) else "")
      ensures Fields() == old(Fields()) && saving == old(saving)
      ensures editingCommentId == old(editingCommentId) && editingCommentText == old(editingCommentText)
    {
      if IsEmptyHtml(newComment) {
        return;
      }
      var comment := Comment(id, CommentAuthor(owner), newComment, createdAt);
      comments := comments + [comment];
      newComment := "";
    }

    /** `handleEditComment`: starts editing a comment that exists, with its text. */
    method HandleEditComment(commentId: string)
      modifies this
      ensures var found := FindComment(old(comments), commentId);
        && (found.Some? ==> editingCommentId == Some(commentId) && editingCommentText == found.value.text)
        && (found.None? ==> editingCommentId == old(editingCommentId) && editingCommentText == old(editingCommentText))
      ensures comments == old(comments) && newComment == old(newComment)
      ensures Fields() == old(Fields()) && saving == old(saving)
    {
      var comment := FindComment(comments, commentId);
      if comment.Some? {
        editingCommentId := Some(commentId);
        editingCommentText := comment.value.text;
      }
    }

    method HandleSaveCommentEdit()
      modifies this
      ensures (old(editingCommentId).None? || old(editingCommentId) == Some("") || IsEmptyHtml(old(editingCommentText))) ==>
        comments == old(comments) && editingCommentId == old(editingCommentId) && editingCommentText == old(editingCommentText)
      ensures !(old(editingCommentId).None? || old(editingCommentId) == Some("") || IsEmptyHtml(old(editingCommentText))) ==>
        && comments == EditComment(old(comments), old(editingCommentId).value, old(editingCommentText))
        && editingCommentId.None? && editingCommentText == ""
      ensures Fields() == old(Fields()) && newComment == old(newComment) && saving == old(saving)
    {
      if editingCommentId.None? || editingCommentId.value == "" || IsEmptyHtml(editingCommentText) {
        return;
      }
      comments := EditComment(comments, editingCommentId.value, editingCommentText);
      editingCommentId := None;
      editingCommentText := "";
    }

    method HandleCancelCommentEdit()
      modifies this
      ensures editingCommentId.None? && editingCommentText == "" && comments == old(comments)
      ensures Fields() == old(Fields()) && newComment == old(newComment) && saving == old(saving)
    {
      editingCommentId := None;
      editingCommentText := "";
    }

    /** `handleDeleteComment`; `confirmed` is the user's answer to the confirmation prompt. */
    method HandleDeleteComment(commentId: string, confirmed: bool)
      modifies this
      ensures comments == (if confirmed then DeleteComments(old(comments), commentId) else old(comments))
      ensures Fields() == old(Fields()) && newComment == old(newComment) && saving == old(saving)
      ensures editingCommentId == old(editingCommentId) && editingCommentText == old(editingCommentText)
    {
      if !confirmed {
        return;
      }
      comments := DeleteComments(comments, commentId);
    }
  }

  /** `comments.find(c => c.id === id)`: the first comment with that id. */
  function FindComment(comments: seq<Comment>, id: string): (r: Option<Comment>)
    ensures r.None? <==> forall c :: c in comments ==> c.id != id
    ensures r.Some? ==>
      exists i :: (0 <= i < |comments| && comments[i] == r.value && r.value.id == id && forall k :: 0 <= k < i ==> comments[k].id != id)
  {
    if comments == [] then None
    else if comments[0].id == id then Some(comments[0])
    else
      var r := FindComment(comments[1..], id);
      if r.Some? then
        var i :| 0 <= i < |comments[1..]| && comments[1..][i] == r.value && r.value.id == id
          && forall k :: 0 <= k < i ==> comments[1..][k].id != id;
        assert comments[i + 1] == r.value;
        r
      else r
  }
}
