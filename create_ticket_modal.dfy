/**
 * The new-ticket dialog: the guard and normalisation of what is submitted,
 * the default status, and the form reset after a successful create.
 */
module CreateTicketModal {
  import opened Wrappers
  import opened Text
  import opened KanbanTypes
  import opened Schemas

  const DefaultPriority := "high"
  const DefaultOwner := "bot"

  /** What the dialog hands to its `onCreate` callback. */
  datatype CreateData = CreateData(title: string, status: string, owner: Option<string>, priority: string, body: Option<string>)

  /** `defaultStatus || columns[0]?.id || ''`. */
  function DefaultStatus(defaultStatus: Option<string>, columns: seq<Column>): (r: string)
    ensures defaultStatus.Some? && defaultStatus.value != "" ==> r == defaultStatus.value
    ensures (defaultStatus.None? || defaultStatus.value == "") && columns != [] ==> r == columns[0].id
    ensures (defaultStatus.None? || defaultStatus.value == "") && columns == [] ==> r == ""
  {
    if defaultStatus.Some? && defaultStatus.value != "" then defaultStatus.value
    else if columns != [] && columns[0].id != "" then columns[0].id
    else ""
  }

  /**
   * `handleCreate`'s guard and record: nothing is submitted for a blank title
   * or an empty or `none` priority; otherwise the title is trimmed, an empty or
   * `none` owner is dropped, and a blank body is dropped or else trimmed.
   */
  function CreatePayload(title: string, status: string, owner: string, priority: string, body: string): (r: Option<CreateData>)
    ensures r.None? <==> Trim(title) == "" || priority == "" || priority == "none"
    ensures r.Some? ==> r.value.title == Trim(title) && r.value.status == status && r.value.priority == priority
    ensures r.Some? ==> (r.value.owner.None? <==> owner == "" || owner == "none")
    ensures r.Some? && r.value.owner.Some? ==> r.value.owner.value == owner
    ensures r.Some? ==> (r.value.body.None? <==> IsBlank(body))
    ensures r.Some? && r.value.body.Some? ==> r.value.body.value == Trim(body)
  {
    TrimEmptyIffBlank(body);
    if Trim(title) == "" || priority == "" || priority == "none" then None
    else Some(CreateData(
      Trim(title),
      status,
      if owner != "" && owner != "none" then Some(owner) else None,
      priority,
      if Trim(body) != "" then Some(Trim(body)) else None))
  }

  /** Submitting what was submitted again changes nothing: every text sent is already trimmed. */
  lemma CreatePayloadIdempotent(title: string, status: string, owner: string, priority: string, body: string)
    requires CreatePayload(title, status, owner, priority, body).Some?
    ensures var d := CreatePayload(title, status, owner, priority, body).value;
      CreatePayload(d.title, d.status, d.owner.GetOr(""), d.priority, d.body.GetOr("")) == Some(d)
  {
    TrimIdempotent(title);
    TrimIdempotent(body);
  }

  /** A submitted record for a known board and a non-empty status passes the server's ticket schema. */
  lemma SubmittedPassesSchema(board: string, title: string, status: string, owner: string, priority: string, body: string)
    requires board != "" && status != ""
    requires CreatePayload(title, status, owner, priority, body).Some?
    ensures var d := CreatePayload(title, status, owner, priority, body).value;
      CreateTicketValid(CreateTicketInput(board, d.title, d.status, d.owner, d.priority, d.body))
  {
  }

  /** The dialog's form. `defaultStatus` and `columns` are the dialog's properties. */
  class CreateForm {
    const defaultStatus: Option<string>
    const columns: seq<Column>
    var title: string
    var status: string
    var owner: string
    var priority: string
    var body: string
    var creating: bool

    predicate IsReset()
      reads this
    {
      title == "" && status == DefaultStatus(defaultStatus, columns) && owner == DefaultOwner
      && priority == DefaultPriority && body == ""
    }

    constructor (defaultStatus: Option<string>, columns: seq<Column>)
      ensures this.defaultStatus == defaultStatus && this.columns == columns
      ensures IsReset() && !creating
    {
      this.defaultStatus := defaultStatus;
      this.columns := columns;
      title := "";
      status := DefaultStatus(defaultStatus, columns);
      owner := DefaultOwner;
      priority := DefaultPriority;
      body := "";
      creating := false;
    }

    method ResetForm()
      modifies this
      ensures IsReset() && creating == old(creating)
    {
      title := "";
      status := DefaultStatus(defaultStatus, columns);
      owner := DefaultOwner;
      priority := DefaultPriority;
      body := "";
    }

    /**
     * `handleCreate`: `submitted` is the record handed to `onCreate`, and
     * `succeeded` whether that call resolved.  Only a successful create resets
     * the form (and closes the dialog); a failed one keeps what was typed.
     */
    method HandleCreate(succeeded: bool) returns (submitted: Option<CreateData>, closed: bool)
      modifies this
      ensures submitted == CreatePayload(old(title), old(status), old(owner), old(priority), old(body))
      ensures closed <==> submitted.Some? && succeeded
      ensures closed ==> IsReset()
      ensures !closed ==>
        (title == old(title) && status == old(status) && owner == old(owner) && priority == old(priority) && body == old(body))
      ensures submitted.Some? ==> !creating
      ensures submitted.None? ==> creating == old(creating)
    {
      submitted := CreatePayload(title, status, owner, priority, body);
      closed := false;
      if submitted.None? {
        return;
      }
      creating := true;
      if succeeded {
        ResetForm();
        closed := true;
      }
      creating := false;
    }

    /** `handleClose`: closing the dialog always resets the form. */
    method HandleClose()
      modifies this
      ensures IsReset() && creating == old(creating)
    {
      ResetForm();
    }
  }
}
