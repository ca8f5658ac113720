/**
  The three "use server" actions of the dashboard. Each parses its arguments with a
  zod schema first; a parse failure throws before any store client exists. A store
  error is rethrown to the caller.
 */
module ServerActions {
  import opened Common
  import opened Text
  import opened Tasks
  import opened TaskSchema
  import opened Store

  /** Why an action threw: its schema refused the input, or the store reported an error. */
  datatype ActionError = Invalid | StoreFailed(cause: StoreError)

  datatype AddInput = AddInput(title: string, userId: string)
  datatype UpdateInput = UpdateInput(id: string, userId: string, patch: Patch)
  datatype DeleteInput = DeleteInput(id: string, userId: string)

  /** `addTaskSchema`: a title passing the title rule (kept trimmed) and a non-empty user id. */
  function ParseAdd(title: string, userId: string): (r: Option<AddInput>)
    ensures r.Some? <==> 1 <= |Trim(title)| <= MaxTitleLength && userId != ""
    ensures r.Some? ==> r.value == AddInput(Trim(title), userId)
  {
    match CheckTitle(title)
    case Ok(t) => if |userId| >= 1 then Some(AddInput(t, userId)) else None
    case Err(_) => None
  }

  /** `updateTaskSchema`: non-empty ids; an optional title passing the title rule; an optional flag. */
  function ParseUpdate(id: string, userId: string, updates: Patch): (r: Option<UpdateInput>)
    ensures r.Some? <==>
      id != "" && userId != "" && (updates.title.Some? ==> 1 <= |Trim(updates.title.value)| <= MaxTitleLength)
    ensures r.Some? ==> r.value.id == id && r.value.userId == userId
    ensures r.Some? ==> r.value.patch.isComplete == updates.isComplete
    ensures r.Some? ==> r.value.patch.title == (if updates.title.Some? then Some(Trim(updates.title.value)) else None)
  {
    if |id| < 1 || |userId| < 1 then None
    else match updates.title
      case None => Some(UpdateInput(id, userId, updates))
      case Some(t) =>
        match CheckTitle(t)
        case Ok(trimmed) => Some(UpdateInput(id, userId, Patch(Some(trimmed), updates.isComplete)))
        case Err(_) => None
  }

  /** `deleteTaskSchema`: both ids non-empty. */
  function ParseDelete(id: string, userId: string): (r: Option<DeleteInput>)
    ensures r.Some? <==> id != "" && userId != ""
    ensures r.Some? ==> r.value == DeleteInput(id, userId)
  {
    if |id| >= 1 && |userId| >= 1 then Some(DeleteInput(id, userId)) else None
  }

  /** Every title the schema accepts is one the title rule accepts again, unchanged. */
  lemma ParsedTitleReparses(title: string, userId: string)
    requires ParseAdd(title, userId).Some?
    ensures ParseAdd(ParseAdd(title, userId).value.title, userId) == ParseAdd(title, userId)
  {
    TrimIdempotent(title);
  }

  /** A store error surfaces as a thrown action error carrying it. */
  function Rethrow<T>(r: Result<T, StoreError>): (a: Result<T, ActionError>)
    ensures a.Ok? <==> r.Ok?
    ensures r.Ok? ==> a.value == r.value
    ensures r.Err? ==> a.error == StoreFailed(r.error)
  {
    match r
    case Ok(v) => Ok(v)
    case Err(e) => Err(StoreFailed(e))
  }

  /** `addTask`: validates, then inserts `{ title: trimmed, user_id: userId, is_complete: false }`. */
  method AddTask(table: TaskTable, title: string, userId: string, newId: string, now: Stamp, reply: Reply)
    returns (r: Result<Option<Task>, ActionError>)
    requires table.Valid()
    modifies table
    ensures table.Valid()
    ensures ParseAdd(title, userId).None? ==> r == Err(Invalid) && table.rows == old(table.rows)
    ensures ParseAdd(title, userId).Some? ==>
      && table.rows == InsertRows(old(table.rows), userId, Trim(title), false, newId, now, reply)
      && r == Rethrow(InsertResult(old(table.rows), Trim(title), false, newId, reply))
  {
    var parsed := ParseAdd(title, userId);
    if parsed.None? {
      return Err(Invalid);
    }
    var inserted := table.Insert(parsed.value.userId, parsed.value.title, false, newId, now, reply);
    r := Rethrow(inserted);
  }

  /** `updateTask`: validates, then patches only the row with this id owned by this user. */
  method UpdateTask(table: TaskTable, id: string, userId: string, updates: Patch, reply: Reply)
    returns (r: Result<Option<Task>, ActionError>)
    requires table.Valid()
    modifies table
    ensures table.Valid()
    ensures ParseUpdate(id, userId, updates).None? ==> r == Err(Invalid) && table.rows == old(table.rows)
    ensures ParseUpdate(id, userId, updates).Some? ==>
      var p := ParseUpdate(id, userId, updates).value.patch;
      && table.rows == (if reply.Rejected? then old(table.rows) else UpdateRows(old(table.rows), id, userId, p))
      && r == Rethrow(UpdateResult(old(table.rows), id, userId, p, reply))
  {
    var parsed := ParseUpdate(id, userId, updates);
    if parsed.None? {
      return Err(Invalid);
    }
    var updated := table.Update(parsed.value.id, parsed.value.userId, parsed.value.patch, reply);
    r := Rethrow(updated);
  }

  /** `deleteTask`: validates, then deletes only the row with this id owned by this user; `true` on success. */
  method DeleteTask(table: TaskTable, id: string, userId: string, reply: Reply)
    returns (r: Result<bool, ActionError>)
    requires table.Valid()
    modifies table
    ensures table.Valid()
    ensures ParseDelete(id, userId).None? ==> r == Err(Invalid) && table.rows == old(table.rows)
    ensures ParseDelete(id, userId).Some? && reply.Rejected? ==>
      r == Err(StoreFailed(RequestRejected)) && table.rows == old(table.rows)
    ensures ParseDelete(id, userId).Some? && reply.Applied? ==>
      r == Ok(true) && table.rows == DeleteRows(old(table.rows), id, userId)
  {
    var parsed := ParseDelete(id, userId);
    if parsed.None? {
      return Err(Invalid);
    }
    var deleted := table.Delete(parsed.value.id, parsed.value.userId, reply);
    match deleted
    case Pass => r := Ok(true);
    case Fail(e) => r := Err(StoreFailed(e));
  }
}
