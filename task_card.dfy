/**
  The task card of the Next.js dashboard. Toggle and delete try the server action and
  fall back to a client request only when the action throws; an edit goes straight to
  the client request. Every request is filtered by the task id and the signed-in user.
 */
module TaskCard {
  import opened Common
  import opened Text
  import opened Tasks
  import opened Store
  import opened ServerActions

  /** Whether and how `onTaskUpdated` was called (`Notified(None)` makes the page refetch). */
  datatype Notice = NotNotified | Notified(task: Option<Task>)

  /** `data ?? fallback`. */
  function OrElse(data: Option<Task>, fallback: Task): (t: Task)
    ensures data.Some? ==> t == data.value
    ensures data.None? ==> t == fallback
  {
    if data.Some? then data.value else fallback
  }

  /** The toast after a successful toggle, chosen by the requested state. */
  function ToggleMessage(nowComplete: bool): (m: string)
    ensures nowComplete ==> m == "Task completed!"
    ensures !nowComplete ==> m == "Task marked incomplete"
  {
    if nowComplete then "Task completed!" else "Task marked incomplete"
  }

  /** The edit button: `disabled={loading || task.is_complete}`. */
  function EditEnabled(loading: bool, t: Task): (enabled: bool)
    ensures enabled <==> !loading && !t.isComplete
  {
    !(loading || t.isComplete)
  }

  /** The edit guard: a blank title, or one identical to the current title, sends nothing. */
  predicate EditIsNoop(edited: string, current: string) {
    Trim(edited) == [] || edited == current
  }

  /** The patch a toggle sends: only `is_complete`, flipped. */
  function TogglePatch(t: Task): (p: Patch)
    ensures p.title.None? && p.isComplete == Some(!t.isComplete)
  {
    Patch(None, Some(!t.isComplete))
  }

  /** The server action validates a toggle request exactly when both ids are non-empty. */
  lemma ToggleParses(t: Task, uid: string)
    ensures ParseUpdate(t.id, uid, TogglePatch(t)).Some? <==> t.id != "" && uid != ""
    ensures ParseUpdate(t.id, uid, TogglePatch(t)).Some? ==> ParseUpdate(t.id, uid, TogglePatch(t)).value.patch == TogglePatch(t)
  {
  }

  class Card {
    var task: Task
    var loading: bool
    var isEditing: bool
    var editedTitle: string

    constructor (task: Task)
      ensures this.task == task && !loading && !isEditing && editedTitle == task.title
    {
      this.task := task;
      loading := false;
      isEditing := false;
      editedTitle := task.title;
    }

    /**
      `handleToggle`: requests `is_complete = !task.is_complete`. `actionReachable` says
      whether the server action can be called; the replies are the store's answers to the
      action's update and to the client update; `now` is the client clock.
     */
    method HandleToggle(user: Option<string>, table: TaskTable, actionReachable: bool,
                        actionReply: Reply, clientReply: Reply, now: Stamp)
      returns (toast: Toast, notice: Notice)
      requires table.Valid()
      modifies this, table
      ensures task == old(task)
      ensures table.Valid()
      ensures isEditing == old(isEditing) && editedTitle == old(editedTitle)
      ensures user.None? ==>
        && toast == ErrorToast("You must be signed in to modify tasks") && notice == NotNotified
        && loading == old(loading) && table.rows == old(table.rows)
      ensures user.Some? ==> !loading
      ensures user.Some? ==>
        var uid, p := user.value, TogglePatch(task);
        var viaAction := actionReachable && task.id != "" && uid != "" && actionReply.Applied?;
        && (viaAction ==>
              && table.rows == UpdateRows(old(table.rows), task.id, uid, p)
              && toast == SuccessToast(ToggleMessage(!task.isComplete))
              && notice == Notified(UpdateResult(old(table.rows), task.id, uid, p, actionReply).value))
        && (!viaAction && clientReply.Rejected? ==>
              && table.rows == old(table.rows)
              && toast == ErrorToast("Failed to update task") && notice == NotNotified)
        && (!viaAction && clientReply.Applied? ==>
              && table.rows == UpdateRows(old(table.rows), task.id, uid, p)
              && toast == SuccessToast(ToggleMessage(!task.isComplete))
              && notice == Notified(Some(OrElse(UpdateResult(old(table.rows), task.id, uid, p, clientReply).value,
                                                task.(isComplete := !task.isComplete, updatedAt := Some(now))))))
    {
      if user.None? {
        toast, notice := ErrorToast("You must be signed in to modify tasks"), NotNotified;
        return;
      }
      loading := true;
      var p := TogglePatch(task);
      ToggleParses(task, user.value);
      var thrown := true;
      if actionReachable {
        var r := UpdateTask(table, task.id, user.value, p, actionReply);
        if r.Ok? {
          thrown := false;
          toast, notice := SuccessToast(ToggleMessage(!task.isComplete)), Notified(r.value);
        }
      }
      if thrown {
        var r := table.Update(task.id, user.value, p, clientReply);
        match r {
          case Err(_) =>
            toast, notice := ErrorToast("Failed to update task"), NotNotified;
          case Ok(data) =>
            var updated := OrElse(data, task.(isComplete := !task.isComplete, updatedAt := Some(now)));
            toast, notice := SuccessToast(ToggleMessage(!task.isComplete)), Notified(Some(updated));
        }
      }
      loading := false;
    }

    /** `handleDelete`: on success the page is told to refetch (`onTaskUpdated()` with no task). */
    method HandleDelete(user: Option<string>, table: TaskTable, actionReachable: bool,
                        actionReply: Reply, clientReply: Reply)
      returns (toast: Toast, notice: Notice)
      requires table.Valid()
      modifies this, table
      ensures task == old(task)
      ensures table.Valid()
      ensures isEditing == old(isEditing) && editedTitle == old(editedTitle)
      ensures user.None? ==>
        && toast == ErrorToast("You must be signed in to modify tasks") && notice == NotNotified
        && loading == old(loading) && table.rows == old(table.rows)
      ensures user.Some? ==> !loading
      ensures user.Some? ==>
        var uid := user.value;
        var viaAction := actionReachable && task.id != "" && uid != "" && actionReply.Applied?;
        && (viaAction || clientReply.Applied? ==>
              && table.rows == DeleteRows(old(table.rows), task.id, uid)
              && toast == SuccessToast("Task deleted") && notice == Notified(None))
        && (!viaAction && clientReply.Rejected? ==>
              && table.rows == old(table.rows)
              && toast == ErrorToast("Failed to delete task") && notice == NotNotified)
    {
      if user.None? {
        toast, notice := ErrorToast("You must be signed in to modify tasks"), NotNotified;
        return;
      }
      loading := true;
      var thrown := true;
      if actionReachable {
        var r := DeleteTask(table, task.id, user.value, actionReply);
        if r.Ok? {
          thrown := false;
          toast, notice := SuccessToast("Task deleted"), Notified(None);
        }
      }
      if thrown {
        var r := table.Delete(task.id, user.value, clientReply);
        if r.Fail? {
          toast, notice := ErrorToast("Failed to delete task"), NotNotified;
        } else {
          toast, notice := SuccessToast("Task deleted"), Notified(None);
        }
      }
      loading := false;
    }

    /**
      `handleEdit`: the guard first (no request, editing ends, the edited title is reset),
      then the user check, then a client update of the trimmed title.
     */
    method HandleEdit(user: Option<string>, table: TaskTable, clientReply: Reply, now: Stamp)
      returns (toast: Toast, notice: Notice)
      requires table.Valid()
      modifies this, table
      ensures task == old(task)
      ensures table.Valid()
      ensures EditIsNoop(old(editedTitle), task.title) ==>
        && !isEditing && editedTitle == task.title && loading == old(loading)
        && toast == NoToast && notice == NotNotified && table.rows == old(table.rows)
      ensures !EditIsNoop(old(editedTitle), task.title) && user.None? ==>
        && toast == ErrorToast("You must be signed in to modify tasks") && notice == NotNotified
        && isEditing == old(isEditing) && editedTitle == old(editedTitle) && loading == old(loading)
        && table.rows == old(table.rows)
      ensures !EditIsNoop(old(editedTitle), task.title) && user.Some? ==>
        var uid, p := user.value, Patch(Some(Trim(old(editedTitle))), None);
        && !loading && editedTitle == old(editedTitle)
        && (clientReply.Rejected? ==>
              && table.rows == old(table.rows) && isEditing == old(isEditing)
              && toast == ErrorToast("Failed to update task") && notice == NotNotified)
        && (clientReply.Applied? ==>
              && table.rows == UpdateRows(old(table.rows), task.id, uid, p) && !isEditing
              && toast == SuccessToast("Task updated successfully")
              && notice == Notified(Some(OrElse(UpdateResult(old(table.rows), task.id, uid, p, clientReply).value,
                                                task.(title := Trim(old(editedTitle)), updatedAt := Some(now))))))
    {
      if Trim(editedTitle) == [] || editedTitle == task.title {
        isEditing := false;
        editedTitle := task.title;
        toast, notice := NoToast, NotNotified;
        return;
      }
      if user.None? {
        toast, notice := ErrorToast("You must be signed in to modify tasks"), NotNotified;
        return;
      }
      loading := true;
      var trimmed := Trim(editedTitle);
      var r := table.Update(task.id, user.value, Patch(Some(trimmed), None), clientReply);
      match r {
        case Err(_) =>
          toast, notice := ErrorToast("Failed to update task"), NotNotified;
        case Ok(data) =>
          var updated := OrElse(data, task.(title := trimmed, updatedAt := Some(now)));
          toast := SuccessToast("Task updated successfully");
          isEditing := false;
          notice := Notified(Some(updated));
      }
      loading := false;
    }

    /** The edit button: opens the editor; it is disabled while loading and for completed tasks. */
    method StartEditing()
      requires EditEnabled(loading, task)
      modifies this
      ensures task == old(task)
      ensures isEditing && loading == old(loading) && editedTitle == old(editedTitle)
    {
      isEditing := true;
    }

    /** `handleCancelEdit`. */
    method HandleCancelEdit()
      modifies this
      ensures task == old(task)
      ensures !isEditing && editedTitle == task.title && loading == old(loading)
    {
      isEditing := false;
      editedTitle := task.title;
    }

    /**
      A re-render of the keyed card with a new `task` prop for the same id (after the
      page's realtime refetch or a local update): React keeps the card's state, so the
      editor's text, `isEditing` and `loading` stay as they were.
     */
    method ReceiveTask(t: Task)
      requires t.id == task.id
      modifies this
      ensures task == t
      ensures loading == old(loading) && isEditing == old(isEditing) && editedTitle == old(editedTitle)
    {
      task := t;
    }
  }
}
