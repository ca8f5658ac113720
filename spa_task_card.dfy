/**
  The task card of the single-page variant: it hands every change to callbacks of its
  page and only tracks its own `loading`, `isEditing` and `editedTitle` state.
 */
module SpaTaskCard {
  import opened Common
  import opened Text
  import opened Tasks
  import TaskCard

  /** The callback a handler invoked, with its arguments. */
  datatype Call =
    | ToggleCall(id: string, isComplete: bool)   // onToggle(id, is_complete)
    | DeleteCall(id: string)                     // onDelete(id)
    | EditCall(id: string, title: string)        // onEdit(id, title)

  class Card {
    var task: Task
    var loading: bool
    var isEditing: bool
    var editedTitle: string

    constructor (task: Task)
      ensures this.task == task && !loading && !isEditing && editedTitle == task.title
    {
      this.task := task;
      loading := false;
      isEditing := false;
      editedTitle := task.title;
    }

    /**
      `handleToggle`: `onToggle(task.id, !task.is_complete)`. `rejects` says whether the
      callback's promise rejects; with no `finally`, `loading` then stays set.
     */
    method HandleToggle(rejects: bool) returns (call: Call)
      modifies this
      ensures task == old(task)
      ensures call == ToggleCall(task.id, !task.isComplete)
      ensures loading == rejects
      ensures isEditing == old(isEditing) && editedTitle == old(editedTitle)
    {
      loading := true;
      call := ToggleCall(task.id, !task.isComplete);
      if !rejects {
        loading := false;
      }
    }

    /** `handleDelete`: `onDelete(task.id)`; `loading` stays set if the callback rejects. */
    method HandleDelete(rejects: bool) returns (call: Call)
      modifies this
      ensures task == old(task)
      ensures call == DeleteCall(task.id)
      ensures loading == rejects
      ensures isEditing == old(isEditing) && editedTitle == old(editedTitle)
    {
      loading := true;
      call := DeleteCall(task.id);
      if !rejects {
        loading := false;
      }
    }

    /**
      `handleEdit`: the guard ends editing without a call; otherwise `onEdit(task.id,
      trimmed)` is awaited, and editing ends only if it resolves.
     */
    method HandleEdit(rejects: bool) returns (call: Option<Call>)
      modifies this
      ensures task == old(task)
      ensures TaskCard.EditIsNoop(old(editedTitle), task.title) ==>
        call.None? && !isEditing && editedTitle == task.title && loading == old(loading)
      ensures !TaskCard.EditIsNoop(old(editedTitle), task.title) ==>
        && call == Some(EditCall(task.id, Trim(old(editedTitle))))
        && editedTitle == old(editedTitle)
        && loading == rejects
        && isEditing == (if rejects then old(isEditing) else false)
    {
      if Trim(editedTitle) == [] || editedTitle == task.title {
        isEditing := false;
        editedTitle := task.title;
        call := None;
        return;
      }
      loading := true;
      call := Some(EditCall(task.id, Trim(editedTitle)));
      if !rejects {
        isEditing := false;
        loading := false;
      }
    }

    /** The edit button, disabled while loading and for completed tasks. */
    method StartEditing()
      requires TaskCard.EditEnabled(loading, task)
      modifies this
      ensures task == old(task)
      ensures isEditing && loading == old(loading) && editedTitle == old(editedTitle)
    {
      isEditing := true;
    }

    /** `handleCancelEdit`. */
    method HandleCancelEdit()
      modifies this
      ensures task == old(task)
      ensures !isEditing && editedTitle == task.title && loading == old(loading)
    {
      isEditing := false;
      editedTitle := task.title;
    }

    /**
      A re-render of the keyed card with a new `task` prop for the same id (after the
      page's realtime refetch or a local update): React keeps the card's state, so the
      editor's text, `isEditing` and `loading` stay as they were.
     */
    method ReceiveTask(t: Task)
      requires t.id == task.id
      modifies this
      ensures task == t
      ensures loading == old(loading) && isEditing == old(isEditing) && editedTitle == old(editedTitle)
    {
      task := t;
    }
  }
}
