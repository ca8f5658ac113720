/**
  The task form of the Next.js dashboard: with a signed-in user it validates the
  title, tries the `addTask` server action, falls back to a client-side insert only
  when the action throws, and reports the returned task to the page.
 */
module TaskForm {
  import opened Common
  import opened Text
  import opened Tasks
  import opened TaskSchema
  import opened Store
  import opened ServerActions

  /** `if (!taskData) throw ...`: only a returned row counts as an added task. */
  function ReturnedTask<E>(r: Result<Option<Task>, E>): (t: Option<Task>)
    ensures t.Some? <==> r.Ok? && r.value.Some?
    ensures t.Some? ==> t == r.value
  {
    match r
    case Ok(Some(task)) => Some(task)
    case _ => None
  }

  /**
    How a call of the `addTask` server action ends, as the browser sees it: the action is
    never reached, it runs and its answer arrives, or it runs and its answer is lost (the
    browser sees a throw whatever the action did).
   */
  datatype Link = Unreached | Delivered | ResponseLost

  /** The table after the server action ran, or as it was when the action was never reached. */
  function ActionRows(rows: seq<Row>, link: Link, userId: string, title: string, actionId: string,
                      now: Stamp, actionReply: Reply): (r: seq<Row>)
    ensures link.Unreached? || userId == "" ==> r == rows
    ensures !link.Unreached? && userId != "" ==> r == InsertRows(rows, userId, title, false, actionId, now, actionReply)
  {
    if link.Unreached? || userId == "" then rows
    else InsertRows(rows, userId, title, false, actionId, now, actionReply)
  }

  /** Whether the server action's result reaches the form (otherwise the client insert runs). */
  predicate ActionInserts(rows: seq<Row>, userId: string, link: Link, actionId: string, actionReply: Reply) {
    link.Delivered? && userId != "" && InsertAccepted(rows, actionId, actionReply)
  }

  /**
    A lost answer after a stored insert still sends the browser down the client path, so
    when both inserts are accepted the table gains two rows with the same owner and title.
   */
  lemma LostResponseInsertsTwice(rows: seq<Row>, userId: string, title: string, actionId: string,
                                 clientId: string, now: Stamp, actionReply: Reply, clientReply: Reply)
    requires userId != "" && InsertAccepted(rows, actionId, actionReply)
    requires InsertAccepted(ActionRows(rows, ResponseLost, userId, title, actionId, now, actionReply), clientId, clientReply)
    ensures !ActionInserts(rows, userId, ResponseLost, actionId, actionReply)
    ensures InsertRows(ActionRows(rows, ResponseLost, userId, title, actionId, now, actionReply),
                       userId, title, false, clientId, now, clientReply)
            == rows + [Row(userId, Task(actionId, title, false, Some(now), None)),
                       Row(userId, Task(clientId, title, false, Some(now), None))]
  {
  }

  class Form {
    var title: string
    var loading: bool

    constructor ()
      ensures title == "" && !loading
    {
      title := "";
      loading := false;
    }

    /**
      `handleSubmit`. `link` says how the server action call ends; the two replies are the
      store's answers to the action's insert and to the client insert; `actionId`,
      `clientId` and `now` are what the store assigns to each.
     */
    method HandleSubmit(user: Option<string>, table: TaskTable, link: Link, actionReply: Reply,
                        clientReply: Reply, actionId: string, clientId: string, now: Stamp)
      returns (toast: Toast, added: Option<Task>, fallback: bool)
      requires table.Valid()
      modifies this, table
      ensures table.Valid()
      // no user: an error, and no request of any kind
      ensures user.None? ==>
        && toast == ErrorToast("You must be logged in to add tasks") && added.None? && !fallback
        && title == old(title) && loading == old(loading) && table.rows == old(table.rows)
      ensures user.Some? ==> !loading
      // a rejected title: its first message, and no insert
      ensures user.Some? && CheckTitle(old(title)).Err? ==>
        && toast == ErrorToast(TitleMessage(CheckTitle(old(title)).error)) && added.None? && !fallback
        && title == old(title) && table.rows == old(table.rows)
      // an accepted title: the action's insert if its answer arrives, else the client insert after it
      ensures user.Some? && CheckTitle(old(title)).Ok? ==>
        var v, uid := Trim(old(title)), user.value;
        var afterAction := ActionRows(old(table.rows), link, uid, v, actionId, now, actionReply);
        && fallback == !ActionInserts(old(table.rows), uid, link, actionId, actionReply)
        && (!fallback ==>
              && table.rows == afterAction
              && added == ReturnedTask(InsertResult(old(table.rows), v, false, actionId, actionReply)))
        && (fallback ==>
              && table.rows == InsertRows(afterAction, uid, v, false, clientId, now, clientReply)
              && added == ReturnedTask(InsertResult(afterAction, v, false, clientId, clientReply)))
        && (added.Some? ==> title == "" && toast == SuccessToast("Task added successfully"))
        && (added.None? ==> title == old(title) && toast == ErrorToast("Failed to add task"))
    {
      if user.None? {
        toast, added, fallback := ErrorToast("You must be logged in to add tasks"), None, false;
        return;
      }
      loading := true;
      var checked := CheckTitle(title);
      if checked.Err? {
        toast, added, fallback := ErrorToast(TitleMessage(checked.error)), None, false;
        loading := false;
        return;
      }
      var v := checked.value;
      var taskData: Option<Task> := None;
      var failed := false;
      fallback := true;
      if !link.Unreached? {
        AcceptedTitleIsStable(title);
        var r := AddTask(table, v, user.value, actionId, now, actionReply);
        if r.Ok? && link.Delivered? {
          taskData := r.value;
          fallback := false;
        }
      }
      if fallback {
        var r := table.Insert(user.value, v, false, clientId, now, clientReply);
        if r.Err? {
          failed := true;
        } else {
          taskData := r.value;
        }
      }
      if failed || taskData.None? {
        toast, added := ErrorToast("Failed to add task"), None;
      } else {
        title := "";
        toast, added := SuccessToast("Task added successfully"), taskData;
      }
      loading := false;
    }
  }
}
