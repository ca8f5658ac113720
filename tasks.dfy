/** The task record shared by the dashboard, the list, the cards and the store. */
module Tasks {
  import opened Common

  /**
    A timestamp column as the client receives it: the ISO text, and the instant that
    `new Date(text).getTime()` yields for it (`None` when that is NaN). Date parsing
    itself is outside the model; each stamp carries its own parse result.
   */
  datatype Stamp = Stamp(text: string, millis: Option<int>)

  /** A row of the `tasks` table as selected by the client (no owner column). */
  datatype Task = Task(
    id: string,
    title: string,
    isComplete: bool,
    createdAt: Option<Stamp>,
    updatedAt: Option<Stamp>)

  /** The ids occurring in a list of tasks (`new Set(tasks.map(t => t.id))`). */
  function IdSet(s: seq<Task>): set<string> {
    set t | t in s :: t.id
  }

  /** No two positions of the list hold tasks with the same id. */
  ghost predicate DistinctIds(s: seq<Task>) {
    forall i, j :: 0 <= i < j < |s| ==> s[i].id != s[j].id
  }
}
