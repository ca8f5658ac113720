/**
  The task-title rule `z.string().trim().min(1).max(200)`, written out once: it is
  the same in both task forms and in the `addTask`/`updateTask` server schemas.
 */
module TaskSchema {
  import opened Common
  import opened Text

  const MaxTitleLength := 200

  /** The first zod issue for a rejected title (the two checks cannot both fail). */
  datatype TitleProblem = EmptyTitle | TitleTooLong

  /** Parses a title: accepted titles come back trimmed. */
  function CheckTitle(title: string): (r: Result<string, TitleProblem>)
    ensures r.Ok? <==> 1 <= |Trim(title)| <= MaxTitleLength
    ensures r.Ok? ==> r.value == Trim(title) && 1 <= |r.value| <= MaxTitleLength
    ensures r == Err(EmptyTitle) <==> AllSpace(title)
    ensures r == Err(TitleTooLong) <==> |Trim(title)| > MaxTitleLength
  {
    TrimEmptyIffAllSpace(title);
    var t := Trim(title);
    if |t| < 1 then Err(EmptyTitle)
    else if |t| > MaxTitleLength then Err(TitleTooLong)
    else Ok(t)
  }

  /** A title the rule accepted passes the rule again unchanged (the server re-parses it). */
  lemma AcceptedTitleIsStable(title: string)
    requires CheckTitle(title).Ok?
    ensures CheckTitle(CheckTitle(title).value) == CheckTitle(title)
  {
    TrimIdempotent(title);
  }

  /** The custom messages both task forms attach to the two checks. */
  function TitleMessage(p: TitleProblem): (m: string)
    ensures p.EmptyTitle? ==> m == "Task title cannot be empty"
    ensures p.TitleTooLong? ==> m == "Task title is too long"
  {
    match p
    case EmptyTitle => "Task title cannot be empty"
    case TitleTooLong => "Task title is too long"
  }

  /** The submit button of either task form: `disabled={loading || !title.trim()}`. */
  function SubmitEnabled(loading: bool, title: string): (enabled: bool)
    ensures enabled <==> !loading && !AllSpace(title)
    ensures enabled ==> CheckTitle(title) != Err(EmptyTitle)
  {
    TrimEmptyIffAllSpace(title);
    !(loading || Trim(title) == [])
  }
}
