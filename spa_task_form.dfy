/**
  The task form of the single-page (react-router) variant: it validates the title and
  hands the trimmed title to the `onAddTask` callback of its page.
 */
module SpaTaskForm {
  import opened Common
  import opened Text
  import opened TaskSchema

  class Form {
    var title: string
    var loading: bool

    constructor ()
      ensures title == "" && !loading
    {
      title := "";
      loading := false;
    }

    /**
      `handleSubmit`. `rejects` says whether the callback's promise rejects; `passed` is
      the title the callback received, if it was called.
     */
    method HandleSubmit(rejects: bool) returns (toast: Toast, passed: Option<string>)
      modifies this
      ensures !loading
      ensures CheckTitle(old(title)).Err? ==>
        toast == ErrorToast(TitleMessage(CheckTitle(old(title)).error)) && passed.None? && title == old(title)
      ensures CheckTitle(old(title)).Ok? ==> passed == Some(Trim(old(title))) && 1 <= |passed.value| <= MaxTitleLength
      ensures CheckTitle(old(title)).Ok? && rejects ==> toast == ErrorToast("Failed to add task") && title == old(title)
      ensures CheckTitle(old(title)).Ok? && !rejects ==> toast == NoToast && title == ""
    {
      loading := true;
      var checked := CheckTitle(title);
      match checked {
        case Err(problem) =>
          toast, passed := ErrorToast(TitleMessage(problem)), None;
        case Ok(validated) =>
          passed := Some(validated);
          if rejects {
            toast := ErrorToast("Failed to add task");
          } else {
            title := "";
            toast := NoToast;
          }
      }
      loading := false;
    }
  }
}
