# TaskFlow task list, forms, cards and auth pages in Dafny

TaskFlow is a to-do application. It has two front ends over one hosted Supabase `tasks`
table:

- a Next.js dashboard, under `packages/web`;
- a single-page react-router app, under `src/`.

This project models the logic those front ends contain:

- **The dashboard's task list** (`Dashboard`, `TaskList`):
  - the per-user cache key, and reading the cache back;
  - the merge of a server snapshot with the cached tasks, deduplicated by id;
  - prepend on add, and replace-by-id on update;
  - the `all | active | completed` filter;
  - the newest-first display sort;
  - the empty-state message.
- **Validation and the store-facing actions** (`TaskSchema`, `ServerActions`, `Store`):
  - the task-title rule (trimmed, 1 to 200 characters);
  - the three zod schemas of the server actions;
  - `addTask`, `updateTask` and `deleteTask` over an abstract table. Every update and every delete is scoped by both `id` and `user_id`.
- **Forms and cards as small state machines**, in both variants (`TaskForm`, `SpaTaskForm`, `TaskCard`, `SpaTaskCard`):
  - the guards;
  - the server-action-then-client fallback chain;
  - the fallback task used when the store returns no row;
  - which fields each path resets.
- **The two auth pages** (`AuthPage`, `SpaAuth`):
  - the ordered sign-up checks;
  - the zod credential schema;
  - the ordered mapping of provider error messages;
  - the mode toggles.

## How the model is built

The stateful parts of the code are Dafny classes whose methods update their fields:

- React component state becomes a class: `DashboardPage`, `Form`, `Card` and `Page`.
- The hosted table becomes `Store.TaskTable`. Its `rows` field is updated in place.

Each method's `ensures` ties the new state and the results to pure functions:

- `Merge`, `ReplaceById` and `FilterTasks` for the dashboard;
- `InsertRows`, `UpdateRows` and `DeleteRows` for the table;
- `CheckTitle`, `SignUpProblem` and `SchemaProblem` for validation.

The properties the code relies on are lemmas about those functions.

The outside world enters as inputs:

- **The store.** Each request gets a `Reply`: rejected, or applied with or without a returned row. The store also supplies the generated id and the insert time.
- **The network.** For the cards, whether a server action can be reached is a boolean input. For the add form, a `Link` also covers an action that ran but whose answer was lost.
- **Local storage.** Reading it yields a `Stored` value: missing, unreadable, not an array, or an array of tasks.
- **The clock.** The client's "now" is a `Stamp` parameter.
- **The email check.** zod's email-format check is an opaque predicate `isEmail`.
- **Timestamps.** A timestamp is its text plus the instant `Date` parses it to. That instant is `None` when the parse gives NaN.

There are no temporary ids, no rollback of failed mutations and no per-event upsert in
the code; none is modelled.

## Model

| member | source | states |
|---|---|---|
| Text.Trim | packages/web/src/components/TaskForm.tsx:21 | `trim()`: the result is a slice of the input. Everything cut off is JS white space, and the result neither starts nor ends with white space. |
| Text.TrimEmptyIffAllSpace | packages/web/src/components/TaskForm.tsx:102 | `!title.trim()` holds exactly when the title is all white space, the empty title included. |
| Text.TrimIdempotent | packages/web/src/app/dashboard/server-actions.ts:17 | Trimming an already trimmed title changes nothing, so the server schema's second trim is harmless. |
| Text.Contains | src/pages/Auth.tsx:51-55 | `includes`: true exactly when the pattern occurs at some index of the message. |
| TaskSchema.CheckTitle | packages/web/src/components/TaskForm.tsx:20-22 | Accepted exactly when the trimmed title has 1 to 200 characters, and the result is the trimmed title. "Empty" is reported exactly for an all-white-space title, "too long" exactly for a trimmed length over 200. |
| TaskSchema.AcceptedTitleIsStable | packages/web/src/components/TaskForm.tsx:44-50 | A title the form accepted is accepted again, unchanged, when the server action re-parses it. |
| TaskSchema.TitleMessage | packages/web/src/components/TaskForm.tsx:21 | The two custom messages, "Task title cannot be empty" and "Task title is too long". |
| TaskSchema.SubmitEnabled | packages/web/src/components/TaskForm.tsx:102 | The submit button is enabled exactly when the form is not loading and the title is not all white space. An enabled submit never meets the empty-title error. |
| Store.InsertRows | packages/web/src/app/dashboard/server-actions.ts:40-50 | An accepted insert appends one row with the given owner, title and flag, the generated id and the insert time. Otherwise the table is unchanged. Distinct ids stay distinct. |
| Store.InsertResult | packages/web/src/app/dashboard/server-actions.ts:40-56 | The insert succeeds exactly when it is accepted. A returned row holds exactly the selected `id, title, is_complete` of the new row. |
| Store.Patched | packages/web/src/app/dashboard/server-actions.ts:64-66 | A supplied column takes the supplied value and a missing one keeps the old value. The id and the timestamps are kept. |
| Store.UpdateRows | packages/web/src/app/dashboard/server-actions.ts:64-68 | Rows not matching both `id` and `user_id` are unchanged. Each matching row keeps its owner and gets the patched task. The length is kept. |
| Store.UpdateResult | packages/web/src/app/dashboard/server-actions.ts:64-76 | The update fails exactly when the store rejects it. When the store sends a row back, one comes back exactly when some row is scoped by `id` and `user_id`, and it is the patch applied to such a row. When it sends none, the result is `null`. |
| Store.UpdateKeepsIds | packages/web/src/app/dashboard/server-actions.ts:64-68 | An update keeps the table's id set, so distinct ids stay distinct. |
| Store.UpdateIdempotent | packages/web/src/app/dashboard/server-actions.ts:64-68 | Applying the same update twice leaves the table as applying it once. |
| Store.UpdateReturnsPatchedRow | packages/web/src/app/dashboard/server-actions.ts:69-70 | The row selected after an update is a scoped row of the old table with the patch applied. |
| Store.DeleteRows | packages/web/src/app/dashboard/server-actions.ts:84-88 | A row survives exactly when it does not match both `id` and `user_id`. Nothing is added. |
| Store.DeleteIdempotent | packages/web/src/app/dashboard/server-actions.ts:84-88 | A repeated delete removes nothing more. |
| Store.DeleteKeepsDistinct | packages/web/src/app/dashboard/server-actions.ts:84-88 | A delete keeps ids distinct. |
| Store.DeleteMissingIsNoop | packages/web/src/app/dashboard/server-actions.ts:84-88 | A delete whose filter matches no row leaves the table unchanged. |
| Store.DeleteRemovesAtMostOne | packages/web/src/app/dashboard/server-actions.ts:84-88 | With distinct ids, a delete removes at most one row. |
| Store.TaskTable.Insert | packages/web/src/app/dashboard/server-actions.ts:40-50 | The table becomes `InsertRows` of the old table, the result is `InsertResult`, and ids stay distinct. |
| Store.TaskTable.Update | packages/web/src/app/dashboard/server-actions.ts:64-70 | A rejected update changes nothing. Otherwise the table becomes `UpdateRows` of the old table. The result is `UpdateResult`, and ids stay distinct. |
| Store.TaskTable.Delete | packages/web/src/app/dashboard/server-actions.ts:84-88 | A rejected delete changes nothing and fails. Otherwise the table becomes `DeleteRows` of the old table. |
| ServerActions.ParseAdd | packages/web/src/app/dashboard/server-actions.ts:16-19 | Valid exactly when the trimmed title has 1 to 200 characters and the user id is non-empty. The parsed title is the trimmed one. |
| ServerActions.ParseUpdate | packages/web/src/app/dashboard/server-actions.ts:21-28 | Valid exactly when both ids are non-empty and any supplied title passes the title rule. Both fields are optional. The title comes back trimmed and the flag as given. |
| ServerActions.ParseDelete | packages/web/src/app/dashboard/server-actions.ts:30-33 | Valid exactly when both ids are non-empty. |
| ServerActions.ParsedTitleReparses | packages/web/src/app/dashboard/server-actions.ts:16-19 | The schema's output title passes the schema again, unchanged. |
| ServerActions.Rethrow | packages/web/src/app/dashboard/server-actions.ts:52-54 | A store error is rethrown with its cause, and a success is passed through. |
| ServerActions.AddTask | packages/web/src/app/dashboard/server-actions.ts:35-57 | Invalid input throws before the table is touched. Otherwise a row is inserted with the trimmed title, `user_id = userId` and `is_complete = false`, and store errors are rethrown. |
| ServerActions.UpdateTask | packages/web/src/app/dashboard/server-actions.ts:59-77 | Invalid input throws before the table is touched. Otherwise only rows matching both ids get the parsed patch, and store errors are rethrown. |
| ServerActions.DeleteTask | packages/web/src/app/dashboard/server-actions.ts:79-95 | Invalid input throws before the table is touched. Otherwise only rows matching both ids are removed, the action returns `true`, and store errors are rethrown. |
| TaskList.FilterTasks | packages/web/src/components/TaskList.tsx:21-25 | The result is no longer than the input, and every task in it is one the filter shows. |
| TaskList.FilterMembers | packages/web/src/components/TaskList.tsx:21-25 | The result is a sub-multiset of the input. It holds every task the filter shows and only those. |
| TaskList.FilterConcat | packages/web/src/components/TaskList.tsx:21-25 | Filtering distributes over concatenation, so the kept tasks stay in input order. |
| TaskList.FilterAllIsIdentity | packages/web/src/components/TaskList.tsx:24 | The `all` filter returns the list unchanged. |
| TaskList.ActiveCompletedPartition | packages/web/src/components/TaskList.tsx:22-23 | `active` and `completed` together hold every task exactly once. |
| TaskList.FilterIdempotent | packages/web/src/components/TaskList.tsx:21-25 | Filtering the page's already filtered list again changes nothing. |
| TaskList.SortKey | packages/web/src/components/TaskList.tsx:28-29 | The key is `updated_at` when it is present and non-empty, otherwise `created_at`. |
| TaskList.KeyTime | packages/web/src/components/TaskList.tsx:31-36 | A task has a usable instant exactly when its key is truthy and parses. |
| TaskList.Compare | packages/web/src/components/TaskList.tsx:31-38 | The comparator gives 0 when either key is missing or unparseable, and otherwise the sign of `bTime - aTime`, which is all the sort observes. |
| TaskList.InsertByKey | packages/web/src/components/TaskList.tsx:27-39 | One insertion step of the stable sort adds exactly the one task. |
| TaskList.SortByKey | packages/web/src/components/TaskList.tsx:27-39 | The sorted copy is a permutation of its input. |
| TaskList.InsertKeepsNewestFirst | packages/web/src/components/TaskList.tsx:33-38 | Inserting a keyed task into a newest-first list keeps it newest first. |
| TaskList.SortIsNewestFirst | packages/web/src/components/TaskList.tsx:33-38 | When every task has a usable key, the key instants do not increase along the output. |
| TaskList.LaterKeyShownFirst | packages/web/src/components/TaskList.tsx:33-38 | With all keys usable, a task with a later instant is shown before one with an earlier instant, whatever their `created_at`. |
| TaskList.EmptyMessage | packages/web/src/components/TaskList.tsx:41-53 | Each filter has its own empty-state text. |
| TaskList.Render | packages/web/src/components/TaskList.tsx:41-69 | The empty state is shown exactly when the filter keeps nothing. Otherwise the cards are a permutation of the kept tasks, newest first when every kept task's key is usable. |
| Dashboard.StorageKey | packages/web/src/app/dashboard/page.tsx:27 | The key is `taskflow_tasks_` followed by the user id, or by `anon` without one. |
| Dashboard.StorageKeyPerUser | packages/web/src/app/dashboard/page.tsx:27 | Two different signed-in users never share a cache key. |
| Dashboard.LoadLocalTasks | packages/web/src/app/dashboard/page.tsx:29-40 | A stored array is returned as it is. A missing entry, an unparseable entry or a non-array gives the empty list. |
| Dashboard.ServerTasks | packages/web/src/app/dashboard/page.tsx:75 | `data \|\| []`: the returned rows, or no tasks when the query returned none. |
| Dashboard.SaveThenLoad | packages/web/src/app/dashboard/page.tsx:42-48 | A saved list is what the next load under that key returns. Other keys are unaffected. |
| Dashboard.Unseen | packages/web/src/app/dashboard/page.tsx:81-83 | The kept cached tasks are no more than the cached ones, and none of them has an id the server sent. |
| Dashboard.UnseenMembers | packages/web/src/app/dashboard/page.tsx:81-83 | A task is kept exactly when it is cached and the server did not send its id. |
| Dashboard.UnseenConcat | packages/web/src/app/dashboard/page.tsx:81-83 | Filtering the cache distributes over concatenation, so the kept tasks stay in cache order. |
| Dashboard.Merge | packages/web/src/app/dashboard/page.tsx:79-83 | The server list comes first, unchanged. Everything after it is a cached task whose id the server did not send, and the length lies between the server list's and the sum of both. |
| Dashboard.MergeSnapshot | packages/web/src/app/dashboard/page.tsx:79-83 | The push loop builds exactly the server tasks followed by the unseen cached tasks. |
| Dashboard.MergeSources | packages/web/src/app/dashboard/page.tsx:79-83 | The merge starts with the server list unchanged. Every merged task comes from one of the two inputs, and every cached task with a new id is kept. |
| Dashboard.MergeIds | packages/web/src/app/dashboard/page.tsx:79-83 | The merged ids are the union of the server ids and the cached ids. |
| Dashboard.UnseenDistinct | packages/web/src/app/dashboard/page.tsx:81-83 | Filtering the cache keeps its ids distinct. |
| Dashboard.MergeDistinct | packages/web/src/app/dashboard/page.tsx:79-83 | Distinct server ids and distinct cached ids give distinct merged ids. |
| Dashboard.PrependDistinct | packages/web/src/app/dashboard/page.tsx:131 | `[task, ...prev]` has distinct ids exactly when `prev` does and the new id is not in it. |
| Dashboard.ReplaceById | packages/web/src/app/dashboard/page.tsx:147 | Every element with the payload's id becomes the payload. All other elements and the length are unchanged. |
| Dashboard.ReplaceKeepsIds | packages/web/src/app/dashboard/page.tsx:147 | Replacing keeps every position's id, so the id set and id distinctness are kept. |
| Dashboard.ReplaceMissingIsNoop | packages/web/src/app/dashboard/page.tsx:147 | An update whose id is not listed leaves the list unchanged. |
| Dashboard.DashboardPage.constructor | packages/web/src/app/dashboard/page.tsx:22-25 | The initial state: no tasks, loading, refresh key 0, filter `all`. |
| Dashboard.DashboardPage.FetchTasks | packages/web/src/app/dashboard/page.tsx:61-92 | Without a user, nothing happens. A failed query keeps the list. A successful one commits the merge of `data \|\| []` with the cache and caches it. Loading ends. |
| Dashboard.DashboardPage.Mount | packages/web/src/app/dashboard/page.tsx:94-127 | A non-empty cache is painted first, then the fetch's outcome is committed as in `FetchTasks`. |
| Dashboard.DashboardPage.HandleTaskAdded | packages/web/src/app/dashboard/page.tsx:129-141 | The list becomes `[task] ++ prev` and is cached, and the refresh key goes up by one. |
| Dashboard.DashboardPage.HandleTaskUpdated | packages/web/src/app/dashboard/page.tsx:144-156 | With a payload and a user, the list is replaced by id and cached. Otherwise the list is untouched locally and the page refetches. |
| Dashboard.DashboardPage.SelectFilter | packages/web/src/app/dashboard/page.tsx:213 | Only the filter changes. |
| Dashboard.DashboardPage.FilteredTasks | packages/web/src/app/dashboard/page.tsx:158-164 | The shown list is no longer than the page's list and holds exactly the listed tasks the filter shows. |
| Dashboard.DashboardPage.Render | packages/web/src/app/dashboard/page.tsx:183-241 | Without a user, the sign-in prompt. While loading, the placeholder. Otherwise a list of exactly the tasks the filter keeps, with the empty state when there are none. |
| TaskForm.ReturnedTask | packages/web/src/components/TaskForm.tsx:69 | Only a returned row counts as an added task. A null row is a failure. |
| TaskForm.ActionRows | packages/web/src/components/TaskForm.tsx:48-50 | An unreached action, or one that refuses the empty user id, leaves the table as it was; otherwise the action's insert is applied. |
| TaskForm.LostResponseInsertsTwice | packages/web/src/components/TaskForm.tsx:48-64 | When the action stores the task but its answer is lost, the client insert still runs, and with both inserts accepted the table gains two rows with the same owner and title. |
| TaskForm.Form.constructor | packages/web/src/components/TaskForm.tsx:30-31 | An empty title, not loading. |
| TaskForm.Form.HandleSubmit | packages/web/src/components/TaskForm.tsx:33-84 | Without a user: an error and no request. A rejected title: its message and no insert. Otherwise the server action's insert counts when its answer arrives; when the action is unreached, refuses, or its answer is lost, one client insert with the trimmed title, the user id and `is_complete = false` runs on the table the action left. Success clears the title and reports the task; failure keeps the title. Loading ends on every path that set it. |
| SpaTaskForm.Form.constructor | src/components/TaskForm.tsx:18-19 | An empty title, not loading. |
| SpaTaskForm.Form.HandleSubmit | src/components/TaskForm.tsx:21-38 | A rejected title shows its message and calls nothing. Otherwise exactly the trimmed title (1 to 200 characters) goes to `onAddTask`. The title is cleared only when that resolves, and kept with "Failed to add task" when it rejects. Loading ends. |
| TaskCard.OrElse | packages/web/src/components/TaskCard.tsx:65-69 | `data ?? fallback`. |
| TaskCard.ToggleMessage | packages/web/src/components/TaskCard.tsx:50 | The success text follows the requested state. |
| TaskCard.EditEnabled | packages/web/src/components/TaskCard.tsx:217 | The edit button is enabled exactly when the card is not loading and the task is not complete. |
| TaskCard.TogglePatch | packages/web/src/components/TaskCard.tsx:49 | A toggle sends only `is_complete = !task.is_complete`. |
| TaskCard.ToggleParses | packages/web/src/components/TaskCard.tsx:49 | The server action accepts a toggle exactly when both ids are non-empty, and passes the patch through unchanged. |
| TaskCard.Card.constructor | packages/web/src/components/TaskCard.tsx:30-32 | Not loading, not editing, and the edited title is the task's title. |
| TaskCard.Card.HandleToggle | packages/web/src/components/TaskCard.tsx:42-84 | Without a user: an error and no request. Otherwise the server action is tried first and the client update only when it throws. An error shows only when both fail. Without a returned row, the fallback task is the old task with the flag flipped and `updated_at = now`. Loading ends. |
| TaskCard.Card.HandleDelete | packages/web/src/components/TaskCard.tsx:86-118 | Without a user: an error and no request. Otherwise the action is tried first, then the client. On success only the scoped row is gone and the page is told to refetch; on double failure, an error. Loading ends. |
| TaskCard.Card.HandleEdit | packages/web/src/components/TaskCard.tsx:120-156 | A blank or unchanged title ends editing, resets the edited title and sends nothing. Otherwise, without a user: an error. With a user, a client update of the trimmed title scoped by both ids. On success editing ends and the returned row is reported, or the old task with the new title and `updated_at = now`. Loading ends. |
| TaskCard.Card.StartEditing | packages/web/src/components/TaskCard.tsx:216-217 | Opening the editor is possible only when the edit button is enabled. |
| TaskCard.Card.HandleCancelEdit | packages/web/src/components/TaskCard.tsx:158-161 | Editing ends and the edited title is restored to the task's title. |
| TaskCard.Card.ReceiveTask | packages/web/src/components/TaskCard.tsx:30-32 | A new `task` prop for the same keyed card replaces the task and keeps `loading`, `isEditing` and the edited title. |
| SpaTaskCard.Card.constructor | src/components/TaskCard.tsx:17-19 | Not loading, not editing, and the edited title is the task's title. |
| SpaTaskCard.Card.HandleToggle | src/components/TaskCard.tsx:21-25 | Calls `onToggle(task.id, !task.is_complete)`. Loading stays set exactly when the callback rejects. |
| SpaTaskCard.Card.HandleDelete | src/components/TaskCard.tsx:27-31 | Calls `onDelete(task.id)`. Loading stays set exactly when the callback rejects. |
| SpaTaskCard.Card.HandleEdit | src/components/TaskCard.tsx:33-44 | A blank or unchanged title ends editing, resets the edited title and calls nothing. Otherwise calls `onEdit(task.id, trimmed)`, and editing ends only when that resolves. |
| SpaTaskCard.Card.StartEditing | src/components/TaskCard.tsx:111-112 | Opening the editor is possible only when the task is not complete and the card is not loading. |
| SpaTaskCard.Card.HandleCancelEdit | src/components/TaskCard.tsx:46-49 | Editing ends and the edited title is restored. |
| SpaTaskCard.Card.ReceiveTask | src/components/TaskCard.tsx:17-19 | A new `task` prop for the same keyed card replaces the task and keeps `loading`, `isEditing` and the edited title. |
| AuthPage.SignInProblem | packages/web/src/app/auth/page.tsx:38-42 | Sign-in passes exactly when both fields are non-empty, and otherwise reports "Please fill in all fields". |
| AuthPage.SignUpProblem | packages/web/src/app/auth/page.tsx:60-76 | Checks in order: an empty field, then a mismatch, then a password under 6 characters. Each message is reported exactly when its check is the first to fail. |
| AuthPage.MessageOr | packages/web/src/app/auth/page.tsx:46 | `error.message \|\| fallback`. |
| AuthPage.SignInOutcome | packages/web/src/app/auth/page.tsx:33-53 | Missing fields: "Please fill in all fields" and no call. Otherwise the provider is called with the two fields; success shows no toast, a refusal shows its message or "Failed to sign in", a throw "An error occurred". |
| AuthPage.SignUpOutcome | packages/web/src/app/auth/page.tsx:55-89 | A failed check: its message and no call. Otherwise the provider is called with email and password; success asks to confirm the email, a refusal shows its message or "Failed to sign up", a throw "An error occurred". |
| AuthPage.Page.constructor | packages/web/src/app/auth/page.tsx:15-19 | Sign-in mode, empty fields, not loading. |
| AuthPage.Page.HandleSignIn | packages/web/src/app/auth/page.tsx:33-53 | The provider is called only when both fields are present. Its error shows its message or "Failed to sign in", and a throw shows "An error occurred". Loading ends. |
| AuthPage.Page.HandleSignUp | packages/web/src/app/auth/page.tsx:55-89 | The provider is called only when all three checks pass. Success shows the confirm-email text, and an error shows its message or "Failed to sign up". Loading ends. |
| AuthPage.Page.Submit | packages/web/src/app/auth/page.tsx:105 | In sign-up mode the toast and provider call are the sign-up outcome, otherwise the sign-in outcome. |
| AuthPage.Page.ToggleMode | packages/web/src/app/auth/page.tsx:161-166 | Flips the mode and clears all three fields. |
| SpaAuth.SchemaProblem | src/pages/Auth.tsx:12-15 | The credentials pass exactly when the email is valid and at most 255 characters and the password has 6 to 100 characters. The first zod issue is reported, email first. |
| SpaAuth.AuthErrorMessage | src/pages/Auth.tsx:51-59 | The shown message is never empty. |
| SpaAuth.AuthErrorMapping | src/pages/Auth.tsx:51-59 | Causes are tried in order: "Email not confirmed", then "Invalid login credentials", then "User already registered". With none of them, the message itself, or "Authentication failed" when it is empty. |
| SpaAuth.ReplyToast | src/pages/Auth.tsx:50-68 | On success, "Welcome back!" in login mode and "Account created successfully!" in sign-up mode. On a refusal, the mapped error. On a throw, "An unexpected error occurred". |
| SpaAuth.Page.constructor | src/pages/Auth.tsx:18-22 | Login mode, empty fields, not loading. |
| SpaAuth.Page.HandleSubmit | src/pages/Auth.tsx:32-72 | Schema first, on the trimmed email. The mismatch check runs only in sign-up mode and only after the schema passes. The provider gets the trimmed email and the untrimmed password. Loading ends. |
| SpaAuth.Page.ToggleMode | src/pages/Auth.tsx:135 | Flips the mode only; the fields are kept. |

## Left out

- The realtime subscription and its teardown (`packages/web/src/app/dashboard/page.tsx:108-126`): push events and concurrency. A change event is modelled as one more `FetchTasks`.
- The Supabase queries: the server-side `.order`, `.single()` and row-level security belong to a foreign library. Every request's outcome is an abstract `Reply` or `FetchReply`.
- `localStorage` and `JSON.parse`/`stringify`: reading is the `Stored` datatype. Write failures, which the code swallows, are not modelled; a write always succeeds.
- The 300 ms debounced cache write (`packages/web/src/app/dashboard/page.tsx:166-179`): timer-driven. Every commit in the model already writes the same list.
- `new Date(...).getTime()` and `toISOString()`: a timestamp carries its parsed instant, and "now" is a parameter.
- The email-format regex of zod: the opaque predicate `isEmail`.
- Store.InsertRows: a generated id that clashes with an existing row makes the insert fail. This stands in for the table's primary key; the real store never produces a clash.
- Store.TaskTable.Insert: the store's defaults and triggers on `created_at`/`updated_at` are reduced to `created_at = now` and no `updated_at`.
- TaskSchema.CheckTitle: lengths count characters, whereas JS counts UTF-16 code units. The same holds for `AuthPage.SignUpProblem` and `SpaAuth.SchemaProblem`.
- Text.Trim: Dafny `char`s are compared one by one. Surrogate pairs and normalisation are not modelled.
- TaskList.SortByKey: order is proved only when every task has a usable key. With missing or unparseable keys the comparator is inconsistent, and only the permutation is proved. The engine's sort is modelled as a stable insertion sort, as ECMAScript requires sorting to be stable.
- SpaAuth.AuthErrorMessage: its own contract states only that the message is non-empty. The ordered mapping is stated by `SpaAuth.AuthErrorMapping`.
- Dashboard.DashboardPage.Mount: the `try` around the cache read is folded into `LoadLocalTasks`, which already absorbs every read failure.
- `src/pages/Dashboard.tsx` and `src/components/TaskList.tsx` are not part of this model. They forward the callbacks of `SpaTaskForm` and `SpaTaskCard` to the store, or map the list, with no logic of their own.
- The presentation and routing files, the shared type declarations and the client and lint configuration are not part of this model.
- The auth pages' redirect of a signed-in user is routing, and is not modelled.
- Toasts are modelled as the one toast each path shows. Console logging is dropped.
- Store.Patched: `updated_at` is kept as it was, because no update trigger on the table is modelled.
- TaskCard.Card.HandleToggle, TaskCard.Card.HandleDelete: a server action that runs but whose answer is lost is not a separate input here. The client repeat it causes applies the same update or delete again, which `Store.UpdateIdempotent` and `Store.DeleteIdempotent` show changes nothing more.

## Notes on the code

- The web card's edit (`packages/web/src/components/TaskCard.tsx:131-135`) sends the trimmed title straight through the client, with no 200-character check. The server schema would refuse such a title, but the edit path never calls the server action.
- `Dashboard.StorageKey(Some("anon"))` equals `Dashboard.StorageKey(None)`. A user whose id is literally `anon` would share the anonymous cache entry. `Dashboard.StorageKeyPerUser` rules this out only between two signed-in users.
- `handleTaskAdded` prepends without checking ids. By `Dashboard.PrependDistinct`, ids stay distinct exactly when the returned task is not already listed.
- A server action that returns a null row makes the web card report `null`, and the dashboard then refetches.
