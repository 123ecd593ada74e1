# To-do list: task validation and task-list state, in Dafny

This project models the logic of a small React to-do list app. It has two parts.

- **The validation schema** (`src/schema/tasksSchema.tsx`). The form is checked by a zod object schema with five field rules: taskName, priority, storyPoints, assignee and dueDate. `TasksSchema.Validate` is a pure function from a raw submission and today's day number to either the validated `TaskFormData` or a map from each failing field to its messages. Each field is a chain of checks, and each check is a predicate with a message (`TasksSchema.Check`). zod runs every check of a field and reports each failure in declaration order, and `TasksSchema.Issues` does the same. Dates are integer day numbers, with a separate case for a string that does not parse. storyPoints is an exact `real`, or NaN when JavaScript's `Number(text)` is NaN. Empty or blank text becomes 0, so it arrives as `Number(0.0)` and is refused with the positive and at-least-1 messages.
- **The `App` component** (`src/App.tsx`). `App.TodoApp` is a class with the component's state fields: the task list, the search term, the completion toggle, the confirmation modal flag and the id pending deletion. Its methods are the component's handlers, and each changes only the fields the handler sets. The list transforms the handlers apply are pure functions in module `Tasks`: `Append`, `Toggle`, `RemoveId` and `FilteredTasks`. `Tasks.RemoveId` and `Tasks.FilteredTasks` are built on `Seqs.Filter`, which models `Array.prototype.filter`. The search uses `Seqs.Includes`, which models `String.prototype.includes`.

The delete confirmation is a two-state machine, `Idle` or `PendingDelete(id)`. `App.TodoApp.ConfirmationState` reads it off the fields. The class invariant `Valid` says the modal is visible exactly while a deletion is pending.

Files: `wrappers.dfy` (Option), `seqs.dfy` (filter, subsequence, includes), `schema.dfy` (the schema), `tasks.dfy` (task record and list transforms), `app.dfy` (component state and handlers).

## Model

| member | source | states |
|---|---|---|
| `Seqs.Filter` | src/App.tsx:72 | keeps exactly the elements satisfying the predicate, with their multiplicities, as an order-preserving subsequence of the input |
| `Seqs.FilterIdempotent` | src/App.tsx:72 | filtering twice with one predicate equals filtering once |
| `Seqs.FilterKeepsAll` | src/App.tsx:72 | a predicate every element satisfies returns the input unchanged |
| `Seqs.FilterCongruent` | src/App.tsx:77-83 | predicates that agree on every element give the same filtered list |
| `Seqs.Includes` | src/App.tsx:79-80 | the empty term is included in every text; an included term is no longer than the text; a term as long as the text is included only when it equals the text |
| `Seqs.IncludesIff` | src/App.tsx:79-80 | `includes` holds iff the term occurs at some offset of the text |
| `TasksSchema.Issues` | src/schema/tasksSchema.tsx:3-37 | a check chain reports no message iff every check holds; each failing check's message is reported; every reported message belongs to a failing check |
| `TasksSchema.ParsePriority` | src/schema/tasksSchema.tsx:8-12 | a parsed priority's name is exactly the input string |
| `TasksSchema.ParsePriorityRoundTrip` | src/schema/tasksSchema.tsx:8 | each priority's name parses back to it; exactly "Urgent", "High", "Normal" and "Low" parse |
| `TasksSchema.TaskNameIssues` | src/schema/tasksSchema.tsx:4-7 | no issue iff 5 <= length <= 30; shorter gives only the at-least-5 message, longer only the at-most-30 message |
| `TasksSchema.PriorityIssues` | src/schema/tasksSchema.tsx:8-12 | no issue iff the value is one of the four names; otherwise exactly the one enum message |
| `TasksSchema.StoryPointsIssues` | src/schema/tasksSchema.tsx:13-20 | no issue iff a whole number in [1, 20]; NaN gives only the type error; a fraction gives the whole-number message; <= 0 gives the positive and min messages; < 1 the min message; > 20 the max message, alone when whole |
| `TasksSchema.AssigneeIssues` | src/schema/tasksSchema.tsx:21-26 | no issue iff non-empty with every character an ASCII letter or JavaScript white space; empty gives the regex and required messages; a bad character gives only the regex message |
| `TasksSchema.DueDateIssues` | src/schema/tasksSchema.tsx:27-36 | no issue iff the date parses and its day is today or later; otherwise exactly the one due-date message |
| `TasksSchema.FieldIssues` | src/schema/tasksSchema.tsx:3-37 | a field has no issue iff its rule holds |
| `TasksSchema.Validate` | src/schema/tasksSchema.tsx:3-37 | accepts iff every field rule holds; on acceptance returns the fields unchanged, with storyPoints as the whole number it was; on rejection the error map has exactly the failing fields, each with at least one message, and each field's messages are those of its check chain |
| `TasksSchema.ValidateIdempotent` | src/schema/tasksSchema.tsx:39 | validating an accepted record's data again accepts the same record |
| `TasksSchema.SingleFieldFailure` | src/schema/tasksSchema.tsx:3-37 | a submission breaking exactly one rule is rejected with errors on that field alone |
| `TasksSchema.LocalDayOfUtcMidnight` | src/schema/tasksSchema.tsx:28-34 | the result is the local day whose span contains the instant of UTC midnight of the date shifted by the time-zone offset: the day before west of UTC, the same day at UTC and east of it (offsets under a day) |
| `TasksSchema.DueDateOkAsWritten` | src/schema/tasksSchema.tsx:28-34 | the comparison as written accepts exactly a parsed date whose local-time instant of UTC midnight is at or after the start of today's local day |
| `TasksSchema.TodayRefusedWestOfUtc` | src/schema/tasksSchema.tsx:29-33 | west of UTC the comparison as written refuses a due date of today, which the intended day comparison accepts |
| `TasksSchema.AsWrittenAgreesEastOfUtc` | src/schema/tasksSchema.tsx:29-33 | at UTC and east of it the comparison as written equals the intended day comparison |
| `Tasks.Append` | src/App.tsx:42-48 | one more task, at the end, with the given id and data and not completed; the existing prefix is unchanged |
| `Tasks.Toggle` | src/App.tsx:52-58 | same length; each task keeps its id and data; `completed` flips exactly on the tasks with the given id |
| `Tasks.ToggleTwice` | src/App.tsx:53-56 | toggling the same id twice restores the original list |
| `Tasks.ToggleAbsent` | src/App.tsx:53-56 | toggling an id no task has leaves the list unchanged |
| `Tasks.RemoveId` | src/App.tsx:72 | the result is an order-preserving subsequence holding exactly the tasks with another id, each as often as before |
| `Tasks.RemoveIdTwice` | src/App.tsx:72 | removing an id twice equals removing it once |
| `Tasks.RemoveIdAbsent` | src/App.tsx:72 | removing an id no task has leaves the list unchanged |
| `Tasks.LowerChar` | src/App.tsx:79-80 | the result is never an ASCII capital; a capital becomes the small letter at the same place in the alphabet; any other character is kept |
| `Tasks.Lower` | src/App.tsx:79-80 | lower-casing keeps the length, maps each character by `LowerChar`, leaves no ASCII capital, and keeps every character that is not one |
| `Tasks.LowerIdempotent` | src/App.tsx:79-80 | lower-casing twice equals lower-casing once |
| `Tasks.FilteredTasks` | src/App.tsx:77-83 | the view is an order-preserving subsequence of the tasks; a task is in it iff it is in the list, its lower-cased name or assignee includes the lower-cased term, and its `completed` equals the toggle; matching tasks keep their multiplicity |
| `Tasks.FilteredEmptyTerm` | src/App.tsx:77-83 | with an empty search term the view is exactly the tasks whose `completed` equals the toggle |
| `Tasks.FilteredIgnoresTermCase` | src/App.tsx:79-80 | a lower-cased search term gives the same view as the term itself |
| `Tasks.ViewsPartition` | src/App.tsx:81 | with an empty term the multiset union of the completed and pending views is exactly the multiset of tasks, so their lengths add up to the list length |
| `App.TodoApp.constructor` | src/App.tsx:29-36 | starts with the restored list, an empty search, the pending view, no modal and nothing pending |
| `App.TodoApp.OnSubmit` | src/App.tsx:42-50 | the list becomes `Append` of the old list: one new, not completed task at the end, the prefix unchanged; nothing else changes |
| `App.TodoApp.HandleToggleComplete` | src/App.tsx:52-58 | the list becomes `Toggle` of the old list; nothing else changes |
| `App.TodoApp.OpenDeleteConfirmModal` | src/App.tsx:60-63 | the given id becomes the pending one, replacing any earlier one, and the modal is shown; the list is untouched |
| `App.TodoApp.CloseDeleteConfirmModal` | src/App.tsx:65-68 | back to idle with the modal hidden; the list is untouched |
| `App.TodoApp.ConfirmDeleteTask` | src/App.tsx:70-75 | with a non-empty pending id, removes its tasks and returns to idle; with none or the empty string, changes nothing |
| `App.TodoApp.SetSearchTerm` | src/App.tsx:33 | the search term becomes the given text; nothing else changes |
| `App.TodoApp.SetShowCompleted` | src/App.tsx:34 | the toggle becomes the given value; nothing else changes |
| `App.TodoApp.FilteredView` | src/App.tsx:77-83 | the view is `FilteredTasks` of the current list, search term and toggle: an order-preserving subsequence of the list holding exactly the tasks that match the term and have `completed` equal to the toggle |
| `App.LastRequestWins` | src/App.tsx:60-75 | requesting deletion of one id, then another, then confirming removes exactly the tasks of the second id; tasks of the first remain |
| `App.CancelThenConfirm` | src/App.tsx:65-75 | cancelling and then confirming leaves the list unchanged and the modal hidden |
| `App.SubmittedTaskIsPending` | src/App.tsx:42-48 | a newly submitted task appears in the pending view with an empty search |

## Left out

- Rendering and component wiring (`TaskForm`, `TaskList`, `TaskItem`, `DeleteModal`, the JSX of `App`). These only pass values and callbacks.
- Persistence through `localStorage` and `JSON.parse`/`JSON.stringify` (src/App.tsx:29-32, 38-40). This is browser I/O. The constructor takes the restored list as a parameter. A stored value that fails to parse makes `JSON.parse` throw, so the code has no "corrupt means empty" rule and none is modelled.
- Id generation with `Date.now().toString()` (src/App.tsx:45). The id is a parameter of `App.TodoApp.OnSubmit`. Two submissions within one millisecond get the same id, so uniqueness of ids is not claimed.
- react-hook-form, `zodResolver` and `reset()` (src/App.tsx:22-27, 49). They move values between the form and the handlers.
- React's batching of state updates. Each handler is modelled as its updates applied in order, which gives the same state here.
- JavaScript `Date` parsing, time zones and `setHours` (src/schema/tasksSchema.tsx:29-33). Dates are day numbers or `InvalidDate`, and `Validate` compares days. Time zones appear only in the two lemmas of the finding below.
- `z.coerce.number()` turning text into a number (src/schema/tasksSchema.tsx:13). storyPoints arrives as an exact real, or NaN when `Number(text)` is NaN. Empty or blank text becomes 0 and arrives as `Number(0.0)`. Infinity and floating-point rounding are not represented.
- Unicode case mapping in `toLowerCase` (src/App.tsx:79-80). Only ASCII letters are folded.
- String lengths count code points, not UTF-16 code units. A taskName containing characters outside the Basic Multilingual Plane is measured differently from JavaScript.
- TasksSchema.StoryPointsIssues: states which messages are present, and the complete list only for NaN and for whole values above 20, because the order of zod's issues within a field is not part of the model's promise.

## Findings

| source | as written | input that shows it | evidently intended | confidence | as-written member | corrected member |
|---|---|---|---|---|---|---|
| src/schema/tasksSchema.tsx:29-33 | a date-only string such as "2026-10-18" is parsed as midnight UTC, and `setHours(0, 0, 0, 0)` then moves it to the start of the local day containing that instant | any time zone west of UTC (for example UTC-5, offset 300 minutes) with a due date of today's date: the parsed date lands on yesterday's local day and is refused | a due date of today is accepted in every time zone | not executed; high, since ECMAScript parses date-only ISO strings as UTC | `TasksSchema.TodayRefusedWestOfUtc` | `TasksSchema.DueDateIssues` |
