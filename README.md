# Task planner core in Dafny

This project models the logical core of a small React task planner. A page
component holds an ordered list of tasks and a form draft. Two handlers replace
that state. `addTask` appends a pending task copied from the draft when the
draft's title is not blank. `updateTaskStatus` sets the status of every task
whose id matches. The page and its cards also derive figures from the list:
per-status counts, the total, and the completion percentage. The task list
view uses small pure helpers for colours, labels and the completion toggle.

Modules:

- `Tasks` (tasks.dfy): the `Task` record, the `Status` and `Priority`
  enumerations, the `Draft`, the empty draft, the three initial tasks and id
  uniqueness.
- `Text` (text.dfy): `String.prototype.trim` over the ECMAScript whitespace
  set, and when a trimmed title is empty.
- `Stats` (stats.dfy): `filter(...).length` counts, the completion percentage
  as an exact real, and the summary shown on the dashboard cards and the
  statistics tab.
- `TaskView` (taskview.dfy): the toggle rule, the button caption, the status
  and priority colour classes, the priority label and the card rendered for
  each task. `src/pages/Index.tsx` repeats `getStatusColor` and
  `getPriorityColor` word for word, and the model defines them once.
- `Planner` (planner.dfy): the page state as a class `Planner` with fields
  `tasks: seq<Task>` and `draft: Draft`. Its methods `AddTask`,
  `UpdateTaskStatus`, `SetDraft` and `ToggleTask` update those fields. The
  new values come from the pure functions `NewTask` and `WithStatus`. Lemmas
  beside them cover append-only growth, targeted and idempotent update, id
  preservation and how counts move.

`Date.now()` becomes the parameter `now` of `AddTask`. The source does not
guarantee unique ids, so the uniqueness results assume a fresh id.

## Model

| member | source | states |
|---|---|---|
| Tasks.EmptyDraft | src/pages/Index.tsx:56-62 | the draft starts with empty title, description, project and due date and priority medium |
| Tasks.InitialTasks | src/pages/Index.tsx:23-51 | the page starts with three tasks whose ids are 1, 2 and 3 in order |
| Tasks.InitialTasksUnique | src/pages/Index.tsx:23-51 | the initial ids are pairwise distinct and are exactly {1, 2, 3} |
| Text.TrimStart | src/pages/Index.tsx:85 | the result is a suffix of the input, everything removed is whitespace, and it does not start with whitespace |
| Text.TrimEnd | src/pages/Index.tsx:85 | the result is a prefix of the input, everything removed is whitespace, and it does not end with whitespace |
| Text.TrimEmptyIff | src/pages/Index.tsx:85 | `s.trim()` is empty exactly when every character of `s` is whitespace |
| Text.TrimIsInnerSlice | src/pages/Index.tsx:85 | the trimmed string is a contiguous slice `s[a..b]` of the input with no whitespace at either end, and `s[..a]` and `s[b..]` are all whitespace |
| Text.Trim | src/pages/Index.tsx:85 | `s.trim()` is no longer than `s` and neither starts nor ends with whitespace; what it removes is stated by `Text.TrimIsInnerSlice` |
| Planner.HasTitle | src/pages/Index.tsx:85 | the guard of `addTask` accepts a draft exactly when its title has a non-whitespace character |
| Planner.NewTask | src/pages/Index.tsx:86-94 | the new task has the given id and status pending, and its draft fields equal the draft (round trip through `DraftOf`), so the title is kept untrimmed |
| Planner.Planner.constructor | src/pages/Index.tsx:54-62 | the state starts as the initial tasks and the empty draft, with unique ids |
| Planner.Planner.SetDraft | src/pages/Index.tsx:209 | replacing the draft leaves the task list unchanged |
| Planner.Planner.AddTask | src/pages/Index.tsx:84-98 | a blank title leaves tasks and draft unchanged; otherwise the new list is the old one plus one pending task from the draft and the draft is reset; a fresh id keeps ids unique |
| Planner.AppendGrowsByOne | src/pages/Index.tsx:95 | a commit adds exactly one task, at the end, keeps the old list as a prefix, and the new task carries the draft |
| Planner.AppendFreshKeepsUnique | src/pages/Index.tsx:87-95 | appending a task with an unused id keeps ids unique and adds exactly that id to the id set |
| Planner.AppendCounts | src/pages/Index.tsx:95 | a commit raises the pending count by one and leaves the completed and in-progress counts unchanged |
| Planner.AppendCards | src/pages/Index.tsx:95 | after a commit the task list view shows the old cards followed by exactly the new task's card |
| Planner.WithStatus | src/pages/Index.tsx:101 | the length is kept, tasks with another id are unchanged, and a matching task differs only in its status, which becomes the argument |
| Planner.Planner.UpdateTaskStatus | src/pages/Index.tsx:100-102 | the new list is the old list with the status of matching tasks replaced; the draft and the id set are unchanged, and ids stay unique |
| Planner.WithStatusAbsent | src/pages/Index.tsx:101 | an id that names no task returns the list unchanged |
| Planner.WithStatusIdempotent | src/pages/Index.tsx:101 | applying the same update twice gives the same list as applying it once |
| Planner.WithStatusKeepsIds | src/pages/Index.tsx:101 | the update keeps every task's id at its index, so the id set and id uniqueness are preserved |
| Planner.WithStatusCounts | src/pages/Index.tsx:101 | with unique ids, updating one task moves exactly one task from its old status's count to the new status's count |
| Planner.Planner.ToggleTask | src/pages/Index.tsx:191-192 | the dashboard button updates the task's id with the toggle target of its current status |
| Planner.ToggleFlipsCompletion | src/components/TaskList.tsx:69-70 | with unique ids, the toggle flips whether the clicked task is completed and leaves every other task unchanged |
| Planner.RecentTasks | src/pages/Index.tsx:174 | the recent tasks are a prefix of the list of length min(3, number of tasks) |
| Planner.RecentCardsArePrefix | src/pages/Index.tsx:174-198 | the dashboard rows are the first cards of the full task list view |
| Planner.CompleteSecondInitialTask | src/pages/Index.tsx:100-102 | completing task 2 of the initial list gives 2 completed, 1 in progress, 0 pending out of 3 |
| Stats.FilterStatus | src/pages/Index.tsx:64 | the filtered list is no longer than the input, every element has the status and comes from the input, and every input task with that status is in it |
| Stats.FilterMultiplicity | src/pages/Index.tsx:64 | each task with the status occurs in the filtered list exactly as often as in the input, and no other task occurs |
| Stats.FilterAppend | src/pages/Index.tsx:64 | filtering a concatenation gives the filtered parts in the same order, so the filter keeps list order |
| Stats.CountStatus | src/components/StatsCards.tsx:19 | a status count is at most the number of tasks and is positive when some task has that status |
| Stats.CountsPartition | src/pages/Index.tsx:298-304 | the completed, in-progress and pending counts add up to the number of tasks |
| Stats.CountAppend | src/components/StatsCards.tsx:19 | the count of a concatenation is the sum of the two counts |
| Stats.CountFullIff | src/components/StatsCards.tsx:19-20 | a status count equals the total exactly when every task has that status |
| Stats.CountZeroIff | src/pages/Index.tsx:304 | a status count is zero exactly when no task has that status |
| Stats.CompletionPercentage | src/components/StatsCards.tsx:21 | the percentage lies in [0, 100] and is 0 for an empty list |
| Stats.PercentageIsRatio | src/components/StatsCards.tsx:21 | for every list the percentage times the total equals 100 times the completed count |
| Stats.PercentageFullIff | src/components/StatsCards.tsx:21 | the percentage is 100 exactly when the list is non-empty and every task is completed |
| Stats.PercentageZeroIff | src/pages/Index.tsx:66 | the percentage is 0 exactly when no task is completed, including the empty list |
| Stats.ComputeStats | src/pages/Index.tsx:64-66 | total equals the list length; completed + in progress + pending equals total; completed + in progress is at most total; the percentage lies in [0, 100] and is 0 when total is 0; each field is the count of its own status and the percentage is `CompletionPercentage` |
| Stats.InitialStats | src/pages/Index.tsx:23-66 | the initial list has 3 tasks, one in each status, and is one third complete |
| Stats.OverdueCount | src/components/StatsCards.tsx:68 | the overdue card shows 0 |
| TaskView.ToggleTarget | src/components/TaskList.tsx:69-70 | completed goes to pending, and any other status goes to completed; the target is never in progress |
| TaskView.ToggleTwice | src/components/TaskList.tsx:69-70 | toggling twice restores pending or completed, but turns in progress into pending |
| TaskView.ToggleLabel | src/components/TaskList.tsx:72 | the caption is "Отменить" exactly for completed tasks and "Завершить" otherwise |
| TaskView.StatusColor | src/components/TaskList.tsx:22-28 | green exactly for completed, blue exactly for in progress, gray exactly for pending |
| TaskView.PriorityColor | src/components/TaskList.tsx:30-36 | red exactly for high, yellow exactly for medium, green exactly for low |
| TaskView.PriorityLabel | src/components/TaskList.tsx:48-49 | Высокий, Средний or Низкий exactly for high, medium or low |
| TaskView.PriorityBadgeInjective | src/components/TaskList.tsx:47-49 | distinct priorities get distinct badge labels and colours |
| TaskView.CardOf | src/components/TaskList.tsx:41-73 | a card is keyed by the task id, shows its title, description, project and due date, its priority badge carries the priority label and colour, its status dot the status colour, and its button the toggle target and caption |
| TaskView.Cards | src/components/TaskList.tsx:40-41 | exactly one card per task, in list order |
| TaskView.CardsAppend | src/components/TaskList.tsx:40 | the cards of a concatenation are the concatenated cards |

## Left out

- Rendering: the JSX markup, CSS classes used only for styling, the tab navigation (`activeTab`) and the `Card`, `Badge`, `Progress`, `Tabs` and `Button` library components. They are presentation over libraries that are not part of this model.
- Static placeholders: the hard-coded project cards (66% and 0%), the calendar stub, the notification settings buttons and the "+2 с прошлой недели" caption. `src/components/TaskPlannerHeader.tsx` is not part of this model.
- `src/components/TaskForm.tsx` is not part of this model beyond `Planner.Planner.SetDraft`, which stands for its field-by-field `setNewTask` calls.
- Planner.Planner.SetDraft: accepts any draft, including any priority. The form edits only the title, description, project and due date, so in the program every committed task has priority medium. The model allows more drafts than the program produces; every result stated about it still holds for the drafts the form produces.
- Text.Trim: its own contract states only that the result has no whitespace at either end. That the removed parts are whitespace and the result is the inner slice is stated by `Text.TrimIsInnerSlice`, because as an ensures of `Trim` the proof is too costly.
- `Date.now()`: a clock read, passed in as the `now` parameter of `AddTask`. Nothing in the source guarantees distinct ids, so `AppendFreshKeepsUnique` and the uniqueness clause of `AddTask` assume the id is fresh.
- Stats.CompletionPercentage: computed with exact real division, not IEEE floating point. The `Math.round` used for display is not modelled.
- Task ids: a JavaScript `number` is modelled as an unbounded integer, so precision loss above 2^53 is not modelled.
- Status values: `Status` is a closed datatype, as the TypeScript type of `updateTaskStatus` declares. An untyped JavaScript caller could store any string, and that case is not modelled.
- Text.IsWhitespace: follows the ECMAScript WhiteSpace and LineTerminator sets for the current Unicode category Zs. Changes to Zs in other Unicode versions are not modelled.
- React scheduling: each handler reads the state of the render it was created in. The model applies transitions one after another, so batched or stale-closure updates from two clicks in one render are not modelled.
- TaskView.CardOf: the dashboard rows show only some of a card's fields (no description or due date). The model uses one `Card` for both views.
