# Team dashboard state core, in Dafny

This project models the state handling of a team management dashboard: the
optimistic drag-and-drop move of a task between the columns of a task board,
the notification slot that reports the outcome, the two loader hooks that
hydrate the task and employee collections (the employee one through a durable
key-value store used as a read-through cache), the merge-and-persist update of
one employee, the team page's name/department filter and CSV export projection,
and the employee card's status colour and profile route.

Module layout, one per source file plus three shared modules:

- `Wrappers` — `Option` and `Fetch` (a data set read from an external source, or a failure).
- `Text` — ASCII lower-casing (`Lower`) and substring search (`Contains`), with the
  positional characterisation of `Contains` (`ContainsIffOccurs`).
- `Records` — the `Task` and `Employee` records and `FindFirst`, the first-match
  lookup (`Array.prototype.find`) used by the board's drop handler, the employee
  hook's single-record lookup and the profile page.
- `UseTasks` — `class TasksHook`: the committed task collection, `loading`, `error`.
- `TaskBoard` — the pure specification of one drop (`Plan`, `WithStatus`, `Show`,
  `Fire`, `Sync`, `Step`) and `class Board`, whose `HandleDragEnd` is proved to
  change the board exactly as `Step` says. The lemmas about `Step` carry the
  properties: ignored drops, commit of ordinary tasks, the server-confirmed task's
  confirm and rollback paths, alignment of the shadow copy with the committed
  tasks, and notification exclusivity.
- `UseEmployees` — `class LocalStore` (key to collection), `class EmployeesHook`
  (warm path, cold path, failure, single-record lookup, update) and the pure
  merge `Merge` / `MergeById`.
- `TeamPage` — `FilterEmployees` and `ExportRows`.
- `EmployeeCard` — `StatusColor`, `ProfileRoute`, and `RouteId`, the id the
  profile page reads back from the route.

Timers and awaits are explicit steps: a hook's load is `StartLoad` followed,
when the delayed fetch was scheduled, by `FinishLoad` / `FinishColdLoad`; showing a
notification hides the slot and queues a `Notice` in `timers`, and `FireTimer`
displays the oldest queued notice. The task server's answer for the
server-confirmed task is the `reply` parameter of `HandleDragEnd`; the external
data sets are the `source` parameters of the finishing steps.

Behaviour of the code that the model keeps as written:

- A confirmed move of task `"1"` is not written into the committed tasks
  (app/components/TaskBoard.tsx:69-71); only the shadow copy shows it.
  `ServerMoveIsNeverCommitted` shows the consequences on every board: dropping
  that task back onto its old column is ignored (the guard compares with the
  committed status), and after the next committed drop of another task, once the
  effect copies the committed tasks into the shadow, task `"1"` shows its old status again.
- Only task `"1"` can fail to move; every other task is committed without any
  confirmation step (app/components/TaskBoard.tsx:72-76).
- There is no single-flight guard: two employee hooks that start on an empty store
  each schedule their own fetch, and each writes the store.
- The store has no single-field upsert; `UpdateEmployee` always writes the whole
  collection, and with a hook that selects one employee (whose `employees` stays
  empty) it writes that empty collection.

## Model

| member | source | states |
|---|---|---|
| `Records.FindFirst` | app/components/TaskBoard.tsx:52-55 | `find` returns nothing exactly when no element matches, and otherwise the element at the first matching index |
| `UseTasks.TasksHook.constructor` | app/hooks/useTasks.ts:5-7 | initially no tasks, `loading` true, `error` null |
| `UseTasks.TasksHook.StartLoad` | app/hooks/useTasks.ts:10-14 | loading starts with `loading` true and `error` null, tasks untouched, and the delayed fetch scheduled; the hook modifies only itself, so the durable store is never read or written |
| `UseTasks.TasksHook.FinishLoad` | app/hooks/useTasks.ts:14-26 | on success the tasks are exactly the source collection; on failure the tasks are unchanged and `error` is "Error fetching tasks"; `loading` is false after either outcome |
| `Text.Lower` | app/team/page.tsx:29 | `toLowerCase` keeps the length and lower-cases each character on its own (ASCII letters only) |
| `Text.Contains` | app/team/page.tsx:29 | `includes` can only hold for a needle no longer than the hay, and always holds for the empty needle |
| `Text.ContainsIffOccurs` | app/team/page.tsx:29 | `includes` holds exactly when the needle occurs at some position of the hay |
| `TaskBoard.Plan` | app/components/TaskBoard.tsx:48-61 | a drop is acted on only with a target other than the dragged id, for the task `find` returns (the first committed task with that id), when its committed status differs from the target; an ignored drop of a known task with a real target means the task already has that status |
| `TaskBoard.Step` | app/components/TaskBoard.tsx:44-84 | an ignored drop leaves the whole board as it was; an acted-on drop hides the slot, queues exactly one notice after the existing ones and keeps the number of committed tasks |
| `TaskBoard.Show` | app/components/TaskBoard.tsx:29-42 | showing hides the slot while keeping its message and severity, queues the notice last and touches no task |
| `TaskBoard.Fire` | app/components/TaskBoard.tsx:33-39 | the oldest queued notice becomes the visible, open notification and leaves the queue; tasks are untouched |
| `TaskBoard.Sync` | app/components/TaskBoard.tsx:21-25 | after the effect the shadow equals the committed tasks, which are unchanged, and the notification state is unchanged |
| `TaskBoard.MovedNoticeMentions` | app/components/TaskBoard.tsx:71-75 | the success notice has success severity and its message contains the task's title and the destination column |
| `TaskBoard.WithStatus` | app/components/TaskBoard.tsx:64 | the optimistic rewrite keeps length, order, ids, titles and other fields, and sets the status of exactly the records with the moved id |
| `TaskBoard.WithStatusChangesOnlyThatId` | app/components/TaskBoard.tsx:74 | the rewrite equals the input with only the matching records' status replaced |
| `TaskBoard.MissingOrSelfTargetIsIgnored` | app/components/TaskBoard.tsx:48-50 | a drop with no target or onto its own id changes no state and queues no notification |
| `TaskBoard.UnknownTaskIsIgnored` | app/components/TaskBoard.tsx:52-55 | dragging an id absent from the committed tasks changes nothing and queues no notification |
| `TaskBoard.SameColumnIsIgnored` | app/components/TaskBoard.tsx:57-61 | dropping a task into the column of its committed status changes nothing and queues no notification |
| `TaskBoard.OrdinaryMoveIsCommitted` | app/components/TaskBoard.tsx:72-75 | for any task other than "1", the committed tasks and the shadow adopt the new status for that id only, the slot is hidden and one success notice naming the title and the destination column is queued |
| `TaskBoard.ServerMoveConfirmedStaysUncommitted` | app/components/TaskBoard.tsx:69-71 | a confirmed move of task "1" leaves the committed tasks unchanged while the shadow holds the new status for that id only, and a success notice is queued |
| `TaskBoard.ServerMoveRejectedRollsBack` | app/components/TaskBoard.tsx:77-80 | a rejected move of task "1" makes the whole shadow equal to the committed tasks and queues an error notice whose message contains the task's title and the server's reason |
| `TaskBoard.FailedNoticeMentions` | app/components/TaskBoard.tsx:80 | the failure notice has error severity and its message contains the task's title and the server's reason |
| `TaskBoard.StepKeepsShadowAligned` | app/components/TaskBoard.tsx:63-80 | every drop keeps the shadow aligned with the committed tasks record by record (differing at most in statuses) and keeps ids unique in both |
| `TaskBoard.RepeatedOrdinaryDropIsIgnored` | app/components/TaskBoard.tsx:57-75 | repeating a committed drop of an ordinary task is a no-op |
| `TaskBoard.LastNotificationWins` | app/components/TaskBoard.tsx:29-42 | two notifications shown back to back are never visible together: the slot is hidden first, the first timer shows the first, the second timer leaves the second visible |
| `TaskBoard.ServerMoveIsNeverCommitted` | app/components/TaskBoard.tsx:21-75 | on any board, a confirmed move of task "1" leaves the committed tasks unchanged and shows the new status in the shadow only; a drop back onto its committed column is then ignored, and after any later drop of another task and the shadow's re-synchronisation, task "1" shows its committed record again |
| `TaskBoard.Board.constructor` | app/components/TaskBoard.tsx:14-19 | the shadow starts empty and the notification slot closed with an empty success message |
| `TaskBoard.Board.SyncShadow` | app/components/TaskBoard.tsx:21-25 | the effect makes the shadow a copy of the committed tasks |
| `TaskBoard.Board.CloseNotification` | app/components/TaskBoard.tsx:27 | closing keeps message and severity and sets `open` to false |
| `TaskBoard.Board.ShowNotification` | app/components/TaskBoard.tsx:29-42 | showing first hides the slot, keeping its message and severity, and only queues the new message and severity for display |
| `TaskBoard.Board.FireTimer` | app/components/TaskBoard.tsx:33-39 | the oldest queued notice becomes visible with `open` true |
| `TaskBoard.Board.HandleDragEnd` | app/components/TaskBoard.tsx:44-84 | the handler changes the committed tasks, the shadow and the notification state exactly as `Step` prescribes |
| `UseEmployees.Merge` | app/hooks/useEmployees.ts:52 | an empty patch leaves the record as it is, and a patch without an id keeps the record's id |
| `UseEmployees.MergeLaws` | app/hooks/useEmployees.ts:52 | merging an empty patch is the identity, merging twice is merging once, and for each of the eight fields (the id included) a value present in the patch wins while an absent one keeps the record's value |
| `UseEmployees.MergeById` | app/hooks/useEmployees.ts:50-56 | the update keeps length and order, merges the patch into the records with the id and leaves every other record unchanged |
| `UseEmployees.MergeByAbsentIdChangesNothing` | app/hooks/useEmployees.ts:52 | an update for an absent id leaves the collection unchanged |
| `UseEmployees.ContactUpdateKeepsRecordFindable` | app/hooks/useEmployees.ts:50-56 | the profile page's phone/telegram update keeps the record findable under its id, now with the new contact fields |
| `UseEmployees.LocalStore.GetItem` | app/hooks/useEmployees.ts:24 | a read returns the stored collection exactly when the key is present |
| `UseEmployees.LocalStore.SetItem` | app/hooks/useEmployees.ts:38 | a write replaces the value under the key and nothing else |
| `UseEmployees.EmployeesHook.constructor` | app/hooks/useEmployees.ts:5-8 | initially no employee, no employees, no error, loading |
| `UseEmployees.EmployeesHook.HandleEmployeeData` | app/hooks/useEmployees.ts:11-18 | with a non-empty id the employee is the first record with that id (or none) and `employees` is not set; otherwise `employees` is the data and `employee` is not set |
| `UseEmployees.EmployeesHook.StartLoad` | app/hooks/useEmployees.ts:20-30 | `error` becomes null; with a stored collection it is delivered, loading ends and the store is not written; without one the hook stays loading with the fetch scheduled |
| `UseEmployees.EmployeesHook.FinishColdLoad` | app/hooks/useEmployees.ts:31-45 | on success the source collection is delivered and persisted unchanged under "employees"; on failure `error` is "Error fetching employees" and the store is unchanged; `loading` is false either way |
| `UseEmployees.EmployeesHook.UpdateEmployee` | app/hooks/useEmployees.ts:50-56 | the collection becomes the merged collection and exactly that collection is persisted under "employees" |
| `UseEmployees.ColdThenWarm` | app/hooks/useEmployees.ts:24-38 | after a successful cold load, a second hook over the same store takes the warm path and sees the same collection |
| `TeamPage.Matches` | app/team/page.tsx:29-32 | an empty search with "All" admits every employee; a specific department admits only employees of exactly that department |
| `TeamPage.FilterEmployees` | app/team/page.tsx:26-35 | the shown list is an order-preserving subsequence of the employees, no longer than it, holds exactly the employees matching name and department, and holds each matching employee as many times as the employees do (so "Found" counts the matches) |
| `TeamPage.DepartmentFilter` | app/team/page.tsx:30 | "All" admits every department; any other selection keeps only employees of exactly that department |
| `TeamPage.ShownNamesContainTerm` | app/team/page.tsx:29 | every shown employee's lower-cased name contains the lower-cased search term at some position |
| `TeamPage.NoFilterShowsEveryone` | app/team/page.tsx:26-35 | with an empty search term and "All" the shown list equals the employees |
| `TeamPage.Strip` | app/team/page.tsx:47 | putting the employee's avatar URL back into the row gives the employee back, so only `avatarUrl` is removed |
| `TeamPage.StripForgetsOnlyTheAvatar` | app/team/page.tsx:47 | two employees export to the same row exactly when they differ at most in `avatarUrl` |
| `TeamPage.ExportRows` | app/team/page.tsx:47 | the export has the length and order of the shown list, each row its employee without `avatarUrl` |
| `EmployeeCard.StatusColor` | app/components/EmployeeCard.tsx:7-16 | the colour is success exactly for "active" and error exactly for "inactive", each in any letter case |
| `EmployeeCard.StatusColorIgnoresCase` | app/components/EmployeeCard.tsx:8 | the colour of a status equals the colour of its lower-cased form |
| `EmployeeCard.ActiveInAnyCase` | app/components/EmployeeCard.tsx:8-10 | "active" in any letter case is shown as success |
| `EmployeeCard.InactiveInAnyCase` | app/components/EmployeeCard.tsx:11-12 | "inactive" in any letter case is shown as error |
| `EmployeeCard.OtherStatusIsDefault` | app/components/EmployeeCard.tsx:13-14 | any other status gets the default colour |
| `EmployeeCard.ProfileRoute` | app/components/EmployeeCard.tsx:25 | the route is "/team/" followed by exactly the id |
| `EmployeeCard.RouteId` | app/components/EmployeeCard.tsx:25 | an id read back from a route is one path segment the URL parser keeps as written (non-empty, not `.` or `..`, free of `/`, `\`, `?`, `#`, tab and line breaks, not ending in a space or control character) whose profile route is that route |
| `EmployeeCard.RouteRoundTrip` | app/components/EmployeeCard.tsx:25 | the profile page reads back the card's id from the route for every id the URL parser keeps as one segment: non-empty, not `.` or `..`, without `/`, `\`, `?`, `#`, tab or line breaks, and not ending in a space or control character |

## Left out

- Rendering, layout, accessibility attributes and app/layout.tsx.
- The drag-and-drop library's event objects: a drop is the dragged id and an optional target id.
- Time: the 1000 ms load delay and the 100 ms notification delay are explicit steps, not durations; a notification's timers fire in the order they were started.
- Interleaving: a drop of task "1" is modelled as running to completion; other drops, effects or renders that could run while the server call is awaited are not modelled.
- The task server call (`updateTaskOnServer`) is not part of this model; its answer is a parameter, and its error text is an opaque string that stands for the error's string form.
- The dynamic import of the JSON data sets and JSON encoding of the store: a data set is a `Fetch` value, and the store holds collections directly, so a corrupted stored value (a parse failure on the warm path) is not modelled.
- `Partial<Employee>` fields explicitly set to `undefined`: a patch field is either present with a value or absent.
- The record types file (app/types/types.ts) is not part of this model: a task carries id, title, status and a map of its other fields; an employee carries the fields the dashboard reads.
- `Text.Lower` lower-cases ASCII letters only; Unicode case mapping is not modelled.
- UseEmployees.EmployeesHook.FinishColdLoad: assumes the store write succeeds. In the source a throwing `setItem` (app/hooks/useEmployees.ts:38) is caught after the data were already delivered, so `error` becomes "Error fetching employees" while `employees` is set; the model keeps `error` unchanged on success.
- EmployeeCard.RouteId: the browser's URL parsing is modelled only as the segment condition `IsPathSegment` (dot segments, `\` as a separator, removed tab and line breaks, trimmed trailing spaces and controls); percent-encoding is not modelled, so an id with spaces, `%` or non-ASCII characters is read back as written, whereas the browser encodes the path and the router decodes it.
- EmployeeCard.RouteRoundTrip: promised only for ids satisfying `IsPathSegment`, and percent-encoding is not modelled (an id such as `%2e%2e`, which the parser treats as a dot segment, is not excluded).
- EmployeeCard.StatusColor: a status is always a string; a missing status, which the optional call `status?.toLowerCase()` maps to the default colour, is not modelled.
- CSV generation, router navigation and error logging are foreign side effects; the export stops at the rows handed to the CSV generator and the card at the route string.
- The profile page's edit session (draft phone and telegram, cancel, confirmation dialog) lies outside this model; only the update it issues is covered by `ContactUpdateKeepsRecordFindable`.
- The views that show a spinner while loading or an error message are rendering and are not modelled.
