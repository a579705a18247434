# Chronosync task rules in Dafny

Chronosync is a task manager: a NestJS backend with a TypeORM task table, and a Next.js/React front end.
This project models the parts of it that hold rules rather than rendering. It proves what those rules guarantee.

- **Server task rules** (`Server`). These cover the backend's `TasksService`:
  - owner-scoped lookup that throws NotFound;
  - update with its `completedAt` rule;
  - delete;
  - the filtered, newest-first task list;
  - the completion-rate statistics.
  
  The repository becomes a `seq` of rows held by a class.
- **Client task list** (`UseTasks`). This is the `useTasks` hook:
  - prepend on create, replace-by-id on update, remove-by-id on delete, append on category create;
  - error messages on failure;
  - the query parameters of `fetchTasks`.
- **Sub-task dialog** (`SubTasks`): `calculateProgress`, the completed count, and the submit and status-change handlers with their form reset.
- **Dependency dialog** (`Dependencies`): `isTaskBlocked`, the predecessor choices, the type labels, and the guarded create form.
- **Task card** (`Card`): the colour maps, the sub-task marker, the sub-task progress block, and the "blocked" warning.
- **Analytics panel** (`Analytics`): the status and priority tally loops, the completion and success rates, and the insight counts.
- **Calendar** (`Calendar`): the per-day bucket map built in a loop, the day lookup, the three-item cap and "+k more", and the status colours.
- **Reminder check** (`Notifications`): the reminder and overdue windows, and the persisted list of shown keys that makes each notification fire once.
- **Share dialog** (`Sharing`): the share filter, the create and revoke handlers, and the refusal of user shares.
- **Registration** (`Register`): the ordered password checks and the submit handler.

Shared pieces live in their own modules:
- `Types`: the client data model and the status, priority and dependency-type enumerations.
- `Seqs`: `Array.prototype.filter` and counting, with their lemmas.
- `Percent`: `Math.round(c / n * 100)` as exact half-up integer rounding, `(200c + n) div 2n`.

Conventions at the boundaries:
- Requests are method parameters of type `Response<T>` (`Ok(body)` or `Failed`). React state and local storage are object fields.
- Times are integer milliseconds. Date formatting (`format(…, 'yyyy-MM-dd')`, `toDateString`) is a function parameter.

The two "blocked" notions in the code differ, and the model keeps both:
- The dependency dialog blocks only on finish-to-start edges onto an unfinished predecessor. It throws when such an edge has no predecessor row; the model returns `None` for that case.
- The card warns on any edge whose predecessor is missing or unfinished.
- `Card.DialogBlockedImpliesCardWarning` and `Card.CardAndDialogDisagree` relate the two.

The backend's `updateTask` clears `completedAt` on every update that does not set the status to Completed. That includes a title-only edit of a Completed task. The task then stays Completed with no completion time. The model keeps this as written and states it in `Server.MetadataEditErasesCompletionTime`.

The code has no cycle checks, no duplicate-edge rejection, no status gating by predecessors and no parent progress roll-up. The backend service has no dependency or parent code, and the task table has no parent or progress column.

Some handlers call hook functions that `useTasks` does not return:
- `SubTaskViewer` destructures `getSubTasks` from the hook.
- `TaskDependencyManager` destructures `createDependency`, `getDependencies` and `deleteDependency`.

The model gives those handlers the request outcome as a parameter. As shipped, the outcome is always the `Failed` case.

## Model

| member | source | states |
|---|---|---|
| `Percent.RoundedPercent` | backend/src/tasks/tasks.service.ts:141 | the result r is the unique integer with 2n·r ≤ 200c + n < 2n·(r+1), i.e. 100c/n rounded half up |
| `Percent.PercentAtMost100` | backend/src/tasks/tasks.service.ts:141 | a completed count no larger than the total gives a rate of at most 100 |
| `Percent.AllCompletedIs100` | frontend/src/components/tasks/SubTaskViewer.tsx:84-85 | c = n > 0 rounds to exactly 100 |
| `Percent.NoneCompletedIs0` | frontend/src/components/tasks/SubTaskViewer.tsx:84-85 | c = 0 rounds to exactly 0 |
| `Percent.PercentMonotone` | frontend/src/components/tasks/SubTaskViewer.tsx:84-85 | for a fixed total the rate never decreases as the completed count grows |
| `Percent.AllButOneRoundsTo100` | frontend/src/components/tasks/SubTaskViewer.tsx:85 | with more than 200 items, n−1 completed still rounds to 100 |
| `Percent.OneCompletedRoundsTo0` | frontend/src/components/tasks/SubTaskViewer.tsx:85 | with more than 200 items, 1 completed rounds to 0 |
| `Seqs.Filter` | frontend/src/hooks/useTasks.ts:73 | the filter keeps exactly the elements satisfying the predicate and is no longer than its input |
| `Seqs.FilterConcat` | frontend/src/hooks/useTasks.ts:73 | filtering distributes over concatenation, so kept elements keep their relative order |
| `Seqs.CountPartition3` | frontend/src/components/analytics/AnalyticsCharts.tsx:19-21 | three predicates that split every element exactly one way have counts summing to the length |
| `Seqs.CountUpdate` | frontend/src/components/tasks/SubTaskViewer.tsx:84 | replacing one element changes a count only by the verdicts on the old and the new element |
| `Seqs.CountAll` | frontend/src/components/tasks/SubTaskViewer.tsx:84 | the count equals the length exactly when every element satisfies the predicate |
| `Seqs.CountZero` | frontend/src/components/tasks/SubTaskViewer.tsx:84 | the count is zero exactly when no element satisfies the predicate |
| `Server.FindIndex` | backend/src/tasks/tasks.service.ts:57-60 | finds the first row with that id and owner, and reports none exactly when no row matches both |
| `Server.TasksService.FindTaskById` | backend/src/tasks/tasks.service.ts:56-67 | succeeds exactly when a row with that id is owned by that user, returning such a row; otherwise NotFound 'Task not found', so another user's task is never returned |
| `Server.TasksService.constructor` | backend/src/tasks/tasks.service.ts:10-15 | the service starts over a table of rows with distinct ids |
| `Server.TasksService.UpdateTask` | backend/src/tasks/tasks.service.ts:69-90 | NotFound with no write when the user does not own the task; otherwise exactly that row becomes `Updated(row, dto, now)` (DTO properties written, an explicit null clearing a nullable column, completedAt rule applied) and that row is returned; ids stay distinct |
| `Server.CompletingStampsNow` | backend/src/tasks/tasks.service.ts:82-83 | moving a non-Completed task to Completed sets completedAt to the current time |
| `Server.NonCompletingUpdateClears` | backend/src/tasks/tasks.service.ts:84-85 | any update whose status is not Completed, an absent status included, clears completedAt |
| `Server.RecompletingKeepsTimestamp` | backend/src/tasks/tasks.service.ts:82-86 | setting Completed on an already Completed task leaves completedAt unchanged |
| `Server.NullClearsColumn` | backend/src/tasks/tasks.service.ts:72 | an explicit `null` for dueDate, reminderTime, description or categoryId clears that column, a value overwrites it, an absent property keeps it; id, owner and createdAt never change |
| `Server.MetadataEditErasesCompletionTime` | backend/src/tasks/tasks.service.ts:84-85 | a title-only update of a Completed task leaves it Completed with completedAt cleared |
| `Server.UpdateKeepsStampOnlyWhenCompleted` | backend/src/tasks/tasks.service.ts:82-86 | every updated row carries a completedAt only if it is Completed, whatever the row held before |
| `Server.TasksService.DeleteTask` | backend/src/tasks/tasks.service.ts:92-95 | NotFound with no write when the user does not own the task; otherwise exactly that row is removed, the others keep their order, and no row with that id remains |
| `Server.ConditionsSelect` | backend/src/tasks/tasks.service.ts:33-51 | the conjunction of the collected where-clauses selects exactly the rows of `Selected`: owned, and matching each truthy filter |
| `Server.InsertByCreated` | backend/src/tasks/tasks.service.ts:53 | inserting into a newest-first list keeps it newest first and adds exactly the one row |
| `Server.NewestFirst` | backend/src/tasks/tasks.service.ts:53 | the ordering is a permutation of its input sorted by createdAt descending |
| `Server.TasksService.FindAllTasks` | backend/src/tasks/tasks.service.ts:27-54 | the result is a permutation of the selected rows (the user's, filtered by status if given, by a non-zero categoryId, by a non-empty search in title or description), ordered newest first |
| `Server.StatsConsistent` | backend/src/tasks/tasks.service.ts:109-151 | the status counts and the priority totals each partition the total; each completed count is at most its total; every rate is at most 100 |
| `Server.BreakdownConsistent` | backend/src/tasks/tasks.service.ts:143-151 | a priority's completed count is at most its total and its guarded rate is at most 100 |
| `Server.RateBounded` | backend/src/tasks/tasks.service.ts:141 | the guarded rate `total > 0 ? round : 0` of a count within its total is at most 100 |
| `Server.CompletionRateExtremes` | backend/src/tasks/tasks.service.ts:141 | the completion rate is 0 with no tasks, 100 when all are Completed, 0 when none is |
| `Server.TasksService.GetTaskStats` | backend/src/tasks/tasks.service.ts:97-153 | the answer is the statistics of the user's rows (created within [start, end] when both bounds are given): total, the per-status counts partitioning it, the per-priority breakdown and the guarded rounded rates, completionRate 0 for no tasks and at most 100 |
| `UseTasks.ReplaceById` | frontend/src/hooks/useTasks.ts:62 | the length is kept; every element with that id becomes the updated task and every other stays in place |
| `UseTasks.RemoveByIdMembership` | frontend/src/hooks/useTasks.ts:73 | after a delete no element has that id, and exactly the other elements remain |
| `UseTasks.RemoveByIdKeepsOrder` | frontend/src/hooks/useTasks.ts:73 | delete distributes over concatenation, so the remaining tasks keep their relative order |
| `UseTasks.RemoveAbsentIdIsIdentity` | frontend/src/hooks/useTasks.ts:73 | deleting an id no task carries changes nothing |
| `UseTasks.CreateThenDeleteRestores` | frontend/src/hooks/useTasks.ts:51-73 | prepending a created task with a fresh id and then deleting that id restores the list |
| `UseTasks.ReplaceAbsentIdIsIdentity` | frontend/src/hooks/useTasks.ts:62 | updating an id no task carries changes nothing |
| `UseTasks.ReplaceThenRemove` | frontend/src/hooks/useTasks.ts:62-73 | update followed by delete of the same id equals the delete alone |
| `UseTasks.TasksHook.constructor` | frontend/src/hooks/useTasks.ts:6-10 | empty task and category lists, not loading, no error |
| `UseTasks.TasksHook.FetchTasks` | frontend/src/hooks/useTasks.ts:12-28 | a parameter appears exactly for each truthy filter, in the order status, categoryId, search; success replaces the list, failure keeps it and sets 'Failed to fetch tasks'; loading ends false |
| `UseTasks.TasksHook.CreateTask` | frontend/src/hooks/useTasks.ts:48-57 | success makes the list [created] ++ old; failure keeps it, sets 'Failed to create task' and returns the failure |
| `UseTasks.TasksHook.UpdateTask` | frontend/src/hooks/useTasks.ts:59-68 | success replaces by id; failure keeps the list, sets 'Failed to update task' and returns the failure |
| `UseTasks.TasksHook.DeleteTask` | frontend/src/hooks/useTasks.ts:70-78 | success removes by id; failure keeps the list, sets 'Failed to delete task' and returns the failure |
| `UseTasks.TasksHook.CreateCategory` | frontend/src/hooks/useTasks.ts:80-89 | success appends the category at the end; failure keeps the list, sets 'Failed to create category' and returns the failure |
| `SubTasks.CompletedCount` | frontend/src/components/tasks/SubTaskViewer.tsx:97 | the completed count is at most the list length, equals it exactly when all are completed, and is 0 exactly when none is |
| `SubTasks.CalculateProgress` | frontend/src/components/tasks/SubTaskViewer.tsx:82-86 | 0 for no sub-tasks, otherwise 100·completed/total rounded half up |
| `SubTasks.ProgressBounded` | frontend/src/components/tasks/SubTaskViewer.tsx:82-86 | progress lies in 0..100 |
| `SubTasks.AllSubTasksCompletedIs100` | frontend/src/components/tasks/SubTaskViewer.tsx:84-85 | a non-empty list of completed sub-tasks shows 100 |
| `SubTasks.NoSubTaskCompletedIs0` | frontend/src/components/tasks/SubTaskViewer.tsx:83-85 | a list with no completed sub-task shows 0 |
| `SubTasks.OneUnfinishedStillShows100` | frontend/src/components/tasks/SubTaskViewer.tsx:84-85 | with more than 200 sub-tasks, one unfinished still shows 100, so 100 does not imply all completed |
| `SubTasks.CompletingNeverLowersProgress` | frontend/src/components/tasks/SubTaskViewer.tsx:57-60 | marking one sub-task Completed never lowers the progress |
| `SubTasks.SubTaskViewer.constructor` | frontend/src/components/tasks/SubTaskViewer.tsx:12-19 | the form starts empty with parentTaskId the parent's id |
| `SubTasks.SubTaskViewer.Progress` | frontend/src/components/tasks/SubTaskViewer.tsx:103 | the progress bar width is at most 100 |
| `SubTasks.SubTaskViewer.LoadSubTasks` | frontend/src/components/tasks/SubTaskViewer.tsx:21-31 | a fetched list replaces the shown one; a failure changes nothing; loading ends false |
| `SubTasks.SubTaskViewer.HandleSubmit` | frontend/src/components/tasks/SubTaskViewer.tsx:37-55 | the form is sent; on success the list is reloaded, the form closed and reset to the empty form with parentTaskId the parent's id; on failure nothing but loading changes |
| `SubTasks.SubTaskViewer.HandleStatusChange` | frontend/src/components/tasks/SubTaskViewer.tsx:57-67 | the patch carries the new status and no other field; the list is reloaded after a successful update |
| `Dependencies.IsTaskBlocked` | frontend/src/components/tasks/TaskDependencyManager.tsx:99-104 | with every finish-to-start predecessor loaded, blocked exactly when some finish-to-start edge has a non-completed predecessor; `true` always has such a witness; `false` only when no edge blocks and no finish-to-start edge lacks its predecessor row; the error result only arises from a finish-to-start edge without predecessor row |
| `Dependencies.OnlyFinishToStartBlocks` | frontend/src/components/tasks/TaskDependencyManager.tsx:100-102 | dropping every non-finish-to-start edge leaves the verdict unchanged |
| `Dependencies.NonFinishToStartNeverBlocks` | frontend/src/components/tasks/TaskDependencyManager.tsx:100-102 | lists with only start-to-start, finish-to-finish or start-to-finish edges, the empty list included, are not blocked |
| `Dependencies.AvailableTasks` | frontend/src/components/tasks/TaskDependencyManager.tsx:25 | the choices are exactly the other tasks, so the current task is never offered |
| `Dependencies.AvailableTasksKeepOrder` | frontend/src/components/tasks/TaskDependencyManager.tsx:25 | the choices keep the task list's order |
| `Dependencies.LabelsDistinct` | frontend/src/components/tasks/TaskDependencyManager.tsx:84-97 | the four dependency types have four distinct labels |
| `Dependencies.DependencyManager.constructor` | frontend/src/components/tasks/TaskDependencyManager.tsx:12-23 | the form starts as predecessor 0, successor the current task, finish-to-start, lag 0 |
| `Dependencies.DependencyManager.LoadDependencies` | frontend/src/components/tasks/TaskDependencyManager.tsx:27-37 | fetched lists replace the shown ones; a failure changes nothing |
| `Dependencies.DependencyManager.HandleSubmit` | frontend/src/components/tasks/TaskDependencyManager.tsx:43-68 | predecessor 0 sends nothing and changes nothing; otherwise the form is sent, and success reloads, closes and resets the form to its initial value |
| `Dependencies.DependencyManager.HandleDelete` | frontend/src/components/tasks/TaskDependencyManager.tsx:70-82 | an unconfirmed delete changes nothing; a confirmed successful one reloads the lists |
| `Dependencies.DependencyManager.Blocked` | frontend/src/components/tasks/TaskDependencyManager.tsx:122 | the banner is off when there are no predecessor edges |
| `Card.PriorityColorsDistinct` | frontend/src/components/tasks/TaskCard.tsx:15-26 | each priority gets its own colour |
| `Card.StatusColorsDistinct` | frontend/src/components/tasks/TaskCard.tsx:28-39 | each status gets its own colour |
| `Card.AnyIncomplete` | frontend/src/components/tasks/TaskCard.tsx:167-169 | true exactly when some edge's predecessor is missing or not completed |
| `Card.MissingPredecessorWarns` | frontend/src/components/tasks/TaskCard.tsx:168 | an edge without a loaded predecessor raises the warning whatever its type |
| `Card.NoDependenciesNoWarning` | frontend/src/components/tasks/TaskCard.tsx:167 | an absent or empty dependency list raises no warning |
| `Card.DialogBlockedImpliesCardWarning` | frontend/src/components/tasks/TaskCard.tsx:167-169 | whenever the dependency dialog reports the task blocked, the card warns |
| `Card.CardAndDialogDisagree` | frontend/src/components/tasks/TaskCard.tsx:167-169 | a start-to-start edge onto an unfinished task makes the card warn while the dialog reports not blocked |
| `Card.SubTaskFigure` | frontend/src/components/tasks/TaskCard.tsx:150-153 | on a rendered block the completed count is at most the sub-task count, and equals it exactly when all are completed |
| `Card.ProgressWidth` | frontend/src/components/tasks/TaskCard.tsx:159 | the width is the progress when that is present and non-zero, and 0 otherwise |
| `Card.MarkerOnlyForTruthyParent` | frontend/src/components/tasks/TaskCard.tsx:58 | the ↳ marker shows exactly when parentTaskId is truthy: never for an absent id or id 0, always for any other id |
| `Analytics.StatusCountsPartition` | frontend/src/components/analytics/AnalyticsCharts.tsx:12-28 | the three status counts add up to the list length |
| `Analytics.PriorityCountsPartition` | frontend/src/components/analytics/AnalyticsCharts.tsx:31-47 | the three priority counts add up to the list length |
| `Analytics.StatusTallyStep` | frontend/src/components/analytics/AnalyticsCharts.tsx:19-21 | one increment of the task's status counter keeps every counter equal to the count over the visited prefix |
| `Analytics.PriorityTallyStep` | frontend/src/components/analytics/AnalyticsCharts.tsx:38-40 | the same for the priority counters |
| `Analytics.StatusData` | frontend/src/components/analytics/AnalyticsCharts.tsx:12-28 | the loop yields To Do, In Progress, Completed with their colours and exact counts, summing to the list length; the In Progress entry equals the In Progress card |
| `Analytics.PriorityData` | frontend/src/components/analytics/AnalyticsCharts.tsx:31-47 | the loop yields Low, Medium, High with their colours and exact counts, summing to the list length |
| `Analytics.CompletionRate` | frontend/src/components/analytics/AnalyticsCharts.tsx:122-124 | 0 for no tasks, otherwise 100·completed/n rounded half up, always at most 100 |
| `Analytics.SuccessRateIsCompletionRate` | frontend/src/components/analytics/AnalyticsCharts.tsx:233 | the `max(n, 1)` success rate equals the completion rate for every list, the empty one included |
| `Analytics.HighPriorityCompleted` | frontend/src/components/analytics/AnalyticsCharts.tsx:202-205 | at most the completed count and at most the high-priority count |
| `Analytics.CompletionRateIsProgress` | frontend/src/components/analytics/AnalyticsCharts.tsx:122-124 | the panel's completion rate and the sub-task progress agree on the same list |
| `Calendar.BucketMapStep` | frontend/src/components/calendar/CalendarView.tsx:43-49 | creating the bucket on first sight and pushing the task keeps the map equal to the per-key buckets of the visited prefix |
| `Calendar.TasksForDate` | frontend/src/components/calendar/CalendarView.tsx:39-53 | the map has a key exactly for each date some task is due on, and its list is exactly that day's tasks in list order |
| `Calendar.GetTasksForDay` | frontend/src/components/calendar/CalendarView.tsx:55-58 | a day without a bucket gets the empty list |
| `Calendar.DayListIsBucket` | frontend/src/components/calendar/CalendarView.tsx:55-58 | for any day the returned list is exactly the tasks due that day |
| `Calendar.EachDatedTaskInOneBucket` | frontend/src/components/calendar/CalendarView.tsx:43-48 | a listed task is in a bucket exactly when it has a due date with that key: undated tasks are in none, dated ones in exactly one |
| `Calendar.BucketKeepsOrder` | frontend/src/components/calendar/CalendarView.tsx:48 | buckets distribute over concatenation, so they keep the input order |
| `Calendar.HitsOnce` | frontend/src/components/calendar/CalendarView.tsx:44 | among distinct keys a task is due on one exactly when its key is listed, on none otherwise |
| `Calendar.BucketSizesAddUp` | frontend/src/components/calendar/CalendarView.tsx:42-50 | over distinct keys covering every due date, the bucket sizes add up to the number of tasks with a due date |
| `Calendar.Displayed` | frontend/src/components/calendar/CalendarView.tsx:142 | at most three tasks shown, a prefix of the day's list, all of them when there are at most three |
| `Calendar.ListedPlusMoreIsAll` | frontend/src/components/calendar/CalendarView.tsx:161-163 | "+k more" appears exactly when n > 3, and listed plus k is n |
| `Calendar.StatusColorsDistinct` | frontend/src/components/calendar/CalendarView.tsx:60-71 | each status gets its own colour |
| `Notifications.ReminderDue` | frontend/src/hooks/useNotifications.ts:46-55 | a reminder is due exactly for an unfinished task with 0 < reminderTime − now ≤ 300000 ms, keyed by task id and reminder time |
| `Notifications.OverdueDue` | frontend/src/hooks/useNotifications.ts:74-79 | an overdue notice is due exactly for an unfinished task with 0 < now − dueDate ≤ 86400000 ms, keyed by task id and due day |
| `Notifications.PassGrows` | frontend/src/hooks/useNotifications.ts:67-68 | the shown list only grows: the old list is a prefix of the new one |
| `Notifications.PassAddsOnlyDueKeys` | frontend/src/hooks/useNotifications.ts:44-93 | every key a pass adds is the reminder or overdue key of one of its tasks, so it lies in that window |
| `Notifications.PassCoversDueKeys` | frontend/src/hooks/useNotifications.ts:58-69 | after a pass every due key of its tasks is in the shown list |
| `Notifications.PassStable` | frontend/src/hooks/useNotifications.ts:59 | a pass whose due keys are all recorded changes nothing |
| `Notifications.PassIdempotent` | frontend/src/hooks/useNotifications.ts:58-69 | a second check at the same instant adds nothing, so each key is notified at most once |
| `Notifications.CompletedTasksAddNothing` | frontend/src/hooks/useNotifications.ts:46-48 | completed tasks never produce a reminder or an overdue notice |
| `Notifications.PassNoDuplicates` | frontend/src/hooks/useNotifications.ts:59-68 | the shown list never holds a key twice |
| `Notifications.BothNoticesInOneTurn` | frontend/src/hooks/useNotifications.ts:45-93 | a task inside both windows records its reminder and then its overdue notice in the same turn |
| `Notifications.Notifier.constructor` | frontend/src/hooks/useNotifications.ts:58 | the stored list is taken as it is, nothing delivered yet; the stored list is required duplicate-free, which every write of the hook keeps |
| `Notifications.Notifier.CheckReminders` | frontend/src/hooks/useNotifications.ts:38-95 | disabled: nothing changes; enabled: the shown list becomes the specified pass; exactly the new keys are delivered when permission is granted, none otherwise; no key is ever delivered twice |
| `Notifications.Notifier.Notify` | frontend/src/hooks/useNotifications.ts:28-35 | the key is always recorded, but displayed only with permission |
| `Sharing.ShareData` | frontend/src/components/tasks/TaskSharing.tsx:38-41 | an empty expiry is sent as absent, any other as given |
| `Sharing.SharesOf` | frontend/src/components/tasks/TaskSharing.tsx:22 | keeps exactly the shares of the current task |
| `Sharing.WithoutShare` | frontend/src/components/tasks/TaskSharing.tsx:69 | removes exactly the shares with that id |
| `Sharing.WithoutShareKeepsOrder` | frontend/src/components/tasks/TaskSharing.tsx:69 | the other shares keep their order |
| `Sharing.CreateThenRevokeRestores` | frontend/src/components/tasks/TaskSharing.tsx:52-69 | prepending a share with a fresh id and revoking it restores the list |
| `Sharing.ShareDialog.constructor` | frontend/src/components/tasks/TaskSharing.tsx:13-17 | no shares, not loading, public link, empty e-mail and expiry |
| `Sharing.ShareDialog.LoadShares` | frontend/src/components/tasks/TaskSharing.tsx:19-27 | success keeps exactly this task's shares; failure changes nothing |
| `Sharing.ShareDialog.HandleCreateShare` | frontend/src/components/tasks/TaskSharing.tsx:33-64 | a user share sends nothing and keeps the list; a created public link is prepended and clears expiry and e-mail; a failure keeps the list; loading ends false |
| `Sharing.ShareDialog.HandleRevokeShare` | frontend/src/components/tasks/TaskSharing.tsx:66-74 | success removes that share id; failure changes nothing |
| `Register.ValidationError` | frontend/src/app/auth/register/page.tsx:27-37 | no error exactly when the passwords match and have at least 6 characters; a mismatch reports 'Passwords do not match' even when the password is also short; a short matching password reports the length message |
| `Register.FailureMessage` | frontend/src/app/auth/register/page.tsx:43 | the server's message when present and non-empty, otherwise 'Registration failed'; never empty |
| `Register.RegisterPage.constructor` | frontend/src/app/auth/register/page.tsx:11-17 | empty fields, no error, not loading |
| `Register.RegisterPage.HandleSubmit` | frontend/src/app/auth/register/page.tsx:22-47 | register is called with the form's email, password and nickname only when the checks pass; a failed check shows its message; success navigates to /dashboard with no error; failure shows the failure message; loading ends false |

## Left out

- Card.MarkerOnlyForTruthyParent: the server neither stores nor returns `parentTaskId`, so a task it sends never carries one and the marker is never shown for it; the model states the card's rule for any task it is given.
- Server.TasksService.UpdateTask: an explicit `null` for title, status or priority is not modelled; those columns are not nullable and the database rejects the write.
- Notifications.Notifier.constructor: a stored list with repeated keys, which the hook itself never writes, is not modelled.
- HTTP, TypeORM, local storage, the Notification API, `alert`, `window.confirm` and the clipboard. Each request's outcome and the permission state are parameters. `api.*` calls are represented by their outcomes.
- `typeof window === 'undefined'` (server-side rendering) in `useNotifications` is not modelled. The check is assumed to run in a browser.
- `TasksService.createTask` and the category methods are not modelled: they are plain repository writes. `calculateCompletionTimeStats` and the average-days insight are not modelled: they are floating-point date arithmetic. The daily and weekly charts and month navigation are not modelled: they are date-library code.
- `Server.Contains`: SQL `LIKE '%s%'` is read as plain substring containment. Database collation (case-insensitivity) is not modelled, and neither are `%` and `_` inside the search text acting as wildcards.
- `Percent.RoundedPercent`: `Math.round(c / n * 100)` is computed in double precision. At exact halves the floating-point quotient can land just below the half, and the real result may then differ by one from the exact half-up figure.
- Statuses, priorities and dependency types are closed enumerations. The `default` branches of the colour and label switches are unreachable, so the model omits them.
- `Register.ValidationError` counts characters; JavaScript's `length` counts UTF-16 code units.
- `dueDate` and `reminderTime` travel as ISO strings and are converted with `new Date`. The model holds them as instants, so the string conversion and its invalid-date cases are not modelled.
- Notification keys are structured values. The source's keys are strings such as `reminder-<id>-<ms>`, so the model assumes that formatting never makes two different keys equal. Notification titles, bodies and tags are not modelled.
- `Server.TasksService.FindAllTasks`: the join with the category row is not modelled. Ties on `createdAt` may come back in any database order, so the model fixes one.
- Dependency-cycle prevention, duplicate-edge rejection, predecessor status gating and parent roll-up do not exist in the code, so they are not modelled. The same goes for the parent auto-completion that the sub-task dialog's text announces.
- The lag field and `parseInt` of the dependency form are not modelled. The form holds integers.
- The sub-task and dependency handlers' `getSubTasks`, `createDependency`, `getDependencies` and `deleteDependency` are not part of the shown hook. Their outcomes are parameters, and as shipped each is a failure.
