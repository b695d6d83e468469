# Task tracker core, modelled in Dafny

This project is a Dafny model of the client-side logic of a small task tracker (a React application backed by a hosted document store and authentication service). Administrators create, edit and delete tasks, and employees see and update the tasks assigned to them. The model covers the logic around the backend calls:

- **Task store** (`task_store.dfy`, `TaskStore`). A class with these fields:
  - the task mirror;
  - the status filter and the sort key;
  - the toast queue and its pending expiry timers;
  - the loading flag;
  - the log of requests sent to the backend.

  Its methods are the subscription's data and error handlers, `showToast` and the expiry of a toast, and the create, update and delete wrappers that turn the backend's answer into a toast. `GetFilteredTasks` is the derived view. Every array the store hands out carries a number (`mirrorId` for the mirror array, `nextId` for the next new one), because React compares arrays by identity.
- **Derived view** (`task_view.dfy`, `TaskView`). The status filter and then `Array.prototype.sort` with a descending comparator. ECMAScript requires that sort to be stable (ECMA-262, 10th edition, section 22.1.3.27), so it is modelled as a stable insertion sort. The sort is proved sorted, a permutation and stable. It is also proved to be the identity for a sort key other than `date` and `priority`, and to leave sorted input unchanged.
- **Task API** (`task_api.dfy`, `TaskApi`).
  - Snapshot documents become task records: the stored fields are spread over the document id, then the `createdAt` and `dueDate` defaults are applied.
  - The create and update payloads carry server-timestamp stamps.
  - The three backend requests are modelled as `Command` values.
- **Task form** (`task_form.dfy`, `TaskForm`). The default record, and `validate` with its exact error precedence: a blank-but-non-empty assignee ends up with "Valid email required". The class also holds `handleChange` and `handleSubmit`.
- **Session** (`session.dfy`, `Session`).
  - The auth-state callback: the role is `admin` exactly when the email contains `admin`.
  - The loading flag that gates rendering.
  - The `login`, `register` and `logout` delegations.
- **Login page** (`login.dfy`, `Login`).
  - The input checks and their precedence.
  - The choice between sign-in and sign-up.
  - The messages shown for the service's error codes.
  - The loading flag and the mode toggles.
- **Dashboards** (`employee_dashboard.dfy`, `admin_dashboard.dfy`).
  - The employee's assignee filter and its counts, and the `useMemo` cache in front of the filter.
  - Admin rights.
  - The edit/create choice on save.
  - The status counts over the already-filtered view.
- **Shared pieces** (`js_values.dfy`, `task_records.dfy`).
  - JavaScript objects are modelled as records (`map<string, Value>`): a spread is a map union in which the right operand wins, and a missing property reads as `Undefined`.
  - Truthiness, `String.prototype.includes` and `String.prototype.trim`.
  - Every `filter(t => t.field === v)` is `Where`, and the status counts are lengths of such selections. `Where` compares with Dafny's value equality. The values compared with `===` in this code are strings, `undefined` and `null`, for which `===` is value equality too; on two Date objects `===` would compare references.

Clock readings, the backend's answer to a request and the 3-second timers are explicit:
- `Date.now()` and `new Date()` are `now` parameters.
- Today's `YYYY-MM-DD` string is a `today` parameter.
- Whether a mutation succeeded is a `succeeded` parameter.
- A failed sign-in or sign-up is a `Settle(Some(error))` call.
- Each pending toast timer is an id in `Store.timers`, fired by `ExpireToast`.

Three facts about the code that a reader may not expect:
- **The sort works in place.** `filtered.sort(...)` reorders its array in place, and under the filter `All` that array is the mirror itself. So `GetFilteredTasks` leaves the mirror in view order and hands out the mirror array itself; under a status filter it hands out a new array on every call. `ViewStableUnderInPlaceSort` shows that reordering the mirror does not change the next view sorted by the same key. After a change of key it does: the old order survives among the tasks the new key ties. `TiedOrderAfterKeyChange` shows two tasks created in the same millisecond that the date view shows in the opposite order once a priority view has been taken under `All`. The in-place sort also changes what the employee's dashboard shows after a sort change: see "## Findings".
- **A new task keeps the status its form holds.** `New` is only the form's default; neither the store nor the API sets a status.
- **There is no search and no bulk update.** The store offers filtering by one status and sorting by one key.

## Model

| member | source | states |
|---|---|---|
| JsValues.IncludesIff | src/context/AuthContext.jsx:17 | the left-to-right scan returns true exactly when the needle occurs at some index of the string |
| JsValues.IncludesChar | src/components/TaskFormModal.jsx:22 | `includes` of a one-character needle is membership of that character |
| JsValues.TrimEmptyIff | src/components/TaskFormModal.jsx:18-21 | a string trims to the empty string exactly when every character is ECMAScript white space or a line terminator |
| TaskRecords.Where | src/context/TaskContext.jsx:71 | a filter result is no longer than its input, and every kept record has the chosen field equal to the value |
| TaskRecords.WhereCount | src/context/TaskContext.jsx:71 | a filter keeps each matching record as many times as the input holds it, and drops every other record |
| TaskRecords.WhereIsSubsequence | src/pages/EmployeeDashboard.jsx:26 | a filter result is an order-preserving subsequence of its input |
| TaskRecords.WhereTwice | src/pages/AdminDashboard.jsx:50-55 | filtering on a field twice with different values leaves nothing; with the same value, the second filter changes nothing |
| TaskRecords.StatsOf | src/pages/AdminDashboard.jsx:50-55 | the stats object of both dashboards (also src/pages/EmployeeDashboard.jsx:30-35): `total` and the New, Active and Completed counts; `TaskRecords.StatsBounded` bounds the cards and `AdminDashboard.AdminStatsOfView` gives the admin's counts |
| TaskRecords.StatsBounded | src/pages/AdminDashboard.jsx:50-55 | the New, Active and Completed cards plus the Failed tasks never exceed `total` |
| TaskApi.ToTask | src/api/tasks.js:29-35 | the mapped task has the stored fields plus `id`, `createdAt` and `dueDate`; a stored `id` wins over the document id; `createdAt` is a Date with the stored timestamp or else `now`; `dueDate` is the stored value when truthy, else `today`; every other field is the stored one |
| TaskApi.MapSnapshot | src/api/tasks.js:29-36 | one task per document, in the snapshot's order |
| TaskApi.MappedTasksNormalised | src/api/tasks.js:33-34 | every mapped task has an id and a Date `createdAt`, and has a truthy `dueDate` when `today` is non-empty |
| TaskApi.CreatePayload | src/api/tasks.js:47-51 | the create payload holds every caller field, with `createdAt` and `updatedAt` overridden by the server timestamp |
| TaskApi.CreateTask | src/api/tasks.js:46-52 | `createTask` sends one add request to the tasks collection; its data has exactly the caller's keys plus `createdAt` and `updatedAt`, the caller's values, and the server timestamp in both stamps (the create payload) |
| TaskApi.UpdatePayload | src/api/tasks.js:61-64 | the update payload is the caller's fields plus `updatedAt` set to the server timestamp |
| TaskApi.UpdateTaskData | src/api/tasks.js:59-65 | `updateTaskData` sends one update request aimed at the given id; its data has exactly the caller's keys plus `updatedAt`, the caller's values, and the server timestamp in `updatedAt` (the update payload) |
| TaskApi.DeleteTaskData | src/api/tasks.js:71-73 | `deleteTaskData` sends one delete request aimed at the given id |
| TaskView.Filtered | src/context/TaskContext.jsx:71 | the status filter: `All` keeps the mirror, any other status keeps the tasks with that status; its meaning is stated by `TaskRecords.Where`, `TaskView.ViewContents` and `TaskView.ViewMatchesFilter` |
| TaskView.PriorityRank | src/context/TaskContext.jsx:77-78 | High 3, Medium 2, Low 1; the order it induces is stated by `TaskView.KeyFollowsField` and `TaskView.TwoTaskExample` |
| TaskView.Key | src/context/TaskContext.jsx:73-80 | the number the comparator subtracts: `createdAt` in ms under `date`, the priority rank under `priority`, and 0 under any other key; `TaskView.KeyFollowsField` and `TaskView.SortOtherKeyIsIdentity` state what it orders |
| TaskView.Insert | src/context/TaskContext.jsx:73-81 | inserting a record gives the input plus exactly one more copy of that record |
| TaskView.InsertSorted | src/context/TaskContext.jsx:73-81 | inserting into a sequence sorted by the comparator's key keeps it sorted |
| TaskView.SortDesc | src/context/TaskContext.jsx:73-81 | the sort's result is a permutation of its input and is non-increasing in the key (createdAt ms for `date`, rank High 3, Medium 2, Low 1 for `priority`) |
| TaskView.KeyFollowsField | src/context/TaskContext.jsx:73-78 | two records compare equal (same key) exactly when they have the same `createdAt` under `date`, and exactly when they have the same `priority` under `priority` |
| TaskView.SortStable | src/context/TaskContext.jsx:73-78 | records with the same sort-field value, which are exactly the records the comparator ties, keep their input order |
| TaskView.SortOtherKeyIsIdentity | src/context/TaskContext.jsx:80 | with any sort key other than `date` and `priority`, the comparator returns 0 and the order is unchanged |
| TaskView.SortOfSorted | src/context/TaskContext.jsx:73-81 | an already sorted sequence is left as it is |
| TaskView.SortIdempotent | src/context/TaskContext.jsx:73-81 | sorting twice by the same key gives the same result as sorting once |
| TaskView.WhereKeepsSorted | src/pages/EmployeeDashboard.jsx:26 | filtering a sorted view gives a sorted result |
| TaskView.DerivedView | src/context/TaskContext.jsx:70-82 | the view `getFilteredTasks` returns, the sort of the filtered mirror; `TaskView.ViewContents`, `TaskView.ViewMatchesFilter`, `TaskView.ViewCounts` and `TaskView.SortDesc` state its contents and order |
| TaskView.ViewContents | src/context/TaskContext.jsx:70-82 | under `All`, the view is a permutation of the mirror; under a status S, it holds exactly the mirror's tasks with status S, each as many times as the mirror does |
| TaskView.ViewMatchesFilter | src/context/TaskContext.jsx:71 | under a status filter, every task in the view has that status |
| TaskView.ViewCounts | src/context/TaskContext.jsx:71-81 | sorting does not change any status count of the filtered mirror |
| TaskView.TwoRecordSort | src/context/TaskContext.jsx:73-81 | two records come out larger key first, and in their own order on a tie |
| TaskView.TwoTaskExample | src/context/TaskContext.jsx:73-81 | a High task and a Low task created later: by priority the order is [High, Low], by date it is [Low, High] |
| TaskStore.WithoutToast | src/context/TaskContext.jsx:21 | the expiry filter never lengthens the queue; `TaskStore.WithoutToastMembers` states which toasts it keeps |
| TaskStore.WithoutToastMembers | src/context/TaskContext.jsx:21 | expiry keeps exactly the toasts whose id differs from the expired id, so two toasts shown in the same millisecond leave together |
| TaskStore.WithoutToastAppend | src/context/TaskContext.jsx:21 | expiry treats a toast appended last like any other: it stays exactly when its id differs |
| TaskStore.WithoutAbsentId | src/context/TaskContext.jsx:21 | expiring an id that no queued toast carries leaves the queue unchanged |
| TaskStore.ExpireFreshToast | src/context/TaskContext.jsx:17-22 | showing a toast whose id is fresh and then expiring that id restores the queue, with the other toasts in their order |
| TaskStore.AllTimersEmptyQueue | src/context/TaskContext.jsx:20-22 | when every queued toast has a pending timer, no toast is left once all timers have fired |
| TaskStore.OutcomeToast | src/context/TaskContext.jsx:42-67 | each wrapper's toast carries the current time as its id, is a success toast exactly when the backend accepted, an error toast exactly when it did not, and has a non-empty message |
| TaskStore.Store.constructor | src/context/TaskContext.jsx:10-14 | the store starts with no tasks, filter `All`, sort `date`, no toasts, loading true and no pending timers; the mirror is array 0 and the next new array is 1 |
| TaskStore.Store.ShowToast | src/context/TaskContext.jsx:17-20 | appends exactly one toast `{now, message, type}` (type `info` by default), schedules its expiry, and keeps every queued toast's timer pending |
| TaskStore.Store.ExpireToast | src/context/TaskContext.jsx:20-22 | the oldest timer fires: the toasts with its id leave, the others stay in order, and no toast with that id remains |
| TaskStore.Store.OnData | src/context/TaskContext.jsx:28-31 | an emission replaces the mirror with the emitted list, a new array with a fresh number, and ends loading |
| TaskStore.Store.OnError | src/context/TaskContext.jsx:32-36 | a subscription error leaves the mirror unchanged, appends one "Failed to load tasks" error toast and ends loading |
| TaskStore.Store.AddTask | src/context/TaskContext.jsx:42-49 | sends one create request, appends the success or failure toast, and never changes the mirror or rethrows |
| TaskStore.Store.UpdateTask | src/context/TaskContext.jsx:51-58 | sends one update request for the id, appends the success or failure toast, and never changes the mirror |
| TaskStore.Store.DeleteTask | src/context/TaskContext.jsx:60-67 | sends one delete request for the id, appends the success or failure toast, and never changes the mirror |
| TaskStore.Store.SetFilterStatus | src/context/TaskContext.jsx:11 | the filter becomes the chosen status |
| TaskStore.Store.SetSortBy | src/context/TaskContext.jsx:12 | the sort key becomes the chosen key |
| TaskStore.Store.GetFilteredTasks | src/context/TaskContext.jsx:70-82 | returns the filtered and sorted view; under `All` the mirror itself is left in view order and the array returned is the mirror array, otherwise the mirror is unchanged and the array returned is new |
| TaskStore.Store.GetSortedCopy | src/context/TaskContext.jsx:70-82 | the corrected `getFilteredTasks`, sorting a copy: returns the same view, leaves the mirror as emitted, and always returns a new array |
| TaskStore.ViewStableUnderInPlaceSort | src/context/TaskContext.jsx:71-73 | reordering the mirror in place under `All` does not change the next view sorted by the same key |
| TaskStore.TiedOrderAfterKeyChange | src/context/TaskContext.jsx:71-81 | two tasks with the same `createdAt`, a Low one emitted before a High one: the date view is [Low, High]; the priority view under `All` leaves the mirror [High, Low]; the date view of that mirror stays [High, Low], unlike the date view of the emission |
| TaskStore.DateViewOfOrderedEmission | src/api/tasks.js:26 | when every document carries its timestamp in the live query's order (`createdAt` descending), the default view shows the mirror exactly as emitted |
| TaskForm.DefaultForm | src/components/TaskFormModal.jsx:4-12 | the record a new form starts from, with today's date; `TaskForm.DefaultFormShape` and `TaskForm.DefaultFormErrors` state its shape and its errors |
| TaskForm.DefaultFormShape | src/components/TaskFormModal.jsx:4-12 | a new form has text title, description and assignee, status `New` and priority `Medium` |
| TaskForm.FieldErrors | src/components/TaskFormModal.jsx:16-25 | title or description error exactly when the field is all white space. `assignedTo` error exactly when the assignee is empty or has no `@`: "Email required" when empty, "Valid email required" otherwise, including blank input. Due-date error exactly when the date is falsy. No other keys |
| TaskForm.ValidIff | src/components/TaskFormModal.jsx:26-27 | the error map is empty exactly when the title and description are not blank, the assignee contains `@` and a due date is set |
| TaskForm.BlankAssigneeMessage | src/components/TaskFormModal.jsx:21-24 | for a whitespace-only assignee, the second check overwrites the first and the message is "Valid email required" |
| TaskForm.DefaultFormErrors | src/components/TaskFormModal.jsx:4-25 | validating an untouched new form gives errors for title, description and assignee ("Email required"), and for the due date exactly when `today` is empty |
| TaskForm.TaskFormModal.constructor | src/components/TaskFormModal.jsx:4-14 | an edit starts from the task, a new form from the default record, with no errors |
| TaskForm.TaskFormModal.Validate | src/components/TaskFormModal.jsx:16-28 | stores exactly the error map it built and returns true exactly when that map is empty |
| TaskForm.TaskFormModal.HandleChange | src/components/TaskFormModal.jsx:30-33 | the named field gets the input's value, every other field is unchanged, and the form keeps its shape |
| TaskForm.TaskFormModal.HandleSubmit | src/components/TaskFormModal.jsx:35-40 | the current form data is handed to `onSave` exactly when validation passes, and nothing is handed otherwise |
| Session.RoleFor | src/context/AuthContext.jsx:17 | the role is `admin` exactly when `admin` occurs in the email, `employee` exactly when it does not |
| Session.UserRecord | src/context/AuthContext.jsx:18 | the user record has every field of the service's user, plus `role`, which overrides any `role` of its own |
| Session.RoleOfUserRecord | src/context/AuthContext.jsx:15-18 | a user record's role is admin exactly when its email contains `admin`, and it keeps the service's email |
| Session.AdminRoleExamples | src/context/AuthContext.jsx:17 | `admin@corp.com` and `bob@badminton.org` get the admin role |
| Session.EmployeeRoleExamples | src/context/AuthContext.jsx:17 | `bob@corp.com` and `Admin@Corp.com` get the employee role: the test is case-sensitive |
| Session.AuthProvider.RendersChildren | src/context/AuthContext.jsx:44 | children are rendered exactly when loading is over; the constructor and `OnAuthChange` state when that is |
| Session.AuthProvider.constructor | src/context/AuthContext.jsx:10-11 | no user, loading, and children not rendered |
| Session.AuthProvider.OnAuthChange | src/context/AuthContext.jsx:14-23 | a signed-in user becomes its user record with the role; a sign-out becomes null; loading ends and children render |
| Session.AuthProvider.Login | src/context/AuthContext.jsx:27-29 | forwards exactly one sign-in request and changes neither the user nor the loading flag |
| Session.AuthProvider.Register | src/context/AuthContext.jsx:31-33 | forwards exactly one sign-up request and changes neither the user nor the loading flag |
| Session.AuthProvider.Logout | src/context/AuthContext.jsx:35-37 | forwards exactly one sign-out request and changes neither the user nor the loading flag |
| Login.ErrorMessage | src/pages/Login.jsx:34-40 | the three credential codes give "Invalid email or password."; `auth/email-already-in-use` gives "Email already registered"; any other error gives its message or "Authentication failed"; the message is never empty |
| Login.CheckInput | src/pages/Login.jsx:14-21 | "Please fill all fields" exactly when the email or password is empty; the length error exactly when both are present and the password is shorter than 6; no error exactly when the email is present and the password has at least 6 characters |
| Login.LoginForm.constructor | src/pages/Login.jsx:7-11 | empty fields, no error, login mode, not loading |
| Login.LoginForm.SetEmail | src/pages/Login.jsx:83 | the email field takes the typed value |
| Login.LoginForm.SetPassword | src/pages/Login.jsx:96 | the password field takes the typed value |
| Login.LoginForm.ShowLogin | src/pages/Login.jsx:56 | login mode, and the error is cleared |
| Login.LoginForm.ShowRegister | src/pages/Login.jsx:66 | register mode, and the error is cleared |
| Login.LoginForm.HandleSubmit | src/pages/Login.jsx:13-30 | failing input sets its message and sends nothing; valid input clears the error, sets loading and sends exactly one request, sign-up in register mode and sign-in otherwise |
| Login.LoginForm.Settle | src/pages/Login.jsx:31-43 | a failure shows its mapped message, a success leaves the error as it was, and loading is false either way |
| EmployeeDashboard.EmployeeEmail | src/pages/EmployeeDashboard.jsx:22 | the user's email, or undefined when nobody is signed in |
| EmployeeDashboard.EmployeeTasks | src/pages/EmployeeDashboard.jsx:25-27 | the employee's list, the view's tasks assigned to the user; `EmployeeDashboard.EmployeeTasksExact` and `EmployeeDashboard.EmployeeTasksOfView` state its contents and order |
| EmployeeDashboard.EmployeeStats | src/pages/EmployeeDashboard.jsx:30-35 | the stats object over the employee's list; `EmployeeDashboard.EmployeeStatsBounded` and `EmployeeDashboard.NoAssignedTasksEmptyList` state its bounds |
| EmployeeDashboard.EmployeeTasksExact | src/pages/EmployeeDashboard.jsx:25-27 | every listed task is assigned to the user; each task assigned to the user appears as many times as in the view; the view's order is kept |
| EmployeeDashboard.EmployeeTasksOfView | src/pages/EmployeeDashboard.jsx:25-27 | over the store's view, the list holds exactly the mirror's tasks that pass the status filter and are assigned to the user, sorted by the view's key |
| EmployeeDashboard.EmployeeStatsBounded | src/pages/EmployeeDashboard.jsx:30-35 | `total` is the list's length and at most the view's; the three cards add up to at most `total` |
| EmployeeDashboard.ForeignTaskHidden | src/pages/EmployeeDashboard.jsx:26 | adding a task assigned to someone else, at either end of the view, leaves the list unchanged |
| EmployeeDashboard.NoAssignedTasksEmptyList | src/pages/EmployeeDashboard.jsx:25-35 | an employee named on none of the tasks sees an empty list and all-zero stats, however many tasks exist |
| EmployeeDashboard.BothAssigned | src/pages/EmployeeDashboard.jsx:26 | when both tasks of a two-task view are the user's, the list is the view, in either order |
| EmployeeDashboard.EmployeeListMemo.constructor | src/pages/EmployeeDashboard.jsx:25-27 | a new memo has no dependencies recorded |
| EmployeeDashboard.EmployeeListMemo.Render | src/pages/EmployeeDashboard.jsx:25-27 | the cached list when the array and the email are those of the last render, the employee's part of the given view otherwise; the new dependencies and list are recorded |
| EmployeeDashboard.RenderAsWritten | src/context/TaskContext.jsx:70-85 | one render over the store as written: the cached list exactly when the filter is `All` and the memo last saw the mirror array and the same email, the employee's part of the new view otherwise; the mirror is left in view order under `All` |
| EmployeeDashboard.FirstRender | src/pages/EmployeeDashboard.jsx:25-27 | after the emission [L, H], the first render under `All` by date shows [L, H] and records the mirror array |
| EmployeeDashboard.RenderAfterSortChange | src/context/TaskContext.jsx:12 | after `setSortBy('priority')` the mirror is re-sorted in place, and the next render shows the cached list |
| EmployeeDashboard.StaleOrderAfterSortChange | src/pages/EmployeeDashboard.jsx:25-27 | the list shown after the sort change is still [L, H], while the employee's part of the new view is [H, L] |
| EmployeeDashboard.StaleListSameTasks | src/pages/EmployeeDashboard.jsx:25-35 | over two orders of the same tasks, the lists hold the same tasks and the stats are equal: a stale list is wrong only in its order |
| EmployeeDashboard.RenderOverCopy | src/pages/EmployeeDashboard.jsx:25-27 | over the corrected store, every render shows the employee's part of the current view, in its order |
| AdminDashboard.IsAdmin | src/pages/AdminDashboard.jsx:28 | a user is an admin exactly when signed in with role `admin`; `AdminDashboard.IsAdminIffEmailHasAdmin` ties it to the email |
| AdminDashboard.IsAdminIffEmailHasAdmin | src/pages/AdminDashboard.jsx:28 | a signed-in user is an admin exactly when their email contains `admin`; nobody signed in is not an admin |
| AdminDashboard.AdminPanel.constructor | src/pages/AdminDashboard.jsx:25-26 | the form is closed and no task is being edited |
| AdminDashboard.AdminPanel.HandleEdit | src/pages/AdminDashboard.jsx:30-33 | the chosen task is being edited and the form is open |
| AdminDashboard.AdminPanel.OpenCreateForm | src/pages/AdminDashboard.jsx:72-75 | no task is being edited and the form is open |
| AdminDashboard.AdminPanel.HandleCloseForm | src/pages/AdminDashboard.jsx:35-38 | the form is closed and no task is being edited |
| AdminDashboard.AdminPanel.HandleSave | src/pages/AdminDashboard.jsx:40-47 | while editing, one update for the edited task's id and never a create; otherwise one create and never an update; the form is closed and not editing afterwards |
| AdminDashboard.AdminStatsOfView | src/pages/AdminDashboard.jsx:50-55 | `total` is the filtered mirror's size; under `All` each count is the mirror's; under a status S, S's count equals `total` and every other count is 0 |

## Left out

- Backend calls (live query subscription, add/update/delete, sign-in/up/out, `onAuthStateChanged`) are not executed: requests are `Command`/`AuthCall`/`StoreCall` values, answers are `succeeded`, `OnData`, `OnError`, `OnAuthChange` and `Settle` calls. What the backend then does (ids, timestamps, last-write-wins, the next emission after a write) is not modelled.
- Unsubscribing the two listeners on unmount is not modelled; it has no state of its own in this code.
- The interleaving of asynchronous steps is not modelled: each mutation wrapper sends its request and shows its outcome toast in one step, while in the source other events may run while it awaits.
- The 3000 ms delay is not modelled as time: timers fire in the order they were set, which is the order real timers of equal delay fire in.
- `MapSnapshot` uses one `now` and one `today` for a whole snapshot; the source reads the clock once per document, so readings may differ by a few milliseconds.
- `TaskApi.ToTask` requires a stored `createdAt` that is a timestamp, null or missing; any other stored value makes `toDate` throw in the source, which is not modelled.
- `TaskStore.Store.GetFilteredTasks` requires a Date `createdAt` when sorting by date and a priority in High/Medium/Low when sorting by priority; otherwise the source comparator returns `NaN` and the order is implementation-defined.
- `Session.AuthProvider.OnAuthChange` requires the service's user to have a string email; the source would throw on `includes` otherwise. The service's user object is modelled as a record of its enumerable fields.
- `TaskForm.TaskFormModal.Validate` requires text title, description and assignee; the source would throw on `trim` otherwise.
- `Login.ErrorMessage` models a missing `message` on the error as the empty string; both are falsy in the source.
- `Login.CheckInput` counts the password's length in Unicode scalar values; JavaScript counts UTF-16 code units, so the two differ for characters outside the Basic Multilingual Plane.
- Values in records are limited to undefined, null, strings, Dates and timestamps; numbers, booleans and nested objects do not occur in this code's tasks.
- EmployeeDashboard.EmployeeTasksOfView: states the list the dashboard is meant to show. As written, under `All` the memo can show the same tasks in an older order after a sort change; `StaleOrderAfterSortChange` exhibits it and "## Findings" records it.
- `EmployeeDashboard.RenderAsWritten` and `RenderOverCopy` require that the memo's array is older than any array the store has still to hand out (`MemoOlder`). A new memo meets this, and no store operation lowers `nextId`.
- src/api/auth.js is not part of this model: it wraps the authentication service, and its role rule is the same as `Session.RoleFor`.
- Rendering and routing (TaskCard, TaskControls, StatsCards, Header, ToastContainer, Dashboard, App) are not part of this model.

## Findings

| source | as written | input that shows it | evidently intended | confidence | as-written member | corrected member |
|---|---|---|---|---|---|---|
| src/context/TaskContext.jsx:71-73, src/pages/EmployeeDashboard.jsx:25-27 | under `All`, `getFilteredTasks` sorts the mirror array in place and returns it, so after `setSortBy` the `tasks` dependency of the employee list's `useMemo` is the same array and the memo returns the list in the old order | filter `All`, sort `date`; task H (High, created at t1) and task L (Low, created at t2 > t1), both assigned to the user; the list shows [L, H]; after choosing sort by priority the view is [H, L] but the list stays [L, H] | the employee's list follows the current sort key, as the admin's list does | not executed | EmployeeDashboard.StaleOrderAfterSortChange | EmployeeDashboard.RenderOverCopy |
