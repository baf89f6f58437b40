# Todo client core, modelled in Dafny

This project models the client-side logic of a React Native todo app. It leaves out the rendering and keeps what the screens decide:

- **Due-date classifier.** It classifies a task's due date against today (`getDueMeta`, and its twin `formatDueDisplay` in the task form) and picks the greeting at the top of the list.
- **Task list screen.** The list is a sequence of tasks. A fixed pipeline filters it: date tab, then status card, then search. The screen derives its counts from the list. Toggle and delete update the list optimistically and roll back to a saved snapshot when the server refuses.
- **Root component.** The boot, login and logout transitions step the screen, token, user and edited task. A render decision chooses what is shown, with a fallback to the task list.
- **API clients.**
  - Response handling picks the error message through an ordered fallback.
  - Server documents are mapped to tasks defensively. The id falls back from `_id` to `id` and the owner from `user._id` to `user`, each when the first is falsy. A falsy description or due date becomes missing, and a falsy time stamp becomes the current moment. The title is copied as it is, so an empty title stays empty.
  - The JSON bodies of create and update differ on a missing due date.
  - Login checks that the response carries a token.
- **Forms.** They check required fields after trimming and fix the submitted values: the title, name and email are trimmed, while the password is sent as typed.

JavaScript semantics the code depends on are written out:
- truthiness and `||`;
- `?.` versus `.`, where `.` throws a TypeError on `null` or `undefined`;
- `??`;
- `String(v)` of an error message;
- `JSON.stringify` dropping keys whose value is `undefined`;
- the whitespace set of `String.prototype.trim`;
- `includes`.

Dates are local day numbers with an opaque time-of-day string, so `diffDays` is a difference of integers. The device's clock, `new Date(s)` and `toISOString` are parameters (`Dates.DateEnv`). The "tomorrow" chip relies on `new Date(y, m, d + 1, h, min)` landing on the next calendar day (`Dates.TomorrowFollowsNow`). Its hour and minute are its own, because a daylight-saving gap moves a missing minute forward.

Async handlers are modelled as their phases when the outcome depends on what is captured when:
- The login form's submission starts at the press and settles later. While it is pending, a press does nothing.
- The task and signup forms fix their payload at the press and hand it over when the timer fires.
- The delete dialog captures the list when it opens, and confirming it restores that capture on failure.

Each network call is a parameter of type `Js.Response`: `ok`, the status, and the parsed body or `None` when the body did not parse.

Modules:
- `Wrappers`: Option and Result.
- `Text`: trim, ASCII lower case, includes and decimal strings.
- `Js`: JSON values, truthiness, property access, exceptions and responses.
- `Dates`: instants and the device's date functions.
- `TaskItem`: the task and due-status types.
- `Seqs`: filter, map and the subsequence relation.
- `DueMeta`, `TaskForm`, `TasksApi`, `AuthApi`, `TaskListScreen`, `AuthForms` and `App`: the core source files. `DueMeta` and `TaskListScreen` both come from screens/TaskListScreen.tsx: `DueMeta` holds its due-date classifier and greeting, `TaskListScreen` its list state and filters. `AuthForms` covers both auth forms.

## Model

| member | source | states |
|---|---|---|
| Text.TrimStart | components/tasks/TaskForm.tsx:178 | `trim`'s leading half gives a string no longer than the input that does not start with white space |
| Text.TrimStartRemovesBlank | components/tasks/TaskForm.tsx:178 | the leading half keeps a suffix of the input, and what it removes is white space only |
| Text.TrimEnd | components/tasks/TaskForm.tsx:178 | `trim`'s trailing half gives a string no longer than the input that does not end with white space |
| Text.TrimEndRemovesBlank | components/tasks/TaskForm.tsx:178 | the trailing half keeps a prefix of the input, and what it removes is white space only |
| Text.TrimIsInfix | components/tasks/TaskForm.tsx:178 | `trim` keeps a contiguous infix and drops a blank prefix and a blank suffix |
| Text.TrimEndsInNonSpace | components/tasks/TaskForm.tsx:178 | a non-empty trimmed string starts and ends with a non-space |
| Text.TrimEmptyIffBlank | components/tasks/TaskForm.tsx:178 | `!s.trim()` holds exactly when every character of `s` is white space |
| Text.Trim | components/tasks/TaskForm.tsx:178 | `trim`, as `TrimEnd` after `TrimStart`; its contract is carried by `Text.TrimIsInfix`, `Text.TrimEndsInNonSpace`, `Text.TrimEmptyIffBlank` and `Text.TrimIdempotent` |
| Text.IsBlank | components/auth/LoginForm.tsx:48 | a string of white space only, the strings `!s.trim()` holds for, by `Text.TrimEmptyIffBlank` |
| Text.TrimIdempotent | screens/TaskListScreen.tsx:210 | trimming twice is trimming once |
| Text.ToLower | screens/TaskListScreen.tsx:210 | lower-casing keeps the length and lower-cases each character in place |
| Text.ToLowerIdempotent | screens/TaskListScreen.tsx:210 | lower-casing twice is lower-casing once |
| Text.Includes | screens/TaskListScreen.tsx:215 | `hay.includes(needle)` holds exactly when the needle occurs at some position of the haystack |
| Text.NatToString | screens/TaskListScreen.tsx:52 | the decimal rendering of a count is non-empty, all digits, and has no leading zero except for 0 |
| Text.ParseNatToString | api/tasks.ts:20 | reading a decimal rendering back gives the number |
| Text.NatToStringInjective | screens/TaskListScreen.tsx:52 | different counts have different decimal renderings |
| Js.Get | api/tasks.ts:56 | `v.key` throws a TypeError exactly on `null` and `undefined` and otherwise equals `v?.key` |
| Seqs.Filter | screens/TaskListScreen.tsx:194-206 | `filter` keeps only elements of the input that satisfy the predicate, and keeps every element that does |
| Seqs.FilterIsSubsequence | screens/TaskListScreen.tsx:194-206 | a filter's result is an order-preserving subsequence of its input |
| Seqs.FilterMembership | screens/TaskListScreen.tsx:194-206 | an element is in a filter's result exactly when it is in the input and satisfies the predicate |
| Seqs.FilterPartition | screens/TaskListScreen.tsx:180-188 | filtering by a predicate and by its negation gives lengths that add up to the input's |
| Seqs.FilterAll | screens/TaskListScreen.tsx:278 | a predicate that every element satisfies filters nothing out |
| Seqs.FilterAgree | screens/TaskListScreen.tsx:194-200 | two predicates that agree on every element filter a sequence alike |
| Seqs.FilterFilter | screens/TaskListScreen.tsx:192-217 | filtering by one predicate and then another is filtering once by their conjunction |
| Seqs.SubsequenceReflexive | screens/TaskListScreen.tsx:192-193 | a stage that is a no-op is a subsequence |
| Seqs.SubsequenceOfTail | screens/TaskListScreen.tsx:190-220 | a subsequence of the tail is a subsequence of the whole |
| Seqs.SubsequenceDropHead | screens/TaskListScreen.tsx:190-220 | dropping the head of a subsequence keeps it a subsequence |
| Seqs.SubsequenceTransitive | screens/TaskListScreen.tsx:190-220 | stages chained one after another stay a subsequence of the first input |
| Seqs.Map | screens/TaskListScreen.tsx:167-178 | `map` gives one image per element, at the same index |
| Seqs.SubsequenceMap | screens/TaskListScreen.tsx:167-178 | mapping both sides keeps the subsequence relation |
| DueMeta.Classify | screens/TaskListScreen.tsx:48-63 | a negative difference is overdue with "Trễ n ngày" where n is the absolute difference; 0 is today with "Hôm nay"; 1 is upcoming with "Ngày mai"; more is upcoming with "Sau n ngày"; each status holds exactly on its range |
| DueMeta.CountedPrefixInjective | screens/TaskListScreen.tsx:51-62 | the count between the words of a counted prefix determines it |
| DueMeta.ClassifyPrefixInjective | screens/TaskListScreen.tsx:51-63 | no two day differences get the same prefix |
| DueMeta.GetDueMeta | screens/TaskListScreen.tsx:35-74 | the label is absent exactly when the status is `none`; the status is `none` exactly when the due date is missing, empty or unparseable; otherwise the label is prefix • time and the status comes from the day difference |
| DueMeta.DueTodayIsToday | screens/TaskListScreen.tsx:41-57 | a due date on today's local day is `today` with label "Hôm nay • time", whatever its hour |
| DueMeta.PrefixHasNoBullet | screens/TaskListScreen.tsx:70-73 | no prefix contains the bullet of the label |
| DueMeta.SplitAtBullet | screens/TaskListScreen.tsx:70-73 | a label splits back into its prefix and its time at the bullet |
| DueMeta.LabelInjective | screens/TaskListScreen.tsx:65-73 | two labels are equal only for the same day difference and the same time |
| DueMeta.GetGreeting | screens/TaskListScreen.tsx:76-89 | morning before 12, afternoon from 12 to before 18, evening from 18, each iff; the initial "XIN CHÀO" is never shown; an empty or missing name becomes "bạn" |
| TaskForm.FormatDueDisplayAgrees | components/tasks/TaskForm.tsx:31-60 | the form's copy of the prefix rules gives the same text as the task list's label for every date and day |
| TaskForm.FormatDueDisplay | components/tasks/TaskForm.tsx:31-60 | `formatDueDisplay`; `TaskForm.FormatDueDisplayAgrees` proves it gives the task list's label |
| TaskForm.GetInitialDue | components/tasks/TaskForm.tsx:62-80 | a missing, empty or unparseable ISO string gives no date and "Không có hạn", each iff; otherwise the parsed date and its display |
| TaskForm.InitialDueMatchesList | components/tasks/TaskForm.tsx:62-80 | an edited task shows in the form exactly the label the list shows for it, and "Không có hạn" exactly when the list shows none |
| TaskForm.DefaultsWithoutInitialValues | components/tasks/TaskForm.tsx:91-104 | without initial values the title and description are empty, `completed` is false and there is no due date |
| TaskForm.SubmitPayload | components/tasks/TaskForm.tsx:187-192 | the title is trimmed; the description is trimmed, and dropped exactly when blank; the due date is the chosen date's ISO string, present exactly when a date is chosen; `completed` is passed through |
| TaskForm.TaskFormState.constructor | components/tasks/TaskForm.tsx:91-108 | the fields start from the initial values with `??` defaults and from `getInitialDue`; errors, picker and loading are clear |
| TaskForm.TaskFormState.SyncInitialValues | components/tasks/TaskForm.tsx:114-121 | the effect re-reads title, description, due date, display and completed, and leaves the rest alone |
| TaskForm.TaskFormState.SelectNoDue | components/tasks/TaskForm.tsx:139-142 | clears the due date and shows "Không có hạn" |
| TaskForm.TaskFormState.SelectToday | components/tasks/TaskForm.tsx:144-148 | the due date becomes now and is shown as "Hôm nay • time" |
| TaskForm.TaskFormState.SelectTomorrow | components/tasks/TaskForm.tsx:150-161 | the due date becomes tomorrow, the next calendar day, always shown as "Ngày mai • " followed by tomorrow's own time |
| TaskForm.TaskFormState.OpenPicker | components/tasks/TaskForm.tsx:319 | opens the date picker |
| TaskForm.TaskFormState.HandleConfirm | components/tasks/TaskForm.tsx:164-168 | closes the picker; the confirmed date becomes the due date with its display |
| TaskForm.TaskFormState.HandleCancelPicker | components/tasks/TaskForm.tsx:170-172 | closes the picker and keeps the due date |
| TaskForm.TaskFormState.ToggleCompleted | components/tasks/TaskForm.tsx:344 | flips `completed` |
| TaskForm.TaskFormState.HandleSubmit | components/tasks/TaskForm.tsx:174-184 | both errors are cleared; there is no payload exactly when the title is blank after trimming, and then the title error is set and loading is unchanged; otherwise loading starts and the payload is fixed from the values at the press |
| TaskForm.TaskFormState.SubmitTimerFired | components/tasks/TaskForm.tsx:185-199 | loading ends; the fixed payload reaches `onSubmit` exactly when there is one |
| TasksApi.HandleResponse | api/tasks.ts:7-25 | success exactly when ok, with `data` unchanged (`null` for a body that did not parse); otherwise an Error whose message is `data.message`, else `data.error`, else "Request failed with status N" |
| TasksApi.StatusMessageNamesStatus | api/tasks.ts:20 | the fallback message is the prefix followed by the digits of the status, which read back as the status |
| TasksApi.OptionalIso | api/tasks.ts:35 | a falsy due date stays undefined, a valid one becomes its ISO string, an invalid one throws a RangeError |
| TasksApi.IsoOrNow | api/tasks.ts:36-41 | a falsy time stamp becomes now, a valid one its ISO string, an invalid one throws |
| TasksApi.MapTaskSpec | api/tasks.ts:28-43 | id is `_id` if truthy, else `id`; an empty description becomes undefined; `completed` is `!!doc.completed`; the owner is `user._id`, else `user`; a missing due date stays undefined and a set one is its ISO conversion; a time stamp that is set is its ISO conversion and a missing one becomes now; it fails exactly on a null or undefined document or a set but invalid date |
| TasksApi.MapTask | api/tasks.ts:28-43 | `mapTask`; its contract is the lemma `TasksApi.MapTaskSpec`, and `TasksApi.MapTaskRoundTrip` inverts it |
| TasksApi.TaskDocumentFields | api/tasks.ts:28-43 | each field `mapTask` reads from the document of a task holds that task's field, and the document has no `id` beside `_id` |
| TasksApi.MapTaskRoundTrip | api/tasks.ts:28-43 | mapping the document of a stored task gives the task back |
| TasksApi.MapTasks | api/tasks.ts:57 | `map(mapTask)` is one-to-one and keeps length and order; it fails exactly when some document fails, with the first failure |
| TasksApi.FetchTasks | api/tasks.ts:46-58 | errors come from `handleResponse`; an unparsed body throws reading `tasks`; a non-array `tasks` gives `[]`; an array is mapped one to one |
| TasksApi.MissingArrayIsEmpty | api/tasks.ts:56 | `{tasks: null}` and `{}` give the empty list |
| TasksApi.CreatePayload | api/tasks.ts:65-69 | the body has title and description when defined, never `completed`, and `dueDate` exactly when it is a non-empty string |
| TasksApi.UpdatePayload | api/tasks.ts:90-95 | the body always has `completed` and `dueDate`, the latter `null` when falsy; title and description when defined |
| TasksApi.MissingDueDateDiffers | api/tasks.ts:65-95 | for a missing due date, create omits the key and update sends `null` |
| TasksApi.CreateTask | api/tasks.ts:80-81 | the server's message, or "Tạo task thành công" when it sends none; errors as `handleResponse` |
| TasksApi.UpdateTask | api/tasks.ts:106-108 | `mapTask(data.task)`; a body without `task` throws a TypeError; errors as `handleResponse` |
| TasksApi.DeleteTask | api/tasks.ts:112-121 | succeeds exactly when the response is ok, otherwise fails with `handleResponse`'s error |
| AuthApi.HandleResponse | api/auth.ts:14-31 | success exactly when ok, with `data` unchanged |
| AuthApi.SameFallbackAsTasks | api/auth.ts:22-28 | the auth client's copy picks the same result as the task client's for every response |
| AuthApi.Login | api/auth.ts:46-60 | fails with "Không tìm thấy token trong phản hồi API" exactly when an ok response's token is falsy; succeeds exactly when ok with a truthy token; the token is returned unchanged with a user from `data.email` and `data.displayName` |
| AuthApi.Signup | api/auth.ts:77-79 | the server's message, or "Tạo tài khoản thành công" when it sends none |
| TaskListScreen.ViewTasks | screens/TaskListScreen.tsx:167-178 | one annotated task per task, in order, with the classifier's label and status |
| TaskListScreen.TasksOfViewTasks | screens/TaskListScreen.tsx:167-178 | annotating changes neither the tasks nor their order |
| TaskListScreen.ByDateSpec | screens/TaskListScreen.tsx:192-200 | the date stage only removes items; "all" is a no-op; "today" keeps exactly the items that are not upcoming |
| TaskListScreen.ByStatusSpec | screens/TaskListScreen.tsx:203-207 | the status stage only removes items; "active" keeps exactly the open ones, "done" the completed ones, "all" is a no-op |
| TaskListScreen.BySearchSpec | screens/TaskListScreen.tsx:210-217 | the search stage only removes items; a blank query is a no-op; otherwise an item is kept exactly when its lower-cased title or description contains the trimmed, lower-cased query |
| TaskListScreen.ByDate | screens/TaskListScreen.tsx:192-200 | the date stage; stated by `TaskListScreen.ByDateSpec` and `TaskListScreen.ByDateIsFilter` |
| TaskListScreen.ByStatus | screens/TaskListScreen.tsx:203-207 | the status stage; stated by `TaskListScreen.ByStatusSpec` and `TaskListScreen.ByStatusIsFilter` |
| TaskListScreen.NormalizeQuery | screens/TaskListScreen.tsx:210 | `searchQuery.trim().toLowerCase()`; `TaskListScreen.BySearchSpec` states the search through it |
| TaskListScreen.Matches | screens/TaskListScreen.tsx:212-216 | the title or description test of the search, with a missing field as ""; `TaskListScreen.BySearchSpec` states the search through it |
| TaskListScreen.BySearch | screens/TaskListScreen.tsx:210-217 | the search stage; stated by `TaskListScreen.BySearchSpec` and `TaskListScreen.BySearchIsFilter` |
| TaskListScreen.ByDateIsFilter | screens/TaskListScreen.tsx:192-200 | the date stage is exactly a filter by "all tabs pass, or the task is not upcoming" |
| TaskListScreen.ByStatusIsFilter | screens/TaskListScreen.tsx:203-207 | the status stage is exactly a filter by the status card's condition |
| TaskListScreen.BySearchIsFilter | screens/TaskListScreen.tsx:210-217 | the search stage is exactly a filter by "the query is blank, or the title or description contains it" |
| TaskListScreen.FilteredViewIsStages | screens/TaskListScreen.tsx:190-220 | the three stages in a row are one filter of the annotated tasks by all three conditions together |
| TaskListScreen.FilteredViewSpec | screens/TaskListScreen.tsx:190-220 | the rendered list is a subsequence of the annotated tasks and its tasks one of `tasks`; an item is in it exactly when it passes all three stages, and the list is exactly the annotated tasks filtered by the conjunction of the three stages, so order and repeats are kept |
| TaskListScreen.FilteredView | screens/TaskListScreen.tsx:190-220 | `filteredViewTasks`; stated by `TaskListScreen.FilteredViewSpec` and `TaskListScreen.FilteredViewIsStages` |
| TaskListScreen.NarrowingFilters | screens/TaskListScreen.tsx:190-220 | today+active is within today+all, which is within all+all, which is every task |
| TaskListScreen.CountsAddUp | screens/TaskListScreen.tsx:180-188 | `activeCount + completedCount == totalCount` |
| TaskListScreen.CompletedCount | screens/TaskListScreen.tsx:181-184 | `completedCount`; `TaskListScreen.CountsAddUp` relates it to the total |
| TaskListScreen.ActiveCount | screens/TaskListScreen.tsx:185-188 | `activeCount`; `TaskListScreen.CountsAddUp` relates it to the total |
| TaskListScreen.FindIndex | screens/TaskListScreen.tsx:223 | `find` stops at the first task with the id, and finds none exactly when no task has it |
| TaskListScreen.Find | screens/TaskListScreen.tsx:223 | `tasks.find`: the task at `TaskListScreen.FindIndex`, whose contract makes it the first task with the id, or none exactly when no task has it |
| TaskListScreen.Toggled | screens/TaskListScreen.tsx:227-229 | the optimistic list has the same length and flips `completed` on exactly the tasks with the id |
| TaskListScreen.ToggledSpec | screens/TaskListScreen.tsx:222-247 | only `completed` of matching tasks changes; flipping twice restores the list; an absent id changes nothing |
| TaskListScreen.RemoveIdSpec | screens/TaskListScreen.tsx:278 | a delete keeps the others in order and removes every task with the id; an unknown id changes nothing |
| TaskListScreen.RemoveId | screens/TaskListScreen.tsx:278 | `current.filter((t) => t.id !== id)`; stated by `TaskListScreen.RemoveIdSpec` |
| TaskListScreen.TaskListState.constructor | screens/TaskListScreen.tsx:98-105 | "all" tabs, no tasks, not loading, search closed and empty, nothing selected |
| TaskListScreen.TaskListState.Load | screens/TaskListScreen.tsx:130-158 | fetched tasks replace the list, an error keeps it, and loading ends either way |
| TaskListScreen.TaskListState.ToggleTask | screens/TaskListScreen.tsx:222-248 | an unknown id does nothing and sends nothing; otherwise the update carries the target's own title, description and due date with `!completed`; the list is the optimistic one when the update succeeds and exactly the pre-toggle snapshot when it fails |
| TaskListScreen.ToggleRequest | screens/TaskListScreen.tsx:233-241 | the values `handleToggleTask` sends to `updateTask`, the target's own with `completed` flipped; `TaskListScreen.TaskListState.ToggleTask` ensures that the request it issues is exactly this |
| TaskListScreen.TaskListState.RequestDelete | screens/TaskListScreen.tsx:264-268 | an unknown id opens no dialog; otherwise the dialog names the task and captures the current list |
| TaskListScreen.TaskListState.ConfirmDelete | screens/TaskListScreen.tsx:276-289 | on success every task with the id leaves the current list; on failure the list becomes the dialog's captured snapshot |
| TaskListScreen.TaskListState.ToggleSearch | screens/TaskListScreen.tsx:352-358 | flips the search bar; closing it clears the query |
| TaskListScreen.TaskListState.PressTask | screens/TaskListScreen.tsx:250-255 | selects the first task with the id when there is one, and otherwise keeps the selection |
| TaskListScreen.TaskListState.CloseDetail | screens/TaskListScreen.tsx:556 | clears the selection |
| TaskListScreen.TaskListState.EditSelected | screens/TaskListScreen.tsx:855-858 | clears the selection and hands the selected task on |
| AuthForms.RequiredErrorSpec | components/auth/LoginForm.tsx:48-56 | a required field has no error exactly when it holds a non-space character, and otherwise has its message |
| AuthForms.RequiredError | components/auth/LoginForm.tsx:48-56 | the required-field check; its contract is the lemma `AuthForms.RequiredErrorSpec` |
| AuthForms.LoginFormState.constructor | components/auth/LoginForm.tsx:13-19 | empty fields, no errors, not loading |
| AuthForms.LoginFormState.HandleLoginPress | components/auth/LoginForm.tsx:39-67 | a press while loading changes nothing and submits nothing; otherwise the errors are cleared, email and password are each checked independently, and values are submitted exactly when both are filled and there is an `onSubmit`: the email trimmed and the password raw; loading starts exactly then |
| AuthForms.LoginFormState.SubmitSettled | components/auth/LoginForm.tsx:68-75 | a rejection shows its message, or the default login error when it has none; loading ends in every case |
| AuthForms.SignupFormState.constructor | components/auth/SignupForm.tsx:16-24 | empty fields, no errors, not loading |
| AuthForms.SignupFormState.HandleSignupPress | components/auth/SignupForm.tsx:44-69 | all four errors are cleared; name, email and password are each checked after trimming; values are fixed exactly when all three are filled: name and email trimmed, password raw; with an error loading is unchanged; there is no loading guard |
| AuthForms.SignupFormState.TimerFired | components/auth/SignupForm.tsx:71-82 | loading ends; the fixed values reach `onSubmit` exactly when there is one |
| App.DisplayName | App.tsx:93 | `displayName`, else `email`, else "bạn"; never empty |
| App.TaskViewsNeedToken | App.tsx:64-91 | once booted, a task screen is shown exactly when there is a non-empty token, and a login or signup screen exactly when there is not; without a token the signup screen is shown exactly when it was requested and the login screen otherwise |
| App.Render | App.tsx:64-146 | the view `App` returns; stated by `App.TaskViewsNeedToken`, `App.EditViewShowsEditingTask` and `App.FallbackIsTaskList` |
| App.HasToken | App.tsx:76 | a truthy token: present and non-empty; `App.TaskViewsNeedToken` shows a task view exactly when it holds |
| App.EditViewShowsEditingTask | App.tsx:122-131 | the edit screen is shown exactly when booted with a token, on `EditTask`, with a carried task, and it shows that task |
| App.FallbackIsTaskList | App.tsx:97-145 | with a token, every other screen request shows the task list under the display name |
| App.AppState.constructor | App.tsx:25-29 | starts on `Login` with no token, user or edited task, booting, showing the booting view |
| App.AppState.Boot | App.tsx:32-48 | a non-empty stored token restores the token, the user when one is stored, and `TaskList`, which is then shown; otherwise nothing but the boot flag changes; booting ends |
| App.AppState.AuthSuccess | App.tsx:50-55 | sets token and user and moves to `TaskList`, which shows the new user's name |
| App.AppState.Logout | App.tsx:57-62 | nulls token and user and moves to `Login`, which is then shown |
| App.AppState.GoSignup | App.tsx:88 | moves to `Signup` |
| App.AppState.GoLogin | App.tsx:80 | moves to `Login` |
| App.AppState.OpenCreateTask | App.tsx:102 | moves to `CreateTask` |
| App.AppState.OpenEditTask | App.tsx:103-106 | stores the task and moves to `EditTask`, which then shows that task |
| App.AppState.BackToTaskList | App.tsx:116-128 | `done` and `back` return to `TaskList`, which is then shown |

## Left out

- Rendering, styling, animation and modals, including the due-status colours of `TaskItem`. Only the `Task` and `DueStatus` types are kept.
- `fetch`, HTTP methods, headers, URLs and the bearer token. Each call is the `Response` it would get back and the body the model builds.
- Storage (`storage/authStorage.ts`). Its reads never fail (a failed read is `null`) and its writes swallow errors. So `Boot` takes what was read, and `AuthSuccess` and `Logout` do not wait on the writes.
- The screens that only glue forms to the API: `CreateTaskScreen`, `EditTaskScreen`, `LoginScreen` and `SignupScreen`. `handleQuickEditTask` is `Find` followed by `App.AppState.OpenEditTask`.
- `Alert` dialogs and messages, and the 700 ms `setTimeout` delays. The timers are the `SubmitTimerFired` and `TimerFired` steps. The delete dialog is the pair `RequestDelete` and `ConfirmDelete`.
- `Date` parsing, `toISOString`, `toLocaleTimeString` and the local hour are parameters. So is the `Math.round` over milliseconds that absorbs daylight-saving skew: dates are local day numbers.
- Js.JValue numbers are integers, because no branch of the client depends on fractions.
- Text.ToLower: folds ASCII A-Z only. Unicode case mapping is not modelled, so search results differ from the app for non-ASCII capitals such as "Ệ".
- The load effect's cancellation flag, and any interleaving of overlapping toggles, deletes and loads. Each action is atomic, except that a delete's dialog and its confirmation are two steps.
- Button (`components/ui/Button.tsx`) ignores presses while `loading`. The form methods do not assume it, so `HandleSignupPress` can run while loading.
- TaskForm.TaskFormState.SelectToday, TaskForm.TaskFormState.SelectTomorrow, TasksApi.MapTaskSpec and TasksApi.MapTasks read the clock once per action (`env.now`). The source reads `new Date()` again where `formatDueDisplay` takes `today` and for every missing `createdAt` and `updatedAt`. So a chip pressed just at midnight is not modelled. Missing time stamps that could differ by milliseconds in the app are all equal to `env.now.iso` in the model.
- TaskListScreen.ViewTasks and TaskListScreen.FilteredView take one `env` for the whole list. The screen computes due statuses and labels in a `useMemo` keyed on `tasks`, so they are recomputed only when `tasks` changes. The view's `env.now` is therefore the clock at the last change of `tasks`, not at render: left open past midnight, the screen keeps the previous day's statuses until a load, toggle or delete. `getDueMeta` also reads `new Date()` once per task, where the model reads it once per list.
- TasksApi.MapTask: a string field whose value is not a string, such as a numeric `title`, is treated as absent. A description counts as present only when it is a non-empty string.
- TaskListScreen.TaskListState.ToggleTask: takes the id as a string, so a task whose id is undefined is never its target, and the same holds for `RequestDelete` and `PressTask`.
- TaskListScreen.TaskListState.ConfirmDelete: the error text in the delete failure dialog is not modelled.
- Js.Exception: the text of the engine's TypeError and RangeError messages is not modelled. A login rejection is given to `SubmitSettled` by its message string.
- The typed setters (`setTitle`, `setFilter`, `setSearchQuery` and the like) assign one field. They are field assignments on the classes.
