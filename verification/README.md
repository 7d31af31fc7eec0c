# Task tracker: store, dashboard, task form, task detail and calendar

This project is a Dafny model of the logic in a small React Native task tracker.
The app keeps an in-memory list of tasks (`TasksDatabase`). The screens read that list and drive it.

- `task_store.dfy` (module `TaskStore`) is the store. A class holds the task list as a `seq<Task>`, newest first. Its methods add, update, delete and look up tasks. Each method's new state is tied to a pure function (`NewTask`, `Merge`, `FindIndex`, `Find`, `WithoutId`, `WithStatus`), and the lemmas about the store are proved over those functions.
- `dashboard_screen.dfy` (module `DashboardScreen`) is the dashboard. It holds the screen's copy of the list, the status counts, the "first three unless expanded" view and the See All / Collapse buttons. It also models the save handler (update or add), the confirmed delete and the sample-task loop.
- `task_modal.dfy` (module `TaskModal`) is the add/edit form. It models the form record, the prefill rule, the field setters, date selection and the guard that refuses a blank title.
- `task_detail_screen.dfy` (module `TaskDetailScreen`) is the detail screen. The shown task and an edit buffer are kept apart: Save commits the buffer, Cancel discards it, and the other handlers edit one property each.
- `calendar_picker.dfy` (module `CalendarPicker`) is the date picker. It builds the month grid (blank cells, then the days), steps between months with the year wrap-around, selects a day and marks today. Month lengths follow the Gregorian rule. The first weekday of a month comes from a day count.
- `text.dfy` (module `Text`) is JavaScript's `trim()` and the blank-string test the screens use. `wrappers.dfy` holds `Option`.

Inputs the app takes from its environment are parameters here:
- The clock: `Date.now()` and `toISOString()`. Each `addTask` gets a `Stamp` holding its three separate readings. Each `updateTask` gets its one reading as `now`.
- "Today" for the calendar.
- Dates already formatted as display strings.

A `Partial<Task>` is a `TaskPatch`. In it, every property is either absent (`Keep`) or present with a value (`Put`).

Two properties of the store's code shape what is proved about it:
- Ids come from `Date.now()` and nothing checks them, so uniqueness is proved only for a caller that supplies an id no stored task holds (`AddFreshKeepsUnique`). `AddStaleIdBreaksUnique` and `DeleteTakesEveryHolder` show what happens otherwise.
- `updateTask`'s shallow merge overwrites `id` and `createdAt` when the patch carries them (`MergeOverwritesIdentity`). The app's only caller sends the form record, which carries neither (`FormUpdateKeepsIdentity`).

`addSampleTasks` is defined on the dashboard but nothing calls it. The empty state's "Add Sample Schedule" button (src/screens/DashboardScreen.tsx:190-195) only resets the form and opens it empty, as the floating add button does. The sample loop is modelled as written (`DashboardScreen.Dashboard.AddSampleTasks`).

## Model

| member | source | states |
|---|---|---|
| TaskStore.NewTask | src/db/taskDatabase.ts:21-26 | the new task copies every input property; its id, createdAt and updatedAt are the three clock readings |
| TaskStore.Merge | src/db/taskDatabase.ts:35-39 | the merged record always ends with updatedAt equal to the clock reading, whatever the patch held |
| TaskStore.FindIndex | src/db/taskDatabase.ts:32 | -1 exactly when no task holds the id; otherwise an index holding it with no earlier index holding it |
| TaskStore.Find | src/db/taskDatabase.ts:50 | a found task is in the list and holds the id; none is found only when no task holds it |
| TaskStore.WithoutId | src/db/taskDatabase.ts:45 | the result holds exactly the listed tasks whose id differs, and is no longer than the list |
| TaskStore.WithStatus | src/db/taskDatabase.ts:54 | the result holds exactly the listed tasks with that status, and is no longer than the list |
| TaskStore.TasksDatabase.constructor | src/db/taskDatabase.ts:13-14 | the store starts empty |
| TaskStore.TasksDatabase.GetAllTasks | src/db/taskDatabase.ts:16-18 | returns the stored list itself, in store order |
| TaskStore.TasksDatabase.AddTask | src/db/taskDatabase.ts:20-29 | returns the built task and leaves the list as that task followed by every earlier task in its old order |
| TaskStore.TasksDatabase.UpdateTask | src/db/taskDatabase.ts:31-41 | unknown id: null and no change; otherwise only the first index holding the id is replaced by the merge, length and order kept, and the stored record returned |
| TaskStore.TasksDatabase.DeleteTask | src/db/taskDatabase.ts:43-47 | the list becomes its filter by id; the result is true iff the length dropped, iff some task held the id |
| TaskStore.TasksDatabase.GetTaskById | src/db/taskDatabase.ts:49-51 | null iff no task holds the id, otherwise the task at the first index holding it; the list is not changed |
| TaskStore.TasksDatabase.GetTasksByStatus | src/db/taskDatabase.ts:53-55 | exactly the tasks with that status, as the order-preserving filter of the list |
| TaskStore.FindIsFirstIndex | src/db/taskDatabase.ts:32-50 | the lookup and the index search agree: same absence, and the task found is the one at the index update would change |
| TaskStore.WithoutIdAppend | src/db/taskDatabase.ts:45 | the delete filter distributes over concatenation, so the remaining tasks keep their relative order |
| TaskStore.WithStatusAppend | src/db/taskDatabase.ts:54 | the status filter distributes over concatenation, so the selected tasks keep store order |
| TaskStore.WithoutAbsentId | src/db/taskDatabase.ts:43-47 | deleting an id no task holds leaves the list exactly as it was |
| TaskStore.WithoutIdShrinksIffPresent | src/db/taskDatabase.ts:44-46 | the list gets shorter under delete iff some task holds the id |
| TaskStore.SecondDeleteIsNoOp | src/db/taskDatabase.ts:43-47 | a second delete of the same id changes nothing and reports false |
| TaskStore.DeleteTakesEveryHolder | src/db/taskDatabase.ts:45 | delete removes as many tasks as hold the id, so duplicates all go together |
| TaskStore.UniqueIdsCountAtMostOne | src/db/taskDatabase.ts:45 | with unique ids at most one task holds any id |
| TaskStore.AddFreshKeepsUnique | src/db/taskDatabase.ts:20-29 | adding a task with an id nobody holds keeps ids unique |
| TaskStore.AddStaleIdBreaksUnique | src/db/taskDatabase.ts:22 | adding a task whose clock id is already held makes ids non-unique |
| TaskStore.DeleteKeepsUnique | src/db/taskDatabase.ts:43-47 | delete keeps ids unique |
| TaskStore.UpdateKeepsUnique | src/db/taskDatabase.ts:31-41 | an update whose patch leaves id absent keeps ids unique |
| TaskStore.MergeOverwritesPresentKeepsAbsent | src/db/taskDatabase.ts:35-39 | each property present in the patch is written, each absent one is kept from the stored task |
| TaskStore.MergeNothing | src/db/taskDatabase.ts:35-39 | an empty patch changes nothing but updatedAt |
| TaskStore.MergeIdempotent | src/db/taskDatabase.ts:35-39 | the same patch with the same clock reading applied twice equals applying it once |
| TaskStore.MergeOverwritesIdentity | src/db/taskDatabase.ts:35-39 | a patch carrying id and createdAt overwrites both; the store does not guard them |
| TaskStore.FindAfterUpdate | src/db/taskDatabase.ts:31-51 | after updating a present id with a patch that keeps the id, the lookup returns the merged record |
| Text.TrimStart | src/components/TaskModal.tsx:55 | the result is the suffix of the input after an all-whitespace prefix and does not start with whitespace |
| Text.TrimEnd | src/components/TaskModal.tsx:55 | the result is the prefix of the input before an all-whitespace suffix and does not end with whitespace |
| Text.Trim | src/components/TaskModal.tsx:55 | the trimmed string is a stretch of the input with only whitespace before and after it, and it neither starts nor ends with whitespace |
| Text.IsBlank | src/screens/TaskDetailScreen.tsx:73 | the string is empty after trimming iff every character is whitespace |
| TaskModal.PrefillFor | src/components/TaskModal.tsx:34-52 | create: empty title, description and due date, priority Medium, status Pending; edit: title, status and due date copied, description and priority copied when present, otherwise "" and Medium |
| TaskModal.TaskForm.constructor | src/components/TaskModal.tsx:25-32 | the form starts as the empty form with the calendar hidden |
| TaskModal.TaskForm.Prefill | src/components/TaskModal.tsx:34-52 | the form becomes the prefill record for the task being edited, or the empty form |
| TaskModal.TaskForm.HandleSaveTask | src/components/TaskModal.tsx:54-60 | nothing is saved iff every character of the title is whitespace; otherwise the form record is handed on unchanged, untrimmed title included |
| TaskModal.TaskForm.SetTitle | src/components/TaskModal.tsx:90 | only the title changes |
| TaskModal.TaskForm.SetDescription | src/components/TaskModal.tsx:99 | only the description changes |
| TaskModal.TaskForm.SetPriority | src/components/TaskModal.tsx:129 | only the priority changes |
| TaskModal.TaskForm.SetStatus | src/components/TaskModal.tsx:159 | only the status changes |
| TaskModal.TaskForm.OpenCalendar | src/components/TaskModal.tsx:106 | the calendar is shown |
| TaskModal.TaskForm.CloseCalendar | src/components/TaskModal.tsx:117 | the calendar is hidden |
| TaskModal.TaskForm.HandleDateSelect | src/components/TaskModal.tsx:62-70 | only the due date changes in the form, and the calendar is hidden |
| TaskModal.NewFormIsRefused | src/components/TaskModal.tsx:43-58 | a form opened for a new task has a blank title, so it cannot be saved as opened |
| TaskModal.UntouchedEditSavesBack | src/components/TaskModal.tsx:35-42 | saving an edit form untouched writes the task back unchanged except "" / Medium defaults for missing description / priority and a new updatedAt |
| TaskModal.FormUpdateKeepsIdentity | src/screens/DashboardScreen.tsx:29 | an update made from the form keeps id and createdAt and sets the title |
| DashboardScreen.StatusCount | src/screens/DashboardScreen.tsx:64-66 | a count is at most the list length, and zero iff no task has that status |
| DashboardScreen.StatusCountsSumToTotal | src/screens/DashboardScreen.tsx:64-66 | the pending, in-progress and completed counts sum to the list length |
| DashboardScreen.StatusCountAfterAdd | src/screens/DashboardScreen.tsx:64-66 | a new task in front raises only its own status count, by one |
| DashboardScreen.DisplayedTasks | src/screens/DashboardScreen.tsx:68 | the view is a prefix of the list: all of it when expanded, otherwise min(3, n) tasks |
| DashboardScreen.ShowSeeAll | src/screens/DashboardScreen.tsx:167 | "See All" shows when the list is collapsed and holds more than three tasks, which is exactly when the displayed list hides some task |
| DashboardScreen.ShowCollapse | src/screens/DashboardScreen.tsx:173 | "Collapse" shows when the list is expanded and holds at least one task; then the whole list is displayed |
| DashboardScreen.HeaderButtons | src/screens/DashboardScreen.tsx:167-173 | See All shows iff the view hides a task; See All and Collapse never show together; with more than 3 tasks one shows |
| DashboardScreen.SampleTasks | src/screens/DashboardScreen.tsx:72-106 | there are three samples |
| DashboardScreen.Dashboard.constructor | src/screens/DashboardScreen.tsx:22-25 | the screen starts with the store's list, modal closed, collapsed, nothing being edited |
| DashboardScreen.Dashboard.HandleSaveTask | src/screens/DashboardScreen.tsx:27-39 | editing: the store is updated with the form and the list refreshed only if the id was found; otherwise exactly one task is added in front and the list refreshed; editing ends and the modal closes |
| DashboardScreen.Dashboard.HandleDeleteConfirmed | src/screens/DashboardScreen.tsx:46-49 | the store drops every task holding the id and the screen list equals the store's |
| DashboardScreen.Dashboard.HandleEditTask | src/screens/DashboardScreen.tsx:55-58 | the task becomes the one being edited and the modal opens |
| DashboardScreen.Dashboard.OpenNewTask | src/screens/DashboardScreen.tsx:234-237 | nothing is being edited and the modal opens |
| DashboardScreen.Dashboard.CloseModal | src/screens/DashboardScreen.tsx:224-227 | editing ends and the modal closes; the list is untouched |
| DashboardScreen.Dashboard.SeeAll | src/screens/DashboardScreen.tsx:168 | the view is expanded |
| DashboardScreen.Dashboard.Collapse | src/screens/DashboardScreen.tsx:174 | the view is collapsed |
| DashboardScreen.Dashboard.AddSampleTasks | src/screens/DashboardScreen.tsx:71-110 | the three samples go in front in reverse order of adding, so the list starts "Team meeting preparation", "Complete project proposal", "Plan weekly schedule", then the old list; the screen list is refreshed and the modal, view and editing state are kept |
| TaskDetailScreen.TaskDetail.constructor | src/screens/TaskDetailScreen.tsx:37-56 | the buffer starts as a copy of the task, not editing, empty comment |
| TaskDetailScreen.TaskDetail.HandleSave | src/screens/TaskDetailScreen.tsx:58-62 | the task becomes the buffer and edit mode ends |
| TaskDetailScreen.TaskDetail.Cancel | src/screens/TaskDetailScreen.tsx:322-325 | the buffer becomes the task again and edit mode ends; the task is kept |
| TaskDetailScreen.TaskDetail.ToggleEditing | src/screens/TaskDetailScreen.tsx:152 | edit mode flips and nothing else changes, the buffer included |
| TaskDetailScreen.TaskDetail.HandleStatusChange | src/screens/TaskDetailScreen.tsx:64-66 | only the buffer's status changes |
| TaskDetailScreen.TaskDetail.HandlePriorityChange | src/screens/TaskDetailScreen.tsx:68-70 | only the buffer's priority changes |
| TaskDetailScreen.TaskDetail.EditTitle | src/screens/TaskDetailScreen.tsx:135 | only the buffer's title changes |
| TaskDetailScreen.TaskDetail.EditDescription | src/screens/TaskDetailScreen.tsx:224 | only the buffer's description changes |
| TaskDetailScreen.TaskDetail.ToggleFavorite | src/screens/TaskDetailScreen.tsx:79-81 | only the buffer's favourite flag flips |
| TaskDetailScreen.TaskDetail.MarkAsComplete | src/screens/TaskDetailScreen.tsx:109-113 | both task and buffer get status Completed and keep every other property |
| TaskDetailScreen.TaskDetail.SetNewComment | src/screens/TaskDetailScreen.tsx:307 | the comment input takes the typed text |
| TaskDetailScreen.TaskDetail.AddComment | src/screens/TaskDetailScreen.tsx:72-77 | the input is cleared iff it holds a non-whitespace character; the task and its comment count are untouched |
| TaskDetailScreen.FavoriteTwiceRestores | src/screens/TaskDetailScreen.tsx:79-81 | two favourite toggles give back the buffer and the task as they were |
| TaskDetailScreen.UnsavedEditSurvivesToggle | src/screens/TaskDetailScreen.tsx:152 | an unsaved status edit is still in the buffer after closing and reopening edit mode, and the task never sees it |
| TaskDetailScreen.CancelThenSaveChangesNothing | src/screens/TaskDetailScreen.tsx:322-325 | after edits, Cancel, re-entering edit mode and Save leave the task as it was and the buffer equal to it |
| CalendarPicker.DaysInMonth | src/components/CalenderPicker.tsx:17-19 | between 28 and 31 days; 29 iff February of a leap year, 28 iff February of another year |
| CalendarPicker.FirstDayOfMonth | src/components/CalenderPicker.tsx:21-23 | a weekday from 0 to 6 |
| CalendarPicker.PrevMonth | src/components/CalenderPicker.tsx:47-49 | January goes to December of the year before; any other month to the month before in the same year |
| CalendarPicker.NextMonth | src/components/CalenderPicker.tsx:51-53 | December goes to January of the year after; any other month to the month after in the same year |
| CalendarPicker.IsToday | src/components/CalenderPicker.tsx:60-67 | a cell is today when its day, the shown month and the shown year all equal today's; the shown month is then today's own |
| CalendarPicker.Calendar.constructor | src/components/CalenderPicker.tsx:15 | the picker starts on today's date |
| CalendarPicker.Calendar.GenerateCalendarDays | src/components/CalenderPicker.tsx:25-39 | the grid has firstDay + daysInMonth cells; the first firstDay are blank; cell firstDay + d - 1 holds d for every day d of the month |
| CalendarPicker.Calendar.HandlePreviousMonth | src/components/CalenderPicker.tsx:47-49 | the picker shows the previous month, on day 1 |
| CalendarPicker.Calendar.HandleNextMonth | src/components/CalenderPicker.tsx:51-53 | the picker shows the next month, on day 1 |
| CalendarPicker.Calendar.PressCell | src/components/CalenderPicker.tsx:55-58 | a blank cell selects nothing; a day selects that day of the displayed month and year, a valid date when it is a day of the month |
| CalendarPicker.MonthStepsAreInverse | src/components/CalenderPicker.tsx:47-53 | previous then next, and next then previous, give back the month and year shown |
| CalendarPicker.StepForwardIsOffset | src/components/CalenderPicker.tsx:51-53 | k next-month presses add k to the month modulo 12 and carry into the year |
| CalendarPicker.TwelveStepsIsOneYear | src/components/CalenderPicker.tsx:51-53 | twelve next-month presses show the same month one year later |
| CalendarPicker.YearLength | src/components/CalenderPicker.tsx:17-19 | the day count gives a leap year 366 days and any other 365 |
| CalendarPicker.MonthStartsAfterPrevious | src/components/CalenderPicker.tsx:17-23 | the month table and the month lengths agree: each month starts where the one before ends |
| CalendarPicker.NextGridContinuesWeek | src/components/CalenderPicker.tsx:21-27 | the next month's grid starts on the weekday after this month's last day |
| CalendarPicker.KnownFirstDays | src/components/CalenderPicker.tsx:21-23 | 1 January 2000 and 1 November 2025 come out as Saturdays |
| CalendarPicker.TodayHighlightedOnce | src/components/CalenderPicker.tsx:60-67 | today is marked in its own month's grid and no other, and in at most one cell |

## Left out

- Rendering, layout, styles, icons, modal and list behaviour, tab navigation, and the statistics and profile screens. These are presentation with no state logic.
- `Alert.alert` dialogs. Only the state effect of the confirmed delete branch is modelled.
- The clock and locale formatting: `Date.now()`, `toISOString()` and `toLocaleDateString()`. Their results are parameters, and no date string is parsed or produced.
- React re-rendering and reference identity. `getAllTasks` returns the stored array itself; here it returns the list as a value. Handlers read state as a value at call time.
- The first weekday of a month is computed in the model. The app asks `Date` for it. The day count agrees with the proleptic Gregorian calendar that `Date` uses.
- `CalendarPicker.PrevMonth`: the `Date` constructor maps years 0 to 99 onto 1900 to 1999. This is not modelled, and neither is the range limit of `Date`.
- The time of day carried by `currentDate` is not modelled. The first day of the month is what a month step sets.
- `getStatusIcon` and `getPriorityIcon` on the detail screen are icon lookups, not modelled.
- `DashboardScreen.Dashboard.AddSampleTasks`: the due dates are parameters because they are clock-derived. It asks for exactly three due dates and three clock stamps, one per `addTask` call.
- A `Partial<Task>` can hold a required property with the value `undefined` (`{ title: undefined }`), which `...updates` would copy over the stored value. `TaskPatch` cannot express that: a required property is either absent or present with a value. No caller in the app sends such a patch.
- `addTask` spreads its argument after the clock id, so an argument that carried an `id` would replace the clock id. `TaskInput` has no `id` property, so the model cannot express that. No caller in the app passes one.
