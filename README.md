# FlowTask: a model of the task and project manager's core rules

FlowTask is a React task and project manager. Its data lives in a hosted
backend: tables `tasks_c` and `projects_c`, reached through an SDK client.
Categories live in an in-memory store seeded from mock data. This project
models the rules that sit between the views and the backend, and proves
properties of them:

- **The task list view** (`TaskList.TaskListController`). It holds `tasks`
  and `categories` and derives a filtered view from four filters. It splits
  that view into active and completed tasks and counts tasks per category.
  Its handlers replace, append and remove tasks by `Id` once the repository
  answers.
- **The projects page** (`ProjectsPage.ProjectsPageState`). It holds
  `projects` and the filtered list the page shows. It filters by search term
  and status. It merges on edit, prepends on create and removes on delete.
- **The category store** (`CategoryService.CategoryStore`). This is a
  module-level list changed in place. New Ids are max+1. Unknown Ids give
  "Category not found".
- **The task and project repositories** (`TaskService`, `ProjectService`).
  They build the create and update payloads. They read the backend's batch
  envelope by two different rules, collected in `Backend`.
- **The two forms** (`TaskForm`, `ProjectForm`). Each covers validation,
  input changes, the prefill and reset effects, and the record a submission
  hands on.
- **The small display rules.** These are the tag list and "+n more" label
  of a project card, a card's date status, the due-date, priority and
  status badges, and the category sidebar's entries, counts and highlight.

JavaScript values are modelled by `Js.JsValue`. A plain object is a
`map<string, JsValue>`, and a missing key reads as `undefined`. Truthiness,
`||`, `===` and `parseInt` are written out. A date is an integer count of
milliseconds (`Time`), and "now" is a parameter. Each backend call is a
`Backend.Client` value: no client, a call that throws, or the response it
returns. A handler that awaits a promise takes the settled outcome as a
`Result`, where `Err` stands for a rejection. A `window.confirm` answer is a
boolean parameter.

Two facts about how the application wires these parts together:

- `Projects.jsx` mounts `ProjectForm` with an `onSuccess` callback. The form
  only calls `onSubmit`, so in the application a submission is validated and
  shaped but never sent. `ProjectForm.ProjectFormState.HandleSubmit` takes
  whether an `onSubmit` is present as a parameter.
- `TaskList.jsx` does not render `CategorySidebar`. The sidebar is modelled
  on its own. `CategorySidebar.TotalIsSumOfRows` takes the count map in the
  shape that `getTaskCounts` produces.

## Model

| member | source | states |
|---|---|---|
| TaskList.FilteredTasks | src/components/organisms/TaskList.jsx:126-148 | A task is in the view exactly when it is in `tasks` and passes all four filters. |
| TaskList.FilteredIsSubsequence | src/components/organisms/TaskList.jsx:126-148 | The view is an order-preserving subsequence of `tasks`. |
| TaskList.NoFiltersKeepAll | src/components/organisms/TaskList.jsx:126-148 | With the initial filter settings, the view is the whole list. |
| TaskList.FilteredAfterAppend | src/components/organisms/TaskList.jsx:78 | Appending a task extends the view by that task exactly when it passes the filters. |
| TaskList.ActiveTasks | src/components/organisms/TaskList.jsx:160 | The active list holds exactly the view's tasks that are not completed. |
| TaskList.CompletedTasks | src/components/organisms/TaskList.jsx:161 | The completed list holds exactly the view's completed tasks. |
| TaskList.StatusFilterIsSplit | src/components/organisms/TaskList.jsx:137-161 | With the other filters fixed, status "active" shows exactly the active part of the status-"all" view, and "completed" exactly its completed part, in the same order. |
| TaskList.ActiveCompletedPartition | src/components/organisms/TaskList.jsx:160-161 | The active and completed lists are disjoint. As multisets they add up to the view, and their lengths sum to its length. |
| TaskList.CountInCategory | src/components/organisms/TaskList.jsx:155 | A category's count never exceeds the number of tasks. |
| TaskList.CountIsCategoryView | src/components/organisms/TaskList.jsx:152-158 | A category's count is the size of the view that selects only that category, whatever other filters are set. |
| TaskList.ReplaceById | src/components/organisms/TaskList.jsx:72 | Mapping by Id keeps the length. It puts the updated task where the Id matches and leaves every other entry unchanged. |
| TaskList.RemoveById | src/components/organisms/TaskList.jsx:118 | A task survives the delete exactly when its Id differs. |
| TaskList.RemoveIsSubsequence | src/components/organisms/TaskList.jsx:118 | A delete keeps the remaining tasks in order. |
| TaskList.RemovesCommute | src/components/organisms/TaskList.jsx:118 | Two deletes give the same list in either order. |
| TaskList.ReplaceOnlyTouchesId | src/components/organisms/TaskList.jsx:72 | After a same-Id replacement, the tasks with other Ids are the same list as before. |
| TaskList.FindTask | src/components/organisms/TaskList.jsx:91 | The task found is the first one with the Id sought: it sits at a position before which no task has that Id. Nothing is found exactly when no task has that Id. |
| TaskList.ToggleCallFor | src/components/organisms/TaskList.jsx:91-105 | An unknown Id makes no call. Otherwise the call is `markIncomplete` exactly when the local task is completed, and `markComplete` when it is not. |
| TaskList.TaskListController.constructor | src/components/organisms/TaskList.jsx:17-33 | Empty lists, loading, no error, no form. |
| TaskList.TaskListController.LoadData | src/components/organisms/TaskList.jsx:39-55 | Both lists are replaced only when both fetches succeed. A rejection keeps them and sets the error message, or "Failed to load tasks". Loading ends either way. |
| TaskList.TaskListController.CreateTask | src/components/organisms/TaskList.jsx:57-60 | Opens an empty form and changes no list. Loading and the error are unchanged. |
| TaskList.TaskListController.EditTask | src/components/organisms/TaskList.jsx:62-65 | Opens the form on the given task and changes no list. Loading and the error are unchanged. |
| TaskList.TaskListController.SubmitTask | src/components/organisms/TaskList.jsx:67-87 | Calls update for an edit and create otherwise. A returned task replaces the edited Id or is appended. A null result keeps the list. The form closes unless the call rejects. Loading and the error are unchanged. |
| TaskList.TaskListController.ToggleComplete | src/components/organisms/TaskList.jsx:89-110 | Makes the call `ToggleCallFor` names. A returned task replaces the entries with that Id; no call or a null result keeps the list. Loading and the error are unchanged. |
| TaskList.TaskListController.DeleteTask | src/components/organisms/TaskList.jsx:112-124 | Calls the repository only when confirmed. The list loses that Id only when the call returns true. Loading and the error are unchanged. |
| TaskList.TaskListController.CancelForm | src/components/organisms/TaskList.jsx:302-305 | Closes the form and clears the edited task. Loading and the error are unchanged. |
| TaskList.TaskListController.TaskCounts | src/components/organisms/TaskList.jsx:152-158 | The keys are exactly the category Ids. Each value is the number of tasks in the unfiltered list with that category. |
| ProjectsPage.VisibleProjects | src/components/pages/Projects.jsx:58-77 | A project is shown exactly when it is in `projects`, passes the search (when the trimmed term is not empty) and has the chosen status (unless 'all'). |
| ProjectsPage.VisibleIsSubsequence | src/components/pages/Projects.jsx:58-77 | The shown list is an order-preserving subsequence of `projects`. |
| ProjectsPage.BlankSearchShowsAll | src/components/pages/Projects.jsx:62 | A blank or whitespace-only term with status 'all' shows every project. |
| ProjectsPage.FilterProjects | src/components/pages/Projects.jsx:58-78 | The search-then-status reassignment of `filtered` yields the shown list. |
| ProjectsPage.TwoFiltersAreOne | src/components/pages/Projects.jsx:62-75 | Applying the two optional filters in turn equals the single combined filter. |
| ProjectsPage.RemoveProject | src/components/pages/Projects.jsx:102 | A project survives exactly when its Id is not strictly equal to the deleted Id. |
| ProjectsPage.MergeById | src/components/pages/Projects.jsx:113 | The length is kept. A project whose Id matches becomes itself with the data spread over it, and every other project is unchanged. |
| ProjectsPage.MergeKeepsIds | src/components/pages/Projects.jsx:113 | A merge whose data has no Id changes no project's Id. |
| ProjectsPage.MergeOnlyTouchesId | src/components/pages/Projects.jsx:110-114 | After such a merge, the projects with other Ids are the same list as before. |
| ProjectsPage.DeleteAsWritten | src/components/pages/Projects.jsx:94-107 | The handler as written: once the user confirms and the call resolves, every project whose Id is strictly equal to the deleted one leaves the list, whatever the call returned. |
| ProjectsPage.DeleteChecked | src/components/pages/Projects.jsx:94-107 | The corrected delete handler: the project leaves the list only when the user confirmed and the repository returned true. |
| ProjectsPage.DeleteAsWrittenDropsUndeleted | src/components/pages/Projects.jsx:99-102 | When the repository reports a failed delete, the handler as written still drops the project, while the corrected one keeps the list. |
| ProjectsPage.DeleteCheckedOnlyOnSuccess | src/components/pages/Projects.jsx:94-107 | The corrected handler changes the list only after a reported success. The result is always a subsequence of the list. |
| ProjectsPage.ProjectsPageState.constructor | src/components/pages/Projects.jsx:17-25 | Empty lists, loading, no error, empty search, status 'all', no form; the shown list is current. |
| ProjectsPage.ProjectsPageState.Refresh | src/components/pages/Projects.jsx:39-41 | The filter effect sets the shown list to the filtered `projects` and changes nothing else. |
| ProjectsPage.ProjectsPageState.ChangeFilters | src/components/pages/Projects.jsx:39-41 | New search and status settings, with the shown list kept current. The projects, loading, the error and the form are unchanged. |
| ProjectsPage.ProjectsPageState.LoadProjects | src/components/pages/Projects.jsx:43-56 | Success stores the data, or `[]` when there is none. Failure empties the list and sets the message, or 'Failed to load projects'. Loading ends and the shown list stays current. The filters and the form are unchanged. |
| ProjectsPage.ProjectsPageState.CreateProject | src/components/pages/Projects.jsx:80-83 | Opens an empty form. The lists, filters, loading and error are unchanged, so a current shown list stays current. |
| ProjectsPage.ProjectsPageState.EditProject | src/components/pages/Projects.jsx:85-88 | Opens the form on the project. The lists, filters, loading and error are unchanged, so a current shown list stays current. |
| ProjectsPage.ProjectsPageState.DeleteProject | src/components/pages/Projects.jsx:94-107 | Calls the repository only when confirmed. The list becomes `DeleteChecked` of the old list (the corrected rule of the finding below), and the shown list is current. The filters, loading, error and form are unchanged. |
| ProjectsPage.ProjectsPageState.FormSuccess | src/components/pages/Projects.jsx:109-121 | An edit merges the data into the edited Id. A create prepends the data. The form closes, and the shown list is current. The filters, loading and error are unchanged. |
| ProjectsPage.ProjectsPageState.FormCancel | src/components/pages/Projects.jsx:123-126 | Closes the form, clears the edited project and keeps the lists, filters, loading and error, so a current shown list stays current. |
| CategoryService.Key | src/services/api/categoryService.js:15 | The lookup key is `parseInt(id)` when that is a number; `NaN` gives no key. |
| CategoryService.FindIndex | src/services/api/categoryService.js:35 | The first position holding the key. None exactly when no category has it. |
| CategoryService.MaxId | src/services/api/categoryService.js:26 | `Math.max(...ids, 0)`: at least 0, at least every Id, and either 0 or an existing Id. |
| CategoryService.NextId | src/services/api/categoryService.js:26 | The new Id is at least 1, above every Id in the store, and so unused. |
| CategoryService.Patched | src/services/api/categoryService.js:40-44 | Every field the patch gives overrides the stored one, the others are kept, and the Id is the parsed key. |
| CategoryService.RemoveAt | src/services/api/categoryService.js:58 | The splice drops one position and keeps the rest in order. |
| CategoryService.CreateKeepsIdsUnique | src/services/api/categoryService.js:24-29 | Appending the created category keeps Ids unique, and a lookup of its Id finds it at the end. |
| CategoryService.SameIdReplaceKeepsUnique | src/services/api/categoryService.js:43-46 | Replacing an entry by a record with the same Id keeps Ids unique. |
| CategoryService.RemoveAtKeepsUnique | src/services/api/categoryService.js:58 | A splice keeps Ids unique, and with unique Ids the removed Id is gone. |
| CategoryService.CategoryStore.constructor | src/services/api/categoryService.js:3 | The store starts as a copy of the seed, and holds unique Ids when the seed does. |
| CategoryService.CategoryStore.GetAll | src/services/api/categoryService.js:8-11 | Returns the store's contents. |
| CategoryService.CategoryStore.GetById | src/services/api/categoryService.js:13-20 | Succeeds exactly when some category has the parsed Id, and returns the first stored category with that Id, as `find` does. Otherwise it fails with "Category not found". |
| CategoryService.CategoryStore.Create | src/services/api/categoryService.js:22-31 | Appends the input with the next Id and task count 0 and returns it. Unique Ids are preserved. |
| CategoryService.CategoryStore.Update | src/services/api/categoryService.js:33-48 | An unknown Id fails with "Category not found" and changes nothing. Otherwise only the found position becomes the patched category. Unique Ids are preserved. |
| CategoryService.CategoryStore.Delete | src/services/api/categoryService.js:50-60 | An unknown Id fails and changes nothing. Otherwise exactly the found entry is removed and returned. Unique Ids are preserved, and the Id is then absent. |
| CategoryService.CategoryStore.UpdateTaskCount | src/services/api/categoryService.js:62-70 | An unknown Id returns null and changes nothing. Otherwise only the found entry's task count changes. |
| Backend.FirstSuccessIndex | src/services/api/taskService.js:99-111 | The index of the first successful record: every earlier record failed. |
| Backend.FirstSuccessData | src/services/api/taskService.js:99-111 | `successful[0].data`: the data of a successful record before which every record failed, or null when no record succeeded. |
| Backend.FirstSuccess | src/services/api/taskService.js:93-111 | The task rule: null for `success:false` or missing results, otherwise the first success's data even if others failed. |
| Backend.FirstSuccessIfNoneFailed | src/services/api/projectService.js:102-117 | The project rule: null for `success:false`, missing results or any failed record, otherwise the first success's data. |
| Backend.StrictRuleRefinesLenient | src/services/api/projectService.js:107-117 | Whenever the project rule yields a record, the task rule yields the same one; they agree when nothing failed. A project delete success is also a task delete success. |
| Backend.RulesDifferOnPartialSuccess | src/services/api/projectService.js:107-117 | On one failed and one successful record, the task rule returns the success and the project rule returns null. |
| TaskService.GetAll | src/services/api/taskService.js:5-36 | Without a client nothing is sent and the result is `[]`. Otherwise the query asks for the task fields, and the rows are returned only from a successful response with data. |
| TaskService.GetById | src/services/api/taskService.js:38-69 | The row is returned exactly when the response succeeds with data; otherwise null. |
| TaskService.CategoryReference | src/services/api/taskService.js:84 | A falsy category becomes null, and any other value goes through `parseInt`. |
| TaskService.CategoryReferenceOfText | src/services/api/taskService.js:84 | A category Id written as text, "0" included, is sent as its number; only the number 0 is falsy and sent as null. |
| TaskService.CreatePayload | src/services/api/taskService.js:78-89 | The four text fields are passed through and the category goes through `CategoryReference`. `completed_c` is false, `completed_at_c` is null and `created_at_c` is now. |
| TaskService.Create | src/services/api/taskService.js:71-138 | Sends the create payload when there is a client. The result is the task rule applied to the response, and null when there is no response. |
| TaskService.UpdateData | src/services/api/taskService.js:147-154 | Exactly the updatable fields that are not `undefined` are written, null included. Values are copied, except the category, which goes through `CategoryReference`. |
| TaskService.BuildUpdateData | src/services/api/taskService.js:147-154 | The field-by-field builder produces `UpdateData`. |
| TaskService.AddIfDefined | src/services/api/taskService.js:148-154 | One `if` of the builder adds exactly the field it guards. |
| TaskService.UpdatePayload | src/services/api/taskService.js:156-161 | The update record is the Id plus the update fields and nothing else. |
| TaskService.Update | src/services/api/taskService.js:140-189 | Sends the update record when there is a client. The result is the task rule applied to the response. |
| TaskService.Delete | src/services/api/taskService.js:191-227 | Sends `[id]`. True exactly when the response has results and some record succeeded. |
| TaskService.MarkComplete | src/services/api/taskService.js:229-239 | An update that sends the Id, `completed_c` true and the completion time, and nothing else. |
| TaskService.MarkIncomplete | src/services/api/taskService.js:241-251 | An update that sends the Id, `completed_c` false and a null completion time. |
| TaskService.MarkPayload | src/services/api/taskService.js:147-161 | An update of just the completion pair sends exactly the Id and that pair. |
| TaskService.CompletionWritesAgree | src/services/api/taskService.js:229-250 | In the create, mark-complete and mark-incomplete payloads, the flag is true exactly when the completion time is not null. |
| ProjectService.GetAllQuery | src/services/api/projectService.js:16-30 | The default fields, `ModifiedOn` descending and a first page of 50, with each caller parameter overriding its default. |
| ProjectService.GetAll | src/services/api/projectService.js:8-44 | Sends the merged query when there is a client. Rows are returned only from a successful response with data, else `[]`. |
| ProjectService.GetById | src/services/api/projectService.js:46-78 | Returns the row whenever the response carries one, else null. |
| ProjectService.BuildCreateData | src/services/api/projectService.js:88-94 | The `cleanData` builder keeps exactly the truthy project fields. |
| ProjectService.UpdateData | src/services/api/projectService.js:134-140 | The update record is the Id plus every project field that is not `undefined`, so `''` and null are kept. |
| ProjectService.BuildUpdateData | src/services/api/projectService.js:134-140 | The field-by-field builder produces `UpdateData`. |
| ProjectService.Create | src/services/api/projectService.js:80-124 | Sends the truthy fields. The result is the project rule applied to the response. |
| ProjectService.Update | src/services/api/projectService.js:126-170 | Sends the update record. The result is the project rule applied to the response. |
| ProjectService.Delete | src/services/api/projectService.js:172-208 | Sends `[id]`. True exactly when results are present, none failed and some succeeded. |
| ProjectService.EmptiedFieldOnlyUpdated | src/services/api/projectService.js:88-140 | A field cleared to `''` is dropped on create but sent as `''` on update. |
| ProjectForm.FormatDateForInput | src/components/organisms/ProjectForm.jsx:39-47 | A falsy or unparsable value gives `''`. A date gives its instant truncated to the minute. |
| ProjectForm.PrefillData | src/components/organisms/ProjectForm.jsx:27-37 | The project's fields, with `''` for a missing name or description, 'Not Started' for a missing status, and dates formatted for the input. |
| ProjectForm.ProjectErrors | src/components/organisms/ProjectForm.jsx:58-76 | A `name_c` error exactly when the name is blank after trimming. An `end_date_c` error exactly when both dates are given and parse and the start is not before the end. No other keys. |
| ProjectForm.ValidForm | src/components/organisms/ProjectForm.jsx:65-75 | With at most one date there is no date error. The form is valid exactly when the name is not blank and the dates are in order. |
| ProjectForm.ErrorsAsBuilt | src/components/organisms/ProjectForm.jsx:58-76 | Errors accumulated one check at a time are those of the two checks, and the form is valid exactly when there are none. |
| ProjectForm.SubmitData | src/components/organisms/ProjectForm.jsx:86-95 | Shaping throws exactly when a truthy date does not parse. Otherwise the record holds exactly the truthy project fields, with dates as ISO strings. |
| ProjectForm.BuildSubmitData | src/components/organisms/ProjectForm.jsx:86-95 | The step-by-step shaping produces `SubmitData`, and throws exactly when it is none. |
| ProjectForm.AddDate | src/components/organisms/ProjectForm.jsx:93-94 | One date step throws exactly when that date is truthy and unparsable, and otherwise adds that field. |
| ProjectForm.SubmittedSurvivesCreate | src/components/organisms/ProjectForm.jsx:89-95 | The repository's create keeps every field the form submits. |
| ProjectForm.EditRoundTrip | src/components/organisms/ProjectForm.jsx:27-47 | Saving an unchanged edit submits each truthy field of the project: dates at minute precision, other fields as they were. |
| ProjectForm.ProjectFormState.constructor | src/components/organisms/ProjectForm.jsx:17-25 | Initial values, no errors, not submitting. |
| ProjectForm.ProjectFormState.Prefill | src/components/organisms/ProjectForm.jsx:27-37 | An edited project replaces the values with `PrefillData`, and no project keeps them. |
| ProjectForm.ProjectFormState.HandleInputChange | src/components/organisms/ProjectForm.jsx:49-56 | Sets only the named field and clears only that field's error, if it had one. |
| ProjectForm.ProjectFormState.ValidateForm | src/components/organisms/ProjectForm.jsx:58-76 | Stores `ProjectErrors` of the values and reports whether there are none. |
| ProjectForm.ProjectFormState.HandleSubmit | src/components/organisms/ProjectForm.jsx:78-104 | An invalid form sends nothing. A valid one sends `SubmitData` when `onSubmit` exists and shaping does not throw. `isSubmitting` is false afterwards in every case. |
| TaskForm.ResetData | src/components/organisms/TaskForm.jsx:28-48 | An edit takes the task's fields: `''` when missing, priority "medium" when missing, the due date to the minute, the category Id as text. A new task gets an empty form on the first category's Id, or `''` when there are no categories. |
| TaskForm.TaskErrors | src/components/organisms/TaskForm.jsx:64-80 | A `title_c` error exactly when the title is blank after trimming. A `due_date_c` error exactly when a due date is given, parses and is not after now. |
| TaskForm.ErrorsAsBuilt | src/components/organisms/TaskForm.jsx:64-80 | Errors accumulated one check at a time are those of the two checks, and the form is valid exactly when there are none. |
| TaskForm.SubmitData | src/components/organisms/TaskForm.jsx:87-92 | The values with the category through `parseInt`, the due date as an ISO string or null when empty, and the files. Every other field is copied. Nothing is sent when the date conversion throws. |
| TaskForm.DefaultCategoryReachesCreate | src/components/organisms/TaskForm.jsx:37-44 | A new task on the default category reaches the create payload with that category's Id, or null for Id 0. |
| TaskForm.EditRoundTrip | src/components/organisms/TaskForm.jsx:29-36 | Saving an unchanged edit submits the task's category Id (NaN when it had none) and its due date at minute precision (null when none). |
| TaskForm.TaskFormState.constructor | src/components/organisms/TaskForm.jsx:18-26 | Initial values, no errors, no files. |
| TaskForm.TaskFormState.Reset | src/components/organisms/TaskForm.jsx:28-48 | The effect sets the values to `ResetData` and clears errors and files. |
| TaskForm.TaskFormState.HandleInputChange | src/components/organisms/TaskForm.jsx:50-58 | Sets only the named field and clears only that field's error, if it had one. |
| TaskForm.TaskFormState.HandleFileStateChange | src/components/organisms/TaskForm.jsx:60-62 | Stores the uploader's files, or none. |
| TaskForm.TaskFormState.ValidateForm | src/components/organisms/TaskForm.jsx:64-80 | Stores `TaskErrors` of the values at now and reports whether there are none. |
| TaskForm.TaskFormState.HandleSubmit | src/components/organisms/TaskForm.jsx:82-95 | An invalid form sends nothing. A valid one sends `SubmitData` of the values and files. |
| ProjectCardTags.CleanTags | src/components/molecules/ProjectCard.jsx:20-22 | The tags are an order-preserving subsequence of the trimmed comma-separated pieces. Every piece that is not empty after trimming is among them, and no tag is empty or has surrounding white space. |
| ProjectCardTags.GetTags | src/components/molecules/ProjectCard.jsx:18-24 | A falsy value gives no tags. A string gives exactly its cleaned pieces, as strings. An array is returned as it is. Anything else gives no tags. |
| ProjectCardTags.TagsRoundTrip | src/components/molecules/ProjectCard.jsx:18-24 | Clean tags written as a comma-separated string are read back unchanged. |
| ProjectCardTags.ShownTags | src/components/molecules/ProjectCard.jsx:82 | The card shows a prefix of the tags, at most 3 long. |
| ProjectCardTags.MoreLabel | src/components/molecules/ProjectCard.jsx:90-92 | The "+n more" label appears exactly when there are more than 3 tags. |
| ProjectCardTags.MoreLabelCountsHidden | src/components/molecules/ProjectCard.jsx:82-92 | The label reads "+n more", where n is exactly the number of tags not shown. |
| ProjectCardDates.DateStatusOf | src/components/organisms/ProjectCard.jsx:18-34 | No dates give no status. 'upcoming' exactly when now is before the start. 'overdue' exactly when it is not upcoming, now is after the end and the status is not 'Completed'. |
| ProjectCardDates.DateStatusTexts | src/components/organisms/ProjectCard.jsx:25-31 | A status carries type 'upcoming' and message "Starts soon" exactly when the project has not started, and type 'overdue' with message "Overdue" otherwise. |
| ProjectCardDates.CompletedNeverOverdue | src/components/organisms/ProjectCard.jsx:25-31 | A 'Completed' project is never overdue, and upcoming takes precedence over overdue. |
| DueDateBadge.DateVariant | src/components/molecules/DueDateBadge.jsx:7-20 | Nothing renders without a due date. "error" exactly when the date parses and is before now. "warning" exactly when it lies strictly within the next day. Otherwise "default". |
| DueDateBadge.VariantBoundaries | src/components/molecules/DueDateBadge.jsx:13-20 | Overdue and due soon never hold together. Due exactly now, or a day or more ahead, gives "default". |
| PriorityBadge.PriorityConfigOf | src/components/molecules/PriorityBadge.jsx:6-33 | A missing priority gets the "Normal" default badge. |
| PriorityBadge.PriorityIgnoresCase | src/components/molecules/PriorityBadge.jsx:7-31 | Lookup ignores case. For high, medium and low the variant is the lowercased priority; anything else gets the default. |
| PriorityBadge.KnownLabels | src/components/molecules/PriorityBadge.jsx:8-25 | A priority that lowercases to high, medium or low gets that variant with icon AlertCircle, Circle or Minus and label "High", "Medium" or "Low", whatever its casing. |
| StatusBadge.DisplayStatus | src/components/molecules/StatusBadge.jsx:20 | A truthy status is shown as given, not lowercased. Otherwise 'Not Started' is shown. |
| StatusBadge.StatusStyles | src/components/molecules/StatusBadge.jsx:5-18 | 'not started' in any casing gets gray, 'in progress' blue, 'completed' green and 'cancelled' red. The style is always one of the four, and a value that is not a string gets gray. |
| StatusBadge.StylesIgnoreCase | src/components/molecules/StatusBadge.jsx:6-16 | Style selection ignores case, and an unknown status gets the style of 'not started'. |
| StatusBadge.MissingStatusShowsNotStarted | src/components/molecules/StatusBadge.jsx:20-31 | A missing status shows 'Not Started' in gray, and a given status shows its own text. |
| CategorySidebar.TotalTasks | src/components/organisms/CategorySidebar.jsx:14-16 | The total is at least every single count, and 0 for no counts. |
| CategorySidebar.SumRemove | src/components/organisms/CategorySidebar.jsx:15 | The sum does not depend on the order in which the counts are added. |
| CategorySidebar.CountOf | src/components/organisms/CategorySidebar.jsx:28 | A category's count is its entry in the map, or 0 when absent. |
| CategorySidebar.CategoryItems | src/components/organisms/CategorySidebar.jsx:18-30 | "All Tasks" with the total comes first, then one entry per category in order, with the category's Id, name, icon, colour and count. |
| CategorySidebar.SelectionOf | src/components/organisms/CategorySidebar.jsx:43 | Clicking "All Tasks" selects null, and clicking a category selects its Id. |
| CategorySidebar.AtMostOneHighlighted | src/components/organisms/CategorySidebar.jsx:46 | With distinct category Ids, at most one entry is highlighted, whatever the selection. |
| CategorySidebar.ClickHighlightsOnlyThat | src/components/organisms/CategorySidebar.jsx:43-46 | With distinct Ids, clicking an entry highlights that entry and no other. |
| CategorySidebar.TotalIsSumOfRows | src/components/organisms/CategorySidebar.jsx:14-30 | When the counts are keyed by exactly the distinct category Ids, the "All Tasks" count is the sum of the category entries' counts. |

## Left out

- Backend client: the SDK's `fetchRecords`, `createRecord`, `updateRecord` and `deleteRecord` are network I/O. Each call is an abstract response value, and a call that throws is `Backend.Client.Fails`.
- Notifications and logging (`toast`, `console`) are left out; they do not change state.
- File upload in the task create (src/services/api/taskService.js:113-129): it goes through a dynamic import and `window.ApperSDK`, which are foreign calls. The created task is returned without it.
- src/services/api/taskFileService.js, the file uploader component, TaskCard, Layout and the purely presentational components are not part of this model.
- Asynchrony: `Promise.all`, overlapping requests and the category store's `delay` are left out. Each handler is one step applied to the settled outcome.
- Dates: `date-fns` formatting and `Date` parsing are left out. A date is an integer instant, the time zone offset is a whole number of minutes, `addDays(now, 1)` is now plus 24 hours (daylight saving is ignored), and the text of a formatted date is not modelled.
- Text: lowercasing and trimming cover ASCII only; `includes` is substring search over characters.
- `parseInt`: leading white space, an optional sign and the longest run of decimal digits are modelled. A `0x` hexadecimal prefix, a radix argument and the sign of `-0` are not.
- `Js.Blank`: a form value that is not a string is read by its truthiness. In the source, `.trim()` on such a value throws.
- ProjectsPage.SearchMatches: a name, description or tags value that is not a string reads as `''`. In the source, `toLowerCase` on such a value, for example an array of tags, throws inside the filter effect.
- StatusBadge.StatusStyles: a truthy status that is not a string gets the gray style. In the source, `status?.toLowerCase()` on such a value throws.
- `category_id_c`: it is taken to be the lookup object the backend returns, kept as the Id it refers to. A task whose `category_id_c` is a bare number is neither filtered nor counted by category in the source, whose filter and counts read only `category_id_c?.Id`; the model filters and counts it by that number.
- ProjectsPage.ProjectsPageState.DeleteProject: follows the corrected rule `DeleteChecked`, not the handler as written; the difference is the finding below.
- ProjectCardTags.GetTags: a tags value that is a date is treated as any other non-string value.
- Backend.FirstSuccessIfNoneFailed: the project repository's `successful[0]?.data || null` turns falsy data into null. The model returns the record's data as it is, as the task repository does.
- CategoryService.CategoryStore.Create: the input's extra keys, which the spread would copy, are not modelled. A category has exactly its five fields.
- CategoryService.CategoryStore.Update: a patch is a set of optional fields. A patch key that is present but `undefined`, which the spread copies over the stored value, and extra keys are not modelled.
- Projects.jsx's `viewingProject` and `handleViewProject` only open a detail view and are left out.
- The filter setters of both pages, TaskList's `showCompleted` toggle and the sidebar's rendering are left out. The settings are parameters of the filter functions.

## Findings

| source | as written | input that shows it | evidently intended | confidence | as-written member | corrected member |
|---|---|---|---|---|---|---|
| src/components/pages/Projects.jsx:99-102 | After the user confirms, the project is removed from the list once `projectService.delete` resolves. The repository never rejects: it reports a failed delete by returning `false`, which the handler ignores. | A confirmed delete whose backend envelope has `success:false`, or a failed record, so `Delete(...).result == false`. The project is still stored but disappears from the page. | Remove the project only when the delete returns `true`. | not executed | ProjectsPage.DeleteAsWrittenDropsUndeleted | ProjectsPage.DeleteCheckedOnlyOnSuccess |
