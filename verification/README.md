# Task board core in Dafny

This project models the core of a Kanban task board: the `Task` object
(`src/Task.ts`) and the `TaskList` store (`src/TaskList.ts`) that keeps
the tasks in an ordered array. The store answers queries, sorts tasks,
counts them, and writes a copy of its whole array to local storage after
every change.

The model is in five modules:

- `Wrappers` (`wrappers.dfy`): the `Option` type.
- `Text` (`text.dfy`): the string operations the core relies on. These
  are lower-casing, `trim` with the ECMAScript white-space set,
  capitalising the first letter, substring search (`includes`) and the
  lexicographic order on date strings.
- `Sorting` (`sorting.dfy`): a stable sort by key. This is what
  `Array.prototype.sort` does when its comparator is consistent with a
  total order on keys. The module proves that the sort keeps the same
  elements, orders them by key, and keeps elements with equal keys in
  their input order.
- `TaskModel` (`task.dfy`): covers the following.
  - The plain record `ITask`.
  - The partial record that `update` merges in (`TaskUpdate`).
  - `Task`, a class whose fields `update` changes in place.
  - The derived values: priority label, badge colour and the overdue
    test.
- `TaskStore` (`task_list.dfy`): covers the following.
  - `TaskList`, a class with the array of task objects, the storage slot
    it mirrors itself to, and whether writing to that slot fails.
  - The filters, the two sorts and the statistics, with the lemmas
    that relate them.
  - Five client methods that drive the store the way the board does:
    `TwoTaskBoard` and `OneTaskBoard` set up a board, and
    `MoveScenario`, `DeleteAndClearScenario` and `RestoreScenario` use it.

The store holds references to task objects. `update` and `moveTask`
therefore change an object that may sit at more than one position in
the array. Their contracts say what every position shows afterwards.
When the array holds no object twice, they also state the simpler
point update. `getTasks` gives the tasks of the store, in order
(`TaskStore.TaskList.GetTasks`). The model returns them as a sequence
value, not as the live array; "## Left out" says what that leaves out.

Clocks and identifier generation are parameters:
- `now` is the ISO timestamp that `new Date().toISOString()` would give.
- `today` is the local calendar date as YYYY-MM-DD.
- `id` is the identifier `generateId` would produce.

Local storage is the `stored` field of the store:
- `Absent` stands for a missing or empty payload.
- `Malformed` stands for a payload that does not parse.
- `Saved(records)` stands for the last records written.

The `storageFailing` flag stands for a `setItem` that throws. The store
catches that error and ignores it.

## Model

| member | source | states |
|---|---|---|
| TaskModel.Task.constructor | src/Task.ts:26-41 | a new task holds the given title, description, status (default todo), priority (default medium) and due date; createdAt and updatedAt are both the creation time |
| TaskModel.Task.Update | src/Task.ts:47-50 | the task's record afterwards is the old record with the partial record's fields copied in and updatedAt set to the current time |
| TaskModel.Task.ToJSON | src/Task.ts:52-63 | the record holds every field of the task; FromJSON is its inverse |
| TaskModel.Task.FromJSON | src/Task.ts:52-77 | restoring a record gives a fresh task whose toJSON is exactly that record (identifier and both timestamps included): fromJSON then toJSON is the identity |
| TaskModel.Merge | src/Task.ts:47-50 | an update sets updatedAt to the current time and leaves every field the partial record does not give unchanged |
| TaskModel.MergeFields | src/Task.ts:47-50 | after an update, updatedAt is the current time even when the partial record gives one; every other field takes the given value or keeps the old one; an explicit undefined due date clears it |
| TaskModel.MergeNothing | src/Task.ts:47-50 | an empty partial record changes only updatedAt |
| TaskModel.MergeStatusChange | src/TaskList.ts:59-65 | the partial record moveTask passes changes the status and updatedAt and nothing else |
| TaskModel.MergeIdempotent | src/Task.ts:47-50 | applying the same partial record twice at the same time equals applying it once |
| TaskModel.MergeCompose | src/Task.ts:47-50 | two successive updates equal one update whose fields come from the later partial record where it gives them |
| TaskModel.PriorityLabel | src/Task.ts:92-94 | the label is the stored priority name with its first letter upper-cased: "Low", "Medium", "High" |
| TaskModel.PriorityColor | src/Task.ts:79-90 | a known priority never gets the grey fallback style |
| TaskModel.Task.GetPriorityColor | src/Task.ts:79-90 | the task's badge style is the style of its priority, never the fallback |
| TaskModel.Task.GetPriorityLabel | src/Task.ts:92-94 | the task's label is "Low", "Medium" or "High" after its priority |
| TaskModel.PriorityColorsDistinct | src/Task.ts:79-90 | no two priorities share a badge colour |
| TaskModel.DatePart | src/Task.ts:98 | the date part of a due date is its longest prefix without a 'T', ending right before the first 'T' when there is one |
| TaskModel.DatePartOfTimestamp | src/Task.ts:98 | a date with no 'T' is its own date part, and so is the date part of that date followed by "T" and a time |
| TaskModel.Overdue | src/Task.ts:96-108 | an overdue task has a non-empty due date, is not done, and is not due today |
| TaskModel.Task.IsOverdue | src/Task.ts:96-108 | a task is overdue exactly when its record is, so it then has a non-empty due date and is not done |
| TaskModel.NoDueDateNotOverdue | src/Task.ts:96-97 | a task with no due date, or with an empty one, is never overdue |
| TaskModel.DoneNotOverdue | src/Task.ts:107 | a done task is never overdue |
| TaskModel.DueTodayNotOverdue | src/Task.ts:96-108 | a task due today is not overdue, because only the calendar date is compared and the comparison is strict |
| TaskModel.TimeOfDayIgnored | src/Task.ts:98-106 | adding a time of day to a due date does not change whether the task is overdue |
| TaskModel.OverdueAfterUpdate | src/Task.ts:96-108 | after an update that sets the status to done the task is not overdue; after one that sets a status other than done and a due date before today, it is |
| Text.Capitalize | src/Task.ts:93 | only the case of the first character may change: the result has the input's length, the same characters after the first, and the same lower-cased form; its first character is not a lower-case letter |
| Text.Lower | src/TaskList.ts:68 | lower-casing keeps the length of the string |
| Text.LowerCases | src/TaskList.ts:68 | lower-casing leaves no upper-case letter, does not change any other character, and is idempotent |
| Text.Trim | src/TaskList.ts:68 | the trimmed string is no longer than the input and neither starts nor ends with white space |
| Text.TrimStart | src/TaskList.ts:68 | the result is a suffix of the input; everything dropped is white space; the result is empty or starts with a non-space |
| Text.TrimEnd | src/TaskList.ts:68 | the result is a prefix of the input; everything dropped is white space; the result is empty or ends with a non-space |
| Text.TrimEmptyIffBlank | src/TaskList.ts:68-69 | a string trims to the empty string exactly when it is all white space |
| Text.TrimmedEdges | src/TaskList.ts:68 | the input is white space, then the trimmed string, then white space |
| Text.LowerKeepsBlank | src/TaskList.ts:68-69 | lower-casing keeps a string blank exactly when it was blank |
| Text.Contains | src/TaskList.ts:73-74 | includes holds exactly when the needle occurs at some position of the string |
| Text.StrLeReflexive | src/TaskList.ts:78-85 | the order on date strings is reflexive |
| Text.StrLeAntisymmetric | src/TaskList.ts:78-85 | the order on date strings is antisymmetric |
| Text.StrLeTransitive | src/TaskList.ts:78-85 | the order on date strings is transitive |
| Text.StrLeTotal | src/TaskList.ts:78-85 | any two date strings are ordered one way or the other |
| Sorting.KeyClassKeys | src/TaskList.ts:78-92 | every element of the key class of k has key k |
| Sorting.KeyClassCount | src/TaskList.ts:78-92 | the key class of k holds each element with key k exactly as often as the input does, and no other element |
| Sorting.KeyClassCons | src/TaskList.ts:78-92 | the key class of a sequence with a given first element starts with that element exactly when its key is k |
| Sorting.Insert | src/TaskList.ts:78-92 | inserting adds exactly the one element (as a multiset) |
| Sorting.SortBy | src/TaskList.ts:78-92 | the sorted array is a permutation of the input |
| Sorting.InsertLowerBound | src/TaskList.ts:78-92 | a lower bound on the keys of the element and of the array bounds every key after insertion |
| Sorting.InsertSorted | src/TaskList.ts:78-92 | inserting into an array ordered by key keeps it ordered |
| Sorting.SortBySorted | src/TaskList.ts:78-92 | the sorted array is ordered by key |
| Sorting.InsertKeyClass | src/TaskList.ts:78-92 | insertion keeps the elements of every key in their order, since the new element goes before the elements with an equal key |
| Sorting.SortByStable | src/TaskList.ts:78-92 | the sort is stable: the elements of each key are in their input order |
| TaskStore.Where | src/TaskList.ts:30-36 | filter keeps exactly the tasks that meet the criterion and never makes the array longer |
| TaskStore.WhereMultiplicity | src/TaskList.ts:30-36 | filter keeps every occurrence of a matching task and no occurrence of any other task |
| TaskStore.WhereAppend | src/TaskList.ts:30-36 | filter keeps the order: filtering a concatenation is concatenating the filtered parts |
| TaskStore.StatusPartition | src/TaskList.ts:94-99 | the todo, in-progress and done tasks together are all the tasks |
| TaskStore.PriorityPartition | src/TaskList.ts:94-102 | the high, medium and low tasks together are all the tasks |
| TaskStore.OverdueNotDone | src/TaskList.ts:94-105 | overdue tasks and done tasks together are at most all the tasks |
| TaskStore.Records | src/TaskList.ts:109 | the records of the tasks are one per task |
| TaskStore.RecordsAppend | src/TaskList.ts:38-41 | the records of two arrays joined are the records of each, joined, which is what the mirror after add relies on |
| TaskStore.RemovedRecords | src/TaskList.ts:51-57 | removing the task at a position removes its record and keeps the others in order |
| TaskStore.MentionsMeans | src/TaskList.ts:71-75 | a task matches a query exactly when its lower-cased title or description contains it |
| TaskStore.FindIndex | src/TaskList.ts:52 | gives the position of the first task with the identifier, or none exactly when no task has it |
| TaskStore.RankKey | src/TaskList.ts:88-90 | the sort key of each task is the rank of its priority: high 0, medium 1, low 2 |
| TaskStore.DueKeyFn | src/TaskList.ts:80-83 | the sort key of each task is its due date, or "undated" when it has none or an empty one |
| TaskStore.IntLeTotalOrder | src/TaskList.ts:89-91 | the order on ranks is a total order |
| TaskStore.DueKeyLeTotalOrder | src/TaskList.ts:79-84 | the comparator's order on due-date keys is a total order with undated last |
| TaskStore.KeyClassIsWhere | src/TaskList.ts:30-36 | when a key decides a criterion, the tasks with that key are the tasks the filter keeps |
| TaskStore.StableWhere | src/TaskList.ts:78-92 | a stable sort on a key that decides a criterion leaves the tasks meeting it in their input order |
| TaskStore.PrioritySortOrder | src/TaskList.ts:87-92 | sorting by priority keeps the same tasks and puts them in non-decreasing rank |
| TaskStore.PrioritySortStable | src/TaskList.ts:87-92 | tasks of equal priority stay in their input order |
| TaskStore.DueKeyLeMeans | src/TaskList.ts:80-83 | in comparator order, an undated task is followed only by undated tasks and a dated task is preceded only by tasks with an earlier or equal due date |
| TaskStore.DueDateSortOrder | src/TaskList.ts:78-85 | sorting by due date keeps the same tasks, puts dated tasks in ascending date order and undated tasks last |
| TaskStore.DueDateSortStable | src/TaskList.ts:78-85 | tasks with the same due date, and the undated tasks, stay in their input order |
| TaskStore.TaskList.constructor | src/TaskList.ts:7-13 | a new store holds new task objects whose records are the stored records in order; a missing or unreadable payload gives an empty store |
| TaskStore.TaskList.LoadFromStorage | src/TaskList.ts:116-127 | a missing payload leaves the array alone; an unreadable one empties it; stored records become distinct fresh task objects with those records, in order |
| TaskStore.TaskList.SaveToStorage | src/TaskList.ts:107-114 | afterwards the slot holds exactly the records of the tasks, unless writing fails, in which case it keeps what it held |
| TaskStore.TaskList.SetTasks | src/TaskList.ts:17-20 | the array is replaced by the given one and mirrored to storage |
| TaskStore.TaskList.GetTasks | src/TaskList.ts:22-24 | gives the tasks of the store, position by position |
| TaskStore.TaskList.GetTaskById | src/TaskList.ts:26-28 | gives the first task with the identifier, or none exactly when no task has it |
| TaskStore.TaskList.GetTasksByStatus | src/TaskList.ts:30-32 | gives exactly the tasks with that status |
| TaskStore.TaskList.GetTasksByPriority | src/TaskList.ts:34-36 | gives exactly the tasks with that priority |
| TaskStore.TaskList.Add | src/TaskList.ts:38-41 | the task is appended, so the records gain its record at the end, and the array is mirrored |
| TaskStore.TaskList.Update | src/TaskList.ts:43-49 | with no task having the identifier nothing changes; otherwise every position holding the first matching object shows its merged record, the others are unchanged, and storage is mirrored |
| TaskStore.TaskList.Delete | src/TaskList.ts:51-57 | with no task having the identifier nothing changes; otherwise the first matching task is removed, the rest keep their order and storage is mirrored |
| TaskStore.TaskList.MoveTask | src/TaskList.ts:59-65 | as Update, with only the status and updatedAt of the first matching task changed; when the array holds no object twice, only that task's record changes |
| TaskStore.TaskList.Search | src/TaskList.ts:67-76 | a blank query gives the whole array; otherwise exactly the tasks whose lower-cased title or description contains the lower-cased, trimmed query, in order |
| TaskStore.TaskList.SortByPriority | src/TaskList.ts:87-92 | a permutation of the input, high before medium before low, equal priorities in input order |
| TaskStore.TaskList.SortByDueDate | src/TaskList.ts:78-85 | a permutation of the input, dated tasks by ascending due date and then the undated ones, equal keys in input order |
| TaskStore.TaskList.GetStatistics | src/TaskList.ts:94-105 | total is the number of tasks; the status counts and the priority counts each add up to it; overdue counts the tasks overdue today and is at most the todo plus in-progress count |
| TaskStore.TaskList.Clear | src/TaskList.ts:129-132 | the array is emptied and mirrored as an empty array |
| TaskStore.TwoTaskBoard | src/TaskList.ts:17-20 | a new store given two new todo tasks holds exactly them, in order, and mirrors them |
| TaskStore.OneTaskBoard | src/TaskList.ts:38-41 | a new store after adding one new task holds exactly it, with the default status and priority and equal timestamps |
| TaskStore.BoardViews | src/TaskList.ts:30-32 | on a board of one done task and one todo task, each status column holds exactly its task and the done count is one |

## Left out

- The DOM, the modal dialogs, the board rendering and the sample data are not part of this model.
- The constructor's `loadSampleData` flag is left out. The hook it calls has an empty body.
- `getFormattedDueDate` is left out. It formats a date through the host's locale support.
- `generateId`, `Date.now`, `Math.random` and `new Date()` are parameters (`id`, `now`, `today`), not modelled computations.
- JSON serialisation and the storage key are abstracted into the `Stored` slot. `console.error` on a failed read or write is left out.
- `Text.Lower` lower-cases ASCII letters only. The JavaScript `toLowerCase` also maps other Unicode letters.
- `Text.Capitalize` upper-cases an ASCII first letter only (through `Text.UpperChar`). The JavaScript `toUpperCase` also maps other Unicode letters; the stored priority names are ASCII.
- `TaskModel.Overdue` compares the date part of the due date with today's date as strings. This assumes both are well-formed YYYY-MM-DD. JavaScript date parsing, invalid dates (NaN) and time zones are not modelled.
- `TaskStore.TaskList.SortByDueDate` orders due dates by comparing the whole strings lexicographically. The source compares parsed timestamps. The two orders agree for well-formed ISO dates in one format. A comparator that meets an invalid date (NaN) is not modelled.
- `TaskModel.Task.constructor` uses one clock reading for both createdAt and updatedAt. The source reads the clock twice, so the two can differ by a millisecond.
- `TaskStore.TaskList.GetTasks` returns the tasks as a sequence value, and `TaskStore.TaskList.SetTasks` stores the given sequence value. The source returns its live array and keeps the caller's array by reference. A caller that pushes to or splices either array then changes the store without a write to storage; that aliasing of the array itself is not modelled. Aliasing of task objects is modelled.
- `TaskModel.Task.FromJSON` assumes a well-formed record. A stored record with missing or mistyped fields is not modelled, so the constructor's defaults never apply.
- `TaskModel.TaskUpdate` models an explicit `undefined` only for `dueDate`. Present-but-undefined values of the other fields are not modelled.
- `TaskModel.PriorityColor` has no default branch, because a closed enumeration of priorities cannot reach it.
- `TaskModel.Task.Update` does not keep createdAt <= updatedAt. Timestamps are opaque strings here, and a partial record that gives createdAt can move it past updatedAt. An updatedAt in the partial record is always overwritten by the refresh.
- `TaskStore.TaskList.Search` is a function on the array. It does not model that a blank query returns the live array object rather than a copy.
- `TaskStore.TaskList.SortByPriority` and `SortByDueDate` are functions on sequences. They do not model the copy `[...tasks]`; the input cannot change, so this is not observable.
- The sort order models a stable sort, since `Array.prototype.sort` is stable from ECMAScript 2019. The engine's actual sorting algorithm is not modelled.
