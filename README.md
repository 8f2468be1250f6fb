# TaskMaster task store in Dafny

TaskMaster is a React to-do application. Its state lives in one context
provider, `TaskProvider`, which holds four collections and a selection:

- tasks, each with a priority, an optional category, tag ids, a reminder and a legacy inline note;
- categories;
- tags;
- notes, each optionally attached to a task;
- the selected category and the selected tags, which filter the task list.

Every operation replaces a collection through its React setter. The getters
recompute their answer from the collections each time they are called. The
note editor dialog reads a task's note into its text box and saves the text
back as a new note or as an update of an existing one.

The model has five modules:

- `Wrappers` (`wrappers.dfy`): `Option` for `undefined`/`null`, and JavaScript truthiness of an optional number.
- `Seqs` (`seqs.dfy`): `Array.prototype.filter` and `Array.prototype.find` on sequences, with their laws.
- `Ordering` (`ordering.dfy`): the stable sort that `Array.prototype.sort` performs, as an insertion sort by a lexicographic integer key.
- `TaskContext` (`task_context.dfy`):
  - the entities, and the class `Store` whose fields are the provider's state and whose methods are its operations;
  - the pure element-wise updates and the getters;
  - the comparators, each related to the sort key it induces;
  - the referential-integrity predicates that the removal operations preserve.
- `NoteEditor` (`note_editor.dfy`): `String.prototype.trim`, the content the editor loads, and `handleSave`.

## Model

| member | source | states |
|---|---|---|
| Seqs.Filter | src/context/TaskContext.tsx:143-144 | the result is a subsequence of the input; every kept element passes the predicate; each element occurs as often as in the input if it passes, else not at all |
| Seqs.Find | src/components/NoteEditor.tsx:25 | `None` exactly when no element passes; otherwise the value is an element that passes and no earlier element passes |
| Seqs.FilterHeadIsFind | src/components/NoteEditor.tsx:16-18 | `filter(p)[0]` is `find(p)`, and the filter is empty exactly when `find` finds nothing |
| Seqs.FilterAppendRejected | src/context/TaskContext.tsx:200-206 | appending an element the filter rejects does not change the filtered sequence |
| Seqs.FilterAll | src/context/TaskContext.tsx:209-214 | a filter every element passes returns the sequence unchanged |
| Ordering.Insert | src/context/TaskContext.tsx:216-228 | inserting adds exactly one element and keeps a key-sorted sequence sorted |
| Ordering.SortBy | src/context/TaskContext.tsx:216-228 | the sort result is a permutation of the input, sorted by the key |
| Ordering.SortByStable | src/context/TaskContext.tsx:216-228 | elements with equal keys leave the sort in the order they entered it |
| Ordering.LexTotal | src/context/TaskContext.tsx:216-228 | two distinct keys are ordered one way or the other, so the comparator is total |
| Ordering.NotLessTransitive | src/context/TaskContext.tsx:216-228 | "not after" is transitive, so the comparator is a consistent ordering |
| TaskContext.NextId | src/context/TaskContext.tsx:150 | `Math.max(0, ...ids) + 1` is at least 1, exceeds every existing id, is 1 for no ids, and otherwise is one more than an existing id |
| TaskContext.NextIdKeepsIdsUnique | src/context/TaskContext.tsx:147-153 | appending the generated id to distinct ids keeps them distinct |
| TaskContext.WithToggled | src/context/TaskContext.tsx:134-140 | the length is kept; `completed` flips exactly on tasks with the id; every other field is unchanged |
| TaskContext.ToggleTwiceIsIdentity | src/context/TaskContext.tsx:134-140 | toggling the same id twice restores the task list |
| TaskContext.ToggleAbsentIsNoop | src/context/TaskContext.tsx:134-140 | toggling an id no task has leaves the list as it was |
| TaskContext.WithReminder | src/context/TaskContext.tsx:194-198 | the length is kept; `reminder` is replaced exactly on tasks with the id; every other field is unchanged |
| TaskContext.ReminderLastWriteWins | src/context/TaskContext.tsx:194-198 | of two reminder updates of one id, the later one alone determines the result |
| TaskContext.WithoutTagLinks | src/context/TaskContext.tsx:170-173 | every task keeps all fields but `tags`; its tags are a subsequence that has lost exactly every occurrence of the tag id |
| TaskContext.WithNoteContent | src/context/TaskContext.tsx:184-188 | the length is kept; `content` is replaced exactly on notes with the id; every other field is unchanged |
| TaskContext.NoteContentLastWriteWins | src/context/TaskContext.tsx:184-188 | of two content updates of one note id, the later one alone determines the result |
| TaskContext.ToggledTag | src/context/TaskContext.tsx:200-206 | the tag is selected afterwards exactly when it was not before; other tags' multiplicities are unchanged; an unselected tag is appended at the end; deselecting only deletes |
| TaskContext.ToggleTagTwice | src/context/TaskContext.tsx:200-206 | toggling twice restores which tags are selected, and restores the list itself when the tag started unselected |
| TaskContext.DeleteUndoesAddTask | src/context/TaskContext.tsx:130-145 | deleting a task just added under an unused id always restores the tasks; in addition, when that id is nonzero and every note's truthy `taskId` names an existing task, no note is removed |
| TaskContext.DeleteUndoesAddNote | src/context/TaskContext.tsx:176-192 | deleting the note `addNote` just created restores the notes |
| TaskContext.RemoveUndoesAddCategory | src/context/TaskContext.tsx:147-158 | removing the category `addCategory` just created always restores the categories; in addition, when every task's truthy `categoryId` names an existing category (the initial store qualifies), no task is dropped |
| TaskContext.RemoveUndoesAddTag | src/context/TaskContext.tsx:160-174 | removing the tag `addTag` just created always restores the tags; in addition, when every task's tags exist, every task is left unchanged |
| TaskContext.CompareTasksFollowsKey | src/context/TaskContext.tsx:216-228 | the task comparator is negative, positive or zero exactly when the key (completed, negated priority weight, negated id) is smaller, larger or equal |
| TaskContext.LexLessOfTriples | src/context/TaskContext.tsx:219-227 | the key order on triples is the comparator's three-step cascade |
| TaskContext.MatchesSelection | src/context/TaskContext.tsx:209-214 | no selection matches every task; a match under a truthy selected category is in that category; a matching task carries every selected tag |
| TaskContext.FalsyCategoryIsNoSelection | src/context/TaskContext.tsx:210 | a selected category of 0 filters exactly as no selected category |
| TaskContext.PriorityRank | src/context/TaskContext.tsx:217 | each priority's weight lies between 1 and 3 |
| TaskContext.PriorityRankOrder | src/context/TaskContext.tsx:217 | distinct priorities have distinct weights, ordered low below medium below high |
| TaskContext.CompareTasks | src/context/TaskContext.tsx:216-228 | zero exactly for tasks equal in status, priority and id; with different status, negative exactly when the second is completed; with equal status and different priority, negative exactly when the first weighs more; otherwise negative exactly when the first id is larger |
| TaskContext.FilteredTasks | src/context/TaskContext.tsx:208-229 | the task list contains each task as often as the store does if it matches the selected category and all selected tags, else not at all; the list is sorted by the key |
| TaskContext.FilteredTasksOrdered | src/context/TaskContext.tsx:216-228 | open tasks come before completed ones; then higher priority first; then larger id first |
| TaskContext.FilteredTasksStable | src/context/TaskContext.tsx:216 | tasks the comparator ranks equal keep their relative order from the store |
| TaskContext.FilteredTasksExample | src/context/TaskContext.tsx:208-229 | a completed high task 1, an open low task 2 and an open high task 3 are listed 3, 2, 1 |
| TaskContext.TasksByCategory | src/context/TaskContext.tsx:242-244 | a subsequence of the tasks holding exactly those in the category, with their multiplicities |
| TaskContext.TasksByDate | src/context/TaskContext.tsx:246-248 | a subsequence of the tasks holding exactly those due on the date, with their multiplicities |
| TaskContext.NotesByTask | src/context/TaskContext.tsx:259-261 | a subsequence of the notes holding exactly those attached to the task, with their multiplicities |
| TaskContext.StandaloneNotes | src/context/TaskContext.tsx:263-265 | a subsequence of the notes holding exactly those with a falsy task id, with their multiplicities |
| TaskContext.IsUpcoming | src/context/TaskContext.tsx:253 | an upcoming task's reminder instant lies after now; a task with no or an empty reminder is never upcoming |
| TaskContext.CompareReminders | src/context/TaskContext.tsx:254-256 | for two parsable reminders: negative exactly when the first instant is earlier, zero exactly when they are equal |
| TaskContext.CompareRemindersFollowsKey | src/context/TaskContext.tsx:254-256 | the reminder comparator is negative or zero exactly when the reminder instant is earlier or equal |
| TaskContext.UpcomingReminders | src/context/TaskContext.tsx:250-257 | the result holds each task whose reminder is set and later than now, as often as the store does, and nothing else; it is sorted by reminder instant |
| TaskContext.UpcomingRemindersChronological | src/context/TaskContext.tsx:250-257 | every listed reminder lies after now, and the reminders come soonest first |
| TaskContext.UpcomingRemindersStable | src/context/TaskContext.tsx:254-256 | tasks whose reminders fall on the same instant keep their relative order from the store |
| TaskContext.Store.constructor | src/context/TaskContext.tsx:75-115 | the initial state: three categories, two tags, one sample task, two sample notes, nothing selected |
| TaskContext.Store.AddTask | src/context/TaskContext.tsx:130-132 | the task is appended as given |
| TaskContext.Store.ToggleTask | src/context/TaskContext.tsx:134-140 | the tasks become `WithToggled` of the old tasks |
| TaskContext.Store.DeleteTask | src/context/TaskContext.tsx:142-145 | the tasks become the filter of the old tasks without the id, and the notes the filter of the old notes not attached to it: exactly those are removed, order kept; "every note's task exists" is preserved |
| TaskContext.Store.AddCategory | src/context/TaskContext.tsx:147-153 | one category with the next id is appended; its id exceeds every earlier one, so distinct ids stay distinct |
| TaskContext.Store.RemoveCategory | src/context/TaskContext.tsx:155-158 | the categories and the tasks become the filters of the old ones without the category: exactly those are removed, order kept; "every task's category exists" is preserved |
| TaskContext.Store.AddTag | src/context/TaskContext.tsx:160-166 | one tag with the next id is appended; its id exceeds every earlier one, so distinct ids stay distinct |
| TaskContext.Store.RemoveTag | src/context/TaskContext.tsx:168-174 | the tags become the filter of the old tags without the id, and every task loses its links to it; "every task's tags exist" is preserved |
| TaskContext.Store.AddNote | src/context/TaskContext.tsx:176-182 | one note with the next id is appended; its id exceeds every earlier one, so distinct ids stay distinct |
| TaskContext.Store.UpdateNote | src/context/TaskContext.tsx:184-188 | the notes become `WithNoteContent` of the old notes |
| TaskContext.Store.DeleteNote | src/context/TaskContext.tsx:190-192 | the notes become the filter of the old notes without the id: exactly those are removed, order kept |
| TaskContext.Store.SetTaskReminder | src/context/TaskContext.tsx:194-198 | the tasks become `WithReminder` of the old tasks |
| TaskContext.Store.SetSelectedCategory | src/context/TaskContext.tsx:86 | the selected category becomes the argument |
| TaskContext.Store.ToggleSelectedTag | src/context/TaskContext.tsx:200-206 | the selected tags become `ToggledTag` of the old selection |
| TaskContext.Store.ImportTasks | src/context/TaskContext.tsx:235-240 | each collection the data supplies as an array replaces the stored one; the others stay |
| TaskContext.SeedIsConsistent | src/context/TaskContext.tsx:74-115 | the initial store is consistent: every category, tag and task it refers to exists (for this check, a `categoryId` of 0 counts as no reference) |
| TaskContext.AddThenDeleteTask | src/context/TaskContext.tsx:130-145 | on the store: `deleteTask` right after `addTask` of a task with an unused id always restores the tasks; with id 0 it drops exactly the notes whose `taskId` is 0; with a nonzero id it also restores the notes, when every note's truthy `taskId` names an existing task |
| TaskContext.AddThenDeleteNote | src/context/TaskContext.tsx:176-192 | on the store: `deleteNote` of the note `addNote` just created restores the notes |
| TaskContext.AddThenRemoveCategory | src/context/TaskContext.tsx:147-158 | on the store: `removeCategory` of the category `addCategory` just created always restores the categories; it also restores the tasks when every task's truthy `categoryId` names an existing category (the initial store qualifies) |
| TaskContext.AddThenRemoveTag | src/context/TaskContext.tsx:160-174 | on the store: `removeTag` of the tag `addTag` just created always restores the tags; it also restores the tasks when every task's tags exist |
| TaskContext.ExportThenImport | src/context/TaskContext.tsx:231-240 | importing what was just exported leaves all four collections unchanged |
| NoteEditor.TrimStart | src/components/NoteEditor.tsx:23 | the result is a suffix of the input; all dropped characters are whitespace; a non-empty result starts with a non-whitespace character |
| NoteEditor.TrimEnd | src/components/NoteEditor.tsx:23 | the result is a prefix of the input; all dropped characters are whitespace; a non-empty result ends with a non-whitespace character |
| NoteEditor.Trim | src/components/NoteEditor.tsx:23 | the trimmed text is a contiguous piece of the input; it is empty exactly when the input is all whitespace; otherwise it starts and ends with non-whitespace |
| NoteEditor.LoadedContent | src/components/NoteEditor.tsx:14-20 | nothing is loaded for a falsy task id; otherwise the first attached note's non-empty content, else the task's non-empty legacy note, else "" |
| NoteEditor.TrimDropsOnlyWhitespace | src/components/NoteEditor.tsx:23 | the trimmed text is a contiguous piece of the input outside of which every character is whitespace, so exactly the leading and trailing whitespace is dropped |
| NoteEditor.HandleSave | src/components/NoteEditor.tsx:22-43 | blank content changes nothing; when the task has a note, every note sharing the first such note's id gets the content; otherwise one note with the next id is appended, attached to the task when the id is truthy |
| NoteEditor.SaveIntoExistingNote | src/components/NoteEditor.tsx:24-27 | saving into a task's existing note keeps the number of notes and gives that note the new content, keeping its other fields |

Behaviour of the code that the model follows:

- `removeCategory` removes the category's tasks but keeps their notes (`src/context/TaskContext.tsx:155-158`). So unlike `deleteTask`, it can leave notes whose task no longer exists.
- `deleteTask` removes every task with the id, not just the first.
- A selected category of 0 is falsy, so it counts as no selection. A note whose `taskId` is 0 is falsy, so it counts as standalone.
- The sample task has `categoryId` 0, and initially no category has id 0. The integrity predicate `CategoriesKnown` treats 0 as no reference. `getTasksByCategory` and `removeCategory` compare with `===`, though, so they still match 0 as an id: `getTasksByCategory(0)` returns the sample task (`src/context/TaskContext.tsx:243`), and `removeCategory(0)` deletes it (line 157). A task whose `categoryId` is absent matches neither.
- `deleteTask(0)` also removes every note whose `taskId` is 0, although such notes count as standalone elsewhere.
- The selected tags are a list, and deselecting removes every occurrence of the tag.
- The second sample note's text is stored as the provider's initial state spells it: "Ã¶", the UTF-8 bytes of "ö" read as Latin-1 and encoded again.

## Left out

- Dark mode (`src/context/TaskContext.tsx:70-73`, `117-128`): `localStorage` and the document's class list are browser I/O.
- `exportTasks` produces JSON text. The model stops at the data it serialises (`ExportData`); the JSON text format is not modelled.
- `importTasks` receives a parsed JSON document. JSON parsing, the file reader and the `Array.isArray` check on arbitrary values are replaced by `ImportData`, whose fields are `None` when the document has no array there. The elements of imported arrays are taken to have the declared task, category, tag and note shapes; JavaScript accepts any element and fails only later, for example at `task.tags.includes` in `getFilteredTasks` for a task without `tags`.
- `new Date(...)`: date parsing is the parameter `parse`, and the current instant is the parameter `now`. An unparsable reminder is excluded; JavaScript compares its `NaN` as false, which has the same effect. In `handleSave`, the `createdAt` timestamp is the parameter `now`.
- `onClose` and the rest of the dialog's and the list's rendering are user interface.
- The `useTasks` guard against use outside a provider is React plumbing.
- NextId: ids are unbounded integers. JavaScript numbers are doubles, and spreading a very large array into `Math.max` throws a `RangeError`; neither is modelled.
- TaskContext.Store.AddTask: nothing checks the task's id, so the store may hold duplicate ids. `DeleteUndoesAddTask` and `AddThenDeleteTask` require the added task's id to be unused. The undo lemmas state that referenced entities exist only as a hypothesis of the clauses that need it, because `removeCategory` and `importTasks` can leave dangling references.
