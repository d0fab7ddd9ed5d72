# To-do list screen: task-list state machine

A Dafny model of the logic inside the `TodoList` screen component of a small
React Native to-do app. The component holds five pieces of state:

- `todoList`, the ordered list of task records;
- `todo`, the text buffer of the add/update dialog;
- `modalVisible`, which says whether that dialog is shown;
- `isEditing`, which holds update mode and the record being edited;
- `showSingle`, which holds the detail view and the record shown.

Its handlers replace that state. This model covers the handlers and the
progress bar's done/total computation.

The model has three modules:

- `Whitespace` (`whitespace.dfy`): the blank-input test `todo.trim() === ''`.
  It uses JavaScript's whitespace and line-terminator characters.
- `Tasks` (`tasks.dfy`): the record type and the pure list transformations
  the handlers build: append with "last id + 1", `map` over the text, `map`
  over the completion flag, and `filter` by id. It also has the progress
  counts, and lemmas about order, ids, idempotence and progress.
- `TodoScreen` (`todo_list.dfy`): the component as the class `TodoList`.
  It has one field per piece of state. Its methods have field-framed `modifies`
  clauses and postconditions that give each field's new value in terms of the
  `Tasks` functions. Three client scenarios come after the class:
  - adding a record, then checking one record and deleting another;
  - a cancelled edit that stays in update mode;
  - an update to a blank text.

A record's `completed` property is `Absent | Present(bool)`. The seed record
and the record type declare no `completed` field; records added later carry
`false`. Timestamps are opaque values passed in by the caller. Persisting a
new list is modelled as committing it at once: the storage write and the
read-back both succeed.

Three behaviours of the code that are easy to misread:

- A new id is the LAST record's id + 1, not a max-scan over the ids. On a list
  with increasing ids the two agree (`Tasks.NextIdIsMaxPlusOne`). But deleting
  the last record rewinds the next id, so ids can be handed out again
  (`Tasks.DeleteLastRewindsNextId`, `Tasks.SeedIdIsReused`).
- Progress counts the records whose `completed` is not `false`, not those where
  it is `true`. So the seed record counts as done, and a fresh screen starts
  with a full bar (`TodoScreen.SeedStartsComplete`).
- Cancel and `onRequestClose` only hide the dialog. Update mode survives, so the
  next "+" opens the dialog in update mode (`TodoScreen.ScenarioCancelledEditStaysUpdate`).

## Model

| member | source | states |
|---|---|---|
| `Whitespace.TrimStart` | components/TodoList.tsx:158 | the result is a suffix of the input, everything dropped is whitespace, and it does not start with whitespace |
| `Whitespace.TrimEnd` | components/TodoList.tsx:158 | the result is a prefix of the input, everything dropped is whitespace, and it does not end with whitespace |
| `Whitespace.Trim` | components/TodoList.tsx:158 | `trim()` is no longer than its input and neither starts nor ends with whitespace; `Whitespace.TrimIsMiddle` ties it to the input |
| `Whitespace.TrimIsMiddle` | components/TodoList.tsx:158 | `trim()` returns a contiguous middle piece of its input, with only whitespace before and after it |
| `Whitespace.IsBlank` | components/TodoList.tsx:158 | `todo.trim() === ''`: the empty buffer is blank, and a buffer is blank exactly when dropping its leading whitespace leaves nothing |
| `Whitespace.BlankIffAllWhitespace` | components/TodoList.tsx:158 | `todo.trim() === ''` holds exactly when every character of the buffer is whitespace (the empty buffer included) |
| `Whitespace.NotBlankWhenSomeCharIsVisible` | components/TodoList.tsx:158 | a buffer with any non-whitespace character passes the blank check |
| `Tasks.NextId` | components/TodoList.tsx:162-170 | the new id is 1 for an empty list; on increasing ids it exceeds every id in the list; it is at least 1 when all ids are |
| `Tasks.NewTask` | components/TodoList.tsx:179 | the appended record holds the untrimmed buffer, the given time and `completed: false`; on increasing ids no record of the list has its id |
| `Tasks.Append` | components/TodoList.tsx:176-180 | the committed list is the old list unchanged as a prefix followed by exactly the one new record |
| `Tasks.MaxId` | components/TodoList.tsx:162-170 | a max-scan reference for id assignment: an upper bound of every id that one of the ids attains (0 for the empty list) |
| `Tasks.NextIdIsMaxPlusOne` | components/TodoList.tsx:162-170 | on increasing ids, "last id + 1" (1 for the empty list) equals max id + 1 and exceeds every id in the list |
| `Tasks.NextIdCanCollideOnUnorderedList` | components/TodoList.tsx:162-170 | without increasing ids, "last id + 1" can equal an id already in the list |
| `Tasks.AppendKeepsIncreasing` | components/TodoList.tsx:162-181 | adding appends one record, keeps every earlier record in place, gives it an id no earlier record has, and keeps ids increasing |
| `Tasks.AppendProgress` | components/TodoList.tsx:176-180 | the appended record is not done: the total grows by one, the done count stays, and the bar is no longer full |
| `Tasks.Rename` | components/TodoList.tsx:141-149 | same length and order; ids, `completed` and `created_at` kept; `task` becomes the text exactly on records whose id matches |
| `Tasks.RenameKeepsOthers` | components/TodoList.tsx:141-149 | records with another id are unchanged, and increasing ids stay increasing |
| `Tasks.SetCompleted` | components/TodoList.tsx:189-197 | same length and order; ids, `task` and `created_at` kept; `completed` becomes the flag exactly on records whose id matches |
| `Tasks.SetCompletedKeepsOthers` | components/TodoList.tsx:189-197 | records with another id are unchanged, and increasing ids stay increasing |
| `Tasks.SetCompletedProgress` | components/TodoList.tsx:187-201 | checking never lowers the done count, unchecking never raises it, and the total is unchanged |
| `Tasks.Remove` | components/TodoList.tsx:214 | a record is kept exactly when it is in the list and its id differs; the list never grows |
| `Tasks.RemoveConcat` | components/TodoList.tsx:214 | deleting distributes over concatenation, so kept records keep their relative order |
| `Tasks.RemoveAbsent` | components/TodoList.tsx:214 | deleting an id no record has leaves the list as it is |
| `Tasks.RemoveIdempotent` | components/TodoList.tsx:213-216 | deleting the same id twice equals deleting it once |
| `Tasks.RemoveKeepsIncreasing` | components/TodoList.tsx:214 | deleting keeps ids increasing |
| `Tasks.RemoveUnique` | components/TodoList.tsx:213-216 | on increasing ids, deleting a present id removes exactly that one record and leaves the records before and after it in order |
| `Tasks.DeleteLastRewindsNextId` | components/TodoList.tsx:162-170 | after deleting the last record the next id is the previous record's id + 1 (1 if none); it is never above the deleted id when a record is left or the deleted id is at least 1 |
| `Tasks.SeedIdIsReused` | components/TodoList.tsx:39-41 | deleting the seed record and adding again hands out id 1 a second time |
| `Tasks.CountsAsDone` | components/TodoList.tsx:323 | `t.completed !== false` holds exactly when `completed` is missing or `true` |
| `Tasks.CountDone` | components/TodoList.tsx:323 | the number of records counted as done never exceeds the list length |
| `Tasks.Progress` | components/TodoList.tsx:323-327 | progress as (done, total): total is the list length and 0 <= done <= total |
| `Tasks.IsComplete` | components/TodoList.tsx:332 | `progress === 1` on the counts: a full bar has at least one done record and is never an empty bar |
| `Tasks.ProgressCompleteIff` | components/TodoList.tsx:323-337 | progress is 1, which starts the completion animation, exactly when the list is non-empty and no record has `completed == false` |
| `Tasks.ProgressZeroIff` | components/TodoList.tsx:323-327 | progress is 0 exactly when every record has `completed == false`, the empty list included |
| `TodoScreen.Seed` | components/TodoList.tsx:39-41 | the seed is one record with increasing ids, the next add gives id 2, and the record counts as done |
| `TodoScreen.TodoList.constructor` | components/TodoList.tsx:37-55 | initial state: the one-record seed list, empty buffer, dialog hidden, editing and detail cleared; ids increasing |
| `TodoScreen.TodoList.Load` | components/TodoList.tsx:66-78 | a stored list replaces the current one; a missing or unreadable one leaves it |
| `TodoScreen.TodoList.OpenAddModal` | components/TodoList.tsx:133-135 | shows the dialog and changes no other field |
| `TodoScreen.TodoList.ChangeText` | components/TodoList.tsx:504-505 | the buffer becomes the typed text and no other field changes |
| `TodoScreen.TodoList.AddTask` | components/TodoList.tsx:139-183 | update mode: renames the edited record without a blank check, then clears the buffer, editing and the dialog. Add mode with a blank buffer: only the error cue, no change. Otherwise: appends the new record, clears the buffer and closes the dialog. Ids stay increasing |
| `TodoScreen.TodoList.SetChecked` | components/TodoList.tsx:187-201 | the list becomes `SetCompleted` of the old list; no other field changes; ids stay increasing |
| `TodoScreen.TodoList.ToggleEditTask` | components/TodoList.tsx:205-209 | update mode on for the item, dialog shown, buffer holds the item's text; the list and detail view are untouched |
| `TodoScreen.TodoList.DeleteTask` | components/TodoList.tsx:213-217 | the list becomes `Remove` of the old list by the item's id; no other field changes; ids stay increasing |
| `TodoScreen.TodoList.HideModal` | components/TodoList.tsx:434-437 | Cancel (also lines 534-536) and `onRequestClose` hide the dialog only; update mode and the buffer survive |
| `TodoScreen.TodoList.ShowDetail` | components/TodoList.tsx:262-264 | the detail view shows the tapped record; nothing else changes |
| `TodoScreen.TodoList.HideDetail` | components/TodoList.tsx:414-416 | the detail view is cleared; nothing else changes |
| `TodoScreen.SeedStartsComplete` | components/TodoList.tsx:39-41 | the seed record has no `completed == true`, yet counts as done, so a fresh screen's progress is 1 |

## Left out

- Rendering: the list, dialog, detail view, icons and styles. The delete
  confirmation dialog is also left out; its Cancel does nothing and its OK
  calls the delete handler, which is modelled.
- Animations: the error shake and the completion color/position are
  floating-point values driven by the animation runtime. `AddTask` returns
  whether the error cue fires, and `Tasks.IsComplete` is the test that starts
  the completion animation.
- Storage: clearing the store, writing, reading back and JSON
  (de)serialisation are not modelled. A save is modelled as committing the new
  list at once. A failed write, overlapping save cycles whose read-backs race,
  and the `Date` to string change of `created_at` in the round trip are not
  modelled. Neither is the store-wide clear.
- `TodoScreen.TodoList.Load`: the stored text is given already parsed (`None`
  for a missing key or a parse failure); whether stored data is well-formed is
  not checked.
- Date formatting of `created_at` (relative and absolute) is a library call and
  is not modelled.
- `Tasks.Progress`: the bar's value is the ratio done/total of JavaScript
  numbers. The model keeps the two integer counts, and "progress is 1"
  becomes done == total > 0.
- `Tasks.NextId`: ids are unbounded integers, so `lastItem.id + 1` on a
  JavaScript number is modelled without floating-point rounding above 2^53.
- The app's root component only wraps this screen in layout views and has no
  logic.
