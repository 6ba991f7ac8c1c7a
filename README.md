# To-do list controller, modelled in Dafny

The application is a single-page to-do list. One controller object, `TodoApp`,
holds two pieces of state: an ordered list of records `{id, text, completed}`
and the name of the current filter. Five operations change them:

- add: trims the input and appends a new record;
- toggle: flips `completed` on the first record with a given id;
- delete: removes every record with a given id;
- clear-completed: drops the completed records;
- set-filter: changes the filter.

After each change the controller re-renders. Rendering shows the rows that
pass the filter, or an empty placeholder when no row passes, and a footer
that counts the not-completed records.

The project has three modules:

- `Sequences` (`sequences.dfy`): the order-preserving filter behind every
  derived list (`Array.prototype.filter`), with its lemmas. These cover
  subsequence, concatenation, idempotence, emptiness, the partition by a
  predicate and its negation, and distinct keys.
- `Text` (`text.dfy`): `String.prototype.trim`. It strips the ECMAScript
  WhiteSpace and LineTerminator code points (sections 12.2 and 12.3 of
  ECMA-262) from both ends.
- `App` (`app.dfy`): the `Todo` record and the pure functions for each
  operation (`Added`, `Toggled`, `WithoutId`, `ActiveTodos`). It also holds
  the views (`Visible`, `Render`) and the class `TodoApp`, whose fields
  `todos` and `currentFilter` its methods update. A ghost field `persisted`
  stands for what local storage holds: the loaded value at start, then what
  the last `saveTodos` call wrote. Each
  method's contract says whether it saves. Saves happen on a successful add,
  on a toggle that found its record, and on every delete and clear. Nothing
  is saved on a blank add, on a toggle of an unknown id, or on set-filter.

Each mutating method is proved against a pure function of the old list. The
properties the application relies on are lemmas about those functions. Four
client methods (`ScenarioAdd`, `ScenarioAddBlank`, `ScenarioFilter`,
`ScenarioClear`) derive concrete sessions from the method contracts and the
function definitions.

Behaviour of the code that the model keeps:

- The filter is an arbitrary string (`btn.dataset.filter`). `"active"` and
  `"completed"` select a subset, and every other string shows the whole list
  (app.js:88-96).
- Nothing makes ids unique. `Date.now()` can repeat, and stored data is taken
  as is, so two records, even two identical ones, may share an id. The
  contracts of the filtered lists therefore count copies: every copy of a
  record that passes is kept. The model never assumes uniqueness. The lemmas that need it
  (`AddedKeepsUniqueIds`, `ToggledUnique`, `DeleteUnique`) take it as a
  hypothesis.
- With repeated ids, toggle changes only the first match (app.js:60), but
  delete removes all matches (app.js:69). The model keeps both behaviours.

## Model

| member | source | states |
|---|---|---|
| `Sequences.Filter` | app.js:91-93 | the result holds only elements that pass, each taken from the input, and holds every element of the input that passes; it is never longer than the input |
| `Sequences.FilterIsSubsequence` | app.js:69 | a filtered list is a subsequence of the original: relative order is preserved |
| `Sequences.FilterAppend` | app.js:91 | filtering a concatenation concatenates the filtered parts |
| `Sequences.FilterKeepsAll` | app.js:69 | when every element passes, the filter returns the input unchanged |
| `Sequences.FilterIdempotent` | app.js:75 | filtering twice with the same test equals filtering once |
| `Sequences.FilterEmptyIff` | app.js:102 | a filter result is empty exactly when no element of the input passes |
| `Sequences.FilterMultiplicity` | app.js:91-93 | as multisets, the result is the input restricted to the elements that pass: every copy of a passing element is kept and no copy of a failing one |
| `Sequences.FilterPartition` | app.js:91-93 | a test and its negation split a list: the multisets add up to the input's, and so do the lengths |
| `Sequences.SubsequenceReflexive` | app.js:95 | the unfiltered list is a subsequence of itself |
| `Sequences.FilterKeepsDistinctKeys` | app.js:69 | filtering a list with distinct keys yields a list with distinct keys |
| `Text.IsWhiteSpace` | app.js:44 | definition: the ECMAScript WhiteSpace and LineTerminator code points, the set `trim` strips |
| `Text.TrimStart` | app.js:44 | the result is a suffix of the input, everything cut off is white space, and it does not start with white space |
| `Text.TrimEnd` | app.js:44 | the result is a prefix of the input, everything cut off is white space, and it does not end with white space |
| `Text.Trim` | app.js:44 | the result is a slice `s[i..j]` with only white space outside it, and unless empty it starts and ends with a non-white character |
| `Text.TrimEmptyIff` | app.js:44-45 | the trimmed input is empty exactly when every character is white space |
| `Text.TrimUnchanged` | app.js:44 | a string with no white space at either end is its own trim |
| `Text.TrimIdempotent` | app.js:44 | trimming twice equals trimming once |
| `App.ActiveTodos` | app.js:91 | the filter with "not completed": a subsequence of the list holding every copy of every not-completed record and nothing else |
| `App.CompletedTodos` | app.js:93 | the filter with "completed": a subsequence of the list holding every copy of every completed record and nothing else |
| `App.WithoutId` | app.js:69 | the filter with "id differs": a subsequence of the list holding every copy of every record with another id and nothing else |
| `App.Remaining` | app.js:130 | the footer count: it plus the number of completed records is the list length, and it equals the length exactly when no record is completed |
| `App.Added` | app.js:43-53 | a blank trimmed input leaves the list unchanged; otherwise the old list is kept as a prefix with exactly one new record after it, carrying the given id, the trimmed text and `completed = false` |
| `App.AddedIff` | app.js:44-45 | a record is added exactly when the input has a non-white character; otherwise the list is unchanged |
| `App.AddedRemaining` | app.js:53 | an added record goes to the end of the active view, the completed view is unchanged, and the remaining count grows by one |
| `App.AppendActive` | app.js:53 | appending a not-completed record appends it to the active view and leaves the completed view unchanged |
| `App.AddedKeepsUniqueIds` | app.js:47-53 | if the ids are unique and the new id is fresh, ids stay unique after the add |
| `App.FindIndex` | app.js:60 | returns None exactly when no record has the id; otherwise the index of a record with the id and no earlier one |
| `App.Toggled` | app.js:59-65 | length, ids, texts and order are unchanged; `completed` differs at position k exactly when k is the first match for the id |
| `App.FindIndexSameIds` | app.js:60 | two lists with the same ids position by position have the same first match |
| `App.ToggleUnknown` | app.js:61 | toggling an id that no record carries leaves the list unchanged |
| `App.ToggleTwice` | app.js:59-65 | toggling the same id twice restores the original list, because the first toggle keeps every id and so the second finds the same record |
| `App.ToggledUnique` | app.js:59-65 | with unique ids, toggling flips exactly the record with that id, leaves every other record equal, and keeps ids unique |
| `App.DeleteRemovesId` | app.js:68-69 | after a delete no record carries the id, every copy of every record with another id remains, the length drops by the number of records with the id, and the result is a subsequence of the input |
| `App.DeleteUnknown` | app.js:69 | deleting an id that no record carries leaves the list unchanged |
| `App.DeleteUnique` | app.js:68-69 | with unique ids, a delete removes exactly one record when the id is present and none otherwise, and ids stay unique |
| `App.DeleteUniqueLength` | app.js:68-69 | with unique ids, a delete shortens the list by one when the id is present and leaves its length otherwise |
| `App.ClearCompletedProperties` | app.js:74-75 | after a clear no completed record is left, a second clear changes nothing, the remaining count is unchanged, and the result is a subsequence of the input |
| `App.ActiveCompletedPartition` | app.js:130 | the active and completed records together hold the list exactly (as a multiset), and the remaining count plus the completed count is the length |
| `App.Visible` | app.js:88-96 | the view is a subsequence of the list; under "active" it holds every copy of every not-completed record and nothing else, under "completed" the same for completed records, and under any other name it is the whole list |
| `App.ViewSizes` | app.js:88-96 | the active and completed views together are as long as the list; the "all" view is the whole list itself |
| `App.Render` | app.js:99-131 | the rows are exactly the filtered view `Visible(ts, filter)`, the placeholder is shown exactly when there are no rows, and the footer is `Remaining(ts)`: the list length minus the completed records, whatever the filter |
| `App.RenderPlaceholder` | app.js:100-103 | the placeholder appears under "active" exactly when every record is completed, under "completed" exactly when none is, and under any other filter exactly when the list is empty |
| `App.RemainingIgnoresFilter` | app.js:130 | the footer count does not depend on the filter |
| `App.TodoApp.constructor` | app.js:2-4 | starts from the stored list, or the empty list when nothing is stored, with the filter "all" |
| `App.TodoApp.AddTodo` | app.js:43-57 | the new list is `Added(old list, input, id)`; the filter is unchanged; the list is saved exactly when a record was added |
| `App.TodoApp.ToggleTodo` | app.js:59-66 | the new list is `Toggled(old list, id)`; the filter is unchanged; the list is saved exactly when a record matched |
| `App.TodoApp.DeleteTodo` | app.js:68-72 | the new list holds the records with other ids, in order; the filter is unchanged; the list is always saved |
| `App.TodoApp.ClearCompleted` | app.js:74-78 | the new list holds the not-completed records, in order; the filter is unchanged; the list is always saved |
| `App.TodoApp.SetFilter` | app.js:80-86 | only the filter changes; the list and the stored value stay as they were |
| `App.TodoApp.FilteredTodos` | app.js:88-97 | the records shown under the current filter: `Visible(todos, currentFilter)`, hence every copy of every not-completed record under "active", of every completed one under "completed", and the whole list otherwise, in list order |
| `App.TodoApp.CurrentView` | app.js:99-132 | the rows are the filtered records, the placeholder is shown exactly when they are empty, and the footer counts the not-completed records of the whole list |

## Left out

- DOM work: element lookups (app.js:6-11), event wiring (app.js:17-32 and the per-row listeners at app.js:117-127), writing `innerHTML`/`textContent`, and the `DOMContentLoaded` bootstrap (app.js:141-143). The model's state holds none of these.
- The input field: `addTodo` reads `this.input.value`, which `AddTodo` takes as a parameter. Clearing the field after an add (app.js:55) is not modelled.
- `Date.now()` (app.js:48) is a clock read, so `AddTodo` takes the id as a parameter. Ids are integers; the JavaScript number type, and the `parseInt(item.dataset.id)` round trip (app.js:118), are not modelled.
- Persistence (app.js:34-41): `localStorage` and `JSON.parse`/`JSON.stringify` are not modelled. The constructor takes the decoded stored list, or `None` when storage holds nothing (an empty string is read as nothing as well). A stored value that does not parse, or that parses into something other than a list of records, is not modelled. `saveTodos` is the ghost assignment `persisted := Some(todos)`.
- `escapeHtml` (app.js:134-138) delegates to the browser's serializer, and the display strings (app.js:103, app.js:131) are presentation only.
- Updating the filter buttons' highlight in `setFilter` (app.js:82-84) is a DOM effect and is not modelled.
- Value semantics: `toggleTodo` mutates a record object in place (app.js:62). The model replaces the record in the sequence instead. This is equivalent because no other reference to the record exists.
- Trimming works on Dafny characters (Unicode scalar values), not UTF-16 code units. None of the characters trim removes is a surrogate, so the results agree.
