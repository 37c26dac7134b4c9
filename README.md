# Todo list client: store, view state and relative dates

This project models the logic inside `app.js` of a browser client for a REST
todo service. It covers:

- the client-side list of todos and the two pieces of UI state kept beside it
  (the current filter and the todo being edited);
- the derived views: the filtered list the page renders and the three summary
  counts;
- the four API wrappers (load, create, update, delete). Only their success
  branches change the list, and each failure branch shows a fixed message;
- the event handlers: create and edit submit guards, the edit modal, the delete
  confirmation and the filter buttons;
- the branch structure of the "Created … ago" label.

Files:

- `wrappers.dfy`: `Option`, standing for JavaScript `null`/`undefined`.
- `store.dfy` (module `Store`): the `Todo` record, `Array.prototype.filter`,
  `getFilteredTodos`, the counts of `updateStats`, and the list updates keyed by
  `_id` (`find`, `map`-replace, `filter`-remove).
- `text.dfy` (module `Text`): `String.prototype.trim` with ECMAScript's
  white-space and line-terminator code points, and the decimal rendering of a
  count.
- `format_date.dfy` (module `RelativeAge`): `formatDate`, with floor division on
  a millisecond difference.
- `app.dfy` (module `App`): class `TodoApp`. Its fields are the module-level
  state and the flags the DOM reflects. It has one method per wrapper, helper
  and event handler. Its invariant `Valid()` says four things:
  - the rendered list equals the filtered view;
  - the badges equal the counts over the full list;
  - the edit modal is open exactly while an edit target is set;
  - a visible error banner holds one of the four fixed messages.

  Every method preserves `Valid()`, on failure paths too.

How the environment is modelled:

- Each network call is a parameter of the method that makes it: the server's
  reply (`Some(todo)`, `Some(list)`), or `None` for a failed request. For delete
  it is a `bool`.
- Each method returns the `Request` it issues (`Get`, `Post`, `Put`, `Delete`),
  so a guard that sends nothing returns `None`.
- The answer to `confirm()` is a `bool` parameter.
- The clock and the creation time are integer milliseconds.
- `getFullYear` and `toLocaleDateString` are function parameters.

Behaviour of the code worth noting:

- A failed create, update or delete does not re-render. The list and the badges
  are unchanged on those paths, so `Valid()` still holds.
- A failed load keeps whatever list was there before. At start-up that list is
  empty.
- The edit guard `!editingTodoId` uses JavaScript truthiness. An empty-string id
  blocks the submit just as `null` does (`IsTruthyId`).
- Ids are not checked for uniqueness anywhere in the code, so unique ids are not
  part of `Valid()`. Lemmas show which updates keep them unique.

## Model

Small helpers have no row of their own; they belong to the rows that use them:
`Store.Shows` (the filter switch at app.js:164-171, used by `Store.Visible`),
`App.DescriptionOrEmpty` (the `|| ''` at app.js:230, used by
`App.TodoApp.OpenEditModal`), `App.ActionError.Text` (records the four banner strings of
app.js:47, 70, 94 and 113; the model keeps the message as an
`ActionError` value, and `Text()` only documents its wording), and
`RelativeAge.UnitOf`, `RelativeAge.Amount`, `Text.Stripped` and `Text.DigitsValue`, which only serve
to state other contracts.

| member | source | states |
|---|---|---|
| `Store.Filter` | app.js:166-168 | the result holds exactly the elements satisfying the predicate, and its length is the number of such elements |
| `Store.FilterAppend` | app.js:163-172 | filtering distributes over concatenation, so kept elements keep their relative order |
| `Store.CountComplement` | app.js:175-177 | the entries matching a predicate and those matching its negation add up to the list length |
| `Store.Visible` | app.js:163-172 | `pending` shows exactly the entries not completed, `completed` exactly the completed ones (with their counts), any other filter value the whole list unchanged |
| `Store.VisibleAppend` | app.js:163-172 | the view of a concatenation is the concatenation of the views (order preserved) |
| `Store.VisibleSingle` | app.js:163-172 | a one-entry list shows its entry exactly when the filter admits it |
| `Store.VisibleAfterPrepend` | app.js:65-66 | after a create, the new todo is first in every view that admits it, before the old view unchanged; in other views the view is unchanged |
| `Store.StatsOf` | app.js:174-182 | total is the length, completed counts completed entries, pending counts the others, and pending + completed == total, all over the full list |
| `Store.StatsMatchViews` | app.js:174-177 | the three badges equal the lengths of the `all`, `pending` and `completed` views |
| `Store.StatsAfterPrepend` | app.js:65-67 | a create adds one to the total and one to the count of the new todo's own status |
| `Store.FindById` | app.js:246 | a found todo is in the list and has the id; nothing is found exactly when no entry has the id |
| `Store.FindByIdFirst` | app.js:246 | the lookup returns the first entry with the id |
| `Store.ReplaceById` | app.js:89 | same length; every entry with the id becomes the returned todo, every other entry stays in place unchanged |
| `Store.ReplaceAbsent` | app.js:89 | updating an id absent from the list leaves the list unchanged |
| `Store.ReplaceKeepsIds` | app.js:88-89 | when the returned todo keeps the id, ids stay unique |
| `Store.ReplaceThenFind` | app.js:88-89 | when the returned todo keeps the id, a lookup of the id after the update of a present entry finds the returned todo |
| `Store.RemoveById` | app.js:108 | the survivors are exactly the entries with another id, and the length drops by the number of entries with the id |
| `Store.RemoveAppend` | app.js:108 | removal distributes over concatenation, so the survivors keep their order |
| `Store.RemoveAbsent` | app.js:108 | deleting an id absent from the list is a no-op |
| `Store.UniqueCountAtMostOne` | app.js:108 | with unique ids, an id matches one entry if present and none otherwise |
| `Store.RemoveKeepsIds` | app.js:108 | a delete keeps the ids unique |
| `Store.RemoveUnique` | app.js:108 | with unique ids, a delete removes exactly one entry when the id is present and none otherwise, and the ids stay unique |
| `Store.PrependKeepsIds` | app.js:65 | prepending a todo with a new id keeps ids unique |
| `Text.TrimStart` | app.js:260 | the result is a suffix of the input; every dropped character is white space, and the result does not start with white space |
| `Text.TrimEnd` | app.js:260 | the result is a prefix of the input; every dropped character is white space, and the result does not end with white space |
| `Text.Trim` | app.js:260-263 | the trimmed title is empty exactly when the input is all white space; otherwise it starts and ends with a non-space character |
| `Text.TrimIsSlice` | app.js:260-263 | the trimmed title is a contiguous slice of the input with only white space before and after it |
| `Text.StrippedTwice` | app.js:260-263 | cutting leading white space and then trailing white space leaves a slice of the input with only white space around it |
| `Text.TrimIdempotent` | app.js:277 | trimming an already trimmed title changes nothing |
| `Text.Decimal` | app.js:210 | a count is written as at least one decimal digit with no leading zero; a leading '0' occurs only in "0", the text of zero |
| `Text.DecimalRoundTrip` | app.js:210 | reading the written digits back gives the number |
| `Text.DecimalInjective` | app.js:210-212 | different counts are written differently |
| `RelativeAge.FloorDiv` | app.js:205-207 | the quotient is the floor: `q*b <= a < q*b + b` |
| `RelativeAge.FormatDate` | app.js:201-218 | "just now" exactly when the age is under a minute (future times included); m ago with 1..59, h ago with 1..23, d ago with 1..6 on the matching millisecond ranges; the calendar date exactly from 7 days on, with the year only when the years differ |
| `RelativeAge.Label` | app.js:209-218 | a dated age shows the locale date text with or without the year; "just now" is the only relative label ending in 'w'; "just now" is exactly that text; every count-and-unit label is `Decimal` of its count (its canonical digits, no leading zero) followed by its unit letter and " ago" |
| `RelativeAge.LabelInjective` | app.js:209-212 | two relative labels with the same text come from the same branch and count |
| `RelativeAge.LabelExamples` | app.js:201-212 | 30 s gives "just now", 5 min "5m ago", 90 min "1h ago", 3 days "3d ago", 10 days the calendar date |
| `App.TodoApp.constructor` | app.js:4-7 | empty list, filter `all`, no edit target, banners hidden, forms empty, invariant holds |
| `App.TodoApp.ShowLoading` | app.js:184-186 | shows the loading indicator and changes nothing else |
| `App.TodoApp.HideLoading` | app.js:188-190 | hides the loading indicator and changes nothing else |
| `App.TodoApp.ShowError` | app.js:192-195 | replaces the banner text with the message and shows it |
| `App.TodoApp.HideError` | app.js:197-199 | hides the banner and keeps its text |
| `App.TodoApp.RenderTodos` | app.js:119-161 | the rendered list becomes the current filter's view of the list |
| `App.TodoApp.UpdateStats` | app.js:174-182 | the badges become the counts over the full list |
| `App.TodoApp.FetchTodos` | app.js:33-50 | issues `Get`; success replaces the whole list and leaves the banner hidden; failure keeps the list and shows the load message; loading is hidden either way |
| `App.TodoApp.CreateTodo` | app.js:52-74 | issues `Post(title, description)`; success prepends the created todo and hides the banner; failure keeps the list, shows the create message and reports the failure |
| `App.TodoApp.UpdateTodo` | app.js:76-98 | issues `Put(id, patch)`; success replaces the entries with the id by the returned todo and hides the banner; failure keeps the list, shows the update message and reports the failure |
| `App.TodoApp.DeleteTodo` | app.js:100-116 | issues `Delete(id)`; success removes the entries with the id and hides the banner; failure keeps the list and shows the delete message without reporting it |
| `App.TodoApp.OpenEditModal` | app.js:227-232 | sets the edit target to the todo's id, fills the title, fills the description or `''`, and opens the modal |
| `App.TodoApp.CloseEditModal` | app.js:234-238 | clears the edit target and the form fields, and hides the modal |
| `App.TodoApp.HandleToggleComplete` | app.js:241-243 | sends the new completion flag for the id, with the update wrapper's success and failure effects |
| `App.TodoApp.HandleEdit` | app.js:245-248 | opens the modal on the first todo with the id; an unknown id changes nothing |
| `App.TodoApp.HandleDelete` | app.js:250-254 | a declined confirmation issues nothing and changes nothing; a confirmed one has the delete wrapper's effects |
| `App.TodoApp.SubmitCreate` | app.js:257-272 | a title that trims to nothing issues no request and changes nothing; otherwise posts the trimmed fields; the form is cleared only on success and kept on failure |
| `App.TodoApp.SubmitEdit` | app.js:274-288 | issues nothing and changes nothing unless the trimmed title is non-empty and the edit target is truthy; otherwise sends the trimmed fields for the target; success closes the modal, failure keeps it open with its target and fields |
| `App.TodoApp.ChangeFilter` | app.js:297-304 | sets the filter and renders its view; the list and the counts are untouched |

## Left out

- Network I/O: `fetch`, HTTP methods, headers, `JSON.stringify`, `response.json()` and status checks. Each call is replaced by its outcome parameter. A reply whose body does not parse counts as a failed request.
- DOM work: the row markup built in `renderTodos`, `classList` toggling, `textContent`, `focus()`, `preventDefault()`, listener registration and the active-button styling. The model keeps only the list, counts, texts and visibility flags that the DOM shows. The empty-state note is shown exactly when the rendered list is empty.
- `escapeHtml` is not modelled: it is the browser's HTML serializer.
- `toLocaleDateString` and `getFullYear` become function parameters (`localeDate`, `calendarYear`).
- The parsing of `createdAt` by `new Date(...)`, including an unparsable date (NaN), is left out. Creation times are integer milliseconds.
- `formatDate` uses double-precision division before `Math.floor`; the model divides integers. The branch boundaries (one minute up to seven days) are far below the magnitudes where the two differ.
- `console.error` logging is left out.
- Concurrency: overlapping requests and stale replies interleaving with other actions are not modelled. Each action is one atomic transition.
- FetchTodos: does not model the loading indicator being visible while the request is in flight. With atomic transitions only the final state, with loading hidden, is observable.
- `editForm.reset()` and `todoForm.reset()` are modelled as clearing the fields to `""`. This assumes the page's default input values are empty.
- The rejection that `handleToggleComplete` lets escape is not modelled: it reaches no handler and changes no state.
- The browser's own checkbox state is not tracked. `renderedTodos` is the data of the last render. After a failed toggle, the native checkbox stays flipped and its `onchange` still carries the old value, because the failure path does not re-render.
