# Nomination tracker front end: a Dafny model of its page logic

The repository is the browser front end of a contract-nomination tracker. Nearly everything in it
is HTTP plumbing. This project models the small part that has logic of its own:

- the nominations dashboard (`src/pages/Dashboard.jsx`): the row colour classifier, the status
  label, the summary card counts, the selection kept for bulk actions (header and row checkboxes),
  the bulk-action handler, the loading flag around the list and summary requests, the card filter and the
  assign dialog's opening;
- the summary card table (`src/services/utils.js`);
- the nomination form (`src/components/NominationForm.jsx`): the record it starts from, the
  single-field change handler, and the create-or-update submit;
- the user admin page (`src/pages/Admin.jsx`): the modal's open/close state machine, the submit
  and delete handlers, and the rule that hides the Delete button for the user named `admin`.

Pure derivations are functions with lemmas (`DashboardView`, `StatsConfig`, the record functions
of `NominationForm`, `Admin.SubmitCall`, `Admin.RowActions`). State the pages update through
React's `useState` becomes classes whose fields the handlers reassign, with `modifies` frames
naming exactly the fields each handler touches (`Dashboard.DashboardPage`,
`NominationForm.NominationFormPage`, `Admin.AdminPage`).

Foreign I/O becomes parameters. An HTTP request's outcome is a `Ui.Response` (`Ok` with the
data, or `Err` with the server's and the client's message). The confirmation prompt is a
`confirmed: bool`. Each handler returns the requests it issued (a `Call` datatype per page, with
its verb and path) and the toasts it showed. The moment of rendering is a parameter too: the
calendar library's answers about a nomination date become a `DateRel` record of four booleans
(same day, same week, same month, strictly after now).

Modules: `Ui` (outcomes, toasts, JavaScript's `a || b || fallback` on strings), `StatsConfig`,
`DashboardView`, `Dashboard`, `NominationForm`, `Admin`. One file per module.

Behaviour of the code worth knowing, each stated by a member:

- The colour fallback (`src/pages/Dashboard.jsx:25-27`) gives `text-danger-emphasis` to an
  unresolved nomination dated after now. That is the colour the card table pairs with OVERDUE
  (`src/services/utils.js:33-35`). A date before now gets `text-secondary-emphasis`, the "All"
  card's colour (`DashboardView.FutureRowsWearOverdueColour`).
- There is no pagination and no protection against stale responses. The list request carries
  only `user_id` and `status`, and the selection survives filter changes. So the header checkbox
  can read checked for a stale selection of the right length
  (`DashboardView.HeaderCheckedIsLengthOnly`).
- A cancelled bulk-action prompt keeps the selection (`Dashboard.DashboardPage.BulkAction`).
- The bulk-action drop-down is uncontrolled and its change handler returns before resetting it
  when it refuses. A refused action therefore stays shown, and choosing it again after ticking
  rows fires no change event (`Dashboard.RejectedChoiceSticks`). Picking the "Bulk Action"
  placeholder first, which is itself refused with "Select nominations", frees it
  (`Dashboard.PlaceholderUnsticks`).
- Both kinds of checkbox are controlled: each shows a value derived from the state, so a click
  delivers the negation of what it shows (`DashboardView.ClickRow`, `DashboardView.ClickHeader`).
  Clicks therefore never put an id in the selection twice, and with unique row ids the header
  selects no duplicates (`DashboardView.ClickRowKeepsNoDup`, `DashboardView.ClickHeaderConsistent`).
- An edit whose initial values lack an id is sent to `/nominations/undefined`, the same path as
  an edit of a nomination whose id is the string "undefined" (`NominationForm.MissingIdCollides`).

## Model

| member | source | states |
|---|---|---|
| Ui.FirstTruthy | src/pages/Admin.jsx:59 | a chain of `or` over strings: the first non-empty candidate, or the fallback when all are empty; non-empty whenever the fallback is |
| Ui.ServerMessageOr | src/pages/Dashboard.jsx:209 | the failure toast shows the server's message when it has one, else the fixed fallback text |
| Ui.AnyMessageOr | src/components/NominationForm.jsx:40 | the server's message, else the client error's message, else the fallback text |
| StatsConfig.CardCount | src/pages/Dashboard.jsx:162 | the shown count is the stored count when the key is present and 0 when it is absent |
| StatsConfig.Highlighted | src/pages/Dashboard.jsx:158 | a card is bordered when the status filter holds its key; the empty filter the page starts with borders no card, not even "All" |
| StatsConfig.AtMostOneHighlighted | src/pages/Dashboard.jsx:158 | sanity check of the table: the card keys are distinct, so a status filter borders at most one card |
| DashboardView.Classify | src/pages/Dashboard.jsx:13-28 | each of the six classes holds exactly under its first-match condition: green iff sent or received; red iff unresolved and same day; warning iff unresolved, not same day, same week; warning-emphasis iff also not same week and same month; danger-emphasis iff also not same month and after now; secondary-emphasis otherwise |
| DashboardView.ResolvedIgnoresDate | src/pages/Dashboard.jsx:17 | a sent or received nomination is `text-success` for every date |
| DashboardView.SameDayNeverWeekOrMonth | src/pages/Dashboard.jsx:19-23 | a same-day date never yields the week or month class |
| DashboardView.EveryClassReachable | src/pages/Dashboard.jsx:13-28 | each of the six classes is produced by some nomination and date |
| DashboardView.ClassNameInjective | src/pages/Dashboard.jsx:17-27 | sanity check of the class strings: distinct classes render as distinct CSS class strings |
| DashboardView.CardOf | src/services/utils.js:6-37 | every row class is `text-` followed by the colour suffix of some summary card |
| DashboardView.EveryCardColourIsARowColour | src/services/utils.js:6-37 | sanity check of the table: every summary card's colour is the colour of some row class |
| DashboardView.FutureRowsWearOverdueColour | src/pages/Dashboard.jsx:25-27 | past the month test, a date after now gets the OVERDUE card's colour and a date before now the "All" card's |
| DashboardView.StatusLabel | src/pages/Dashboard.jsx:282 | the label is "Sent" iff sent, "Received" iff received and not sent, empty iff neither |
| DashboardView.LabelShownIffGreen | src/pages/Dashboard.jsx:282 | a row shows a status label exactly when it is classified `text-success` |
| DashboardView.AssigneeId | src/pages/Dashboard.jsx:81 | the assign dialog preselects the current assignee's id, or the empty string when unassigned |
| DashboardView.Ids | src/pages/Dashboard.jsx:238 | select-all produces one id per loaded nomination, in list order |
| DashboardView.SelectAllContains | src/pages/Dashboard.jsx:238-239 | after select-all an id is selected iff some loaded nomination carries it |
| DashboardView.RemoveAll | src/pages/Dashboard.jsx:266 | unchecking removes every occurrence of the id and keeps every other id with its multiplicity |
| DashboardView.RemoveAllDistributes | src/pages/Dashboard.jsx:266 | the filter works piecewise over concatenation, so the remaining ids keep their order |
| DashboardView.RemoveAllAbsent | src/pages/Dashboard.jsx:266 | unchecking an id that is not selected leaves the selection unchanged |
| DashboardView.HeaderChecked | src/pages/Dashboard.jsx:244 | the header's derived state; a checked header implies a non-empty list and a non-empty selection |
| DashboardView.RemoveAllNoDup | src/pages/Dashboard.jsx:266 | unticking a row never creates a duplicate id in the selection |
| DashboardView.AppendFreshNoDup | src/pages/Dashboard.jsx:264 | ticking a row whose id is not selected keeps the selection free of duplicates |
| DashboardView.ClickRow | src/pages/Dashboard.jsx:261-268 | a click on the controlled row checkbox removes the id iff it was selected and adds it iff it was not; every other id's membership is unchanged |
| DashboardView.ClickRowKeepsNoDup | src/pages/Dashboard.jsx:261-268 | a row click keeps the selection free of duplicate ids |
| DashboardView.ClickRowKeepsLoaded | src/pages/Dashboard.jsx:257-268 | a click on a loaded row keeps a selection of loaded ids free of stale ids |
| DashboardView.ClickHeader | src/pages/Dashboard.jsx:236-244 | a click on the controlled header clears the selection when it reads checked; otherwise it selects exactly the loaded ids, after which it reads checked iff there are rows |
| DashboardView.ClickHeaderConsistent | src/pages/Dashboard.jsx:236-244 | with unique row ids, the header's selection has no duplicates and only loaded ids |
| DashboardView.SelectAllChecksHeader | src/pages/Dashboard.jsx:244 | after select-all the header reads checked iff the list is not empty |
| DashboardView.HeaderCheckedIsLengthOnly | src/pages/Dashboard.jsx:244 | the header compares lengths only: a selection of one stale id reads checked over a one-row list that is not selected |
| DashboardView.HeaderCheckedIffAllSelected | src/pages/Dashboard.jsx:244 | with unique ids and no stale ids, the header reads checked iff the list is non-empty and every loaded id is selected |
| Dashboard.FetchCalls | src/pages/Dashboard.jsx:45-53 | a fetch issues GET `/nominations` with the current user and status filters, and GET `/nominations/stats/summary` only after the list succeeded |
| Dashboard.DashboardPage.constructor | src/pages/Dashboard.jsx:32-40 | the dashboard mounts with empty list and stats, empty filters, loading set, and nothing selected (the selection state of line 144) |
| Dashboard.DashboardPage.FetchNominations | src/pages/Dashboard.jsx:42-59 | loading ends false in every case; a failed list request keeps list and stats; a failed summary request keeps stats but takes the new list |
| Dashboard.DashboardPage.ToggleHeader | src/pages/Dashboard.jsx:236-244 | a click on a checked header empties the selection, on an unchecked one selects exactly the loaded ids in order; the header then reads checked iff it did not before and there are rows; with unique row ids the new selection has no duplicates or stale ids |
| Dashboard.DashboardPage.ToggleRow | src/pages/Dashboard.jsx:261-268 | a click on an unticked row appends its id, on a ticked one removes all its occurrences; other ids' membership is unchanged; no duplicate is created, and a loaded row's click adds no stale id |
| Dashboard.DashboardPage.BulkAction | src/pages/Dashboard.jsx:184-214 | a prompt is shown exactly when an action is chosen and the selection is non-empty; with no action or no selection: an error toast, no prompt, no request, nothing changed; cancelled or failed: selection unchanged; confirmed success: one PUT with all selected ids, selection cleared, list refetched; it runs only when the chosen option differs from the one shown |
| Dashboard.DashboardPage.CardClick | src/pages/Dashboard.jsx:75-77 | the status filter becomes the card's key; the fetch effect reruns iff the key differs from the current filter |
| Dashboard.DashboardPage.AssignUser | src/pages/Dashboard.jsx:79-83 | opens the assign dialog on the nomination with its assignee preselected |
| Dashboard.RejectedChoiceSticks | src/pages/Dashboard.jsx:183-188 | an action refused for an empty selection stays shown in the drop-down after a row is ticked, so it cannot be chosen again directly |
| Dashboard.PlaceholderUnsticks | src/pages/Dashboard.jsx:183-216 | with a stuck action and rows selected, choosing the placeholder is refused with "Select nominations" and then the action is asked for; when confirmed it sends the bulk update with the selection; the drop-down ends on the placeholder |
| Dashboard.FailedRefreshKeepsRows | src/pages/Dashboard.jsx:55-58 | a card click followed by a failed fetch keeps rows, counts and selection and lowers the loading flag |
| NominationForm.InitialForm | src/components/NominationForm.jsx:8-17 | absent or falsy text fields start empty, the party starts as "seller" unless a truthy value is given, the dates start as the at-most-ten-character prefix of the given string or empty |
| NominationForm.DatePart | src/components/NominationForm.jsx:12-13 | a date field starts as the first ten characters of the given string (all of it when shorter), or empty when absent |
| NominationForm.CreateStartsBlank | src/components/NominationForm.jsx:8-17 | with no initial values every text field is empty and the party is "seller" |
| NominationForm.With | src/components/NominationForm.jsx:21-24 | a change sets exactly the named field to the value and leaves every other field as it was |
| NominationForm.FormExtensional | src/components/NominationForm.jsx:21-24 | a record is fixed by the values of its eight controls, so the change handler's two clauses determine the whole new record |
| NominationForm.ChangeUndone | src/components/NominationForm.jsx:21-24 | typing a field's old value back restores the whole record |
| NominationForm.ChangesCommute | src/components/NominationForm.jsx:21-24 | changes to two different fields can be made in either order |
| NominationForm.SubmitCall | src/components/NominationForm.jsx:30-36 | editing sends PUT `/nominations/<id>` (`undefined` for a missing id, `null` for a null one), creating sends POST `/nominations`; the body is the current record |
| NominationForm.UpdatePathNamesTheId | src/components/NominationForm.jsx:31 | between real ids, two edits sent to the same path edit the same nomination |
| NominationForm.MissingIdCollides | src/components/NominationForm.jsx:31 | an edit without an id goes to the same path as an edit of the nomination whose id is "undefined" |
| NominationForm.Submittable | src/components/NominationForm.jsx:50-79 | the browser lets the form submit exactly when every control marked `required` (all but the party drop-down) is non-empty |
| NominationForm.BlankFormBlocked | src/components/NominationForm.jsx:50-79 | a new nomination's blank form cannot be submitted |
| NominationForm.NominationFormPage.constructor | src/components/NominationForm.jsx:7-17 | the form starts from the derived initial record and has not navigated |
| NominationForm.NominationFormPage.HandleChange | src/components/NominationForm.jsx:21-24 | the named field changes and no other |
| NominationForm.NominationFormPage.HandleSubmit | src/components/NominationForm.jsx:26-42 | navigates to `/` only after the request succeeds; on failure shows the error and stays; the record is never changed; it runs only on a submittable record, as the browser guarantees |
| Admin.SubmitCall | src/pages/Admin.jsx:41-55 | editing sends PUT `/users/<id>`, creating sends POST `/users`; both carry the form's name and password and `is_admin` false |
| Admin.RowActions | src/pages/Admin.jsx:105-121 | every row has Edit; Delete is offered iff the user's name is not exactly "admin" |
| Admin.ProtectionIsByName | src/pages/Admin.jsx:113 | neither the administrator flag nor the id affects which buttons a row shows |
| Admin.AdminPage.constructor | src/pages/Admin.jsx:9-12 | the page mounts with no users, the modal closed, nobody being edited and an empty form |
| Admin.AdminPage.FetchUsers | src/pages/Admin.jsx:14-17 | the list becomes the server's answer; a failure keeps it |
| Admin.AdminPage.HandleShow | src/pages/Admin.jsx:23-30 | the edited user becomes the argument, the name its name or empty, the password empty, and the modal opens |
| Admin.AdminPage.HandleClose | src/pages/Admin.jsx:32-36 | the modal closes, the form resets to empty name and password, and nobody is edited |
| Admin.AdminPage.ChangeName | src/pages/Admin.jsx:139-141 | only the form's name changes |
| Admin.AdminPage.ChangePassword | src/pages/Admin.jsx:150-152 | only the form's password changes |
| Admin.AdminPage.HandleSubmit | src/pages/Admin.jsx:38-61 | a failed save changes nothing; a successful save closes and resets the modal and reloads the users, and a failed reload adds an error toast; it runs only with a non-empty name, which the `required` input guarantees |
| Admin.AdminPage.HandleDelete | src/pages/Admin.jsx:63-81 | no request unless confirmed; then DELETE `/users/<id>` and, on success, a reload |
| Admin.ShowThenClose | src/pages/Admin.jsx:23-36 | whatever user the modal was opened on, closing it returns to the closed state and keeps the list |
| Admin.EditAndSave | src/pages/Admin.jsx:23-61 | editing a user, renaming and saving sends PUT for that user with the new name, an empty password and `is_admin` false, and ends closed |

## Left out

- HTTP (axios), toasts, SweetAlert prompts and the clipboard are foreign I/O. Their outcomes are inputs and their effects are returned values.
- Calendar arithmetic of the date library (locale week start, millisecond `isAfter`) is not modelled. The classifier takes its answers as a `DateRel`.
- Dashboard.DashboardPage.FetchNominations: states only the state after the run. That `loading` is true while the requests are outstanding is not observable in this sequential model.
- Dashboard.DashboardPage.BulkAction: the refetch after a successful update is not awaited in the source. The model runs it to completion inside the handler with its outcomes as inputs.
- Dashboard.DashboardPage.BulkAction: does not state the wording of the confirmation prompt (it prints the selection's length and the action).
- Logging is not modelled: the `console.error` of a failed fetch (`src/pages/Dashboard.jsx:56`) has no observable effect on the page.
- The browser's constraint validation is not modelled as an event of its own. The two submit handlers require what it guarantees (`NominationForm.Submittable`, a non-empty user name), and the blocked submit itself, which changes nothing, has no member.
- Overlapping fetches and their completion order are not modelled. The code has no protection against them and a sequential model has nothing to say about them.
- The dashboard's other handlers are not modelled: the user list fetch on mount, `submitAssignUser`, edit navigation, single delete, and the two "send" clipboard actions. The user filter drop-down is not modelled either. They are request wrappers outside the modelled core.
- The rendering of cells (dates formatted with the date library, assignee name) is not modelled.
- `handleChange` accepts only the names of the eight form controls, because every control carries one of them. A computed key outside those names, which the source would add to the record, cannot arise from the form.
- Authentication context, private routes, routing, layout, the login page, the nomination page wrapper and the build configuration are not part of this model (`src/context/AuthContext.jsx`, `src/components/PrivateRoute.jsx`, `src/App.jsx`, `src/components/Layout.jsx`, `src/main.jsx`, `src/pages/Login.jsx`, `src/pages/NominationPage.jsx`, `vite.config.js`).
- NominationForm.DatePart: counts Dafny characters (Unicode scalar values), while JavaScript's `slice` counts UTF-16 code units. The two agree unless the first ten characters hold one outside the Basic Multilingual Plane, which an ISO date string never does.
- JSON values are typed: a stats entry is an integer, a name or id is a string. Non-string falsy values such as `0` or `false` in a text field are read as the empty string.
