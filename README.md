# Attendance admin roster, modelled in Dafny

This project models the admin page of an employee attendance dashboard
(`src/app/page.js`). The page keeps a roster table of employee rows. Each row
has an id, a name, a position, an attendance status and an
`isAttendanceChanged` dirty flag, plus location and device columns. The page
handlers work on that table:

- **Load**: the roster reply is formatted into rows with defaults. Each row's
  attendance-status reply is merged onto it. The merged table is published
  only if every status lookup succeeded.
- **Attendance edit**: a pick in a row's drop-down sets the status and the
  dirty flag of every row with that id. No request is made.
- **Save**: sends the id, and the status and name of the first row with that
  id. The reply "Attendance updated successfully" clears the dirty flag of the
  rows with that id. Any other reply leaves the table as it is. (The model
  clears only rows that still hold the status sent; see "## Findings".)
- **Create**: sends the form. The reply "Employee saved successfully", when it
  carries the saved record, appends one clean "Absent" row, resets the form
  and closes the modal.

`admin_data.dfy` (module `AdminData`) holds the records, the replies and the
rows as datatypes. It also holds the list transformations as functions over
`seq<Row>`. A JavaScript property that is missing or `undefined` is `None`.
Formatting writes `checkoutLocation`/`checkoutMobileDetails` (lower-case o).
The merge writes `checkOutLocation`/`checkOutMobileDetails` (capital O). A row
keeps all four as distinct fields.

`admin_page.dfy` (module `AdminPage`) holds the page component as class
`Home`. Its fields are `employees`, `loading`, `showModal` and `newEmployee`,
with one method per handler. Each method's postcondition ties the new state to
the functions of `AdminData`. The class invariant `Valid()` says that every
unsaved edit in the table is one of the drop-down's values ("Checked In",
"Checked Out", "Absent"). Every handler preserves it.

Every network result is a parameter: a record, a reply, or `None` for a
request that was rejected. Each handler runs as one step, from the click to
the reply.

Two behaviours of the code are worth stating:

- The drop-down offers only "Checked In", "Checked Out" and "Absent". A status
  the service returns outside these (such as "Present") is held in the row, but
  the drop-down displays "Checked In". "Checked In" cannot be picked there
  without first picking another value.
- A status reply without a `status` leaves the row's attendance missing. The
  code does not check the status lookups' HTTP status, so such replies count as
  successes.

## Model

| member | source | states |
|---|---|---|
| `AdminData.FormatRoster` | src/app/page.js:67-83 | one row per roster record, in order; each row has the record's `_id`, name and designation, attendance "Absent", a clear dirty flag, the four location/device fields defaulted to "" when missing, no capital-O checkout fields, and the record's remaining fields verbatim |
| `AdminData.JoinStatuses` | src/app/page.js:86-120 | all-or-nothing join: a merged list exists iff every per-employee lookup succeeded; it keeps length and order, and row i takes lookup i's status and its four location/device fields (or "No location"/"No mobile details"), every other field, the dirty flag included, kept |
| `AdminData.LoadRoster` | src/app/page.js:53-125 | a new table exists iff the roster request and every status lookup succeeded, and then has one row per roster record |
| `AdminData.LoadedRowsReflectService` | src/app/page.js:67-108 | after a successful load, row i is employee i, clean, holding the status the service returned for it, with lower-case checkout fields defaulted from the record and check-in/check-out fields from the status reply with their fallbacks |
| `AdminData.LoadedRosterIsClean` | src/app/page.js:67-108 | a freshly loaded table has no unsaved edit |
| `AdminData.ChangeAttendance` | src/app/page.js:188-195 | length and order kept; every row with the id gets the picked status and a set dirty flag, every other field unchanged; every other row unchanged |
| `AdminData.ChangeAttendanceLastWins` | src/app/page.js:188-195 | a second pick for the same id replaces the first |
| `AdminData.ChangeAttendanceCommutes` | src/app/page.js:188-195 | picks for two different ids do not interfere |
| `AdminData.ChangeAttendanceKeepsEditsSelectable` | src/app/page.js:275-285 | a pick from the drop-down keeps every unsaved edit one of the drop-down's values |
| `AdminData.FirstIndex` | src/app/page.js:198 | `find` by id: no index iff no row has the id, otherwise the first row that has it |
| `AdminData.SaveRequest` | src/app/page.js:197-209 | a request exists iff some row has the id; it carries that id and the status and name of the first such row |
| `AdminData.SaveAfterChangeSendsPick` | src/app/page.js:188-209 | Save sends the current state: after picking s for an id that is in the table, the request's status is s |
| `AdminData.SavedStatusIsSelectable` | src/app/page.js:197-209 | when the first row with the id is dirty (its Save button enabled), the status sent is one of the drop-down's values |
| `AdminData.ClearDirty` | src/app/page.js:213-217 | length and order kept; rows with the id only lose their dirty flag; other rows unchanged |
| `AdminData.RepeatedSaveReplyIsHarmless` | src/app/page.js:213-217 | Save stays enabled while its request is in flight, so a second click sends a second request; under one-step handlers (the corrected `SaveOutcome`), after a first success any reply to the second request leaves the table unchanged. As written, the second reply re-publishes the list captured at the second click |
| `AdminData.ClearSaved` | src/app/page.js:213-217 | length and order kept; rows with the id that still hold the status sent lose their dirty flag and nothing else; every other row is unchanged |
| `AdminData.SaveOutcome` | src/app/page.js:211-222 | only dirty flags can change; a flag ends set iff it was set and not (the reply is the success sentinel, the row has the id and the row still holds the status sent); any other reply or a failure leaves the table unchanged |
| `AdminData.RepickDuringSaveStaysDirty` | src/app/page.js:188-217 | a row picked again with a different status while its save is in flight keeps the new pick and stays dirty after the success reply |
| `AdminData.SaveOutcomeKeepsEditsSelectable` | src/app/page.js:213-220 | a save reply keeps every unsaved edit selectable |
| `AdminData.SavedPickIsKept` | src/app/page.js:188-217 | pick s then a successful save of s: rows with the id keep the picked status and end clean; every other row is as before the pick |
| `AdminData.CreateOutcome` | src/app/page.js:151-185 | a new table exists iff the reply is the success sentinel and carries the record; then it is the old table with exactly one row appended, holding the record's id, name and position, "Absent" and a clear flag, and no other field |
| `AdminData.CreateKeepsEditsSelectable` | src/app/page.js:155-164 | appending a created row keeps every unsaved edit selectable |
| `AdminData.ResetFormSendsLikeInitial` | src/app/page.js:165-179 | the reset form differs from the initial form (no location/device fields), yet both produce the same create request |
| `AdminData.CreateRequestOf` | src/app/page.js:135-149 | the create request carries what was typed into each of the six inputs, and the form's current values of the fields no input edits |
| `AdminData.CreateRequestIgnoresDeviceFields` | src/app/page.js:135-149 | the form's location and device fields never reach the create request |
| `AdminData.SetField` | src/app/page.js:318-373 | typing into one input sets that field; every other text field and every non-text field is kept |
| `AdminData.SaveReplyAsWritten` | src/app/page.js:213-217 | the save reply as written: on success the published table is the click-time list, row for row, with the flag cleared on rows with the id; otherwise the current table is kept |
| `AdminData.SaveReplyAsWrittenWithoutInterleaving` | src/app/page.js:213-217 | with nothing happening between click and reply, and every row with the id holding the status sent, the save handler as written equals `SaveOutcome` |
| `AdminData.SaveReplyLosesInterleavedEdit` | src/app/page.js:213-217 | counterexample: a pick on another row made while a save is in flight is reverted by the success reply, while `SaveOutcome` keeps it |
| `AdminData.SaveReplyLosesSameRowRepick` | src/app/page.js:188-217 | counterexample: a pick on the saved row itself made while its save is in flight is published clean with the old status by the success reply, while `SaveOutcome` keeps the new pick dirty |
| `AdminData.CreateReplyAsWritten` | src/app/page.js:155-164 | the create reply as written: on success the published table is the click-time list with one row appended, built from the saved record; otherwise the current table is kept |
| `AdminData.CreateReplyAsWrittenWithoutInterleaving` | src/app/page.js:153-164 | with nothing happening between click and reply, the create handler as written equals `CreateOutcome` |
| `AdminData.CreateReplyLosesInterleavedEdit` | src/app/page.js:155-164 | counterexample: a pick made while a create is in flight is reverted by the success reply, while `CreateOutcome` keeps it |
| `AdminPage.Home.constructor` | src/app/page.js:24-43 | empty table, initial form (with empty location and device fields), modal closed, not loading |
| `AdminPage.Home.BeginLoad` | src/app/page.js:53-54 | mounting sets `loading` |
| `AdminPage.Home.FinishLoad` | src/app/page.js:56-125 | `loading` ends false in every outcome; the table becomes the loaded roster when everything succeeded and is otherwise unchanged |
| `AdminPage.Home.OpenModal` | src/app/page.js:229-231 | the modal opens; nothing else changes |
| `AdminPage.Home.CloseModal` | src/app/page.js:316 | the modal closes; the form is kept |
| `AdminPage.Home.EditForm` | src/app/page.js:318-373 | the form becomes `SetField` of the old form; nothing else changes |
| `AdminPage.Home.HandleAddEmployee` | src/app/page.js:128-186 | returns the request built from the form; on success the table is `CreateOutcome`, the form is reset and the modal closes; otherwise table, form and modal are unchanged; `Valid()` kept |
| `AdminPage.Home.HandleAttendanceChange` | src/app/page.js:188-195 | the table becomes `ChangeAttendance` of the old table; `Valid()` kept; nothing else changes and no request is made |
| `AdminPage.Home.HandleSaveAttendance` | src/app/page.js:197-223 | returns the request `SaveRequest` gives for the old table; the table becomes `SaveOutcome` for the status that request carries; `Valid()` kept |

## Findings

| source | as written | input that shows it | evidently intended | confidence | as-written member | corrected member |
|---|---|---|---|---|---|---|
| src/app/page.js:213-217 | on success the save reply maps over `employees` as captured when Save was clicked, clears the flag of every row with the id, and publishes that list | (1) rows a (dirty) and b (clean, "Absent"); click Save on a; pick "Checked Out" on b; the reply is success; b is back to "Absent" and clean. (2) row a (dirty, "Checked In"); click Save on a; pick "Absent" on a; the reply is success; a is a clean "Checked In" and the "Absent" edit is lost | in the list as it is when the reply arrives, clear the flag only on rows with the id that still hold the status that was sent | high, not executed | `AdminData.SaveReplyAsWritten`, `AdminData.SaveReplyLosesInterleavedEdit`, `AdminData.SaveReplyLosesSameRowRepick` | `AdminData.SaveOutcome`, `AdminData.RepickDuringSaveStaysDirty` |
| src/app/page.js:155-164 | on success the create reply appends to `employees` as captured when the button was clicked | row a (clean, "Absent"); click Add Employee; pick "Checked In" on a; the reply is success; a is back to "Absent" and clean. Likewise, a create clicked before the roster load finishes, answered after it, replaces the loaded roster with the single new row (the click-time list was empty) | append to the list as it is when the reply arrives | high, not executed | `AdminData.CreateReplyAsWritten`, `AdminData.CreateReplyLosesInterleavedEdit` | `AdminData.CreateOutcome` |

The class runs each handler as one step. There the as-written and the
corrected create agree. The save agrees too unless two rows share the id but
hold different statuses: the code then clears all of them, the model only
those holding the status sent (that of the first row). The two
`…WithoutInterleaving` lemmas prove this.

## Left out

- Network I/O, JSON parsing and the remote service. Every reply or failure is a parameter of the handler it ends.
- The text formatting of coordinates and of IMEI/model strings. A present location or device is an opaque display string. Only the present/absent fallback is modelled.
- JavaScript truthiness of non-string values. A missing field is `None`. A present field is kept as it is.
- Interleaving of handlers, and the concurrency of the per-employee status lookups. The join is a function over one outcome per employee. The stale-list effect of interleaving appears only in the Findings.
- The ordering of the roster load against a create. `FinishLoad` replaces the table with the loaded roster, so a row created while loading is still in progress is overwritten. The other order also loses data: a create reply arriving after the load finishes replaces the whole roster with the single new row, because the list captured at the click was empty (see "## Findings"). Neither order is traced further in the one-step class.
- `AdminPage.Home.HandleSaveAttendance` requires a dirty row with the id, because the Save button is disabled otherwise (src/app/page.js:290-294). The missing-row case, where the code throws before sending, is modelled by `SaveRequest` returning `None`.
- `AdminPage.Home.HandleAttendanceChange` requires the new status to be one of the drop-down's three options (src/app/page.js:275-285), the only values the select can emit.
- The `maxLength` of the PIN input, and the form's number fields, which no input edits.
- Console logging, the rendering of the table, the spinner and the modal.
- `handleViewUser` (navigation with a serialised row).
- src/app/add-employee/page.js, src/app/empsalarycal/page.js and src/app/employee/[id]/page.js are not part of this model: they are form glue, a read-only table and a detail editor. src/app/page.js has no attendance-history filter, export or delete, so none is modelled.
