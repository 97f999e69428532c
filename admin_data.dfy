/**
 * The data of the admin attendance page (src/app/page.js): the rows of the
 * roster table, the records and replies the remote attendance service sends,
 * and the pure list transformations the page's handlers apply to the roster.
 *
 * A JavaScript property that is missing (or `undefined`) is `None`; a field
 * that the service always sends is a plain value. Every network result enters
 * the model as a value: a record, a reply, or `None` for a request that failed.
 */
module AdminData {

  datatype Option<+T> = None | Some(value: T) {
    /** The value, or `default` when there is none. */
    function GetOr(default: T): T {
      match this
      case Some(v) => v
      case None => default
    }
  }

  /** An employee's `_id`; rows are matched with `===` on it. */
  type Id = string

  const Absent := "Absent"
  const NoLocation := "No location"
  const NoMobileDetails := "No mobile details"

  /** The sentinel messages the service answers with on success. */
  const EmployeeSaved := "Employee saved successfully"
  const AttendanceUpdated := "Attendance updated successfully"

  /** The values of the attendance drop-down of each row, in display order. */
  const StatusOptions: seq<string> := ["Checked In", "Checked Out", Absent]

  /** The fields a roster row copies verbatim from the employee record. */
  datatype Profile = Profile(
    activeEmployee: Option<bool>,
    phoneNumber: Option<string>,
    address: Option<string>,
    dateOfBirth: Option<string>,
    joiningDate: Option<string>,
    pin: Option<string>)

  /** An employee as the roster endpoint and the create endpoint return it. */
  datatype EmployeeRecord = EmployeeRecord(
    id: Id,
    employeeName: Option<string>,
    designation: Option<string>,
    checkInLocation: Option<string>,
    mobileDetails: Option<string>,
    checkoutLocation: Option<string>,
    checkoutMobileDetails: Option<string>,
    profile: Profile)

  /**
   * A reply of the attendance-status endpoint. A present location or device
   * is the display string the page formats from it ("(lat, long)",
   * "IMEI: …, Model: …"); only presence and absence are modelled.
   */
  datatype AttendanceStatus = AttendanceStatus(
    status: Option<string>,
    location: Option<string>,
    mobileDetails: Option<string>,
    checkOutLocation: Option<string>,
    checkOutMobileDetails: Option<string>)

  /**
   * A row of the roster table. Formatting writes `checkoutLocation` and
   * `checkoutMobileDetails`; the attendance merge writes `checkOutLocation`
   * and `checkOutMobileDetails`: four distinct properties. `profile` is
   * missing on rows appended after a create.
   */
  datatype Row = Row(
    id: Id,
    name: Option<string>,
    position: Option<string>,
    checkInLocation: Option<string>,
    mobileDetails: Option<string>,
    checkoutLocation: Option<string>,
    checkoutMobileDetails: Option<string>,
    checkOutLocation: Option<string>,
    checkOutMobileDetails: Option<string>,
    attendance: Option<string>,
    isAttendanceChanged: bool,
    profile: Option<Profile>)

  /** The body of the update-attendance request. */
  datatype UpdateRequest = UpdateRequest(employeeId: Id, status: Option<string>, name: Option<string>)

  /** A parsed reply of the create endpoint. */
  datatype CreateReply = CreateReply(message: Option<string>, employee: Option<EmployeeRecord>)

  /** The state of the "Add New Employee" form. */
  datatype EmployeeForm = EmployeeForm(
    employeeName: string,
    designation: string,
    phoneNumber: string,
    dateOfBirth: string,
    joiningDate: string,
    checkInLocation: Option<string>,
    mobileDetails: Option<string>,
    activeEmployee: bool,
    salary: int,
    address: string,
    basicSalary: int,
    houseRent: int,
    medicalAllowance: int,
    providentFund: int,
    pin: string)

  /** The form as the page starts with it. */
  const InitialForm := EmployeeForm("", "", "", "", "", Some(""), Some(""), true, 0, "", 0, 0, 0, 0, "")

  /** The form after a successful create: it has no location or device fields. */
  const ResetForm := EmployeeForm("", "", "", "", "", None, None, true, 0, "", 0, 0, 0, 0, "")

  /** The body of the create request. */
  datatype CreateRequest = CreateRequest(
    employeeName: string,
    designation: string,
    phoneNumber: string,
    dateOfBirth: string,
    joiningDate: string,
    activeEmployee: bool,
    salary: int,
    address: string,
    basicSalary: int,
    houseRent: int,
    medicalAllowance: int,
    providentFund: int,
    pin: string)

  /** The text inputs of the form. */
  datatype FormField = EmployeeName | Designation | DateOfBirth | PhoneNumber | JoiningDate | Pin

  // ---------------------------------------------------------------------------
  // Specification predicates

  /**
   * `field` holds `source` when it is present and `fallback` when it is not,
   * as `source || fallback` and `source ? … : fallback` do for strings and
   * objects.
   */
  ghost predicate Defaulted(field: Option<string>, source: Option<string>, fallback: string) {
    && (source.Some? ==> field == source)
    && (source.None? ==> field == Some(fallback))
  }

  /** `row` is the table row formatted from the employee record `e`. */
  ghost predicate FormattedFrom(row: Row, e: EmployeeRecord) {
    && row.id == e.id
    && row.name == e.employeeName
    && row.position == e.designation
    && Defaulted(row.checkInLocation, e.checkInLocation, "")
    && Defaulted(row.mobileDetails, e.mobileDetails, "")
    && Defaulted(row.checkoutLocation, e.checkoutLocation, "")
    && Defaulted(row.checkoutMobileDetails, e.checkoutMobileDetails, "")
    && row.checkOutLocation.None?
    && row.checkOutMobileDetails.None?
    && row.attendance == Some(Absent)
    && !row.isAttendanceChanged
    && row.profile == Some(e.profile)
  }

  /**
   * `m` is `row` with the status reply `st` laid over it: the status and the
   * four location and device fields come from the reply, with fixed fallbacks,
   * and every other field, the dirty flag included, is the row's.
   */
  ghost predicate MergedFrom(m: Row, row: Row, st: AttendanceStatus) {
    && m.attendance == st.status
    && Defaulted(m.checkInLocation, st.location, NoLocation)
    && Defaulted(m.mobileDetails, st.mobileDetails, NoMobileDetails)
    && Defaulted(m.checkOutLocation, st.checkOutLocation, NoLocation)
    && Defaulted(m.checkOutMobileDetails, st.checkOutMobileDetails, NoMobileDetails)
    && m.(attendance := row.attendance,
          checkInLocation := row.checkInLocation,
          mobileDetails := row.mobileDetails,
          checkOutLocation := row.checkOutLocation,
          checkOutMobileDetails := row.checkOutMobileDetails) == row
  }

  /** `row` is the row appended for the server-confirmed employee `e`: five fields and no others. */
  ghost predicate CreatedFrom(row: Row, e: EmployeeRecord) {
    && row.id == e.id
    && row.name == e.employeeName
    && row.position == e.designation
    && row.attendance == Some(Absent)
    && !row.isAttendanceChanged
    && row.checkInLocation.None? && row.mobileDetails.None?
    && row.checkoutLocation.None? && row.checkoutMobileDetails.None?
    && row.checkOutLocation.None? && row.checkOutMobileDetails.None?
    && row.profile.None?
  }

  /** `k` is the position of the first row with id `id`, the one `find` returns. */
  ghost predicate FirstMatch(rows: seq<Row>, id: Id, k: int) {
    && 0 <= k < |rows|
    && rows[k].id == id
    && forall j :: 0 <= j < k ==> rows[j].id != id
  }

  /**
   * Every unsaved edit holds one of the drop-down's values: the only way a row
   * becomes dirty is a pick from the drop-down.
   */
  predicate EditsSelectable(rows: seq<Row>) {
    forall i :: 0 <= i < |rows| && rows[i].isAttendanceChanged ==>
      rows[i].attendance.Some? && rows[i].attendance.value in StatusOptions
  }

  // ---------------------------------------------------------------------------
  // Loading the roster

  function FormatEmployee(e: EmployeeRecord): Row {
    Row(id := e.id,
        name := e.employeeName,
        position := e.designation,
        checkInLocation := Some(e.checkInLocation.GetOr("")),
        mobileDetails := Some(e.mobileDetails.GetOr("")),
        checkoutLocation := Some(e.checkoutLocation.GetOr("")),
        checkoutMobileDetails := Some(e.checkoutMobileDetails.GetOr("")),
        checkOutLocation := None,
        checkOutMobileDetails := None,
        attendance := Some(Absent),
        isAttendanceChanged := false,
        profile := Some(e.profile))
  }

  /** The rows the page builds from the roster reply, one per record, in order. */
  function FormatRoster(es: seq<EmployeeRecord>): (rows: seq<Row>)
    ensures |rows| == |es|
    ensures forall i :: 0 <= i < |es| ==> FormattedFrom(rows[i], es[i])
  {
    if es == [] then [] else [FormatEmployee(es[0])] + FormatRoster(es[1..])
  }

  function MergeStatus(row: Row, st: AttendanceStatus): Row {
    row.(attendance := st.status,
         checkInLocation := Some(st.location.GetOr(NoLocation)),
         mobileDetails := Some(st.mobileDetails.GetOr(NoMobileDetails)),
         checkOutLocation := Some(st.checkOutLocation.GetOr(NoLocation)),
         checkOutMobileDetails := Some(st.checkOutMobileDetails.GetOr(NoMobileDetails)))
  }

  /**
   * The all-or-nothing join of the per-employee status lookups: `lookups[i]`
   * is the outcome of the lookup for `rows[i]`, `None` when it was rejected.
   * The merged list exists exactly when every lookup succeeded.
   */
  function JoinStatuses(rows: seq<Row>, lookups: seq<Option<AttendanceStatus>>): (r: Option<seq<Row>>)
    requires |lookups| == |rows|
    ensures r.Some? <==> forall i :: 0 <= i < |lookups| ==> lookups[i].Some?
    ensures r.Some? ==> |r.value| == |rows|
    ensures r.Some? ==> forall i :: 0 <= i < |rows| ==> MergedFrom(r.value[i], rows[i], lookups[i].value)
  {
    if rows == [] then Some([])
    else
      match lookups[0]
      case None => None
      case Some(st) =>
        match JoinStatuses(rows[1..], lookups[1..])
        case None => None
        case Some(rest) => Some([MergeStatus(rows[0], st)] + rest)
  }

  /**
   * The outcome of loading: `None` when the roster request failed or any
   * status lookup failed (the table is then left as it was), otherwise the
   * formatted roster with every status merged in.
   */
  function LoadRoster(roster: Option<seq<EmployeeRecord>>, lookups: seq<Option<AttendanceStatus>>): (r: Option<seq<Row>>)
    requires roster.Some? ==> |lookups| == |roster.value|
    ensures r.Some? <==> roster.Some? && forall i :: 0 <= i < |lookups| ==> lookups[i].Some?
    ensures r.Some? ==> |r.value| == |roster.value|
  {
    match roster
    case None => None
    case Some(es) => JoinStatuses(FormatRoster(es), lookups)
  }

  /**
   * After a successful load, row `i` is employee `i` of the roster, clean,
   * holding the status the service returned for it, with the record's
   * lower-case checkout fields defaulted to "" and the reply's location and
   * device fields (with their fallbacks) laid over it.
   */
  lemma LoadedRowsReflectService(es: seq<EmployeeRecord>, lookups: seq<Option<AttendanceStatus>>, i: int)
    requires |lookups| == |es|
    requires LoadRoster(Some(es), lookups).Some?
    requires 0 <= i < |es|
    ensures lookups[i].Some?
    ensures var row := LoadRoster(Some(es), lookups).value[i];
            var st := lookups[i].value;
            && row.id == es[i].id
            && row.name == es[i].employeeName
            && row.position == es[i].designation
            && row.attendance == st.status
            && !row.isAttendanceChanged
            && Defaulted(row.checkoutLocation, es[i].checkoutLocation, "")
            && Defaulted(row.checkoutMobileDetails, es[i].checkoutMobileDetails, "")
            && Defaulted(row.checkInLocation, st.location, NoLocation)
            && Defaulted(row.mobileDetails, st.mobileDetails, NoMobileDetails)
            && Defaulted(row.checkOutLocation, st.checkOutLocation, NoLocation)
            && Defaulted(row.checkOutMobileDetails, st.checkOutMobileDetails, NoMobileDetails)
            && row.profile == Some(es[i].profile)
  {
  }

  /** A successful load yields a table with no unsaved edit. */
  lemma LoadedRosterIsClean(es: seq<EmployeeRecord>, lookups: seq<Option<AttendanceStatus>>)
    requires |lookups| == |es|
    requires LoadRoster(Some(es), lookups).Some?
    ensures forall i :: 0 <= i < |es| ==> !LoadRoster(Some(es), lookups).value[i].isAttendanceChanged
    ensures EditsSelectable(LoadRoster(Some(es), lookups).value)
  {
  }

  // ---------------------------------------------------------------------------
  // Editing and saving attendance

  /** The drop-down handler: every row with id `id` takes status `s` and becomes dirty. */
  function ChangeAttendance(rows: seq<Row>, id: Id, s: string): (r: seq<Row>)
    ensures |r| == |rows|
    ensures forall i :: 0 <= i < |rows| && rows[i].id != id ==> r[i] == rows[i]
    ensures forall i :: 0 <= i < |rows| && rows[i].id == id ==>
              r[i] == rows[i].(attendance := Some(s), isAttendanceChanged := true)
  {
    if rows == [] then []
    else
      var head := if rows[0].id == id then rows[0].(attendance := Some(s), isAttendanceChanged := true) else rows[0];
      [head] + ChangeAttendance(rows[1..], id, s)
  }

  /** The position of the row `find` returns, `None` when no row has id `id`. */
  function FirstIndex(rows: seq<Row>, id: Id): (k: Option<nat>)
    ensures k.None? <==> forall i :: 0 <= i < |rows| ==> rows[i].id != id
    ensures k.Some? ==> FirstMatch(rows, id, k.value)
  {
    if rows == [] then None
    else if rows[0].id == id then Some(0)
    else
      match FirstIndex(rows[1..], id)
      case None => None
      case Some(k) => Some(k + 1)
  }

  /**
   * The body Save sends for id `id`: the status and name of the first row with
   * that id, as they are now. `None` when there is no such row (reading a
   * field of `undefined` throws before any request is made).
   */
  function SaveRequest(rows: seq<Row>, id: Id): (r: Option<UpdateRequest>)
    ensures r.None? <==> forall i :: 0 <= i < |rows| ==> rows[i].id != id
    ensures r.Some? ==> r.value.employeeId == id
    ensures r.Some? ==> exists k :: FirstMatch(rows, id, k) && r.value.status == rows[k].attendance && r.value.name == rows[k].name
  {
    match FirstIndex(rows, id)
    case None => None
    case Some(k) =>
      assert FirstMatch(rows, id, k);
      Some(UpdateRequest(id, rows[k].attendance, rows[k].name))
  }

  /** Clearing the dirty flag of every row with id `id`, and nothing else, as the save reply is written. */
  function ClearDirty(rows: seq<Row>, id: Id): (r: seq<Row>)
    ensures |r| == |rows|
    ensures forall i :: 0 <= i < |rows| && rows[i].id != id ==> r[i] == rows[i]
    ensures forall i :: 0 <= i < |rows| && rows[i].id == id ==> r[i] == rows[i].(isAttendanceChanged := false)
  {
    if rows == [] then []
    else
      var head := if rows[0].id == id then rows[0].(isAttendanceChanged := false) else rows[0];
      [head] + ClearDirty(rows[1..], id)
  }

  /**
   * Clearing the dirty flag of every row with id `id` that holds `sent`, the
   * status the service confirmed, and nothing else.
   */
  function ClearSaved(rows: seq<Row>, id: Id, sent: Option<string>): (r: seq<Row>)
    ensures |r| == |rows|
    ensures forall i :: 0 <= i < |rows| && !(rows[i].id == id && rows[i].attendance == sent) ==> r[i] == rows[i]
    ensures forall i :: 0 <= i < |rows| && rows[i].id == id && rows[i].attendance == sent ==>
              r[i] == rows[i].(isAttendanceChanged := false)
  {
    if rows == [] then []
    else
      var head := if rows[0].id == id && rows[0].attendance == sent then rows[0].(isAttendanceChanged := false) else rows[0];
      [head] + ClearSaved(rows[1..], id, sent)
  }

  /**
   * The table after the reply to Save for id `id`, applied to the table as it
   * is when the reply arrives: `sent` is the status the request carried and
   * `reply` the reply's message, `None` when the request failed or the reply
   * has none. Only dirty flags change, and a flag is cleared exactly when the
   * reply is the success sentinel, the row has that id and it still holds the
   * status that was sent.
   */
  function SaveOutcome(rows: seq<Row>, id: Id, sent: Option<string>, reply: Option<string>): (r: seq<Row>)
    ensures |r| == |rows|
    ensures forall i :: 0 <= i < |rows| ==> r[i] == rows[i].(isAttendanceChanged := r[i].isAttendanceChanged)
    ensures forall i :: 0 <= i < |rows| ==>
              (r[i].isAttendanceChanged <==>
                 rows[i].isAttendanceChanged
                 && !(reply == Some(AttendanceUpdated) && rows[i].id == id && rows[i].attendance == sent))
  {
    if reply == Some(AttendanceUpdated) then ClearSaved(rows, id, sent) else rows
  }

  /** A later pick for the same id replaces an earlier one. */
  lemma ChangeAttendanceLastWins(rows: seq<Row>, id: Id, s: string, t: string)
    ensures ChangeAttendance(ChangeAttendance(rows, id, s), id, t) == ChangeAttendance(rows, id, t)
  {
  }

  /** Picks for different ids do not interfere. */
  lemma ChangeAttendanceCommutes(rows: seq<Row>, a: Id, s: string, b: Id, t: string)
    requires a != b
    ensures ChangeAttendance(ChangeAttendance(rows, a, s), b, t) == ChangeAttendance(ChangeAttendance(rows, b, t), a, s)
  {
  }

  /** Save sends what was picked: after a pick of `s` for `id`, the request carries `s`. */
  lemma SaveAfterChangeSendsPick(rows: seq<Row>, id: Id, s: string, i: int)
    requires 0 <= i < |rows| && rows[i].id == id
    ensures SaveRequest(ChangeAttendance(rows, id, s), id).Some?
    ensures SaveRequest(ChangeAttendance(rows, id, s), id).value.status == Some(s)
  {
  }

  /**
   * A successful save keeps the picked status and clears the flag: every row
   * with the id ends with status `s` and no unsaved edit, and every other row
   * is as it was before the pick.
   */
  lemma SavedPickIsKept(rows: seq<Row>, id: Id, s: string)
    ensures var r := SaveOutcome(ChangeAttendance(rows, id, s), id, Some(s), Some(AttendanceUpdated));
            && |r| == |rows|
            && (forall i :: 0 <= i < |rows| && rows[i].id == id ==>
                  r[i] == rows[i].(attendance := Some(s), isAttendanceChanged := false))
            && (forall i :: 0 <= i < |rows| && rows[i].id != id ==> r[i] == rows[i])
  {
  }

  /**
   * The Save button stays enabled until the reply arrives, so a second click
   * can send a second request; whatever its reply, it changes nothing after a
   * first success.
   */
  lemma RepeatedSaveReplyIsHarmless(rows: seq<Row>, id: Id, sent: Option<string>, reply: Option<string>)
    ensures var saved := SaveOutcome(rows, id, sent, Some(AttendanceUpdated));
            SaveOutcome(saved, id, sent, reply) == saved
  {
  }

  /**
   * A row picked again while its save is in flight keeps the new pick as an
   * unsaved edit: the success reply confirms `s`, the row now holds `t`.
   */
  lemma RepickDuringSaveStaysDirty(rows: seq<Row>, id: Id, s: string, t: string)
    requires s != t
    ensures var current := ChangeAttendance(rows, id, t);
            var r := SaveOutcome(current, id, Some(s), Some(AttendanceUpdated));
            && |r| == |rows|
            && forall i :: 0 <= i < |rows| && rows[i].id == id ==>
                 r[i].attendance == Some(t) && r[i].isAttendanceChanged
  {
  }

  /** A pick from the drop-down keeps every unsaved edit selectable. */
  lemma ChangeAttendanceKeepsEditsSelectable(rows: seq<Row>, id: Id, s: string)
    requires EditsSelectable(rows)
    requires s in StatusOptions
    ensures EditsSelectable(ChangeAttendance(rows, id, s))
  {
  }

  /** A save reply only clears flags, so the edits stay selectable. */
  lemma SaveOutcomeKeepsEditsSelectable(rows: seq<Row>, id: Id, sent: Option<string>, reply: Option<string>)
    requires EditsSelectable(rows)
    ensures EditsSelectable(SaveOutcome(rows, id, sent, reply))
  {
  }

  /**
   * When the Save button of a dirty row is enabled, the status sent is one of
   * the drop-down's values.
   */
  lemma SavedStatusIsSelectable(rows: seq<Row>, id: Id)
    requires EditsSelectable(rows)
    requires SaveRequest(rows, id).Some?
    requires rows[FirstIndex(rows, id).value].isAttendanceChanged
    ensures SaveRequest(rows, id).value.status.Some?
    ensures SaveRequest(rows, id).value.status.value in StatusOptions
  {
  }

  // ---------------------------------------------------------------------------
  // Creating an employee

  function CreatedRow(e: EmployeeRecord): Row {
    Row(id := e.id,
        name := e.employeeName,
        position := e.designation,
        checkInLocation := None,
        mobileDetails := None,
        checkoutLocation := None,
        checkoutMobileDetails := None,
        checkOutLocation := None,
        checkOutMobileDetails := None,
        attendance := Some(Absent),
        isAttendanceChanged := false,
        profile := None)
  }

  /**
   * The table after the reply to a create: `reply` is `None` when the request
   * failed. Exactly one row is appended when the reply is the success sentinel
   * and carries the saved record; otherwise there is no new table (reading
   * `_id` of a missing record throws, and the error is caught).
   */
  function CreateOutcome(rows: seq<Row>, reply: Option<CreateReply>): (r: Option<seq<Row>>)
    ensures r.Some? <==> reply.Some? && reply.value.message == Some(EmployeeSaved) && reply.value.employee.Some?
    ensures r.Some? ==> |r.value| == |rows| + 1 && r.value[..|rows|] == rows
    ensures r.Some? ==> CreatedFrom(r.value[|rows|], reply.value.employee.value)
  {
    match reply
    case None => None
    case Some(rep) =>
      if rep.message == Some(EmployeeSaved) then
        match rep.employee
        case None => None
        case Some(e) => Some(rows + [CreatedRow(e)])
      else None
  }

  /** An appended row has no unsaved edit, so the edits stay selectable. */
  lemma CreateKeepsEditsSelectable(rows: seq<Row>, reply: Option<CreateReply>)
    requires EditsSelectable(rows)
    requires CreateOutcome(rows, reply).Some?
    ensures EditsSelectable(CreateOutcome(rows, reply).value)
  {
  }

  /** The text of one input of the form, as it is currently typed. */
  function FieldValue(f: EmployeeForm, field: FormField): string {
    match field
    case EmployeeName => f.employeeName
    case Designation => f.designation
    case DateOfBirth => f.dateOfBirth
    case PhoneNumber => f.phoneNumber
    case JoiningDate => f.joiningDate
    case Pin => f.pin
  }

  /** The value of a typed input as the create request carries it. */
  function SentText(req: CreateRequest, field: FormField): string {
    match field
    case EmployeeName => req.employeeName
    case Designation => req.designation
    case DateOfBirth => req.dateOfBirth
    case PhoneNumber => req.phoneNumber
    case JoiningDate => req.joiningDate
    case Pin => req.pin
  }

  /**
   * The create request: what was typed into each input of the form, and the
   * form's current values of the fields no input edits.
   */
  function CreateRequestOf(f: EmployeeForm): (req: CreateRequest)
    ensures forall field :: SentText(req, field) == FieldValue(f, field)
    ensures req.activeEmployee == f.activeEmployee && req.address == f.address
    ensures req.salary == f.salary && req.basicSalary == f.basicSalary && req.houseRent == f.houseRent
    ensures req.medicalAllowance == f.medicalAllowance && req.providentFund == f.providentFund
  {
    CreateRequest(f.employeeName, f.designation, f.phoneNumber, f.dateOfBirth, f.joiningDate,
                  f.activeEmployee, f.salary, f.address, f.basicSalary, f.houseRent,
                  f.medicalAllowance, f.providentFund, f.pin)
  }

  /**
   * The reset form differs from the initial one (it lacks the location and
   * device fields), but only in fields that are never sent: both produce the
   * same create request.
   */
  lemma ResetFormSendsLikeInitial()
    ensures ResetForm != InitialForm
    ensures CreateRequestOf(ResetForm) == CreateRequestOf(InitialForm)
  {
  }

  /** The location and device fields of the form never reach the service. */
  lemma CreateRequestIgnoresDeviceFields(f: EmployeeForm, loc: Option<string>, mob: Option<string>)
    ensures CreateRequestOf(f.(checkInLocation := loc, mobileDetails := mob)) == CreateRequestOf(f)
  {
  }

  /** Typing into one input of the form: that field takes `v`, every other field is kept. */
  function SetField(f: EmployeeForm, field: FormField, v: string): (g: EmployeeForm)
    ensures FieldValue(g, field) == v
    ensures forall other :: other != field ==> FieldValue(g, other) == FieldValue(f, other)
    ensures g.checkInLocation == f.checkInLocation && g.mobileDetails == f.mobileDetails
    ensures g.activeEmployee == f.activeEmployee && g.address == f.address
    ensures g.salary == f.salary && g.basicSalary == f.basicSalary && g.houseRent == f.houseRent
    ensures g.medicalAllowance == f.medicalAllowance && g.providentFund == f.providentFund
  {
    match field
    case EmployeeName => f.(employeeName := v)
    case Designation => f.(designation := v)
    case DateOfBirth => f.(dateOfBirth := v)
    case PhoneNumber => f.(phoneNumber := v)
    case JoiningDate => f.(joiningDate := v)
    case Pin => f.(pin := v)
  }

  // ---------------------------------------------------------------------------
  // Replies applied to the list captured when the button was clicked

  /**
   * The save reply as the handler is written: on success it maps over
   * `snapshot`, the list captured when Save was clicked, and publishes that,
   * whatever `current` has become since.
   */
  function SaveReplyAsWritten(snapshot: seq<Row>, current: seq<Row>, id: Id, reply: Option<string>): (r: seq<Row>)
    ensures reply == Some(AttendanceUpdated) ==>
              && |r| == |snapshot|
              && forall i :: 0 <= i < |snapshot| ==> r[i] == snapshot[i].(isAttendanceChanged := snapshot[i].isAttendanceChanged && snapshot[i].id != id)
    ensures reply != Some(AttendanceUpdated) ==> r == current
  {
    if reply == Some(AttendanceUpdated) then ClearDirty(snapshot, id) else current
  }

  /**
   * With nothing happening between click and reply, and every row with the id
   * holding the status that was sent, the handler as written is SaveOutcome.
   */
  lemma SaveReplyAsWrittenWithoutInterleaving(rows: seq<Row>, id: Id, sent: Option<string>, reply: Option<string>)
    requires forall i :: 0 <= i < |rows| && rows[i].id == id ==> rows[i].attendance == sent
    ensures SaveReplyAsWritten(rows, rows, id, reply) == SaveOutcome(rows, id, sent, reply)
  {
  }

  /**
   * An edit of another row made while a save is in flight is lost: employee
   * "b" is picked "Checked Out" after Save was clicked for "a", and the
   * success reply restores "b" to its old, clean state.
   */
  lemma SaveReplyLosesInterleavedEdit()
    ensures var a := Row("a", None, None, None, None, None, None, None, None, Some("Checked In"), true, None);
            var b := Row("b", None, None, None, None, None, None, None, None, Some(Absent), false, None);
            var snapshot := [a, b];
            var current := ChangeAttendance(snapshot, "b", "Checked Out");
            var published := SaveReplyAsWritten(snapshot, current, "a", Some(AttendanceUpdated));
            && current[1].isAttendanceChanged && current[1].attendance == Some("Checked Out")
            && !published[1].isAttendanceChanged && published[1].attendance == Some(Absent)
            && SaveOutcome(current, "a", Some("Checked In"), Some(AttendanceUpdated))[1] == current[1]
  {
  }

  /**
   * A pick on the saved row itself made while its save is in flight is lost:
   * "Checked In" is sent for "a", then "Absent" is picked on "a", and the
   * success reply publishes "a" as a clean "Checked In". SaveOutcome keeps
   * the unsaved "Absent".
   */
  lemma SaveReplyLosesSameRowRepick()
    ensures var a := Row("a", None, None, None, None, None, None, None, None, Some("Checked In"), true, None);
            var snapshot := [a];
            var sent := SaveRequest(snapshot, "a");
            var current := ChangeAttendance(snapshot, "a", Absent);
            var published := SaveReplyAsWritten(snapshot, current, "a", Some(AttendanceUpdated));
            && sent.Some? && sent.value.status == Some("Checked In")
            && current[0].isAttendanceChanged && current[0].attendance == Some(Absent)
            && !published[0].isAttendanceChanged && published[0].attendance == Some("Checked In")
            && SaveOutcome(current, "a", sent.value.status, Some(AttendanceUpdated))[0] == current[0]
  {
  }

  /**
   * The create reply as the handler is written: on success it appends to
   * `snapshot`, the list captured when the button was clicked.
   */
  function CreateReplyAsWritten(snapshot: seq<Row>, current: seq<Row>, reply: Option<CreateReply>): (r: seq<Row>)
    ensures CreateOutcome(snapshot, reply).Some? ==>
              && |r| == |snapshot| + 1 && r[..|snapshot|] == snapshot
              && CreatedFrom(r[|snapshot|], reply.value.employee.value)
    ensures CreateOutcome(snapshot, reply).None? ==> r == current
  {
    match CreateOutcome(snapshot, reply)
    case Some(rows) => rows
    case None => current
  }

  /** With nothing happening between click and reply, the handler as written is CreateOutcome. */
  lemma CreateReplyAsWrittenWithoutInterleaving(rows: seq<Row>, reply: Option<CreateReply>)
    ensures CreateReplyAsWritten(rows, rows, reply) == CreateOutcome(rows, reply).GetOr(rows)
  {
  }

  /**
   * An attendance pick made while a create is in flight is lost: the success
   * reply appends to the list as it was at the click.
   */
  lemma CreateReplyLosesInterleavedEdit()
    ensures var a := Row("a", None, None, None, None, None, None, None, None, Some(Absent), false, None);
            var e := EmployeeRecord("n", Some("New"), Some("Clerk"), None, None, None, None,
                                    Profile(None, None, None, None, None, None));
            var reply := Some(CreateReply(Some(EmployeeSaved), Some(e)));
            var current := ChangeAttendance([a], "a", "Checked In");
            var published := CreateReplyAsWritten([a], current, reply);
            && current[0].isAttendanceChanged
            && !published[0].isAttendanceChanged && published[0].attendance == Some(Absent)
            && CreateOutcome(current, reply).value[0] == current[0]
  {
  }
}
