/**
 * The admin page component of src/app/page.js as a state container: the
 * roster table, the loading flag, the "Add New Employee" modal and its form,
 * and one method per handler. Each handler runs to completion in one step:
 * the reply of its request is a parameter.
 */
module AdminPage {
  import opened AdminData

  class Home {
    var employees: seq<Row>
    var newEmployee: EmployeeForm
    var showModal: bool
    var loading: bool

    /** Every unsaved attendance edit in the table is one of the drop-down's values. */
    ghost predicate Valid()
      reads this
    {
      EditsSelectable(employees)
    }

    /** The page's initial state: an empty table, the blank form, modal closed, not loading. */
    constructor ()
      ensures Valid()
      ensures employees == [] && newEmployee == InitialForm
      ensures !showModal && !loading
    {
      employees := [];
      newEmployee := InitialForm;
      showModal := false;
      loading := false;
    }

    /** Mounting the page starts the roster load. */
    method BeginLoad()
      requires Valid()
      modifies this`loading
      ensures Valid() && loading
    {
      loading := true;
    }

    /**
     * The end of the roster load. `roster` is the roster reply (`None` when the
     * request failed, answered with a non-2xx status or did not parse), and
     * `lookups[i]` the outcome of the status lookup for employee `i`. The table
     * is replaced only when everything succeeded; loading ends in every case.
     */
    method FinishLoad(roster: Option<seq<EmployeeRecord>>, lookups: seq<Option<AttendanceStatus>>)
      requires Valid()
      requires roster.Some? ==> |lookups| == |roster.value|
      modifies this`employees, this`loading
      ensures Valid() && !loading
      ensures employees == LoadRoster(roster, lookups).GetOr(old(employees))
    {
      var loaded := LoadRoster(roster, lookups);
      if loaded.Some? {
        LoadedRosterIsClean(roster.value, lookups);
        employees := loaded.value;
      }
      loading := false;
    }

    /** The "Add Employee" button opens the modal. */
    method OpenModal()
      modifies this`showModal
      ensures showModal
    {
      showModal := true;
    }

    /** The modal's close button closes it, keeping what was typed. */
    method CloseModal()
      modifies this`showModal
      ensures !showModal
    {
      showModal := false;
    }

    /** Typing `v` into one input of the form. */
    method EditForm(field: FormField, v: string)
      modifies this`newEmployee
      ensures newEmployee == SetField(old(newEmployee), field, v)
    {
      newEmployee := SetField(newEmployee, field, v);
    }

    /**
     * Submitting the form: returns the request body sent, then applies
     * `reply` (`None` when the request failed). On success one row is
     * appended, the form is reset and the modal closes; otherwise nothing
     * changes.
     */
    method HandleAddEmployee(reply: Option<CreateReply>) returns (request: CreateRequest)
      requires Valid()
      modifies this`employees, this`newEmployee, this`showModal
      ensures Valid()
      ensures request == CreateRequestOf(old(newEmployee))
      ensures CreateOutcome(old(employees), reply).Some? ==>
                && employees == CreateOutcome(old(employees), reply).value
                && newEmployee == ResetForm
                && !showModal
      ensures CreateOutcome(old(employees), reply).None? ==>
                && employees == old(employees)
                && newEmployee == old(newEmployee)
                && showModal == old(showModal)
    {
      request := CreateRequestOf(newEmployee);
      var created := CreateOutcome(employees, reply);
      if created.Some? {
        CreateKeepsEditsSelectable(employees, reply);
        employees := created.value;
        newEmployee := ResetForm;
        showModal := false;
      }
    }

    /** Picking `newStatus` in the drop-down of a row; no request is made. */
    method HandleAttendanceChange(id: Id, newStatus: string)
      requires Valid()
      requires newStatus in StatusOptions
      modifies this`employees
      ensures Valid()
      ensures employees == ChangeAttendance(old(employees), id, newStatus)
    {
      ChangeAttendanceKeepsEditsSelectable(employees, id, newStatus);
      employees := ChangeAttendance(employees, id, newStatus);
    }

    /**
     * Clicking Save on a row, which is enabled only while some row with that
     * id has an unsaved edit: returns the request body sent, then applies the
     * reply's message (`None` when the request failed).
     */
    method HandleSaveAttendance(id: Id, reply: Option<string>) returns (request: UpdateRequest)
      requires Valid()
      requires exists i :: 0 <= i < |employees| && employees[i].id == id && employees[i].isAttendanceChanged
      modifies this`employees
      ensures Valid()
      ensures SaveRequest(old(employees), id) == Some(request)
      ensures employees == SaveOutcome(old(employees), id, request.status, reply)
    {
      var sent := SaveRequest(employees, id);
      request := sent.value;
      SaveOutcomeKeepsEditsSelectable(employees, id, request.status, reply);
      employees := SaveOutcome(employees, id, request.status, reply);
    }
  }
}
