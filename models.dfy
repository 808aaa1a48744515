/** The model objects of `firebase_models.py`. Each is built from a dictionary
    (a stored document, or one a handler writes out), applies the field
    defaults, and saves itself: an update when it has a document id, otherwise
    a create that records the new id. Each class's state is also given as a
    value (`State()`), and `save` as a function of that value and the database,
    so that the handlers can be specified without the heap. */
module Models {
  import opened Values
  import opened Seqs
  import opened Service

  /** `if self.id:` -- a document id is present and non-empty. */
  predicate IsSet(id: Option<string>) {
    id.Some? && id.value != ""
  }

  /** The text that `f"{self.id}"` produces: the id, or "None". */
  function IdText(id: Option<string>): string {
    if id.Some? then id.value else "None"
  }

  /** `get_id` of an employee. */
  function EmployeeUserId(id: Option<string>): string {
    "employee-" + IdText(id)
  }

  /** `get_id` of an admin. */
  function AdminUserId(id: Option<string>): string {
    "admin-" + IdText(id)
  }

  // ===== FirebaseEmployee =====

  /** The dictionary an employee is built from. */
  datatype EmployeeDict = EmployeeDict(id: Option<string>, data: EmployeeData, createdAt: Option<int>, updatedAt: Option<int>)

  function EmployeeDocDict(d: EmployeeDoc): EmployeeDict {
    EmployeeDict(Some(d.id), d.data, Some(d.createdAt), Some(d.updatedAt))
  }

  /** The fields of a FirebaseEmployee. */
  datatype EmployeeState = EmployeeState(
    id: Option<string>, employeeId: string, name: string, email: string, department: string,
    passwordHash: string, isActive: bool, createdAt: Option<int>, updatedAt: Option<int>)

  /** `FirebaseEmployee.__init__`: `is_active` defaults to True, the other
      fields are copied. */
  function EmployeeInit(d: EmployeeDict): (r: EmployeeState)
    ensures r.isActive == (d.data.isActive.None? || d.data.isActive.value)
    ensures r.id == d.id && r.employeeId == d.data.employeeId && r.email == d.data.email
  {
    EmployeeState(d.id, d.data.employeeId, d.data.name, d.data.email, d.data.department,
                  d.data.passwordHash, d.data.isActive.GetOr(true), d.createdAt, d.updatedAt)
  }

  /** The dictionary `save` writes: it always carries `is_active`. */
  function EmployeeWritten(st: EmployeeState): (r: EmployeeData)
    ensures r.isActive == Some(st.isActive) && r.employeeId == st.employeeId
  {
    EmployeeData(st.employeeId, st.name, st.email, st.department, st.passwordHash, Some(st.isActive))
  }

  /** `FirebaseEmployee.save`: with an id, the store's update and its answer;
      without one, a create that sets the id, or False with the id unset when
      the create raises. */
  function EmployeeSaved(db: Option<Store>, st: EmployeeState, freshId: string, now: int): (r: (Written, EmployeeState))
    ensures IsSet(st.id) ==> r.1 == st
    ensures !IsSet(st.id) ==> r.1 == if r.0.ok then st.(id := Some(freshId)) else st
    ensures IsSet(st.id) ==> r.0 == EmployeeUpdated(db, st.id.value, EmployeeWritten(st), now)
    ensures !IsSet(st.id) ==> r.0 == EmployeeCreated(db, EmployeeWritten(st), freshId, now)
  {
    if IsSet(st.id) then (EmployeeUpdated(db, st.id.value, EmployeeWritten(st), now), st)
    else
      var w := EmployeeCreated(db, EmployeeWritten(st), freshId, now);
      (w, if w.ok then st.(id := Some(freshId)) else st)
  }

  /** `is_active` as the employee object reads it from a stored document. */
  predicate IsActiveDoc(d: EmployeeDoc) {
    d.data.isActive.GetOr(true)
  }

  class FirebaseEmployee {
    var id: Option<string>
    var employeeId: string
    var name: string
    var email: string
    var department: string
    var passwordHash: string
    var isActive: bool
    var createdAt: Option<int>
    var updatedAt: Option<int>

    function State(): EmployeeState
      reads this
    {
      EmployeeState(id, employeeId, name, email, department, passwordHash, isActive, createdAt, updatedAt)
    }

    constructor(d: EmployeeDict)
      ensures State() == EmployeeInit(d)
    {
      id := d.id;
      employeeId := d.data.employeeId;
      name := d.data.name;
      email := d.data.email;
      department := d.data.department;
      passwordHash := d.data.passwordHash;
      isActive := d.data.isActive.GetOr(true);
      createdAt := d.createdAt;
      updatedAt := d.updatedAt;
    }

    function GetId(): (r: string)
      reads this
      ensures r == EmployeeUserId(id)
    {
      EmployeeUserId(id)
    }

    static method FindByEmployeeId(svc: FirebaseService, employeeId: string) returns (e: FirebaseEmployee?)
      ensures e == null <==> FirstIn(svc.db, Employees, EmployeeIdIs(employeeId)).None?
      ensures e != null ==> fresh(e) && e.State() == EmployeeInit(EmployeeDocDict(FirstIn(svc.db, Employees, EmployeeIdIs(employeeId)).value))
    {
      var data := svc.GetEmployeeById(employeeId);
      if data.None? {
        return null;
      }
      e := new FirebaseEmployee(EmployeeDocDict(data.value));
    }

    static method FindByDocId(svc: FirebaseService, docId: string) returns (e: FirebaseEmployee?)
      ensures e == null <==> FirstIn(svc.db, Employees, WithKey(EmployeeDocId, docId)).None?
      ensures e != null ==> fresh(e) && e.State() == EmployeeInit(EmployeeDocDict(FirstIn(svc.db, Employees, WithKey(EmployeeDocId, docId)).value))
    {
      var data := svc.GetEmployeeByDocId(docId);
      if data.None? {
        return null;
      }
      e := new FirebaseEmployee(EmployeeDocDict(data.value));
    }

    /** `get_active`: the employees whose `is_active` reads true, in store order
        (each employee given by the document it is built from). */
    static method GetActive(svc: FirebaseService) returns (r: seq<EmployeeDoc>)
      ensures svc.db.None? ==> r == []
      ensures svc.db.Some? ==> r == Filter(svc.db.value.employees, IsActiveDoc)
    {
      var all := svc.GetAllEmployees();
      r := Select(all, IsActiveDoc);
    }

    method Save(svc: FirebaseService, freshId: string, now: int) returns (ok: bool)
      modifies this, svc
      requires svc.db.Some? ==> FreshId(svc.db.value.employees, EmployeeDocId, freshId)
      ensures (Written(ok, svc.db), State()) == EmployeeSaved(old(svc.db), old(State()), freshId, now)
    {
      var data := EmployeeWritten(State());
      if IsSet(id) {
        ok := svc.UpdateEmployee(id.value, data, now);
      } else {
        var docId := svc.CreateEmployee(data, freshId, now);
        if docId.None? {
          return false;
        }
        id := docId;
        ok := true;
      }
    }

    /** `delete`: False without an id, otherwise the store's cascade. */
    method Delete(svc: FirebaseService) returns (ok: bool)
      modifies svc
      ensures !IsSet(id) ==> !ok && svc.db == old(svc.db)
      ensures IsSet(id) ==> Written(ok, svc.db) == EmployeeDeleted(old(svc.db), id.value)
    {
      if !IsSet(id) {
        return false;
      }
      ok := svc.DeleteEmployee(id.value);
    }
  }

  // ===== FirebaseAdmin =====

  datatype AdminDict = AdminDict(id: Option<string>, data: AdminData, createdAt: Option<int>, updatedAt: Option<int>)

  function AdminDocDict(d: AdminDoc): AdminDict {
    AdminDict(Some(d.id), d.data, Some(d.createdAt), Some(d.updatedAt))
  }

  datatype AdminState = AdminState(
    id: Option<string>, username: string, passwordHash: string, name: string,
    createdAt: Option<int>, updatedAt: Option<int>)

  function AdminInit(d: AdminDict): AdminState {
    AdminState(d.id, d.data.username, d.data.passwordHash, d.data.name, d.createdAt, d.updatedAt)
  }

  /** `FirebaseAdmin.save`: the update path calls a store method that does not
      exist, and the resulting error makes it answer False and change nothing;
      the create path is the usual one. */
  function AdminSaved(db: Option<Store>, st: AdminState, freshId: string, now: int): (r: (Written, AdminState))
    ensures IsSet(st.id) ==> r == (Written(false, db), st)
    ensures !IsSet(st.id) ==> r.0 == AdminCreated(db, AdminData(st.username, st.passwordHash, st.name), freshId, now)
    ensures !IsSet(st.id) ==> r.1 == if r.0.ok then st.(id := Some(freshId)) else st
  {
    if IsSet(st.id) then (Written(false, db), st)
    else
      var w := AdminCreated(db, AdminData(st.username, st.passwordHash, st.name), freshId, now);
      (w, if w.ok then st.(id := Some(freshId)) else st)
  }

  class FirebaseAdmin {
    var id: Option<string>
    var username: string
    var passwordHash: string
    var name: string
    var createdAt: Option<int>
    var updatedAt: Option<int>

    function State(): AdminState
      reads this
    {
      AdminState(id, username, passwordHash, name, createdAt, updatedAt)
    }

    constructor(d: AdminDict)
      ensures State() == AdminInit(d)
    {
      id := d.id;
      username := d.data.username;
      passwordHash := d.data.passwordHash;
      name := d.data.name;
      createdAt := d.createdAt;
      updatedAt := d.updatedAt;
    }

    function GetId(): (r: string)
      reads this
      ensures r == AdminUserId(id)
    {
      AdminUserId(id)
    }

    static method FindByUsername(svc: FirebaseService, username: string) returns (a: FirebaseAdmin?)
      ensures a == null <==> FirstIn(svc.db, Admins, UsernameIs(username)).None?
      ensures a != null ==> fresh(a) && a.State() == AdminInit(AdminDocDict(FirstIn(svc.db, Admins, UsernameIs(username)).value))
    {
      var data := svc.GetAdminByUsername(username);
      if data.None? {
        return null;
      }
      a := new FirebaseAdmin(AdminDocDict(data.value));
    }

    static method FindByDocId(svc: FirebaseService, docId: string) returns (a: FirebaseAdmin?)
      ensures a == null <==> FirstIn(svc.db, Admins, WithKey(AdminDocId, docId)).None?
      ensures a != null ==> fresh(a) && a.State() == AdminInit(AdminDocDict(FirstIn(svc.db, Admins, WithKey(AdminDocId, docId)).value))
    {
      var data := svc.GetAdminByDocId(docId);
      if data.None? {
        return null;
      }
      a := new FirebaseAdmin(AdminDocDict(data.value));
    }

    method Save(svc: FirebaseService, freshId: string, now: int) returns (ok: bool)
      modifies this, svc
      requires svc.db.Some? ==> FreshId(svc.db.value.admins, AdminDocId, freshId)
      ensures (Written(ok, svc.db), State()) == AdminSaved(old(svc.db), old(State()), freshId, now)
    {
      if IsSet(id) {
        return false;
      }
      var docId := svc.CreateAdmin(AdminData(username, passwordHash, name), freshId, now);
      if docId.None? {
        return false;
      }
      id := docId;
      ok := true;
    }
  }

  // ===== FirebaseAttendance =====

  datatype AttendanceDict = AttendanceDict(id: Option<string>, data: AttendanceData, createdAt: Option<int>)

  function AttendanceDocDict(d: AttendanceDoc): AttendanceDict {
    AttendanceDict(Some(d.id), d.data, Some(d.createdAt))
  }

  datatype AttendanceState = AttendanceState(
    id: Option<string>, employeeId: string, date: string, signInTime: TimeValue, signOutTime: TimeValue,
    totalHours: Option<int>, workLocation: string, createdAt: Option<int>)

  /** `FirebaseAttendance.__init__`: `work_location` defaults to 'office'. */
  function AttendanceInit(d: AttendanceDict): (r: AttendanceState)
    ensures r.workLocation == if d.data.workLocation.Some? then d.data.workLocation.value else "office"
    ensures r.signInTime == d.data.signInTime && r.signOutTime == d.data.signOutTime
  {
    AttendanceState(d.id, d.data.employeeId, d.data.date, d.data.signInTime, d.data.signOutTime,
                    d.data.totalHours, d.data.workLocation.GetOr("office"), d.createdAt)
  }

  /** The dictionary `save` writes: the time fields serialised, and always a
      work location. */
  function AttendanceWritten(st: AttendanceState): (r: AttendanceData)
    ensures Reading(r.signInTime) == Reading(st.signInTime) && Reading(r.signOutTime) == Reading(st.signOutTime)
    ensures Truthy(r.signInTime) == Truthy(st.signInTime) && Truthy(r.signOutTime) == Truthy(st.signOutTime)
    ensures !r.signInTime.DateTime? && !r.signOutTime.DateTime?
    ensures r.workLocation == Some(st.workLocation)
    ensures r.employeeId == st.employeeId && r.date == st.date && r.totalHours == st.totalHours
  {
    AttendanceData(st.employeeId, st.date, Serialise(st.signInTime), Serialise(st.signOutTime),
                   st.totalHours, Some(st.workLocation))
  }

  /** `FirebaseAttendance.save`. */
  function AttendanceSaved(db: Option<Store>, st: AttendanceState, freshId: string, now: int): (r: (Written, AttendanceState))
    ensures IsSet(st.id) ==> r == (AttendanceUpdated(db, st.id.value, AttendanceWritten(st)), st)
    ensures !IsSet(st.id) ==> r.0 == AttendanceCreated(db, AttendanceWritten(st), freshId, now)
    ensures !IsSet(st.id) ==> r.1 == if r.0.ok then st.(id := Some(freshId)) else st
  {
    if IsSet(st.id) then (AttendanceUpdated(db, st.id.value, AttendanceWritten(st)), st)
    else
      var w := AttendanceCreated(db, AttendanceWritten(st), freshId, now);
      (w, if w.ok then st.(id := Some(freshId)) else st)
  }

  class FirebaseAttendance {
    var id: Option<string>
    var employeeId: string
    var date: string
    var signInTime: TimeValue
    var signOutTime: TimeValue
    var totalHours: Option<int>
    var workLocation: string
    var createdAt: Option<int>

    function State(): AttendanceState
      reads this
    {
      AttendanceState(id, employeeId, date, signInTime, signOutTime, totalHours, workLocation, createdAt)
    }

    constructor(d: AttendanceDict)
      ensures State() == AttendanceInit(d)
    {
      id := d.id;
      employeeId := d.data.employeeId;
      date := d.data.date;
      signInTime := d.data.signInTime;
      signOutTime := d.data.signOutTime;
      totalHours := d.data.totalHours;
      workLocation := d.data.workLocation.GetOr("office");
      createdAt := d.createdAt;
    }

    /** `get_sign_in_datetime` */
    function GetSignInDatetime(): Option<int>
      reads this
    {
      Reading(signInTime)
    }

    /** `get_sign_out_datetime` */
    function GetSignOutDatetime(): Option<int>
      reads this
    {
      Reading(signOutTime)
    }

    static method FindByEmployeeAndDate(svc: FirebaseService, employeeId: string, date: string) returns (a: FirebaseAttendance?)
      ensures a == null <==> FirstIn(svc.db, Attendance, AttendanceOfDay(employeeId, date)).None?
      ensures a != null ==> fresh(a)
      ensures a != null ==> a.State() == AttendanceInit(AttendanceDocDict(FirstIn(svc.db, Attendance, AttendanceOfDay(employeeId, date)).value))
    {
      var data := svc.GetAttendanceByEmployeeAndDate(employeeId, date);
      if data.None? {
        return null;
      }
      a := new FirebaseAttendance(AttendanceDocDict(data.value));
    }

    method Save(svc: FirebaseService, freshId: string, now: int) returns (ok: bool)
      modifies this, svc
      requires svc.db.Some? ==> FreshId(svc.db.value.attendance, AttendanceDocId, freshId)
      ensures (Written(ok, svc.db), State()) == AttendanceSaved(old(svc.db), old(State()), freshId, now)
    {
      var data := AttendanceWritten(State());
      if IsSet(id) {
        ok := svc.UpdateAttendance(id.value, data);
      } else {
        var docId := svc.CreateAttendance(data, freshId, now);
        if docId.None? {
          return false;
        }
        id := docId;
        ok := true;
      }
    }
  }

  // ===== FirebaseTimesheet =====

  datatype TimesheetDict = TimesheetDict(id: Option<string>, data: TimesheetData, createdAt: Option<int>, updatedAt: Option<int>)

  function TimesheetDocDict(d: TimesheetDoc): TimesheetDict {
    TimesheetDict(Some(d.id), d.data, Some(d.createdAt), Some(d.updatedAt))
  }

  datatype TimesheetState = TimesheetState(
    id: Option<string>, employeeId: string, date: string,
    tasksCompleted: string, challengesFaced: string, achievements: string,
    tomorrowPlans: string, additionalNotes: string,
    submittedAt: Option<int>, createdAt: Option<int>, updatedAt: Option<int>)

  /** `FirebaseTimesheet.__init__`: a missing text field reads as ''. */
  function TimesheetInit(d: TimesheetDict): (r: TimesheetState)
    ensures d.data.tasksCompleted.None? ==> r.tasksCompleted == ""
    ensures d.data.challengesFaced.None? ==> r.challengesFaced == ""
    ensures d.data.achievements.None? ==> r.achievements == ""
    ensures d.data.tomorrowPlans.None? ==> r.tomorrowPlans == ""
    ensures d.data.additionalNotes.None? ==> r.additionalNotes == ""
    ensures d.data.tasksCompleted.Some? ==> r.tasksCompleted == d.data.tasksCompleted.value
    ensures d.data.challengesFaced.Some? ==> r.challengesFaced == d.data.challengesFaced.value
    ensures d.data.achievements.Some? ==> r.achievements == d.data.achievements.value
    ensures d.data.tomorrowPlans.Some? ==> r.tomorrowPlans == d.data.tomorrowPlans.value
    ensures d.data.additionalNotes.Some? ==> r.additionalNotes == d.data.additionalNotes.value
  {
    TimesheetState(d.id, d.data.employeeId, d.data.date,
      d.data.tasksCompleted.GetOr(""), d.data.challengesFaced.GetOr(""), d.data.achievements.GetOr(""),
      d.data.tomorrowPlans.GetOr(""), d.data.additionalNotes.GetOr(""),
      d.data.submittedAt, d.createdAt, d.updatedAt)
  }

  /** The dictionary `save` writes: the five texts and a fresh `submitted_at`. */
  function TimesheetWritten(st: TimesheetState, now: int): (r: TimesheetData)
    ensures r.submittedAt == Some(now)
    ensures r.tasksCompleted == Some(st.tasksCompleted) && r.employeeId == st.employeeId && r.date == st.date
  {
    TimesheetData(st.employeeId, st.date, Some(st.tasksCompleted), Some(st.challengesFaced),
                  Some(st.achievements), Some(st.tomorrowPlans), Some(st.additionalNotes), Some(now))
  }

  /** `FirebaseTimesheet.save`. */
  function TimesheetSaved(db: Option<Store>, st: TimesheetState, freshId: string, now: int): (r: (Written, TimesheetState))
    ensures IsSet(st.id) ==> r == (TimesheetUpdated(db, st.id.value, TimesheetWritten(st, now), now), st)
    ensures !IsSet(st.id) ==> r.0 == TimesheetCreated(db, TimesheetWritten(st, now), freshId, now)
    ensures !IsSet(st.id) ==> r.1 == if r.0.ok then st.(id := Some(freshId)) else st
  {
    if IsSet(st.id) then (TimesheetUpdated(db, st.id.value, TimesheetWritten(st, now), now), st)
    else
      var w := TimesheetCreated(db, TimesheetWritten(st, now), freshId, now);
      (w, if w.ok then st.(id := Some(freshId)) else st)
  }

  class FirebaseTimesheet {
    var id: Option<string>
    var employeeId: string
    var date: string
    var tasksCompleted: string
    var challengesFaced: string
    var achievements: string
    var tomorrowPlans: string
    var additionalNotes: string
    var submittedAt: Option<int>
    var createdAt: Option<int>
    var updatedAt: Option<int>

    function State(): TimesheetState
      reads this
    {
      TimesheetState(id, employeeId, date, tasksCompleted, challengesFaced, achievements,
                     tomorrowPlans, additionalNotes, submittedAt, createdAt, updatedAt)
    }

    constructor(d: TimesheetDict)
      ensures State() == TimesheetInit(d)
    {
      id := d.id;
      employeeId := d.data.employeeId;
      date := d.data.date;
      tasksCompleted := d.data.tasksCompleted.GetOr("");
      challengesFaced := d.data.challengesFaced.GetOr("");
      achievements := d.data.achievements.GetOr("");
      tomorrowPlans := d.data.tomorrowPlans.GetOr("");
      additionalNotes := d.data.additionalNotes.GetOr("");
      submittedAt := d.data.submittedAt;
      createdAt := d.createdAt;
      updatedAt := d.updatedAt;
    }

    static method FindByEmployeeAndDate(svc: FirebaseService, employeeId: string, date: string) returns (t: FirebaseTimesheet?)
      ensures t == null <==> FirstIn(svc.db, Timesheets, TimesheetOfDay(employeeId, date)).None?
      ensures t != null ==> fresh(t)
      ensures t != null ==> t.State() == TimesheetInit(TimesheetDocDict(FirstIn(svc.db, Timesheets, TimesheetOfDay(employeeId, date)).value))
    {
      var data := svc.GetTimesheetByEmployeeAndDate(employeeId, date);
      if data.None? {
        return null;
      }
      t := new FirebaseTimesheet(TimesheetDocDict(data.value));
    }

    method Save(svc: FirebaseService, freshId: string, now: int) returns (ok: bool)
      modifies this, svc
      requires svc.db.Some? ==> FreshId(svc.db.value.timesheets, TimesheetDocId, freshId)
      ensures (Written(ok, svc.db), State()) == TimesheetSaved(old(svc.db), old(State()), freshId, now)
    {
      var data := TimesheetWritten(State(), now);
      if IsSet(id) {
        ok := svc.UpdateTimesheet(id.value, data, now);
      } else {
        var docId := svc.CreateTimesheet(data, freshId, now);
        if docId.None? {
          return false;
        }
        id := docId;
        ok := true;
      }
    }
  }
}
