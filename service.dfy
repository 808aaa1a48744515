/** The Firestore-backed store of `firebase_service.py`, over in-memory
    collections. `db` is the service's database handle: None when the client
    could not be created, in which case every query answers "nothing", every
    update and delete answers False, and every create raises.

    Fresh document ids and the server timestamp are parameters of the
    operations that need them. */
module Service {
  import opened Values
  import opened Seqs

  // ----- documents -----

  /** The fields `FirebaseEmployee.save` writes. */
  datatype EmployeeData = EmployeeData(
    employeeId: string, name: string, email: string, department: string,
    passwordHash: string, isActive: Option<bool>)

  datatype EmployeeDoc = EmployeeDoc(id: string, data: EmployeeData, createdAt: int, updatedAt: int)

  /** The fields `FirebaseAdmin.save` writes. */
  datatype AdminData = AdminData(username: string, passwordHash: string, name: string)

  datatype AdminDoc = AdminDoc(id: string, data: AdminData, createdAt: int, updatedAt: int)

  /** The fields `FirebaseAttendance.save` writes; a stored document may lack
      `work_location`. `total_hours` is counted in hundredths of an hour. */
  datatype AttendanceData = AttendanceData(
    employeeId: string, date: string, signInTime: TimeValue, signOutTime: TimeValue,
    totalHours: Option<int>, workLocation: Option<string>)

  datatype AttendanceDoc = AttendanceDoc(id: string, data: AttendanceData, createdAt: int)

  /** The fields `FirebaseTimesheet.save` writes; a stored document may lack
      any of the five text fields. */
  datatype TimesheetData = TimesheetData(
    employeeId: string, date: string,
    tasksCompleted: Option<string>, challengesFaced: Option<string>, achievements: Option<string>,
    tomorrowPlans: Option<string>, additionalNotes: Option<string>,
    submittedAt: Option<int>)

  datatype TimesheetDoc = TimesheetDoc(id: string, data: TimesheetData, createdAt: int, updatedAt: int)

  /** A work-from-home approval: the fields the store reads. */
  datatype WfhData = WfhData(employeeId: string, startDate: Option<string>)

  datatype WfhDoc = WfhDoc(id: string, data: WfhData, createdAt: int)

  /** The five collections. */
  datatype Store = Store(
    employees: seq<EmployeeDoc>, admins: seq<AdminDoc>, attendance: seq<AttendanceDoc>,
    timesheets: seq<TimesheetDoc>, wfhApprovals: seq<WfhDoc>)

  function EmployeeDocId(d: EmployeeDoc): string { d.id }
  function AdminDocId(d: AdminDoc): string { d.id }
  function AttendanceDocId(d: AttendanceDoc): string { d.id }
  function TimesheetDocId(d: TimesheetDoc): string { d.id }
  function WfhDocId(d: WfhDoc): string { d.id }

  function AttendanceDate(d: AttendanceDoc): string { d.data.date }
  function TimesheetDate(d: TimesheetDoc): string { d.data.date }
  /** `x.get('start_date', '')` */
  function WfhStartDate(d: WfhDoc): string { d.data.startDate.GetOr("") }

  /** Document ids are non-empty and unique within a collection. */
  predicate IdsValid<T>(s: seq<T>, idOf: T -> string) {
    KeysUnique(s, idOf) && forall i :: 0 <= i < |s| ==> idOf(s[i]) != ""
  }

  /** An id the store may hand out for a new document of the collection. */
  predicate FreshId<T>(s: seq<T>, idOf: T -> string, id: string) {
    id != "" && KeyUnused(s, idOf, id)
  }

  predicate StoreValid(s: Store) {
    IdsValid(s.employees, EmployeeDocId) && IdsValid(s.admins, AdminDocId) &&
    IdsValid(s.attendance, AttendanceDocId) && IdsValid(s.timesheets, TimesheetDocId) &&
    IdsValid(s.wfhApprovals, WfhDocId)
  }

  predicate DbValid(db: Option<Store>) {
    db.Some? ==> StoreValid(db.value)
  }

  lemma AppendKeepsIds<T>(s: seq<T>, idOf: T -> string, d: T)
    ensures IdsValid(s, idOf) && FreshId(s, idOf, idOf(d)) ==> IdsValid(s + [d], idOf)
  {
  }

  lemma FilterKeepsIds<T(!new)>(s: seq<T>, idOf: T -> string, p: T -> bool)
    ensures IdsValid(s, idOf) ==> IdsValid(Filter(s, p), idOf)
  {
    if IdsValid(s, idOf) {
      FilterKeepsKeysUnique(s, idOf, p);
      var f := Filter(s, p);
      forall i | 0 <= i < |f| ensures idOf(f[i]) != "" {
        assert f[i] in s;
      }
    }
  }

  // ----- query predicates -----

  function EmployeeIdIs(employeeId: string): EmployeeDoc -> bool {
    (d: EmployeeDoc) => d.data.employeeId == employeeId
  }

  function EmailIs(email: string): EmployeeDoc -> bool {
    (d: EmployeeDoc) => d.data.email == email
  }

  function UsernameIs(username: string): AdminDoc -> bool {
    (d: AdminDoc) => d.data.username == username
  }

  function AttendanceOfEmployee(employeeId: string): AttendanceDoc -> bool {
    (d: AttendanceDoc) => d.data.employeeId == employeeId
  }

  function AttendanceOfDay(employeeId: string, date: string): AttendanceDoc -> bool {
    (d: AttendanceDoc) => d.data.employeeId == employeeId && d.data.date == date
  }

  function AttendanceOnDate(date: string): AttendanceDoc -> bool {
    (d: AttendanceDoc) => d.data.date == date
  }

  function TimesheetOfEmployee(employeeId: string): TimesheetDoc -> bool {
    (d: TimesheetDoc) => d.data.employeeId == employeeId
  }

  function TimesheetOfDay(employeeId: string, date: string): TimesheetDoc -> bool {
    (d: TimesheetDoc) => d.data.employeeId == employeeId && d.data.date == date
  }

  function TimesheetOnDate(date: string): TimesheetDoc -> bool {
    (d: TimesheetDoc) => d.data.date == date
  }

  function WfhOfEmployee(employeeId: string): WfhDoc -> bool {
    (d: WfhDoc) => d.data.employeeId == employeeId
  }

  // ----- queries, as functions of the database -----

  /** `where(field == value)` followed by "return the first document": None when
      the database is unavailable or nothing matches. */
  function FirstIn<T>(db: Option<Store>, docs: Store -> seq<T>, p: T -> bool): (r: Option<T>)
    ensures db.None? ==> r.None?
    ensures db.Some? ==> r == First(docs(db.value), p)
  {
    if db.None? then None else First(docs(db.value), p)
  }

  function Employees(s: Store): seq<EmployeeDoc> { s.employees }
  function Admins(s: Store): seq<AdminDoc> { s.admins }
  function Attendance(s: Store): seq<AttendanceDoc> { s.attendance }
  function Timesheets(s: Store): seq<TimesheetDoc> { s.timesheets }
  function WfhApprovals(s: Store): seq<WfhDoc> { s.wfhApprovals }

  /** All documents matching p, in collection order; nothing when unavailable. */
  function AllIn<T(!new)>(db: Option<Store>, docs: Store -> seq<T>, p: T -> bool): (r: seq<T>)
    ensures db.None? ==> r == []
    ensures db.Some? ==> r == Filter(docs(db.value), p)
  {
    if db.None? then [] else Filter(docs(db.value), p)
  }

  /** `where(employee_id == ...).limit(limit)` and then a sort by date, largest
      first: the limit picks the first `limit` matches in collection order and
      only those are sorted. */
  function AttendanceByEmployee(db: Option<Store>, employeeId: string, limit: nat): (r: seq<AttendanceDoc>)
    ensures |r| <= limit
    ensures SortedDesc(r, AttendanceDate)
    ensures multiset(r) == multiset(Take(AllIn(db, Attendance, AttendanceOfEmployee(employeeId)), limit))
    ensures forall i :: 0 <= i < |r| ==> r[i].data.employeeId == employeeId
  {
    var matches := AllIn(db, Attendance, AttendanceOfEmployee(employeeId));
    var r := SortDesc(Take(matches, limit), AttendanceDate);
    assert forall i :: 0 <= i < |r| ==> r[i] in matches by {
      forall i | 0 <= i < |r| ensures r[i] in matches {
        assert r[i] in multiset(Take(matches, limit));
        assert r[i] in Take(matches, limit);
      }
    }
    r
  }

  /** `order_by(date, DESCENDING).limit(limit)` over the whole collection: the
      records with the `limit` largest dates. */
  function RecentAttendance(db: Option<Store>, limit: nat): (r: seq<AttendanceDoc>)
    ensures |r| <= limit
    ensures db.Some? ==> r == Take(SortDesc(db.value.attendance, AttendanceDate), limit)
    ensures SortedDesc(r, AttendanceDate)
  {
    if db.None? then [] else Take(SortDesc(db.value.attendance, AttendanceDate), limit)
  }

  /** The timesheet analogue of AttendanceByEmployee. */
  function TimesheetsByEmployee(db: Option<Store>, employeeId: string, limit: nat): (r: seq<TimesheetDoc>)
    ensures |r| <= limit
    ensures SortedDesc(r, TimesheetDate)
    ensures multiset(r) == multiset(Take(AllIn(db, Timesheets, TimesheetOfEmployee(employeeId)), limit))
    ensures forall i :: 0 <= i < |r| ==> r[i].data.employeeId == employeeId
  {
    var matches := AllIn(db, Timesheets, TimesheetOfEmployee(employeeId));
    var r := SortDesc(Take(matches, limit), TimesheetDate);
    assert forall i :: 0 <= i < |r| ==> r[i] in matches by {
      forall i | 0 <= i < |r| ensures r[i] in matches {
        assert r[i] in multiset(Take(matches, limit));
        assert r[i] in Take(matches, limit);
      }
    }
    r
  }

  /** The timesheet analogue of RecentAttendance. */
  function RecentTimesheets(db: Option<Store>, limit: nat): (r: seq<TimesheetDoc>)
    ensures |r| <= limit
    ensures db.Some? ==> r == Take(SortDesc(db.value.timesheets, TimesheetDate), limit)
    ensures SortedDesc(r, TimesheetDate)
  {
    if db.None? then [] else Take(SortDesc(db.value.timesheets, TimesheetDate), limit)
  }

  /** Every approval, sorted by start date, largest first, a missing start date
      counting as the empty text (so those come last). */
  function AllWfhApprovals(db: Option<Store>): (r: seq<WfhDoc>)
    ensures db.None? ==> r == []
    ensures db.Some? ==> multiset(r) == multiset(db.value.wfhApprovals)
    ensures SortedDesc(r, WfhStartDate)
  {
    if db.None? then [] else SortDesc(db.value.wfhApprovals, WfhStartDate)
  }

  // ----- writes, as functions of the database -----

  /** The outcome of a write: the value it returns (False for a create that
      raised) and the database afterwards. */
  datatype Written = Written(ok: bool, db: Option<Store>)

  /** `create_*`: adds the document under a fresh id; raises without a database. */
  function EmployeeCreated(db: Option<Store>, data: EmployeeData, id: string, now: int): (r: Written)
    ensures r.ok <==> db.Some?
    ensures !r.ok ==> r.db == db
    ensures r.ok ==> r.db == Some(db.value.(employees := db.value.employees + [EmployeeDoc(id, data, now, now)]))
    ensures DbValid(db) && (db.Some? ==> FreshId(db.value.employees, EmployeeDocId, id)) ==> DbValid(r.db)
  {
    if db.None? then Written(false, db)
    else
      var d := EmployeeDoc(id, data, now, now);
      AppendKeepsIds(db.value.employees, EmployeeDocId, d);
      Written(true, Some(db.value.(employees := db.value.employees + [d])))
  }

  function AdminCreated(db: Option<Store>, data: AdminData, id: string, now: int): (r: Written)
    ensures r.ok <==> db.Some?
    ensures !r.ok ==> r.db == db
    ensures r.ok ==> r.db == Some(db.value.(admins := db.value.admins + [AdminDoc(id, data, now, now)]))
    ensures DbValid(db) && (db.Some? ==> FreshId(db.value.admins, AdminDocId, id)) ==> DbValid(r.db)
  {
    if db.None? then Written(false, db)
    else
      var d := AdminDoc(id, data, now, now);
      AppendKeepsIds(db.value.admins, AdminDocId, d);
      Written(true, Some(db.value.(admins := db.value.admins + [d])))
  }

  /** `create_attendance` stamps `created_at` only. */
  function AttendanceCreated(db: Option<Store>, data: AttendanceData, id: string, now: int): (r: Written)
    ensures r.ok <==> db.Some?
    ensures !r.ok ==> r.db == db
    ensures r.ok ==> r.db == Some(db.value.(attendance := db.value.attendance + [AttendanceDoc(id, data, now)]))
    ensures DbValid(db) && (db.Some? ==> FreshId(db.value.attendance, AttendanceDocId, id)) ==> DbValid(r.db)
  {
    if db.None? then Written(false, db)
    else
      var d := AttendanceDoc(id, data, now);
      AppendKeepsIds(db.value.attendance, AttendanceDocId, d);
      Written(true, Some(db.value.(attendance := db.value.attendance + [d])))
  }

  function TimesheetCreated(db: Option<Store>, data: TimesheetData, id: string, now: int): (r: Written)
    ensures r.ok <==> db.Some?
    ensures !r.ok ==> r.db == db
    ensures r.ok ==> r.db == Some(db.value.(timesheets := db.value.timesheets + [TimesheetDoc(id, data, now, now)]))
    ensures DbValid(db) && (db.Some? ==> FreshId(db.value.timesheets, TimesheetDocId, id)) ==> DbValid(r.db)
  {
    if db.None? then Written(false, db)
    else
      var d := TimesheetDoc(id, data, now, now);
      AppendKeepsIds(db.value.timesheets, TimesheetDocId, d);
      Written(true, Some(db.value.(timesheets := db.value.timesheets + [d])))
  }

  function WfhApprovalCreated(db: Option<Store>, data: WfhData, id: string, now: int): (r: Written)
    ensures r.ok <==> db.Some?
    ensures !r.ok ==> r.db == db
    ensures r.ok ==> r.db == Some(db.value.(wfhApprovals := db.value.wfhApprovals + [WfhDoc(id, data, now)]))
    ensures DbValid(db) && (db.Some? ==> FreshId(db.value.wfhApprovals, WfhDocId, id)) ==> DbValid(r.db)
  {
    if db.None? then Written(false, db)
    else
      var d := WfhDoc(id, data, now);
      AppendKeepsIds(db.value.wfhApprovals, WfhDocId, d);
      Written(true, Some(db.value.(wfhApprovals := db.value.wfhApprovals + [d])))
  }

  /** `update_employee`: a document-store update of an existing document sets
      the given fields and stamps `updated_at`; on a missing document it raises,
      which the service turns into False. */
  function EmployeeUpdated(db: Option<Store>, docId: string, data: EmployeeData, now: int): (r: Written)
    ensures r.ok <==> db.Some? && !KeyUnused(db.value.employees, EmployeeDocId, docId)
    ensures !r.ok ==> r.db == db
    ensures r.ok ==> r.db.Some?
    ensures r.ok ==> r.db == Some(db.value.(employees := r.db.value.employees))
    ensures r.ok ==> |r.db.value.employees| == |db.value.employees|
    ensures r.ok ==> forall i :: 0 <= i < |db.value.employees| ==>
      r.db.value.employees[i] == (if db.value.employees[i].id == docId then db.value.employees[i].(data := data, updatedAt := now) else db.value.employees[i])
    ensures DbValid(db) ==> DbValid(r.db)
  {
    if db.None? || KeyUnused(db.value.employees, EmployeeDocId, docId) then Written(false, db)
    else
      var f := (d: EmployeeDoc) => d.(data := data, updatedAt := now);
      UpdateWhereKeepsKeys(db.value.employees, EmployeeDocId, WithKey(EmployeeDocId, docId), f);
      Written(true, Some(db.value.(employees := UpdateWhere(db.value.employees, WithKey(EmployeeDocId, docId), f))))
  }

  /** `update_attendance` sets the given fields and stamps nothing. */
  function AttendanceUpdated(db: Option<Store>, docId: string, data: AttendanceData): (r: Written)
    ensures r.ok <==> db.Some? && !KeyUnused(db.value.attendance, AttendanceDocId, docId)
    ensures !r.ok ==> r.db == db
    ensures r.ok ==> r.db.Some?
    ensures r.ok ==> r.db == Some(db.value.(attendance := r.db.value.attendance))
    ensures r.ok ==> |r.db.value.attendance| == |db.value.attendance|
    ensures r.ok ==> forall i :: 0 <= i < |db.value.attendance| ==>
      r.db.value.attendance[i] == (if db.value.attendance[i].id == docId then db.value.attendance[i].(data := data) else db.value.attendance[i])
    ensures DbValid(db) ==> DbValid(r.db)
  {
    if db.None? || KeyUnused(db.value.attendance, AttendanceDocId, docId) then Written(false, db)
    else
      var f := (d: AttendanceDoc) => d.(data := data);
      UpdateWhereKeepsKeys(db.value.attendance, AttendanceDocId, WithKey(AttendanceDocId, docId), f);
      Written(true, Some(db.value.(attendance := UpdateWhere(db.value.attendance, WithKey(AttendanceDocId, docId), f))))
  }

  /** `update_timesheet` sets the given fields and stamps `updated_at`. */
  function TimesheetUpdated(db: Option<Store>, docId: string, data: TimesheetData, now: int): (r: Written)
    ensures r.ok <==> db.Some? && !KeyUnused(db.value.timesheets, TimesheetDocId, docId)
    ensures !r.ok ==> r.db == db
    ensures r.ok ==> r.db.Some?
    ensures r.ok ==> r.db == Some(db.value.(timesheets := r.db.value.timesheets))
    ensures r.ok ==> |r.db.value.timesheets| == |db.value.timesheets|
    ensures r.ok ==> forall i :: 0 <= i < |db.value.timesheets| ==>
      r.db.value.timesheets[i] == (if db.value.timesheets[i].id == docId then db.value.timesheets[i].(data := data, updatedAt := now) else db.value.timesheets[i])
    ensures DbValid(db) ==> DbValid(r.db)
  {
    if db.None? || KeyUnused(db.value.timesheets, TimesheetDocId, docId) then Written(false, db)
    else
      var f := (d: TimesheetDoc) => d.(data := data, updatedAt := now);
      UpdateWhereKeepsKeys(db.value.timesheets, TimesheetDocId, WithKey(TimesheetDocId, docId), f);
      Written(true, Some(db.value.(timesheets := UpdateWhere(db.value.timesheets, WithKey(TimesheetDocId, docId), f))))
  }

  /** `delete_employee`: when the employee exists, every attendance record
      carrying its `employee_id` and then the employee document are deleted. */
  function EmployeeDeleted(db: Option<Store>, docId: string): (r: Written)
    ensures DbValid(db) ==> DbValid(r.db)
  {
    match FirstIn(db, Employees, WithKey(EmployeeDocId, docId))
    case None => Written(false, db)
    case Some(employee) =>
      var s := db.value;
      var keptAttendance := Filter(s.attendance, Not(AttendanceOfEmployee(employee.data.employeeId)));
      var keptEmployees := Filter(s.employees, Not(WithKey(EmployeeDocId, docId)));
      FilterKeepsIds(s.attendance, AttendanceDocId, Not(AttendanceOfEmployee(employee.data.employeeId)));
      FilterKeepsIds(s.employees, EmployeeDocId, Not(WithKey(EmployeeDocId, docId)));
      Written(true, Some(s.(attendance := keptAttendance, employees := keptEmployees)))
  }

  /** Deleting a missing employee deletes nothing; deleting an existing one
      deletes exactly its attendance records and itself and keeps its timesheets,
      the admins and the approvals. */
  lemma DeleteEmployeeCascade(db: Option<Store>, docId: string)
    ensures !EmployeeDeleted(db, docId).ok ==> EmployeeDeleted(db, docId).db == db
    ensures EmployeeDeleted(db, docId).ok <==> db.Some? && !KeyUnused(db.value.employees, EmployeeDocId, docId)
    ensures EmployeeDeleted(db, docId).ok ==>
      var employeeId := First(db.value.employees, WithKey(EmployeeDocId, docId)).value.data.employeeId;
      var after := EmployeeDeleted(db, docId).db.value;
      after.timesheets == db.value.timesheets && after.admins == db.value.admins &&
      after.wfhApprovals == db.value.wfhApprovals &&
      (forall a :: a in after.attendance <==> a in db.value.attendance && a.data.employeeId != employeeId) &&
      (forall e :: e in after.employees <==> e in db.value.employees && e.id != docId)
  {
    if db.Some? {
      var p := WithKey(EmployeeDocId, docId);
      if !KeyUnused(db.value.employees, EmployeeDocId, docId) {
        var i :| 0 <= i < |db.value.employees| && db.value.employees[i].id == docId;
        assert p(db.value.employees[i]);
      }
    }
  }

  // ----- the service object -----

  class FirebaseService {
    /** `self.db`: None when no database client could be created. */
    var db: Option<Store>

    /** Document ids are unique in every collection; every method that
        writes keeps it. */
    predicate Valid()
      reads this
    {
      DbValid(db)
    }

    constructor(db: Option<Store>)
      requires DbValid(db)
      ensures this.db == db && Valid()
    {
      this.db := db;
    }

    method CreateEmployee(data: EmployeeData, freshId: string, now: int) returns (id: Option<string>)
      modifies this
      requires db.Some? ==> FreshId(db.value.employees, EmployeeDocId, freshId)
      ensures Written(id.Some?, db) == EmployeeCreated(old(db), data, freshId, now)
      ensures id.Some? ==> id.value == freshId
      ensures old(Valid()) ==> Valid()
    {
      if db.None? {
        return None;
      }
      db := Some(db.value.(employees := db.value.employees + [EmployeeDoc(freshId, data, now, now)]));
      return Some(freshId);
    }

    method GetEmployeeById(employeeId: string) returns (r: Option<EmployeeDoc>)
      ensures r == FirstIn(db, Employees, EmployeeIdIs(employeeId))
    {
      if db.None? {
        return None;
      }
      r := FindFirst(db.value.employees, EmployeeIdIs(employeeId));
    }

    method GetEmployeeByDocId(docId: string) returns (r: Option<EmployeeDoc>)
      ensures r == FirstIn(db, Employees, WithKey(EmployeeDocId, docId))
    {
      if db.None? {
        return None;
      }
      r := FindFirst(db.value.employees, WithKey(EmployeeDocId, docId));
    }

    /** The lookup by email that `auth_session_login` relies on, written as the
        other field lookups are; the service as shipped has no such method. */
    method GetEmployeeByEmail(email: string) returns (r: Option<EmployeeDoc>)
      ensures r == FirstIn(db, Employees, EmailIs(email))
    {
      if db.None? {
        return None;
      }
      r := FindFirst(db.value.employees, EmailIs(email));
    }

    method GetAllEmployees() returns (r: seq<EmployeeDoc>)
      ensures db.None? ==> r == []
      ensures db.Some? ==> r == db.value.employees
    {
      if db.None? {
        return [];
      }
      r := Collect(db.value.employees);
    }

    method UpdateEmployee(docId: string, data: EmployeeData, now: int) returns (ok: bool)
      modifies this
      ensures Written(ok, db) == EmployeeUpdated(old(db), docId, data, now)
      ensures old(Valid()) ==> Valid()
    {
      if db.None? || KeyUnused(db.value.employees, EmployeeDocId, docId) {
        return false;
      }
      db := EmployeeUpdated(db, docId, data, now).db;
      return true;
    }

    method DeleteEmployee(docId: string) returns (ok: bool)
      modifies this
      ensures Written(ok, db) == EmployeeDeleted(old(db), docId)
      ensures old(Valid()) ==> Valid()
    {
      var employee := GetEmployeeByDocId(docId);
      if employee.None? {
        return false;
      }
      var s := db.value;
      var keptAttendance := Select(s.attendance, Not(AttendanceOfEmployee(employee.value.data.employeeId)));
      var keptEmployees := Select(s.employees, Not(WithKey(EmployeeDocId, docId)));
      db := Some(s.(attendance := keptAttendance, employees := keptEmployees));
      return true;
    }

    method CreateAdmin(data: AdminData, freshId: string, now: int) returns (id: Option<string>)
      modifies this
      requires db.Some? ==> FreshId(db.value.admins, AdminDocId, freshId)
      ensures Written(id.Some?, db) == AdminCreated(old(db), data, freshId, now)
      ensures id.Some? ==> id.value == freshId
      ensures old(Valid()) ==> Valid()
    {
      if db.None? {
        return None;
      }
      db := Some(db.value.(admins := db.value.admins + [AdminDoc(freshId, data, now, now)]));
      return Some(freshId);
    }

    method GetAdminByUsername(username: string) returns (r: Option<AdminDoc>)
      ensures r == FirstIn(db, Admins, UsernameIs(username))
    {
      if db.None? {
        return None;
      }
      r := FindFirst(db.value.admins, UsernameIs(username));
    }

    method GetAdminByDocId(docId: string) returns (r: Option<AdminDoc>)
      ensures r == FirstIn(db, Admins, WithKey(AdminDocId, docId))
    {
      if db.None? {
        return None;
      }
      r := FindFirst(db.value.admins, WithKey(AdminDocId, docId));
    }

    method CreateAttendance(data: AttendanceData, freshId: string, now: int) returns (id: Option<string>)
      modifies this
      requires db.Some? ==> FreshId(db.value.attendance, AttendanceDocId, freshId)
      ensures Written(id.Some?, db) == AttendanceCreated(old(db), data, freshId, now)
      ensures id.Some? ==> id.value == freshId
      ensures old(Valid()) ==> Valid()
    {
      if db.None? {
        return None;
      }
      db := Some(db.value.(attendance := db.value.attendance + [AttendanceDoc(freshId, data, now)]));
      return Some(freshId);
    }

    method GetAttendanceByEmployeeAndDate(employeeId: string, date: string) returns (r: Option<AttendanceDoc>)
      ensures r == FirstIn(db, Attendance, AttendanceOfDay(employeeId, date))
    {
      if db.None? {
        return None;
      }
      r := FindFirst(db.value.attendance, AttendanceOfDay(employeeId, date));
    }

    method GetAttendanceByEmployee(employeeId: string, limit: nat) returns (r: seq<AttendanceDoc>)
      ensures r == AttendanceByEmployee(db, employeeId, limit)
    {
      if db.None? {
        return [];
      }
      r := Select(db.value.attendance, AttendanceOfEmployee(employeeId));
      r := Take(r, limit);
      r := SortDesc(r, AttendanceDate);
    }

    method GetAttendanceByDate(date: string) returns (r: seq<AttendanceDoc>)
      ensures r == AllIn(db, Attendance, AttendanceOnDate(date))
    {
      if db.None? {
        return [];
      }
      r := Select(db.value.attendance, AttendanceOnDate(date));
    }

    method GetRecentAttendance(limit: nat) returns (r: seq<AttendanceDoc>)
      ensures r == RecentAttendance(db, limit)
    {
      if db.None? {
        return [];
      }
      var docs := Take(SortDesc(db.value.attendance, AttendanceDate), limit);
      r := Collect(docs);
    }

    method UpdateAttendance(docId: string, data: AttendanceData) returns (ok: bool)
      modifies this
      ensures Written(ok, db) == AttendanceUpdated(old(db), docId, data)
      ensures old(Valid()) ==> Valid()
    {
      if db.None? || KeyUnused(db.value.attendance, AttendanceDocId, docId) {
        return false;
      }
      db := AttendanceUpdated(db, docId, data).db;
      return true;
    }

    method CreateTimesheet(data: TimesheetData, freshId: string, now: int) returns (id: Option<string>)
      modifies this
      requires db.Some? ==> FreshId(db.value.timesheets, TimesheetDocId, freshId)
      ensures Written(id.Some?, db) == TimesheetCreated(old(db), data, freshId, now)
      ensures id.Some? ==> id.value == freshId
      ensures old(Valid()) ==> Valid()
    {
      if db.None? {
        return None;
      }
      db := Some(db.value.(timesheets := db.value.timesheets + [TimesheetDoc(freshId, data, now, now)]));
      return Some(freshId);
    }

    method GetTimesheetByEmployeeAndDate(employeeId: string, date: string) returns (r: Option<TimesheetDoc>)
      ensures r == FirstIn(db, Timesheets, TimesheetOfDay(employeeId, date))
    {
      if db.None? {
        return None;
      }
      r := FindFirst(db.value.timesheets, TimesheetOfDay(employeeId, date));
    }

    method GetTimesheetsByEmployee(employeeId: string, limit: nat) returns (r: seq<TimesheetDoc>)
      ensures r == TimesheetsByEmployee(db, employeeId, limit)
    {
      if db.None? {
        return [];
      }
      r := Select(db.value.timesheets, TimesheetOfEmployee(employeeId));
      r := Take(r, limit);
      r := SortDesc(r, TimesheetDate);
    }

    method GetTimesheetsByDate(date: string) returns (r: seq<TimesheetDoc>)
      ensures r == AllIn(db, Timesheets, TimesheetOnDate(date))
    {
      if db.None? {
        return [];
      }
      r := Select(db.value.timesheets, TimesheetOnDate(date));
    }

    method GetRecentTimesheets(limit: nat) returns (r: seq<TimesheetDoc>)
      ensures r == RecentTimesheets(db, limit)
    {
      if db.None? {
        return [];
      }
      var docs := Take(SortDesc(db.value.timesheets, TimesheetDate), limit);
      r := Collect(docs);
    }

    method UpdateTimesheet(docId: string, data: TimesheetData, now: int) returns (ok: bool)
      modifies this
      ensures Written(ok, db) == TimesheetUpdated(old(db), docId, data, now)
      ensures old(Valid()) ==> Valid()
    {
      if db.None? || KeyUnused(db.value.timesheets, TimesheetDocId, docId) {
        return false;
      }
      db := TimesheetUpdated(db, docId, data, now).db;
      return true;
    }

    method CreateWfhApproval(data: WfhData, freshId: string, now: int) returns (id: Option<string>)
      modifies this
      requires db.Some? ==> FreshId(db.value.wfhApprovals, WfhDocId, freshId)
      ensures Written(id.Some?, db) == WfhApprovalCreated(old(db), data, freshId, now)
      ensures id.Some? ==> id.value == freshId
      ensures old(Valid()) ==> Valid()
    {
      if db.None? {
        return None;
      }
      db := Some(db.value.(wfhApprovals := db.value.wfhApprovals + [WfhDoc(freshId, data, now)]));
      return Some(freshId);
    }

    method GetWfhApprovalsByEmployee(employeeId: string) returns (r: seq<WfhDoc>)
      ensures r == AllIn(db, WfhApprovals, WfhOfEmployee(employeeId))
    {
      if db.None? {
        return [];
      }
      r := Select(db.value.wfhApprovals, WfhOfEmployee(employeeId));
    }

    method GetAllWfhApprovals() returns (r: seq<WfhDoc>)
      ensures r == AllWfhApprovals(db)
    {
      if db.None? {
        return [];
      }
      r := Collect(db.value.wfhApprovals);
      r := SortDesc(r, WfhStartDate);
    }
  }
}
