/** The sign-in and sign-out handlers of `app.py` (`employee_signin`,
    `employee_signout`): today's attendance record of the signed-in employee is
    looked up, the request is refused when it would sign in twice or sign out
    without a sign-in, and otherwise the record is created or updated through
    the attendance model object.

    Each handler is a method over the service and the model objects, proved
    equal to a function of the database; the lemmas are about those functions.
    `today` is the `%Y-%m-%d` text of the current date and `now` the current
    moment; both, and the id a create would receive, are parameters. */
module AttendanceFlow {
  import opened Values
  import opened Seqs
  import opened Service
  import opened Models
  import Config

  datatype SignInOutcome = AlreadySignedIn | SignedIn | SignInFailed

  datatype SignOutOutcome =
    | NotSignedIn
    | AlreadySignedOut
    | TimesheetRequired
    | HoursUnavailable
    | SignedOut(worked: Worked)
    | SignOutFailed

  /** `'home' if work_from_home else 'office'` */
  function WorkLocation(workFromHome: bool): string {
    if workFromHome then "home" else "office"
  }

  /** `FirebaseAttendance.find_by_employee_and_date(employee_id, today)`, as the
      document the object is built from. */
  function TodayRecord(db: Option<Store>, employeeId: string, today: string): Option<AttendanceDoc> {
    FirstIn(db, Attendance, AttendanceOfDay(employeeId, today))
  }

  function TodayTimesheet(db: Option<Store>, employeeId: string, today: string): Option<TimesheetDoc> {
    FirstIn(db, Timesheets, TimesheetOfDay(employeeId, today))
  }

  /** `record and record.sign_in_time` */
  predicate HasSignedIn(record: Option<AttendanceDoc>) {
    record.Some? && Truthy(record.value.data.signInTime)
  }

  /** `record.sign_out_time` of an existing record */
  predicate HasSignedOut(record: Option<AttendanceDoc>) {
    record.Some? && Truthy(record.value.data.signOutTime)
  }

  /** No employee has two attendance records for the same date. */
  predicate OnePerDay(att: seq<AttendanceDoc>) {
    forall i, j :: 0 <= i < j < |att| ==>
      !(att[i].data.employeeId == att[j].data.employeeId && att[i].data.date == att[j].data.date)
  }

  /** `after` is `before` with the data of the document `id` replaced. */
  predicate UpdatedInPlace(before: seq<AttendanceDoc>, after: seq<AttendanceDoc>, id: string, data: AttendanceData) {
    |after| == |before| &&
    forall i :: 0 <= i < |before| ==> after[i] == if before[i].id == id then before[i].(data := data) else before[i]
  }

  // ----- sign-in -----

  /** The object the sign-in handler saves. A new record carries the given work
      location, when the handler sets one; an existing record gets the new
      sign-in time and, when given, the new work location. */
  function SignInRecord(existing: Option<AttendanceDoc>, employeeId: string, today: string, now: int, location: Option<string>): AttendanceState {
    if existing.None? then
      AttendanceInit(AttendanceDict(None, AttendanceData(employeeId, today, DateTime(now), Null, None, location), None))
    else
      var st := AttendanceInit(AttendanceDocDict(existing.value));
      st.(signInTime := DateTime(now), workLocation := if location.Some? then location.value else st.workLocation)
  }

  /** The sign-in handler from the lookup on; `location` is the work location it
      writes (None when it writes none). */
  function SignInSpec(db: Option<Store>, employeeId: string, today: string, now: int, location: Option<string>, freshId: string): (r: (SignInOutcome, Option<Store>))
    ensures HasSignedIn(TodayRecord(db, employeeId, today)) ==> r == (AlreadySignedIn, db)
    ensures r.0 != SignedIn ==> r.1 == db
    ensures db.None? ==> r == (SignInFailed, db)
  {
    var existing := TodayRecord(db, employeeId, today);
    if HasSignedIn(existing) then (AlreadySignedIn, db)
    else
      var w := AttendanceSaved(db, SignInRecord(existing, employeeId, today, now, location), freshId, now).0;
      (if w.ok then SignedIn else SignInFailed, w.db)
  }

  /** Sign-in through the model object: look up, refuse, create or update, save. */
  method RecordSignIn(svc: FirebaseService, employeeId: string, today: string, now: int, location: Option<string>, freshId: string)
    returns (outcome: SignInOutcome)
    modifies svc
    requires svc.db.Some? ==> FreshId(svc.db.value.attendance, AttendanceDocId, freshId)
    ensures (outcome, svc.db) == SignInSpec(old(svc.db), employeeId, today, now, location, freshId)
  {
    var existing := FirebaseAttendance.FindByEmployeeAndDate(svc, employeeId, today);
    if existing != null && Truthy(existing.signInTime) {
      return AlreadySignedIn;
    }
    ghost var found := TodayRecord(svc.db, employeeId, today);
    var attendance: FirebaseAttendance;
    if existing == null {
      attendance := new FirebaseAttendance(AttendanceDict(None, AttendanceData(employeeId, today, DateTime(now), Null, None, location), None));
    } else {
      attendance := existing;
      attendance.signInTime := DateTime(now);
      if location.Some? {
        attendance.workLocation := location.value;
      }
    }
    assert attendance.State() == SignInRecord(found, employeeId, today, now, location);
    var ok := attendance.Save(svc, freshId, now);
    outcome := if ok then SignedIn else SignInFailed;
  }

  /** `employee_signin` of `app.py`, POST: the geofence is switched off there, so
      the work location chosen for the session is simply recorded. */
  method SignIn(svc: FirebaseService, employeeId: string, today: string, now: int, workFromHome: bool, freshId: string)
    returns (outcome: SignInOutcome)
    modifies svc
    requires svc.db.Some? ==> FreshId(svc.db.value.attendance, AttendanceDocId, freshId)
    ensures (outcome, svc.db) == SignInSpec(old(svc.db), employeeId, today, now, Some(WorkLocation(workFromHome)), freshId)
  {
    outcome := RecordSignIn(svc, employeeId, today, now, Some(WorkLocation(workFromHome)), freshId);
  }

  /** A document that is in a collection has its id in use there. */
  lemma StoredIdInUse(att: seq<AttendanceDoc>, d: AttendanceDoc)
    requires d in att
    ensures !KeyUnused(att, AttendanceDocId, d.id)
  {
    var i :| 0 <= i < |att| && att[i] == d;
    assert AttendanceDocId(att[i]) == d.id;
  }

  /** Sign-in succeeds exactly when the database is available and today's
      record is missing or has no sign-in time. */
  lemma SignInSucceedsIff(db: Option<Store>, employeeId: string, today: string, now: int, location: Option<string>, freshId: string)
    ensures SignInSpec(db, employeeId, today, now, location, freshId).0 == SignedIn <==>
      db.Some? && !HasSignedIn(TodayRecord(db, employeeId, today))
  {
    var existing := TodayRecord(db, employeeId, today);
    if db.Some? && existing.Some? && !HasSignedIn(existing) {
      StoredIdInUse(db.value.attendance, existing.value);
    }
  }

  /** Without a record for today, sign-in appends exactly one new record: today's
      date, the sign-in moment, no sign-out, no hours, and the given work
      location or else 'office'. Nothing else in the database changes. */
  lemma SignInCreatesRecord(db: Option<Store>, employeeId: string, today: string, now: int, location: Option<string>, freshId: string)
    requires db.Some? && TodayRecord(db, employeeId, today).None?
    ensures SignInSpec(db, employeeId, today, now, location, freshId) ==
      (SignedIn, Some(db.value.(attendance := db.value.attendance +
        [AttendanceDoc(freshId, AttendanceData(employeeId, today, IsoText(now), Null, None, Some(location.GetOr("office"))), now)])))
  {
    var st := SignInRecord(None, employeeId, today, now, location);
    assert AttendanceWritten(st) == AttendanceData(employeeId, today, IsoText(now), Null, None, Some(location.GetOr("office")));
  }

  /** The record a sign-in writes over an existing one: the sign-in moment, the
      work location (given, or as read), the other fields as read. */
  function SignedInData(d: AttendanceDoc, now: int, location: Option<string>): AttendanceData {
    d.data.(signInTime := IsoText(now), signOutTime := Serialise(d.data.signOutTime),
            workLocation := Some(if location.Some? then location.value else d.data.workLocation.GetOr("office")))
  }

  /** With a record for today that has no sign-in, sign-in updates that record in
      place and leaves every other document as it was. */
  lemma SignInUpdatesRecord(db: Option<Store>, employeeId: string, today: string, now: int, location: Option<string>, freshId: string)
    requires DbValid(db)
    requires TodayRecord(db, employeeId, today).Some? && !HasSignedIn(TodayRecord(db, employeeId, today))
    ensures
      var d := TodayRecord(db, employeeId, today).value;
      var r := SignInSpec(db, employeeId, today, now, location, freshId);
      var att := db.value.attendance;
      r.0 == SignedIn && r.1.Some? && r.1.value == db.value.(attendance := r.1.value.attendance) &&
      UpdatedInPlace(att, r.1.value.attendance, d.id, SignedInData(d, now, location))
  {
    var d := TodayRecord(db, employeeId, today).value;
    StoredIdInUse(db.value.attendance, d);
    var st := SignInRecord(Some(d), employeeId, today, now, location);
    assert IsSet(st.id);
    assert AttendanceWritten(st) == SignedInData(d, now, location);
  }

  // ----- sign-out -----

  /** The sign-out handler from the lookup on. `requireTimesheet` is the
      timesheet gate: on, today's timesheet must exist. */
  function SignOutSpec(db: Option<Store>, employeeId: string, today: string, now: int, requireTimesheet: bool, freshId: string): (r: (SignOutOutcome, Option<Store>))
    ensures !r.0.SignedOut? ==> r.1 == db
  {
    var existing := TodayRecord(db, employeeId, today);
    if !HasSignedIn(existing) then (NotSignedIn, db)
    else if Truthy(existing.value.data.signOutTime) then (AlreadySignedOut, db)
    else if requireTimesheet && TodayTimesheet(db, employeeId, today).None? then (TimesheetRequired, db)
    else FinishSignOut(db, AttendanceInit(AttendanceDocDict(existing.value)), now, freshId)
  }

  /** The end of sign-out, once every check has passed: the sign-out moment is
      set, and when the sign-in time can be read the hours are set and the
      record is saved. */
  function FinishSignOut(db: Option<Store>, st: AttendanceState, now: int, freshId: string): (r: (SignOutOutcome, Option<Store>))
    ensures !r.0.SignedOut? ==> r.1 == db
    ensures r.0 != NotSignedIn && r.0 != AlreadySignedOut && r.0 != TimesheetRequired
  {
    match Reading(st.signInTime)
    case None => (HoursUnavailable, db)
    case Some(t) => SignOutSaved(db, st.(signOutTime := DateTime(now)), now, t, freshId)
  }

  /** Saving the signed-out record with the hours since the sign-in moment `t`. */
  function SignOutSaved(db: Option<Store>, st: AttendanceState, now: int, t: int, freshId: string): (r: (SignOutOutcome, Option<Store>))
    ensures !r.0.SignedOut? ==> r.1 == db
    ensures r.0 == SignedOut(WorkedTime(now - t)) || r.0 == SignOutFailed
  {
    var w := AttendanceSaved(db, st.(totalHours := Some(CentiHours(now - t))), freshId, now).0;
    (if w.ok then SignedOut(WorkedTime(now - t)) else SignOutFailed, w.db)
  }

  /** The checks of sign-out, in the handler's order: no sign-in today, already
      signed out, no timesheet while the gate is on, and a sign-in time that
      cannot be read; each refuses without writing. A completed sign-out reports
      the time since the sign-in read from the record. */
  lemma SignOutChecksInOrder(db: Option<Store>, employeeId: string, today: string, now: int, requireTimesheet: bool, freshId: string)
    ensures
      var record := TodayRecord(db, employeeId, today);
      var r := SignOutSpec(db, employeeId, today, now, requireTimesheet, freshId);
      (!HasSignedIn(record) ==> r == (NotSignedIn, db)) &&
      (HasSignedIn(record) && HasSignedOut(record) ==> r == (AlreadySignedOut, db)) &&
      (HasSignedIn(record) && !HasSignedOut(record) && requireTimesheet && TodayTimesheet(db, employeeId, today).None? ==>
        r == (TimesheetRequired, db)) &&
      (HasSignedIn(record) && !HasSignedOut(record) && (!requireTimesheet || TodayTimesheet(db, employeeId, today).Some?) &&
       Reading(record.value.data.signInTime).None? ==>
         r == (HoursUnavailable, db)) &&
      (r.0 == TimesheetRequired ==> requireTimesheet && TodayTimesheet(db, employeeId, today).None?) &&
      (r.0.SignedOut? ==>
         Reading(record.value.data.signInTime).Some? &&
         r.0.worked == WorkedTime(now - Reading(record.value.data.signInTime).value))
  {
    var record := TodayRecord(db, employeeId, today);
    if HasSignedIn(record) && !HasSignedOut(record) && (!requireTimesheet || TodayTimesheet(db, employeeId, today).Some?) {
      var st := AttendanceInit(AttendanceDocDict(record.value));
      assert st.signInTime == record.value.data.signInTime;
    }
  }

  /** Sign-out through the model objects, with the given timesheet gate. */
  method RecordSignOut(svc: FirebaseService, employeeId: string, today: string, now: int, requireTimesheet: bool, freshId: string)
    returns (outcome: SignOutOutcome)
    modifies svc
    requires svc.db.Some? ==> FreshId(svc.db.value.attendance, AttendanceDocId, freshId)
    ensures (outcome, svc.db) == SignOutSpec(old(svc.db), employeeId, today, now, requireTimesheet, freshId)
  {
    var attendance := FirebaseAttendance.FindByEmployeeAndDate(svc, employeeId, today);
    if attendance == null || !Truthy(attendance.signInTime) {
      return NotSignedIn;
    }
    if Truthy(attendance.signOutTime) {
      return AlreadySignedOut;
    }
    if requireTimesheet {
      var timesheet := FirebaseTimesheet.FindByEmployeeAndDate(svc, employeeId, today);
      if timesheet == null {
        return TimesheetRequired;
      }
    }
    outcome := CompleteSignOut(svc, attendance, now, freshId);
  }

  /** The end of the sign-out handler, on the record object it looked up. */
  method CompleteSignOut(svc: FirebaseService, attendance: FirebaseAttendance, now: int, freshId: string)
    returns (outcome: SignOutOutcome)
    modifies svc, attendance
    requires svc.db.Some? ==> FreshId(svc.db.value.attendance, AttendanceDocId, freshId)
    ensures (outcome, svc.db) == FinishSignOut(old(svc.db), old(attendance.State()), now, freshId)
  {
    attendance.signOutTime := DateTime(now);
    var signIn := attendance.GetSignInDatetime();
    if signIn.None? {
      return HoursUnavailable;
    }
    outcome := SaveSignOut(svc, attendance, now, signIn.value, freshId);
  }

  /** Setting the hours on the record object and saving it. */
  method SaveSignOut(svc: FirebaseService, attendance: FirebaseAttendance, now: int, t: int, freshId: string)
    returns (outcome: SignOutOutcome)
    modifies svc, attendance
    requires svc.db.Some? ==> FreshId(svc.db.value.attendance, AttendanceDocId, freshId)
    ensures (outcome, svc.db) == SignOutSaved(old(svc.db), old(attendance.State()), now, t, freshId)
  {
    attendance.totalHours := Some(CentiHours(now - t));
    var ok := attendance.Save(svc, freshId, now);
    outcome := if ok then SignedOut(WorkedTime(now - t)) else SignOutFailed;
  }

  /** `employee_signout` of `app.py`, POST: the geofence is switched off there,
      and the timesheet gate is `REQUIRE_TIMESHEET_FOR_SIGNOUT`. */
  method SignOut(svc: FirebaseService, employeeId: string, today: string, now: int, freshId: string)
    returns (outcome: SignOutOutcome)
    modifies svc
    requires svc.db.Some? ==> FreshId(svc.db.value.attendance, AttendanceDocId, freshId)
    ensures (outcome, svc.db) == SignOutSpec(old(svc.db), employeeId, today, now, Config.RequireTimesheetForSignout, freshId)
  {
    outcome := RecordSignOut(svc, employeeId, today, now, Config.RequireTimesheetForSignout, freshId);
  }

  /** The record a sign-out writes: the sign-out moment and the hours, in
      hundredths, since the sign-in read from the record. */
  function SignedOutData(d: AttendanceDoc, now: int, signIn: int): AttendanceData {
    d.data.(signInTime := Serialise(d.data.signInTime), signOutTime := IsoText(now),
            totalHours := Some(CentiHours(now - signIn)), workLocation := Some(d.data.workLocation.GetOr("office")))
  }

  /** When every check passes and the sign-in time can be read, sign-out updates
      today's record in place with the sign-out moment and the rounded hours,
      reports the worked time, and leaves every other document as it was. */
  lemma SignOutRecordsHours(db: Option<Store>, employeeId: string, today: string, now: int, requireTimesheet: bool, freshId: string)
    requires DbValid(db)
    requires HasSignedIn(TodayRecord(db, employeeId, today)) && !HasSignedOut(TodayRecord(db, employeeId, today))
    requires !requireTimesheet || TodayTimesheet(db, employeeId, today).Some?
    requires Reading(TodayRecord(db, employeeId, today).value.data.signInTime).Some?
    ensures
      var d := TodayRecord(db, employeeId, today).value;
      var t := Reading(d.data.signInTime).value;
      var r := SignOutSpec(db, employeeId, today, now, requireTimesheet, freshId);
      var att := db.value.attendance;
      r.0 == SignedOut(WorkedTime(now - t)) && r.1.Some? && r.1.value == db.value.(attendance := r.1.value.attendance) &&
      UpdatedInPlace(att, r.1.value.attendance, d.id, SignedOutData(d, now, t))
  {
    var d := TodayRecord(db, employeeId, today).value;
    var t := Reading(d.data.signInTime).value;
    StoredIdInUse(db.value.attendance, d);
    var st := AttendanceInit(AttendanceDocDict(d)).(signOutTime := DateTime(now), totalHours := Some(CentiHours(now - t)));
    assert IsSet(st.id);
    assert AttendanceWritten(st) == SignedOutData(d, now, t);
  }

  // ----- the day of one employee -----

  /** Where an employee's day stands: no sign-in yet, signed in, or signed out. */
  datatype DayState = Absent | Working | Finished

  function DayOf(db: Option<Store>, employeeId: string, today: string): DayState {
    var record := TodayRecord(db, employeeId, today);
    if !HasSignedIn(record) then Absent
    else if HasSignedOut(record) then Finished
    else Working
  }

  /** After an in-place update of document d that keeps its employee and date,
      today's record is the updated d. */
  lemma FoundAfterUpdate(before: seq<AttendanceDoc>, after: seq<AttendanceDoc>, employeeId: string, today: string, d: AttendanceDoc, data: AttendanceData)
    requires IdsValid(before, AttendanceDocId)
    requires First(before, AttendanceOfDay(employeeId, today)) == Some(d)
    requires data.employeeId == employeeId && data.date == today
    requires UpdatedInPlace(before, after, d.id, data)
    ensures First(after, AttendanceOfDay(employeeId, today)) == Some(d.(data := data))
    ensures OnePerDay(before) ==> OnePerDay(after)
    ensures IdsValid(after, AttendanceDocId)
  {
    var p := AttendanceOfDay(employeeId, today);
    var k := IndexOf(before, p).value;
    assert before[k] == d;
    forall i | 0 <= i < |before|
      ensures after[i].data.employeeId == before[i].data.employeeId && after[i].data.date == before[i].data.date
      ensures AttendanceDocId(after[i]) == AttendanceDocId(before[i])
      ensures i != k ==> after[i] == before[i]
    {
      if i != k {
        assert AttendanceDocId(before[i]) != AttendanceDocId(before[k]) by {
          if i < k {
            assert AttendanceDocId(before[i]) != AttendanceDocId(before[k]);
          } else {
            assert AttendanceDocId(before[k]) != AttendanceDocId(before[i]);
          }
        }
      }
    }
    IndexOfSameMatches(before, after, p);
  }

  /** After appending a record for a day that had none, today's record is the
      new one, and no day has two records. */
  lemma FoundAfterAppend(before: seq<AttendanceDoc>, d: AttendanceDoc, employeeId: string, today: string)
    requires First(before, AttendanceOfDay(employeeId, today)).None?
    requires d.data.employeeId == employeeId && d.data.date == today
    ensures First(before + [d], AttendanceOfDay(employeeId, today)) == Some(d)
    ensures OnePerDay(before) ==> OnePerDay(before + [d])
  {
    var p := AttendanceOfDay(employeeId, today);
    IndexOfAppend(before, d, p);
    var after := before + [d];
    if OnePerDay(before) {
      forall i, j | 0 <= i < j < |after|
        ensures !(after[i].data.employeeId == after[j].data.employeeId && after[i].data.date == after[j].data.date)
      {
        if j == |before| {
          assert after[i] == before[i];
          assert !p(before[i]);
        }
      }
    }
  }

  /** Sign-in moves the day from Absent to Working (to Finished only when the
      record it completes already carried a sign-out), keeps the database valid
      and keeps at most one record per employee and day. Any other outcome
      changes nothing, and once signed in, sign-in is refused. */
  lemma SignInMovesDay(db: Option<Store>, employeeId: string, today: string, now: int, location: Option<string>, freshId: string)
    requires DbValid(db)
    requires db.Some? ==> FreshId(db.value.attendance, AttendanceDocId, freshId)
    ensures
      var r := SignInSpec(db, employeeId, today, now, location, freshId);
      (r.0 == SignedIn ==>
        DayOf(db, employeeId, today) == Absent &&
        DayOf(r.1, employeeId, today) == (if HasSignedOut(TodayRecord(db, employeeId, today)) then Finished else Working)) &&
      (DayOf(db, employeeId, today) != Absent ==> r == (AlreadySignedIn, db)) &&
      DbValid(r.1) &&
      (db.Some? && OnePerDay(db.value.attendance) ==> OnePerDay(r.1.value.attendance))
  {
    var r := SignInSpec(db, employeeId, today, now, location, freshId);
    if r.0 == SignedIn {
      SignInSucceedsIff(db, employeeId, today, now, location, freshId);
      if TodayRecord(db, employeeId, today).None? {
        SignInAppendMovesDay(db, employeeId, today, now, location, freshId);
      } else {
        SignInUpdateMovesDay(db, employeeId, today, now, location, freshId);
      }
    }
  }

  /** Sign-in without a record for today: the appended record is today's, Working. */
  lemma SignInAppendMovesDay(db: Option<Store>, employeeId: string, today: string, now: int, location: Option<string>, freshId: string)
    requires DbValid(db) && db.Some? && FreshId(db.value.attendance, AttendanceDocId, freshId)
    requires TodayRecord(db, employeeId, today).None?
    ensures
      var r := SignInSpec(db, employeeId, today, now, location, freshId);
      DayOf(r.1, employeeId, today) == Working && DbValid(r.1) &&
      (OnePerDay(db.value.attendance) ==> OnePerDay(r.1.value.attendance))
  {
    var att := db.value.attendance;
    SignInCreatesRecord(db, employeeId, today, now, location, freshId);
    var d := AttendanceDoc(freshId, AttendanceData(employeeId, today, IsoText(now), Null, None, Some(location.GetOr("office"))), now);
    FoundAfterAppend(att, d, employeeId, today);
    AppendKeepsIds(att, AttendanceDocId, d);
  }

  /** Sign-in over today's record without a sign-in: the updated record is today's. */
  lemma SignInUpdateMovesDay(db: Option<Store>, employeeId: string, today: string, now: int, location: Option<string>, freshId: string)
    requires DbValid(db)
    requires SignInSpec(db, employeeId, today, now, location, freshId).0 == SignedIn
    requires TodayRecord(db, employeeId, today).Some?
    ensures
      var r := SignInSpec(db, employeeId, today, now, location, freshId);
      DayOf(r.1, employeeId, today) == (if HasSignedOut(TodayRecord(db, employeeId, today)) then Finished else Working) &&
      DbValid(r.1) &&
      (OnePerDay(db.value.attendance) ==> OnePerDay(r.1.value.attendance))
  {
    var d := TodayRecord(db, employeeId, today).value;
    var r := SignInSpec(db, employeeId, today, now, location, freshId);
    SignInSucceedsIff(db, employeeId, today, now, location, freshId);
    SignInUpdatesRecord(db, employeeId, today, now, location, freshId);
    var data := SignedInData(d, now, location);
    FoundAfterUpdate(db.value.attendance, r.1.value.attendance, employeeId, today, d, data);
    assert TodayRecord(r.1, employeeId, today) == Some(d.(data := data));
    assert Truthy(data.signInTime);
    assert Truthy(data.signOutTime) == Truthy(d.data.signOutTime);
  }

  /** A sign-out that passes its checks moves the day from Working to
      Finished, and the database stays valid with at most one record per
      employee and day. */
  lemma SignOutFinishesDay(db: Option<Store>, employeeId: string, today: string, now: int, requireTimesheet: bool, freshId: string)
    requires DbValid(db)
    requires HasSignedIn(TodayRecord(db, employeeId, today)) && !HasSignedOut(TodayRecord(db, employeeId, today))
    requires !requireTimesheet || TodayTimesheet(db, employeeId, today).Some?
    requires Reading(TodayRecord(db, employeeId, today).value.data.signInTime).Some?
    ensures
      var r := SignOutSpec(db, employeeId, today, now, requireTimesheet, freshId);
      DayOf(db, employeeId, today) == Working && DayOf(r.1, employeeId, today) == Finished &&
      DbValid(r.1) && (OnePerDay(db.value.attendance) ==> OnePerDay(r.1.value.attendance))
  {
    var r := SignOutSpec(db, employeeId, today, now, requireTimesheet, freshId);
    var d := TodayRecord(db, employeeId, today).value;
    var t := Reading(d.data.signInTime).value;
    var data := SignedOutData(d, now, t);
    assert r.1.Some? && r.1.value == db.value.(attendance := r.1.value.attendance) &&
      UpdatedInPlace(db.value.attendance, r.1.value.attendance, d.id, data) by {
      SignOutRecordsHours(db, employeeId, today, now, requireTimesheet, freshId);
    }
    var after := r.1.value.attendance;
    assert First(after, AttendanceOfDay(employeeId, today)) == Some(d.(data := data)) &&
      (OnePerDay(db.value.attendance) ==> OnePerDay(after)) && IdsValid(after, AttendanceDocId) by {
      FoundAfterUpdate(db.value.attendance, after, employeeId, today, d, data);
    }
    assert TodayRecord(r.1, employeeId, today) == Some(d.(data := data));
    assert Truthy(data.signInTime) && Truthy(data.signOutTime);
  }

  /** A finished day refuses sign-out, a day without sign-in refuses it too,
      and any sign-out keeps the database valid with at most one record per
      employee and day. */
  lemma SignOutMovesDay(db: Option<Store>, employeeId: string, today: string, now: int, requireTimesheet: bool, freshId: string)
    requires DbValid(db)
    ensures
      var r := SignOutSpec(db, employeeId, today, now, requireTimesheet, freshId);
      (DayOf(db, employeeId, today) == Finished ==> r == (AlreadySignedOut, db)) &&
      (DayOf(db, employeeId, today) == Absent ==> r == (NotSignedIn, db)) &&
      DbValid(r.1) &&
      (db.Some? && OnePerDay(db.value.attendance) ==> OnePerDay(r.1.value.attendance))
  {
    SignOutChecksInOrder(db, employeeId, today, now, requireTimesheet, freshId);
    var record := TodayRecord(db, employeeId, today);
    if HasSignedIn(record) && !HasSignedOut(record) && (!requireTimesheet || TodayTimesheet(db, employeeId, today).Some?) &&
       Reading(record.value.data.signInTime).Some?
    {
      SignOutFinishesDay(db, employeeId, today, now, requireTimesheet, freshId);
    }
  }
}
