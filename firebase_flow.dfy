/** The handlers of `app_firebase.py` that differ from `app.py`: sign-in and
    sign-out behind an enforced geofence, without a timesheet gate and without
    a work location, and the session login that turns a verified identity token
    into a logged-in employee or admin.

    Token verification is a parameter (`verify`), as is the distance function
    of the geofence. */
module FirebaseFlow {
  import opened Values
  import opened Seqs
  import opened Service
  import opened Models
  import opened Config
  import opened Geofence
  import opened AttendanceFlow

  /** The geofence answer comes first: outside, nothing is looked up. */
  datatype Gated<T> = OutsideOffice | Inside(outcome: T)

  // ----- sign-in and sign-out behind the geofence -----

  function FbSignInSpec(db: Option<Store>, employeeId: string, today: string, now: int,
                        lat: Coordinate, lon: Coordinate, dist: Distance, freshId: string): (r: (Gated<SignInOutcome>, Option<Store>))
    ensures !IsWithinOfficeGeofence(lat, lon, OfficeLocations, dist) ==> r == (OutsideOffice, db)
    ensures IsWithinOfficeGeofence(lat, lon, OfficeLocations, dist) ==>
      r.0 == Inside(SignInSpec(db, employeeId, today, now, None, freshId).0) &&
      r.1 == SignInSpec(db, employeeId, today, now, None, freshId).1
  {
    if !IsWithinOfficeGeofence(lat, lon, OfficeLocations, dist) then (OutsideOffice, db)
    else
      var s := SignInSpec(db, employeeId, today, now, None, freshId);
      (Inside(s.0), s.1)
  }

  /** `employee_signin` of `app_firebase.py`, POST. */
  method FbSignIn(svc: FirebaseService, employeeId: string, today: string, now: int,
                  lat: Coordinate, lon: Coordinate, dist: Distance, freshId: string) returns (outcome: Gated<SignInOutcome>)
    modifies svc
    requires svc.db.Some? ==> FreshId(svc.db.value.attendance, AttendanceDocId, freshId)
    ensures (outcome, svc.db) == FbSignInSpec(old(svc.db), employeeId, today, now, lat, lon, dist, freshId)
  {
    var within := CheckGeofence(lat, lon, OfficeLocations, dist);
    if !within {
      return OutsideOffice;
    }
    var signedIn := RecordSignIn(svc, employeeId, today, now, None, freshId);
    outcome := Inside(signedIn);
  }

  function FbSignOutSpec(db: Option<Store>, employeeId: string, today: string, now: int,
                         lat: Coordinate, lon: Coordinate, dist: Distance, freshId: string): (r: (Gated<SignOutOutcome>, Option<Store>))
    ensures !IsWithinOfficeGeofence(lat, lon, OfficeLocations, dist) ==> r == (OutsideOffice, db)
    ensures IsWithinOfficeGeofence(lat, lon, OfficeLocations, dist) ==>
      r.0 == Inside(SignOutSpec(db, employeeId, today, now, false, freshId).0) &&
      r.1 == SignOutSpec(db, employeeId, today, now, false, freshId).1
  {
    if !IsWithinOfficeGeofence(lat, lon, OfficeLocations, dist) then (OutsideOffice, db)
    else
      var s := SignOutSpec(db, employeeId, today, now, false, freshId);
      (Inside(s.0), s.1)
  }

  /** `employee_signout` of `app_firebase.py`, POST. */
  method FbSignOut(svc: FirebaseService, employeeId: string, today: string, now: int,
                   lat: Coordinate, lon: Coordinate, dist: Distance, freshId: string) returns (outcome: Gated<SignOutOutcome>)
    modifies svc
    requires svc.db.Some? ==> FreshId(svc.db.value.attendance, AttendanceDocId, freshId)
    ensures (outcome, svc.db) == FbSignOutSpec(old(svc.db), employeeId, today, now, lat, lon, dist, freshId)
  {
    var within := CheckGeofence(lat, lon, OfficeLocations, dist);
    if !within {
      return OutsideOffice;
    }
    var signedOut := RecordSignOut(svc, employeeId, today, now, false, freshId);
    outcome := Inside(signedOut);
  }

  /** Outside every office, both handlers refuse whatever the database holds:
      the refusal comes before the attendance lookup, so it also comes before
      "not signed in" and "already signed out". */
  lemma FbRefusalPrecedesLookup(db1: Option<Store>, db2: Option<Store>, employeeId: string, today: string, now: int,
                                lat: Coordinate, lon: Coordinate, dist: Distance, freshId: string)
    requires !IsWithinOfficeGeofence(lat, lon, OfficeLocations, dist)
    ensures FbSignInSpec(db1, employeeId, today, now, lat, lon, dist, freshId).0 ==
            FbSignInSpec(db2, employeeId, today, now, lat, lon, dist, freshId).0 == OutsideOffice
    ensures FbSignOutSpec(db1, employeeId, today, now, lat, lon, dist, freshId).0 ==
            FbSignOutSpec(db2, employeeId, today, now, lat, lon, dist, freshId).0 == OutsideOffice
    ensures !Parses(lat) ==> !IsWithinOfficeGeofence(lat, lon, OfficeLocations, dist)
  {
  }

  /** There is no timesheet gate: inside the geofence, signed in and not signed
      out, with a readable sign-in time, sign-out records the hours and saves,
      whether or not a timesheet exists. */
  lemma FbSignOutHasNoTimesheetGate(db: Option<Store>, employeeId: string, today: string, now: int,
                                    lat: Coordinate, lon: Coordinate, dist: Distance, freshId: string)
    requires DbValid(db)
    requires IsWithinOfficeGeofence(lat, lon, OfficeLocations, dist)
    requires HasSignedIn(TodayRecord(db, employeeId, today)) && !HasSignedOut(TodayRecord(db, employeeId, today))
    requires Reading(TodayRecord(db, employeeId, today).value.data.signInTime).Some?
    ensures
      var t := Reading(TodayRecord(db, employeeId, today).value.data.signInTime).value;
      FbSignOutSpec(db, employeeId, today, now, lat, lon, dist, freshId).0 == Inside(SignedOut(WorkedTime(now - t)))
    ensures FbSignOutSpec(db, employeeId, today, now, lat, lon, dist, freshId).0 != Inside(TimesheetRequired)
  {
    SignOutRecordsHours(db, employeeId, today, now, false, freshId);
  }

  /** Sign-out never asks for a timesheet here. */
  lemma FbSignOutNeverAsksForTimesheet(db: Option<Store>, employeeId: string, today: string, now: int,
                                       lat: Coordinate, lon: Coordinate, dist: Distance, freshId: string)
    ensures FbSignOutSpec(db, employeeId, today, now, lat, lon, dist, freshId).0 != Inside(TimesheetRequired)
  {
    SignOutChecksInOrder(db, employeeId, today, now, false, freshId);
  }

  /** A record created by this sign-in carries no work location, so the model
      object fills in 'office' and that is what is stored. */
  lemma FbNewRecordReadsOffice(db: Option<Store>, employeeId: string, today: string, now: int,
                               lat: Coordinate, lon: Coordinate, dist: Distance, freshId: string)
    requires db.Some? && TodayRecord(db, employeeId, today).None?
    requires IsWithinOfficeGeofence(lat, lon, OfficeLocations, dist)
    ensures
      var r := FbSignInSpec(db, employeeId, today, now, lat, lon, dist, freshId);
      r.0 == Inside(SignedIn) && r.1.Some? &&
      r.1.value.attendance == db.value.attendance +
        [AttendanceDoc(freshId, AttendanceData(employeeId, today, IsoText(now), Null, None, Some("office")), now)]
  {
    SignInCreatesRecord(db, employeeId, today, now, None, freshId);
  }

  /** Over an existing record without a sign-in, only the sign-in time is
      written; the stored work location is kept (or becomes 'office' when the
      record had none). */
  lemma FbUpdateKeepsWorkLocation(db: Option<Store>, employeeId: string, today: string, now: int,
                                  lat: Coordinate, lon: Coordinate, dist: Distance, freshId: string)
    requires DbValid(db)
    requires IsWithinOfficeGeofence(lat, lon, OfficeLocations, dist)
    requires TodayRecord(db, employeeId, today).Some? && !HasSignedIn(TodayRecord(db, employeeId, today))
    ensures
      var d := TodayRecord(db, employeeId, today).value;
      var r := FbSignInSpec(db, employeeId, today, now, lat, lon, dist, freshId);
      r.0 == Inside(SignedIn) && r.1.Some? &&
      UpdatedInPlace(db.value.attendance, r.1.value.attendance, d.id,
        d.data.(signInTime := IsoText(now), signOutTime := Serialise(d.data.signOutTime),
                workLocation := Some(d.data.workLocation.GetOr("office"))))
  {
    SignInUpdatesRecord(db, employeeId, today, now, None, freshId);
  }

  // ----- session login -----

  /** The JSON body of the request: `idToken`, `userType`, and the coordinates. */
  datatype LoginRequest = LoginRequest(idToken: Option<string>, userType: Option<string>, latitude: Coordinate, longitude: Coordinate)

  /** What `verify_id_token` gives: an error, or the decoded token's `email`. */
  datatype TokenCheck = Rejected | Decoded(email: Option<string>)

  type TokenVerifier = string -> TokenCheck

  datatype Refusal =
    | MissingFields
    | VerificationFailed
    | NoEmail
    | OutsideGeofence
    | NoEmployee
    | EmployeeInactive
    | NoAdmin
    | InvalidUserType
    | LookupFailed

  /** A JSON answer: success with the id that `login_user` records, or failure
      with its HTTP status. */
  datatype LoginResponse = LoggedIn(userId: string) | Refused(status: int, reason: Refusal)

  /** A text field is present and non-empty (`not x` is false). */
  predicate Present(x: Option<string>) {
    x.Some? && x.value != ""
  }

  /** The checks shared by both versions: the request fields, then the token,
      then its email. */
  function Identity(req: LoginRequest, verify: TokenVerifier): (r: Identified)
    ensures r.Ok? ==> Present(req.idToken) && Present(req.userType) && r.email != ""
  {
    if !Present(req.idToken) || !Present(req.userType) then Fail(Refused(400, MissingFields))
    else match verify(req.idToken.value)
      case Rejected => Fail(Refused(400, VerificationFailed))
      case Decoded(email) => if !Present(email) then Fail(Refused(400, NoEmail)) else Ok(email.value)
  }

  datatype Identified = Ok(email: string) | Fail(response: LoginResponse)

  /** `auth_session_login` as written: the employee branch calls
      `get_employee_by_email`, which the service does not define; the error is
      caught by the handler's `except` and answered with 400. */
  function SessionLoginAsWritten(db: Option<Store>, req: LoginRequest, verify: TokenVerifier, dist: Distance): (r: LoginResponse)
    ensures r.LoggedIn? ==> Identity(req, verify).Ok? && req.userType == Some("admin")
  {
    match Identity(req, verify)
    case Fail(response) => response
    case Ok(email) =>
      if req.userType.value == "employee" then
        if !IsWithinOfficeGeofence(req.latitude, req.longitude, OfficeLocations, dist) then Refused(403, OutsideGeofence)
        else Refused(400, LookupFailed)
      else if req.userType.value == "admin" then
        match FirstIn(db, Admins, UsernameIs(email))
        case None => Refused(404, NoAdmin)
        case Some(a) => LoggedIn(AdminUserId(AdminInit(AdminDocDict(a)).id))
      else Refused(400, InvalidUserType)
  }

  /** As written, no employee can ever log in through the session endpoint. */
  lemma AsWrittenNoEmployeeLogsIn(db: Option<Store>, req: LoginRequest, verify: TokenVerifier, dist: Distance)
    requires req.userType == Some("employee")
    ensures !SessionLoginAsWritten(db, req, verify, dist).LoggedIn?
  {
  }

  /** A concrete request that shows it: an active employee whose email the token
      carries, standing at the first office, is refused with 400 as written and
      logged in by the corrected handler. */
  lemma AsWrittenRefusesActiveEmployee()
    ensures
      var employee := EmployeeDoc("e1", EmployeeData("EMP001", "Ana", "ana@example.com", "Ops", "h", Some(true)), 0, 0);
      var db := Some(Store([employee], [], [], [], []));
      var req := LoginRequest(Some("token"), Some("employee"), Given(Some(12.9040293)), Given(Some(77.5634288)));
      var verify := (t: string) => Decoded(Some("ana@example.com"));
      var dist := (a: real, b: real, c: real, d: real) => 0.0;
      SessionLoginAsWritten(db, req, verify, dist) == Refused(400, LookupFailed) &&
      SessionLogin(db, req, verify, dist) == LoggedIn("employee-e1")
  {
    var employee := EmployeeDoc("e1", EmployeeData("EMP001", "Ana", "ana@example.com", "Ops", "h", Some(true)), 0, 0);
    var dist := (a: real, b: real, c: real, d: real) => 0.0;
    assert Covers(OfficeLocations[0], 12.9040293, 77.5634288, dist);
    assert EmailIs("ana@example.com")(employee);
  }

  /** `auth_session_login` with the employee looked up by email, as the handler
      evidently intends (`FirebaseService.GetEmployeeByEmail`). */
  function SessionLogin(db: Option<Store>, req: LoginRequest, verify: TokenVerifier, dist: Distance): (r: LoginResponse)
    ensures r.LoggedIn? ==> Identity(req, verify).Ok? && (req.userType == Some("employee") || req.userType == Some("admin"))
    ensures r.Refused? ==> r.status in {400, 403, 404}
  {
    match Identity(req, verify)
    case Fail(response) => response
    case Ok(email) =>
      if req.userType.value == "employee" then
        if !IsWithinOfficeGeofence(req.latitude, req.longitude, OfficeLocations, dist) then Refused(403, OutsideGeofence)
        else match FirstIn(db, Employees, EmailIs(email))
          case None => Refused(404, NoEmployee)
          case Some(e) =>
            var employee := EmployeeInit(EmployeeDocDict(e));
            if !employee.isActive then Refused(403, EmployeeInactive)
            else LoggedIn(EmployeeUserId(employee.id))
      else if req.userType.value == "admin" then
        match FirstIn(db, Admins, UsernameIs(email))
        case None => Refused(404, NoAdmin)
        case Some(a) => LoggedIn(AdminUserId(AdminInit(AdminDocDict(a)).id))
      else Refused(400, InvalidUserType)
  }

  /** The request checks come first and do not consult the token verifier or
      the database: a missing idToken or userType is 400 whatever they say. */
  lemma LoginChecksFieldsFirst(db1: Option<Store>, db2: Option<Store>, req: LoginRequest, v1: TokenVerifier, v2: TokenVerifier, dist: Distance)
    requires !Present(req.idToken) || !Present(req.userType)
    ensures SessionLogin(db1, req, v1, dist) == SessionLogin(db2, req, v2, dist) == Refused(400, MissingFields)
  {
  }

  /** The employee ladder, in order: outside the geofence 403 (for any
      database), no employee with the email 404, inactive 403, else logged in
      as "employee-" followed by the document id. */
  lemma EmployeeLoginLadder(db: Option<Store>, req: LoginRequest, verify: TokenVerifier, dist: Distance)
    requires Identity(req, verify).Ok? && req.userType == Some("employee")
    ensures
      var email := Identity(req, verify).email;
      var found := FirstIn(db, Employees, EmailIs(email));
      var r := SessionLogin(db, req, verify, dist);
      (!IsWithinOfficeGeofence(req.latitude, req.longitude, OfficeLocations, dist) ==> r == Refused(403, OutsideGeofence)) &&
      (IsWithinOfficeGeofence(req.latitude, req.longitude, OfficeLocations, dist) ==>
        (found.None? ==> r == Refused(404, NoEmployee)) &&
        (found.Some? && !IsActiveDoc(found.value) ==> r == Refused(403, EmployeeInactive)) &&
        (found.Some? && IsActiveDoc(found.value) ==> r == LoggedIn("employee-" + found.value.id)))
  {
  }

  /** The admin branch and the fallback: 404 without an admin whose username is
      the email, otherwise "admin-" followed by its document id; any other user
      type is 400. */
  lemma AdminLoginAndFallback(db: Option<Store>, req: LoginRequest, verify: TokenVerifier, dist: Distance)
    requires Identity(req, verify).Ok?
    ensures
      var email := Identity(req, verify).email;
      var found := FirstIn(db, Admins, UsernameIs(email));
      var r := SessionLogin(db, req, verify, dist);
      (req.userType == Some("admin") && found.None? ==> r == Refused(404, NoAdmin)) &&
      (req.userType == Some("admin") && found.Some? ==> r == LoggedIn("admin-" + found.value.id)) &&
      (req.userType.value != "admin" && req.userType.value != "employee" ==> r == Refused(400, InvalidUserType))
  {
  }

  /** Only known users log in: a successful employee login names a stored,
      active employee whose email the token carries, a successful admin login a
      stored admin whose username it is. */
  lemma LoginOnlyKnownUsers(db: Option<Store>, req: LoginRequest, verify: TokenVerifier, dist: Distance)
    requires SessionLogin(db, req, verify, dist).LoggedIn?
    ensures Identity(req, verify).Ok? && db.Some?
    ensures
      var email := Identity(req, verify).email;
      var userId := SessionLogin(db, req, verify, dist).userId;
      (req.userType == Some("employee") ==>
        IsWithinOfficeGeofence(req.latitude, req.longitude, OfficeLocations, dist) &&
        exists e :: e in db.value.employees && e.data.email == email && IsActiveDoc(e) && userId == EmployeeUserId(Some(e.id))) &&
      (req.userType == Some("admin") ==>
        exists a :: a in db.value.admins && a.data.username == email && userId == AdminUserId(Some(a.id)))
  {
    var email := Identity(req, verify).email;
    if req.userType == Some("employee") {
      var e := FirstIn(db, Employees, EmailIs(email)).value;
      assert EmailIs(email)(e);
    } else if req.userType == Some("admin") {
      var a := FirstIn(db, Admins, UsernameIs(email)).value;
      assert UsernameIs(email)(a);
    }
  }

  /** The two versions agree everywhere except on an employee inside the
      geofence. */
  lemma CorrectionOnlyChangesEmployeeLookup(db: Option<Store>, req: LoginRequest, verify: TokenVerifier, dist: Distance)
    requires !(Identity(req, verify).Ok? && req.userType == Some("employee") &&
               IsWithinOfficeGeofence(req.latitude, req.longitude, OfficeLocations, dist))
    ensures SessionLoginAsWritten(db, req, verify, dist) == SessionLogin(db, req, verify, dist)
  {
  }
}
