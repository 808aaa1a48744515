# Employee attendance tracker — a verified model of its core

This project models the business logic of a Flask/Firestore employee attendance
tracker and proves properties of it in Dafny. Employees sign in and out of the
working day. The Flask variant (`app.py`) checks the day's attendance record and,
for sign-out, requires a submitted daily timesheet. The Firebase variant
(`app_firebase.py`) enforces the office geofence before anything else and has no
timesheet gate. On top of that sit:

- the timesheet upsert;
- per-employee statistics, the admin dashboard counts and the admin status filter;
- the account operations: `load_user`, change password, add employee and the
  active/inactive toggle;
- the token-based session login of the Firebase variant;
- the first-match office search of the configuration;
- the model classes (`FirebaseEmployee`, `FirebaseAdmin`, `FirebaseAttendance`,
  `FirebaseTimesheet`) and the document store (`FirebaseService`), modelled over
  in-memory collections.

Modelling choices:

- **Store.** The store is the class `Service.FirebaseService`. Its field `db` is
  `None` when no database is available; otherwise it holds one sequence of
  documents per collection.
- **Store operations.** Its methods are proved equal to pure functions of the
  old store: `EmployeeCreated`, `AttendanceUpdated`, `EmployeeDeleted` and so on.
- **Model objects.** Each model object is a class with a `State()`. Its
  constructor applies the source's field defaults. Its `Save` is the
  create-or-update decision, specified by the function `EmployeeSaved`,
  `AttendanceSaved` and so on.
- **Handlers.** Each request handler is a method that changes the store through
  these classes. It is proved equal to a specification function (`SignInSpec`,
  `SignOutSpec`, `SubmitSpec` and so on). The handler's properties are lemmas
  about that function. Flask's flash messages and redirects become outcome values.
- **Time.** Times are whole seconds on the local clock. `datetime.now()` and
  Firestore's `SERVER_TIMESTAMP` are a `now` parameter. The date of today is a
  `today` parameter in `YYYY-MM-DD` form.
- **Time fields.** A time field (`sign_in_time`, `sign_out_time`) is a
  `TimeValue`: None, a `datetime`, an ISO string that `fromisoformat` reads, any
  other string, or another object. This keeps the source's truthiness tests
  (`if attendance.sign_in_time`) separate from parsing (`get_sign_in_datetime`).
- **Document ids.** The id a new document receives is a `freshId` parameter that
  no document of that collection has yet.
- **Foreign calls.** These are parameters:
  - the Haversine distance (`Distance`);
  - the password-hash check (`matches`) and the new hash (`newHash`);
  - Firebase token verification (`TokenVerifier`).

Facts about the code that shape the model:

- `app.py` reads only the session's `work_from_home` flag, to set
  `work_location`. `app_firebase.py` has no WFH handling at all. The store only
  creates and lists WFH approvals; no handler consults them.
- `app.py`'s geofence check is commented out (app.py:160-165, 228-233), so
  `AttendanceFlow.SignIn` and `AttendanceFlow.SignOut` take no coordinates. Only
  the Firebase variant enforces the geofence, in `FirebaseFlow.FbSignIn` and
  `FirebaseFlow.FbSignOut`.
- config.py:82-87 comments out a third office. The configured list is
  "Home Office" and "college" (`Config.OfficeLocations`).
- Only `app.py` makes sign-out wait for a submitted timesheet. `app_firebase.py`
  signs out without it.

## Model

| member | source | states |
|---|---|---|
| Values.Reading | firebase_models.py:255-275 | a field yields a moment only if it is truthy; None, a string `fromisoformat` rejects and an object of another type all yield None |
| Values.Serialise | firebase_models.py:219-231 | the value `save` writes reads back as the same moment with the same truthiness; it is never a datetime; a truthy non-datetime is written unchanged |
| Values.HourOf | app.py:364 | `datetime.hour` of a moment lies in 0..23 |
| Values.MinuteOf | app.py:365 | `datetime.minute` of a moment lies in 0..59 |
| Values.TruncDiv | app.py:271-272 | Python's `int()` of an exact quotient: rounded toward zero, with the bounds on either sign |
| Values.CentiHours | app.py:268-269 | the stored `total_hours`, in hundredths, is within half a hundredth of the exact elapsed hours |
| Values.WorkedTime | app.py:271-272 | the displayed hours and minutes are the elapsed time cut toward zero to whole minutes, with minutes below 60 |
| Values.NineToHalfPastFive | app.py:265-275 | 09:00:00 to 17:30:00 is stored as 8.50 hours and shown as 8 hours and 30 minutes |
| Values.WorkedTimeMirrors | app.py:267-272 | a sign-out before the sign-in gives the negated hours and minutes |
| Config.Locate | config.py:138-147 | some office is found iff some office in the list has distance at most its radius |
| Config.IsWithinOfficeLocation | config.py:116-147 | the loop returns the first covering office's name, with the flag true iff a name is returned |
| Config.LocateFirstMatch | config.py:138-145 | the office found is the first in list order whose radius covers the point, not the nearest |
| Config.LocateIgnoresLaterOffices | config.py:144-145 | once an office matches, offices appended after the list never change the result |
| Config.AtOfficeIsInside | config.py:139-145 | a point at an office's own coordinates is inside (the boundary counts) when distance(p, p) = 0 and the radius is non-negative |
| Config.AtHomeOffice | config.py:88-93 | at the coordinates of the configured "Home Office" the search answers "Home Office" |
| Config.IsOfficeHours | config.py:110-113 | office hours hold iff 10 <= hour of day < 18 |
| Geofence.IsWithinOfficeGeofence | app.py:54-77 | a missing or unparseable coordinate gives false; otherwise true iff some configured office covers the point |
| Geofence.CheckGeofence | app.py:54-77 | the method returns exactly the geofence decision |
| Seqs.FindFirst | firebase_service.py:117-121 | a `for` loop that returns on its first match yields the first matching document |
| Seqs.Collect | firebase_service.py:142-148 | the append loop copies every document in order |
| Seqs.Select | firebase_service.py:272-275 | the append loop over a query yields exactly the matching documents in order |
| Seqs.Take | firebase_service.py:265-268 | `.limit(n)` keeps a prefix of at most n documents; all of them when there are no more than n |
| Seqs.SortDesc | firebase_service.py:280 | `sort(key, reverse=True)` is a permutation that is sorted by the key, largest first |
| Seqs.SortDescStable | firebase_service.py:280 | the sort is stable: for every key, the documents with that key appear in the sorted list in exactly their collection order |
| Seqs.FilterCounts | firebase_service.py:272-275 | a query keeps every occurrence of a matching document and none of the others |
| Seqs.FilterKeepsAll | firebase_service.py:272-275 | a query keeps all documents exactly when every one matches |
| Seqs.FilterKeepsNone | firebase_service.py:272-275 | a query keeps nothing exactly when none matches |
| Seqs.FilterAppend | firebase_service.py:272-275 | filtering two lists one after the other gives the filter of each, concatenated |
| Service.FirstIn | firebase_service.py:113-124 | a single-document lookup answers None when there is no database, else the first matching document |
| Service.AllIn | firebase_service.py:291-305 | an equality query answers the matching documents in collection order, or nothing without a database |
| Service.AttendanceByEmployee | firebase_service.py:258-289 | at most `limit` of the employee's records, sorted by date descending, a permutation of the first `limit` matches (the limit applies before the sort) |
| Service.RecentAttendance | firebase_service.py:307-324 | the first `limit` records of the collection sorted by date descending |
| Service.TimesheetsByEmployee | firebase_service.py:367-395 | at most `limit` of the employee's timesheets, sorted by date descending, a permutation of the first `limit` matches |
| Service.RecentTimesheets | firebase_service.py:413-430 | the first `limit` timesheets sorted by date descending |
| Service.AllWfhApprovals | firebase_service.py:470-484 | every approval, sorted by `start_date` descending with a missing date read as '' |
| Service.EmployeeCreated | firebase_service.py:98-111 | creation fails iff no database is available (the store is unchanged); otherwise the document is appended with both timestamps set, and ids stay unique |
| Service.AdminCreated | firebase_service.py:189-200 | the same for admins |
| Service.AttendanceCreated | firebase_service.py:229-239 | the same for attendance, which is stamped with `created_at` only |
| Service.TimesheetCreated | firebase_service.py:337-348 | the same for timesheets, with `created_at` and `updated_at` |
| Service.WfhApprovalCreated | firebase_service.py:444-453 | the same for WFH approvals, with `created_at` |
| Service.EmployeeUpdated | firebase_service.py:153-162 | an update succeeds iff the document exists; it replaces that document's data and stamps `updated_at`, leaving every other document unchanged |
| Service.AttendanceUpdated | firebase_service.py:326-334 | an attendance update succeeds iff the document exists and does not stamp `updated_at` |
| Service.TimesheetUpdated | firebase_service.py:432-441 | a timesheet update succeeds iff the document exists and stamps `updated_at` |
| Service.EmployeeDeleted | firebase_service.py:164-186 | deleting keeps the store valid |
| Service.DeleteEmployeeCascade | firebase_service.py:164-186 | deletion succeeds iff the employee exists, and a failed deletion changes nothing; a success removes that employee and exactly the attendance records with its `employee_id`, leaving timesheets, admins and approvals untouched |
| Service.FirebaseService.constructor | firebase_service.py:10-12 | the service starts with the given database |
| Service.FirebaseService.CreateEmployee | firebase_service.py:98-111 | returns the new id exactly when the creation succeeded, with the store of `EmployeeCreated`; a valid store (ids unique in each collection) stays valid |
| Service.FirebaseService.GetEmployeeById | firebase_service.py:113-124 | the first employee with that `employee_id` |
| Service.FirebaseService.GetEmployeeByDocId | firebase_service.py:126-137 | the employee with that document id |
| Service.FirebaseService.GetEmployeeByEmail | app_firebase.py:374 | the first employee with that email (the lookup the session login calls; see Findings) |
| Service.FirebaseService.GetAllEmployees | firebase_service.py:139-151 | all employees in order, or none without a database |
| Service.FirebaseService.UpdateEmployee | firebase_service.py:153-162 | the store of `EmployeeUpdated`; a valid store (ids unique in each collection) stays valid |
| Service.FirebaseService.DeleteEmployee | firebase_service.py:164-186 | the store of `EmployeeDeleted`; a valid store (ids unique in each collection) stays valid |
| Service.FirebaseService.CreateAdmin | firebase_service.py:189-200 | returns the new id exactly when the creation succeeded, with the store of `AdminCreated`; a valid store (ids unique in each collection) stays valid |
| Service.FirebaseService.GetAdminByUsername | firebase_service.py:202-213 | the first admin with that username |
| Service.FirebaseService.GetAdminByDocId | firebase_service.py:215-226 | the admin with that document id |
| Service.FirebaseService.CreateAttendance | firebase_service.py:229-239 | returns the new id exactly when the creation succeeded, with the store of `AttendanceCreated`; a valid store (ids unique in each collection) stays valid |
| Service.FirebaseService.GetAttendanceByEmployeeAndDate | firebase_service.py:241-256 | the first record with that employee and date |
| Service.FirebaseService.GetAttendanceByEmployee | firebase_service.py:258-289 | the list `AttendanceByEmployee` describes |
| Service.FirebaseService.GetAttendanceByDate | firebase_service.py:291-305 | the records of that date in collection order |
| Service.FirebaseService.GetRecentAttendance | firebase_service.py:307-324 | the list `RecentAttendance` describes |
| Service.FirebaseService.UpdateAttendance | firebase_service.py:326-334 | the store of `AttendanceUpdated`; a valid store (ids unique in each collection) stays valid |
| Service.FirebaseService.CreateTimesheet | firebase_service.py:337-348 | returns the new id exactly when the creation succeeded, with the store of `TimesheetCreated`; a valid store (ids unique in each collection) stays valid |
| Service.FirebaseService.GetTimesheetByEmployeeAndDate | firebase_service.py:350-365 | the first timesheet with that employee and date |
| Service.FirebaseService.GetTimesheetsByEmployee | firebase_service.py:367-395 | the list `TimesheetsByEmployee` describes |
| Service.FirebaseService.GetTimesheetsByDate | firebase_service.py:397-411 | the timesheets of that date in collection order |
| Service.FirebaseService.GetRecentTimesheets | firebase_service.py:413-430 | the list `RecentTimesheets` describes |
| Service.FirebaseService.UpdateTimesheet | firebase_service.py:432-441 | the store of `TimesheetUpdated`; a valid store (ids unique in each collection) stays valid |
| Service.FirebaseService.CreateWfhApproval | firebase_service.py:444-453 | returns the new id exactly when the creation succeeded, with the store of `WfhApprovalCreated`; a valid store (ids unique in each collection) stays valid |
| Service.FirebaseService.GetWfhApprovalsByEmployee | firebase_service.py:455-468 | the employee's approvals in collection order |
| Service.FirebaseService.GetAllWfhApprovals | firebase_service.py:470-484 | the list `AllWfhApprovals` describes |
| Models.EmployeeInit | firebase_models.py:10-19 | `is_active` is true when the document has no such field; the ids and email are taken over |
| Models.EmployeeWritten | firebase_models.py:71-78 | the dictionary `save` writes carries the active flag and the employee id |
| Models.EmployeeSaved | firebase_models.py:68-90 | with an id, `save` is the store's update and the object is unchanged; without one it creates, and the object gets the new id only on success |
| Models.FirebaseEmployee.constructor | firebase_models.py:10-19 | the object's state is `EmployeeInit` of the dictionary |
| Models.FirebaseEmployee.GetId | firebase_models.py:29-31 | `get_id` is `EmployeeUserId` of the document id, which `load_user` maps back to this employee (`Accounts.EmployeeUserIdRoundTrip`) |
| Models.FirebaseEmployee.FindByEmployeeId | firebase_models.py:37-44 | null iff no employee has that id; otherwise a new object built from the first match |
| Models.FirebaseEmployee.FindByDocId | firebase_models.py:46-53 | null iff no employee has that document id; otherwise a new object built from it |
| Models.FirebaseEmployee.GetActive | firebase_models.py:62-66 | exactly the active employees, in their order |
| Models.FirebaseEmployee.Save | firebase_models.py:68-90 | the result, store and object state of `EmployeeSaved` |
| Models.FirebaseEmployee.Delete | firebase_models.py:92-97 | without an id, false and nothing touched; otherwise the store's cascading delete |
| Models.AdminSaved | firebase_models.py:149-168 | with an id, `save` always fails and changes nothing (`update_admin` does not exist); without one it creates, setting the id only on success |
| Models.FirebaseAdmin.constructor | firebase_models.py:115-121 | the object's state is read from the dictionary |
| Models.FirebaseAdmin.GetId | firebase_models.py:123-125 | `get_id` is `AdminUserId` of the document id, which `load_user` maps back to this admin (`Accounts.AdminUserIdRoundTrip`) |
| Models.FirebaseAdmin.FindByUsername | firebase_models.py:131-138 | null iff no admin has that username; otherwise a new object built from the first match |
| Models.FirebaseAdmin.FindByDocId | firebase_models.py:140-147 | null iff no admin has that document id |
| Models.FirebaseAdmin.Save | firebase_models.py:149-168 | the result, store and object state of `AdminSaved` |
| Models.AttendanceInit | firebase_models.py:173-181 | `work_location` defaults to 'office'; the time fields are kept as they are |
| Models.AttendanceWritten | firebase_models.py:219-240 | the written record reads back the same moments with the same truthiness, holds no datetime, and keeps employee, date, hours and location |
| Models.AttendanceSaved | firebase_models.py:215-253 | with an id, `save` is the store's update; without one it creates, setting the id only on success |
| Models.FirebaseAttendance.constructor | firebase_models.py:173-181 | the object's state is `AttendanceInit` of the dictionary |
| Models.FirebaseAttendance.FindByEmployeeAndDate | firebase_models.py:183-191 | null iff the store has no record for that employee and date; otherwise a new object built from the first one |
| Models.FirebaseAttendance.Save | firebase_models.py:215-253 | the result, store and object state of `AttendanceSaved` |
| Models.TimesheetInit | firebase_models.py:292-303 | each of the five text fields defaults to '' when missing and is taken over unchanged when present |
| Models.TimesheetWritten | firebase_models.py:341-350 | the dictionary `save` writes always carries a fresh `submitted_at` |
| Models.TimesheetSaved | firebase_models.py:337-363 | with an id, `save` is the store's update; without one it creates, setting the id only on success |
| Models.FirebaseTimesheet.constructor | firebase_models.py:292-303 | the object's state is `TimesheetInit` of the dictionary |
| Models.FirebaseTimesheet.FindByEmployeeAndDate | firebase_models.py:305-313 | null iff the store has no timesheet for that employee and date |
| Models.FirebaseTimesheet.Save | firebase_models.py:337-363 | the result, store and object state of `TimesheetSaved` |
| AttendanceFlow.SignInSpec | app.py:167-195 | an existing sign-in gives "already signed in" with the store unchanged; only a successful sign-in changes the store; no database gives a failure |
| AttendanceFlow.RecordSignIn | app.py:167-195 | the outcome and store of `SignInSpec` |
| AttendanceFlow.SignIn | app.py:152-197 | the handler is `SignInSpec` with `work_location` 'home' iff the session's WFH flag is set |
| AttendanceFlow.SignInSucceedsIff | app.py:168-190 | sign-in succeeds iff a database is available and today's record has no sign-in time |
| AttendanceFlow.SignInCreatesRecord | app.py:175-183 | with no record today, exactly one record is appended, with no sign-out, no hours and the given location |
| AttendanceFlow.SignInUpdatesRecord | app.py:184-187 | with a record lacking a sign-in, that record alone is rewritten in place with the new sign-in and location; no record is added and the other collections are unchanged |
| AttendanceFlow.SignOutSpec | app.py:235-279 | every outcome except a completed sign-out leaves the store unchanged |
| AttendanceFlow.FinishSignOut | app.py:261-279 | computing the hours never yields a rejection of the earlier checks, and only a completed sign-out changes the store |
| AttendanceFlow.SignOutSaved | app.py:265-277 | the outcome is the worked time from sign-in to now, or a save failure with the store unchanged |
| AttendanceFlow.SignOutChecksInOrder | app.py:239-279 | in order: no sign-in gives "not signed in", a sign-out gives "already signed out", a required and missing timesheet gives the timesheet prompt, an unreadable sign-in gives "error calculating"; each with the store unchanged; a success reports the worked time from the recorded sign-in |
| AttendanceFlow.RecordSignOut | app.py:235-279 | the outcome and store of `SignOutSpec` |
| AttendanceFlow.CompleteSignOut | app.py:261-279 | the outcome and store of `FinishSignOut` for the fetched record |
| AttendanceFlow.SaveSignOut | app.py:265-277 | the outcome and store of `SignOutSaved` |
| AttendanceFlow.SignOut | app.py:221-281 | the handler is `SignOutSpec` with the configured timesheet gate |
| AttendanceFlow.SignOutRecordsHours | app.py:261-275 | a completed sign-out rewrites only today's record, setting the sign-out time and the rounded hours, and reports the worked time |
| AttendanceFlow.SignInMovesDay | app.py:167-195 | the day moves only from "absent"; any other day is refused unchanged; ids stay valid and one record per employee per day is kept |
| AttendanceFlow.SignInAppendMovesDay | app.py:175-183 | after a created record the day is "working" and one record per day is kept |
| AttendanceFlow.SignInUpdateMovesDay | app.py:184-187 | after an updated record the day is "working", or "finished" when the record already had a sign-out |
| AttendanceFlow.SignOutFinishesDay | app.py:261-277 | a completed sign-out moves the day from "working" to "finished" and keeps one record per day |
| AttendanceFlow.SignOutMovesDay | app.py:237-245 | a finished day answers "already signed out" and an absent day "not signed in", both unchanged; the store stays valid |
| FirebaseFlow.FbSignInSpec | app_firebase.py:103-139 | outside every office, refused with the store unchanged; inside, the record logic of `app.py` without a work location |
| FirebaseFlow.FbSignIn | app_firebase.py:103-139 | the outcome and store of `FbSignInSpec` |
| FirebaseFlow.FbSignOutSpec | app_firebase.py:163-204 | outside every office, refused unchanged; inside, the sign-out of `app.py` with no timesheet gate |
| FirebaseFlow.FbSignOut | app_firebase.py:163-204 | the outcome and store of `FbSignOutSpec` |
| FirebaseFlow.FbRefusalPrecedesLookup | app_firebase.py:109-182 | the geofence refusal is the same whatever the store holds, so it comes before any lookup |
| FirebaseFlow.FbSignOutHasNoTimesheetGate | app_firebase.py:176-197 | inside the geofence and signed in but not out, sign-out completes with the worked time even with no timesheet |
| FirebaseFlow.FbSignOutNeverAsksForTimesheet | app_firebase.py:172-204 | this variant never answers with the timesheet prompt |
| FirebaseFlow.FbNewRecordReadsOffice | app_firebase.py:122-129 | a created record carries no location and so is stored as 'office' |
| FirebaseFlow.FbUpdateKeepsWorkLocation | app_firebase.py:130-132 | an updated record keeps its location and changes only its sign-in time |
| FirebaseFlow.Identity | app_firebase.py:351-365 | an identity is obtained only with both fields present and a non-empty email on the token |
| FirebaseFlow.SessionLoginAsWritten | app_firebase.py:347-395 | as written, only an admin can ever be logged in |
| FirebaseFlow.AsWrittenNoEmployeeLogsIn | app_firebase.py:372-376 | as written, no employee request is logged in |
| FirebaseFlow.AsWrittenRefusesActiveEmployee | app_firebase.py:373-383 | an active employee inside the geofence is refused with 400 as written, and logged in by the corrected login |
| FirebaseFlow.SessionLogin | app_firebase.py:347-395 | a login needs a verified identity and the type employee or admin; every refusal is 400, 403 or 404 |
| FirebaseFlow.LoginChecksFieldsFirst | app_firebase.py:357-358 | a missing idToken or userType gives 400 whatever the store and the token verifier |
| FirebaseFlow.EmployeeLoginLadder | app_firebase.py:368-383 | for employees, in order: outside the geofence 403, no employee with the email 404, inactive 403, else logged in as "employee-" + id |
| FirebaseFlow.AdminLoginAndFallback | app_firebase.py:386-393 | for admins, no admin with that username 404, else logged in as "admin-" + id; any other user type 400 |
| FirebaseFlow.LoginOnlyKnownUsers | app_firebase.py:368-391 | whoever is logged in is an existing active employee inside the geofence, or an existing admin, whose id matches `get_id` |
| FirebaseFlow.CorrectionOnlyChangesEmployeeLookup | app_firebase.py:347-395 | the corrected login answers exactly as written on every request except an identified employee inside the geofence |
| TimesheetFlow.SubmitSpec | app.py:450-489 | a report that is blank after stripping is rejected iff it is all whitespace; only a submission changes the store |
| TimesheetFlow.SaveSubmission | app.py:462-489 | saving never asks for the report; it reports "updated" iff a timesheet existed |
| TimesheetFlow.SubmitTimesheet | app.py:444-489 | the outcome and store of `SubmitSpec` |
| TimesheetFlow.SubmitCreatesTimesheet | app.py:471-481 | with no timesheet today, one is appended with the stripped report and four empty fields |
| TimesheetFlow.SubmitOverwritesTimesheet | app.py:463-470 | an existing timesheet is rewritten in place: the report, the other four fields cleared, `submitted_at` and `updated_at` refreshed; every other document unchanged |
| TimesheetFlow.SubmitStoresTimesheet | app.py:462-487 | after a submission today's timesheet exists and attendance is untouched |
| TimesheetFlow.SubmitKeepsOneTimesheetPerDay | app.py:462-484 | a submission never makes a second timesheet for the same employee and day |
| TimesheetFlow.SubmitOpensSignOutGate | app.py:247-251 | after a submission, sign-out is never blocked by the timesheet gate |
| TimesheetFlow.RecentForDisplay | app.py:491-493 | the first five (or all, if fewer) of the employee's ten latest timesheets that are not of today, in the fetched order, sorted by date descending |
| TimesheetFlow.GetRecentForDisplay | app.py:491-493 | the list `RecentForDisplay` describes |
| Reporting.TotalCentiHours | app.py:342 | the total, with missing hours counted as 0, is non-negative when every record's hours are, and 0 when all are 0 or missing |
| Reporting.TotalCentiHoursAppend | app.py:342 | the total of two lists one after the other is the sum of their totals, so every record's hours are counted exactly once |
| Reporting.TotalCentiHoursOne | app.py:342 | one record contributes its `total_hours`, or 0 when it has none |
| Reporting.SignInMoments | app.py:349-358 | exactly the readable sign-in moments of the records |
| Reporting.SignInMomentsFollowRecords | app.py:349-358 | one moment per record with a readable sign-in, in record order: the k-th moment is the k-th such record's, duplicates included |
| Reporting.SignOutMoments | app.py:349-358 | exactly the readable sign-out moments of the records |
| Reporting.SignOutMomentsFollowRecords | app.py:349-358 | one moment per record with a readable sign-out, in record order: the k-th moment is the k-th such record's, duplicates included |
| Reporting.CollectMoments | app.py:349-358 | the append loop collects both lists |
| Reporting.HourSum | app.py:364 | the sum of the hours is at most 23 per moment |
| Reporting.MinuteSum | app.py:365 | the sum of the minutes is at most 59 per moment |
| Reporting.AverageClock | app.py:360-371 | the default without moments, otherwise a five-character "HH:MM" |
| Reporting.AverageClockReadsBack | app.py:363-366 | the digits read back as the floor of the mean hour (below 24) and of the mean minute (below 60), each taken separately |
| Reporting.MeanHours | app.py:346 | 0 for no days, otherwise the mean of the total |
| Reporting.StatsOf | app.py:340-380 | days are counted; complete days are 0 exactly when no record is complete and equal the days exactly when all are; the hours are the records' total; the mean hours are `MeanHours` of the total and the days, and the mean clock times are `AverageClock` of the sign-in and sign-out moments; no records give 0, 0, "09:00" and "17:00" |
| Reporting.StatsOfAppend | app.py:341-343 | days, complete days and hours add up over the two parts of a list of records |
| Reporting.ComputeStats | app.py:340-380 | the statistics of `StatsOf` |
| Reporting.EmployeeRecords | app.py:318-336 | only the employee's records; a date filter yields at most that day's record, none exactly when the store has none; no filter or an unparseable one gives the latest 50 |
| Reporting.StatusFiltered | app.py:709-717 | "incomplete_sessions" keeps exactly the open sessions, "completed_sessions" exactly the complete ones, anything else keeps all |
| Reporting.StatusFiltersPartition | app.py:709-717 | the two filters are disjoint and together count exactly the signed-in records |
| Reporting.AdminRecords | app.py:695-717 | a date filter yields only records of that date; otherwise at most 100 |
| Reporting.AdminDashboard | app.py:525-535 | without a database all counts are 0 |
| Reporting.DashboardCountsDisjoint | app.py:533-535 | signed-in and signed-out counts never add up to more than today's records; active employees never exceed all employees |
| Reporting.MergeToday | app.py:299-302 | today's record is put in front iff no recent record has its date; otherwise the list is unchanged |
| Reporting.DashboardRecords | app.py:290-302 | only the employee's records, at most 11 |
| Reporting.DashboardShowsToday | app.py:290-302 | when today's record exists, the dashboard shows it |
| Reporting.GetDashboardRecords | app.py:290-302 | the list `DashboardRecords` describes |
| Accounts.SecondField | app.py:36 | `split("-")[1]` after the prefix: the text up to the next '-' |
| Accounts.LoadUser | app.py:33-41 | an admin is loaded only for an "admin-" id and an employee only for an "employee-" id, each from the store; any other id loads nobody |
| Accounts.SecondFieldOfUserId | app.py:35-40 | the field recovers an id without '-' |
| Accounts.AdminUserIdRoundTrip | firebase_models.py:123-125 | `load_user(get_id())` gives back the same admin when its id has no '-' |
| Accounts.EmployeeUserIdRoundTrip | firebase_models.py:29-31 | `load_user(get_id())` gives back the same employee when its id has no '-' |
| Accounts.DashedIdIsCut | app.py:38-40 | an employee id containing '-' is cut at it, so the lookup uses only its first part |
| Accounts.ChangePasswordSpec | app.py:404-433 | only a changed password changes the store |
| Accounts.ChangePassword | app.py:404-433 | the outcome and store of `ChangePasswordSpec` |
| Accounts.ChangePasswordChecksInOrder | app.py:409-424 | in order: a missing field, a wrong current password, a mismatched confirmation, fewer than 6 characters; the change succeeds iff all pass and the employee's document exists, and then only that document gets the new hash |
| Accounts.AddEmployeeSpec | app.py:562-598 | only an added employee changes the store |
| Accounts.AddEmployee | app.py:562-598 | the outcome and store of `AddEmployeeSpec` |
| Accounts.AddEmployeeSucceedsIff | app.py:569-593 | adding succeeds iff all five fields are filled, a database is available and no employee has the id; then exactly one active employee is appended |
| Accounts.AddEmployeeKeepsIdsUnique | app.py:574-578 | employee ids stay unique across an add |
| Accounts.ToggleSpec | app.py:609-620 | "not found" iff no employee has the document id, and then nothing changes |
| Accounts.ToggleEmployeeStatus | app.py:609-620 | the outcome and store of `ToggleSpec` |
| Accounts.ToggleFlipsStatus | app.py:614-616 | the toggle flips that employee's flag, reports the new value and leaves every other employee unchanged |
| Accounts.ToggleTwiceRestores | app.py:614 | toggling twice restores the original flag |
| Text.Strip | app.py:452 | removes exactly the leading and trailing whitespace: the result is a contiguous part of the input that neither starts nor ends with whitespace, and everything removed before and after it is whitespace |
| Text.StripBlankIff | app.py:452-456 | the stripped text is empty iff every character is whitespace |
| Text.SplitAtFirstSep | app.py:36 | splitting text with a first separator gives the part before it as the first field, followed by the split of the rest |
| Text.Pad2 | app.py:366 | `%02d` of a value below 100 is two digits that read back as the value |

## Left out

- Values.CentiHours: rounds an exact tie up, while Python's `round` on the binary float can round such a tie down. At every other input the result is the same.
- Values.WorkedTime: works on exact seconds. Python computes `(total_hours - hours) * 60` in floating point, which can show one minute fewer than the exact value.
- Reporting.MeanHours: the average is an exact real. Python divides floats.
- Reporting.StatsOf: `total_hours` is kept in hundredths of an hour as an integer, not as a float sum.
- Service: the order of a collection stands for the order Firestore returns it in. Firestore returns a query without `order_by` in document-id order and breaks `order_by('date')` ties by document id. The model keeps documents in creation order, since creates append at the end. Which records `.limit(10)` and `.limit(50)` keep in `AttendanceByEmployee` and `TimesheetsByEmployee` therefore follows creation order, not id order. That choice carries into `DashboardRecords`, `EmployeeRecords` and `RecentForDisplay`, and into the tie order of `RecentAttendance` and `RecentTimesheets`. The lemmas hold for every collection order and make no claim about id order.
- The Haversine distance (app.py:44-52, app_firebase.py:37-45, config.py:123-136) is floating-point trigonometry. It is the `Distance` parameter.
- Password hashing (`generate_password_hash`, `check_password_hash`) and Firebase token verification are foreign calls. They are the `matches`, `newHash` and `TokenVerifier` parameters.
- `datetime.now()` and `SERVER_TIMESTAMP` are the `now` parameter. The handlers' several calls to `now()` within one request are taken as one moment.
- Document id generation by Firestore is the `freshId` parameter, which is assumed to be fresh in its collection.
- `strptime` of a date filter is the `DateFilter` parameter: no filter, an unparseable one, or a date.
- Time strings carrying a UTC offset are not modelled. Python's subtraction of an aware sign-in from a naive `now()` would raise. The model subtracts moments.
- Store failures other than a missing database or a missing document (network errors, rejected writes) are not modelled.
- Flask plumbing is not modelled: routing, templates, flash messages, redirects, `login_user`, the session, `isinstance(current_user, ...)` guards and the GET branches of the handlers. Handlers return outcome values instead.
- These handlers are not part of this model: `index`, `employee_portal`, `employee_login` (password login), `employee_logout`, `admin_login`, `admin_employees`, `admin_edit_employee`, `admin_delete_employee`, `admin_timesheets`, `admin_logout`, and the duplicate attendance, dashboard, change-password and add-employee handlers of `app_firebase.py`. The deletion cascade itself is modelled, in the store.
- The debug route (app.py:777-802), `create_sample_data` and every debug print are left out.
- `to_dict` of the model classes feeds only debug prints and is left out.
- `get_all`, `get_by_employee`, `get_by_date` and `get_recent` of the model classes wrap each document in an object. The model returns the documents, through the store's methods.
- The `is_active` property and setter are a plain field.
- `check_password` is the `matches` parameter applied to the stored hash.
- Firestore SDK initialisation, credentials and the global service singleton (firebase_service.py:10-95, 489-497) are left out. The service is constructed with its database or without one.
- Concurrency is left out; the model is sequential. Two concurrent sign-ins racing past the "already signed in" check are not captured.
- The WFH approval date check, the combination of self-declared and approved WFH, the confirmation prompt and the `wfh_approved` flag do not exist in the code and are not modelled.

## Findings

| source | as written | input that shows it | evidently intended | confidence | as-written member | corrected member |
|---|---|---|---|---|---|---|
| app_firebase.py:374 | the employee branch of `auth_session_login` calls `service.get_employee_by_email`, which `FirebaseService` does not define; the `AttributeError` is caught at app_firebase.py:394-395 and answered with 400 | an active employee whose verified email is on file, logging in from inside the geofence | look the employee up by email and log them in as "employee-" + id | not executed | FirebaseFlow.AsWrittenRefusesActiveEmployee | FirebaseFlow.SessionLogin |
