/** The daily timesheet handler of `app.py` (`employee_timesheet`): the report
    is stripped, a blank report is refused, today's timesheet is overwritten
    with it when there is one and created otherwise; the page lists the
    employee's recent timesheets other than today's. */
module TimesheetFlow {
  import opened Values
  import opened Text
  import opened Seqs
  import opened Service
  import opened Models
  import opened AttendanceFlow

  datatype SubmitOutcome = ReportRequired | Submitted(updated: bool) | SaveFailed

  /** No employee has two timesheets for the same date. */
  predicate OneTimesheetPerDay(ts: seq<TimesheetDoc>) {
    forall i, j :: 0 <= i < j < |ts| ==>
      !(ts[i].data.employeeId == ts[j].data.employeeId && ts[i].data.date == ts[j].data.date)
  }

  /** The object the handler saves: today's timesheet with the report as its
      tasks and the other four texts cleared, or a new one with the same texts. */
  function SubmittedRecord(existing: Option<TimesheetDoc>, employeeId: string, today: string, report: string): TimesheetState {
    if existing.None? then
      TimesheetInit(TimesheetDict(None, TimesheetData(employeeId, today, Some(report), Some(""), Some(""), Some(""), Some(""), None), None, None))
    else
      TimesheetInit(TimesheetDocDict(existing.value)).(
        tasksCompleted := report, challengesFaced := "", achievements := "", tomorrowPlans := "", additionalNotes := "")
  }

  /** The POST branch; `dailyReport` is the form field ('' when absent). */
  function SubmitSpec(db: Option<Store>, employeeId: string, today: string, now: int, dailyReport: string, freshId: string): (r: (SubmitOutcome, Option<Store>))
    ensures !r.0.Submitted? ==> r.1 == db
    ensures r.0 == ReportRequired <==> forall k :: 0 <= k < |dailyReport| ==> IsSpace(dailyReport[k])
  {
    StripBlankIff(dailyReport);
    var report := Strip(dailyReport);
    if report == "" then (ReportRequired, db)
    else SaveSubmission(db, TodayTimesheet(db, employeeId, today), employeeId, today, now, report, freshId)
  }

  /** Saving a non-blank report: the outcome says whether a timesheet was
      already there. */
  function SaveSubmission(db: Option<Store>, existing: Option<TimesheetDoc>, employeeId: string, today: string, now: int, report: string, freshId: string): (r: (SubmitOutcome, Option<Store>))
    ensures r.0 != ReportRequired
    ensures !r.0.Submitted? ==> r.1 == db
    ensures r.0.Submitted? ==> r.0.updated == existing.Some?
  {
    var w := TimesheetSaved(db, SubmittedRecord(existing, employeeId, today, report), freshId, now).0;
    (if w.ok then Submitted(existing.Some?) else SaveFailed, w.db)
  }

  /** The POST branch through the model object. */
  method SubmitTimesheet(svc: FirebaseService, employeeId: string, today: string, now: int, dailyReport: string, freshId: string)
    returns (outcome: SubmitOutcome)
    modifies svc
    requires svc.db.Some? ==> FreshId(svc.db.value.timesheets, TimesheetDocId, freshId)
    ensures (outcome, svc.db) == SubmitSpec(old(svc.db), employeeId, today, now, dailyReport, freshId)
  {
    var existing := FirebaseTimesheet.FindByEmployeeAndDate(svc, employeeId, today);
    var report := Strip(dailyReport);
    if report == "" {
      return ReportRequired;
    }
    ghost var found := TodayTimesheet(svc.db, employeeId, today);
    var timesheet: FirebaseTimesheet;
    if existing != null {
      existing.tasksCompleted := report;
      existing.challengesFaced := "";
      existing.achievements := "";
      existing.tomorrowPlans := "";
      existing.additionalNotes := "";
      timesheet := existing;
    } else {
      timesheet := new FirebaseTimesheet(TimesheetDict(None, TimesheetData(employeeId, today, Some(report), Some(""), Some(""), Some(""), Some(""), None), None, None));
    }
    assert timesheet.State() == SubmittedRecord(found, employeeId, today, report);
    var ok := timesheet.Save(svc, freshId, now);
    outcome := if ok then Submitted(existing != null) else SaveFailed;
    assert (outcome, svc.db) == SaveSubmission(old(svc.db), found, employeeId, today, now, report, freshId);
  }

  /** The texts a submission writes, over the timesheet as read. */
  function SubmittedData(d: TimesheetDoc, report: string, now: int): TimesheetData {
    d.data.(tasksCompleted := Some(report), challengesFaced := Some(""), achievements := Some(""),
            tomorrowPlans := Some(""), additionalNotes := Some(""), submittedAt := Some(now))
  }

  /** Without a timesheet for today, a non-blank report creates exactly one,
      holding the stripped report and four empty texts. */
  lemma SubmitCreatesTimesheet(db: Option<Store>, employeeId: string, today: string, now: int, dailyReport: string, freshId: string)
    requires db.Some? && TodayTimesheet(db, employeeId, today).None? && Strip(dailyReport) != ""
    ensures SubmitSpec(db, employeeId, today, now, dailyReport, freshId) ==
      (Submitted(false), Some(db.value.(timesheets := db.value.timesheets +
        [TimesheetDoc(freshId, TimesheetData(employeeId, today, Some(Strip(dailyReport)), Some(""), Some(""), Some(""), Some(""), Some(now)), now, now)])))
  {
    var st := SubmittedRecord(None, employeeId, today, Strip(dailyReport));
    assert TimesheetWritten(st, now) == TimesheetData(employeeId, today, Some(Strip(dailyReport)), Some(""), Some(""), Some(""), Some(""), Some(now));
  }

  /** With a timesheet for today, a non-blank report overwrites it in place:
      the tasks become the report, the other texts are cleared, and
      `submitted_at` and `updated_at` become now. */
  lemma SubmitOverwritesTimesheet(db: Option<Store>, employeeId: string, today: string, now: int, dailyReport: string, freshId: string)
    requires DbValid(db)
    requires TodayTimesheet(db, employeeId, today).Some? && Strip(dailyReport) != ""
    ensures
      var d := TodayTimesheet(db, employeeId, today).value;
      var r := SubmitSpec(db, employeeId, today, now, dailyReport, freshId);
      var ts := db.value.timesheets;
      r.0 == Submitted(true) && r.1.Some? && r.1.value == db.value.(timesheets := r.1.value.timesheets) &&
      |r.1.value.timesheets| == |ts| &&
      forall i :: 0 <= i < |ts| ==>
        r.1.value.timesheets[i] == if ts[i].id == d.id then ts[i].(data := SubmittedData(d, Strip(dailyReport), now), updatedAt := now) else ts[i]
  {
    var d := TodayTimesheet(db, employeeId, today).value;
    var i :| 0 <= i < |db.value.timesheets| && db.value.timesheets[i] == d;
    assert TimesheetDocId(db.value.timesheets[i]) == d.id;
    var st := SubmittedRecord(Some(d), employeeId, today, Strip(dailyReport));
    assert IsSet(st.id);
    assert TimesheetWritten(st, now) == SubmittedData(d, Strip(dailyReport), now);
  }

  /** A successful submission leaves a timesheet for the day in a valid store
      and does not touch attendance. */
  lemma SubmitStoresTimesheet(db: Option<Store>, employeeId: string, today: string, now: int, dailyReport: string, freshId: string)
    requires DbValid(db)
    requires db.Some? ==> FreshId(db.value.timesheets, TimesheetDocId, freshId)
    requires SubmitSpec(db, employeeId, today, now, dailyReport, freshId).0.Submitted?
    ensures
      var after := SubmitSpec(db, employeeId, today, now, dailyReport, freshId).1;
      after.Some? && after.value.attendance == db.value.attendance &&
      TodayTimesheet(after, employeeId, today).Some? && DbValid(after)
  {
    if TodayTimesheet(db, employeeId, today).None? {
      CreatedTimesheetIsStored(db, employeeId, today, now, dailyReport, freshId);
    } else {
      OverwrittenTimesheetIsStored(db, employeeId, today, now, dailyReport, freshId);
    }
  }

  /** The create branch of SubmitStoresTimesheet. */
  lemma CreatedTimesheetIsStored(db: Option<Store>, employeeId: string, today: string, now: int, dailyReport: string, freshId: string)
    requires DbValid(db) && db.Some? && FreshId(db.value.timesheets, TimesheetDocId, freshId)
    requires TodayTimesheet(db, employeeId, today).None? && Strip(dailyReport) != ""
    ensures
      var after := SubmitSpec(db, employeeId, today, now, dailyReport, freshId).1;
      after.Some? && after.value.attendance == db.value.attendance &&
      TodayTimesheet(after, employeeId, today).Some? && DbValid(after)
  {
    var ts := db.value.timesheets;
    SubmitCreatesTimesheet(db, employeeId, today, now, dailyReport, freshId);
    var d := TimesheetDoc(freshId, TimesheetData(employeeId, today, Some(Strip(dailyReport)), Some(""), Some(""), Some(""), Some(""), Some(now)), now, now);
    IndexOfAppend(ts, d, TimesheetOfDay(employeeId, today));
    AppendKeepsIds(ts, TimesheetDocId, d);
  }

  /** The overwrite branch of SubmitStoresTimesheet. */
  lemma OverwrittenTimesheetIsStored(db: Option<Store>, employeeId: string, today: string, now: int, dailyReport: string, freshId: string)
    requires DbValid(db)
    requires TodayTimesheet(db, employeeId, today).Some? && Strip(dailyReport) != ""
    ensures
      var after := SubmitSpec(db, employeeId, today, now, dailyReport, freshId).1;
      after.Some? && after.value.attendance == db.value.attendance &&
      TodayTimesheet(after, employeeId, today).Some? && DbValid(after)
  {
    var ts := db.value.timesheets;
    var p := TimesheetOfDay(employeeId, today);
    SubmitOverwritesTimesheet(db, employeeId, today, now, dailyReport, freshId);
    var t := SubmitSpec(db, employeeId, today, now, dailyReport, freshId).1.value.timesheets;
    assert forall i :: 0 <= i < |ts| ==> p(t[i]) == p(ts[i]) by {
      forall i | 0 <= i < |ts| ensures p(t[i]) == p(ts[i]) {
      }
    }
    IndexOfSameMatches(ts, t, p);
  }

  /** Appending a timesheet for a day that has none keeps one per day. */
  lemma AppendKeepsOnePerDay(ts: seq<TimesheetDoc>, d: TimesheetDoc)
    requires OneTimesheetPerDay(ts)
    requires IndexOf(ts, TimesheetOfDay(d.data.employeeId, d.data.date)).None?
    ensures OneTimesheetPerDay(ts + [d])
  {
    var p := TimesheetOfDay(d.data.employeeId, d.data.date);
    var t := ts + [d];
    forall i, j | 0 <= i < j < |t|
      ensures !(t[i].data.employeeId == t[j].data.employeeId && t[i].data.date == t[j].data.date)
    {
      if j == |ts| {
        assert t[i] == ts[i] && !p(ts[i]);
      }
    }
  }

  /** Rewriting timesheets without moving them between employees or days
      keeps one per day. */
  lemma SameDaysKeepOnePerDay(ts: seq<TimesheetDoc>, t: seq<TimesheetDoc>)
    requires OneTimesheetPerDay(ts) && |t| == |ts|
    requires forall i :: 0 <= i < |ts| ==> t[i].data.employeeId == ts[i].data.employeeId && t[i].data.date == ts[i].data.date
    ensures OneTimesheetPerDay(t)
  {
  }

  /** Submitting never gives an employee a second timesheet for a day. */
  lemma SubmitKeepsOneTimesheetPerDay(db: Option<Store>, employeeId: string, today: string, now: int, dailyReport: string, freshId: string)
    requires DbValid(db) && db.Some? && OneTimesheetPerDay(db.value.timesheets)
    ensures
      var after := SubmitSpec(db, employeeId, today, now, dailyReport, freshId).1;
      after.Some? && OneTimesheetPerDay(after.value.timesheets)
  {
    var r := SubmitSpec(db, employeeId, today, now, dailyReport, freshId);
    var ts := db.value.timesheets;
    if r.0.Submitted? {
      if TodayTimesheet(db, employeeId, today).None? {
        SubmitCreatesTimesheet(db, employeeId, today, now, dailyReport, freshId);
        var d := TimesheetDoc(freshId, TimesheetData(employeeId, today, Some(Strip(dailyReport)), Some(""), Some(""), Some(""), Some(""), Some(now)), now, now);
        AppendKeepsOnePerDay(ts, d);
      } else {
        SubmitOverwritesTimesheet(db, employeeId, today, now, dailyReport, freshId);
        SameDaysKeepOnePerDay(ts, r.1.value.timesheets);
      }
    }
  }

  /** After a successful submission the sign-out timesheet gate is open. */
  lemma SubmitOpensSignOutGate(db: Option<Store>, employeeId: string, today: string, now: int, dailyReport: string, freshId: string,
                               later: int, attendanceId: string)
    requires DbValid(db)
    requires db.Some? ==> FreshId(db.value.timesheets, TimesheetDocId, freshId)
    requires SubmitSpec(db, employeeId, today, now, dailyReport, freshId).0.Submitted?
    ensures SignOutSpec(SubmitSpec(db, employeeId, today, now, dailyReport, freshId).1, employeeId, today, later, true, attendanceId).0 != TimesheetRequired
  {
    var after := SubmitSpec(db, employeeId, today, now, dailyReport, freshId).1;
    assert TodayTimesheet(after, employeeId, today).Some? by {
      SubmitStoresTimesheet(db, employeeId, today, now, dailyReport, freshId);
    }
    SignOutChecksInOrder(after, employeeId, today, later, true, attendanceId);
  }

  /** The predicate `t.date != today`. */
  function OtherDay(today: string): TimesheetDoc -> bool {
    (t: TimesheetDoc) => t.data.date != today
  }

  /** `get_by_employee(employee_id, limit=10)`, then the first five of them
      that are not of today, in the fetched order. */
  function RecentForDisplay(db: Option<Store>, employeeId: string, today: string): (r: seq<TimesheetDoc>)
    ensures |r| <= 5
    ensures forall i :: 0 <= i < |r| ==> r[i].data.date != today && r[i].data.employeeId == employeeId
    ensures forall x :: x in r ==> x in TimesheetsByEmployee(db, employeeId, 10)
    ensures SortedDesc(r, TimesheetDate)
    ensures |r| == if |Filter(TimesheetsByEmployee(db, employeeId, 10), OtherDay(today))| < 5
                   then |Filter(TimesheetsByEmployee(db, employeeId, 10), OtherDay(today))| else 5
    ensures r == Filter(TimesheetsByEmployee(db, employeeId, 10), OtherDay(today))[..|r|]
  {
    var fetched := TimesheetsByEmployee(db, employeeId, 10);
    var others := Filter(fetched, OtherDay(today));
    FilterKeepsSorted(fetched, OtherDay(today), TimesheetDate);
    var r := Take(others, 5);
    assert forall i :: 0 <= i < |r| ==> r[i] in others by {
      forall i | 0 <= i < |r| ensures r[i] in others {
        assert r[i] == others[i];
      }
    }
    r
  }

  /** The GET page's list, fetched through the service. */
  method GetRecentForDisplay(svc: FirebaseService, employeeId: string, today: string) returns (r: seq<TimesheetDoc>)
    ensures r == RecentForDisplay(svc.db, employeeId, today)
  {
    var fetched := svc.GetTimesheetsByEmployee(employeeId, 10);
    var others := Select(fetched, OtherDay(today));
    r := Take(others, 5);
  }
}
