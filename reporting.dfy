/** The read-only views of `app.py`: the statistics of `employee_attendance`,
    the record lists it and `admin_attendance` choose from the date filter,
    the status filter of `admin_attendance`, the counts of `admin_dashboard`
    and the merge of today's record into the list of `employee_dashboard`.
    Lists of model objects are represented by the documents they were built
    from; the fields read here are copied unchanged by the constructors. */
module Reporting {
  import opened Values
  import opened Text
  import opened Seqs
  import opened Service
  import opened Models
  import opened AttendanceFlow

  // ----- statistics of employee_attendance -----

  /** `r.sign_in_time and r.sign_out_time` */
  predicate IsComplete(d: AttendanceDoc) {
    Truthy(d.data.signInTime) && Truthy(d.data.signOutTime)
  }

  /** `sum([r.total_hours or 0 for r in records])`, in hundredths of an hour. */
  function TotalCentiHours(records: seq<AttendanceDoc>): (total: int)
    ensures (forall i :: 0 <= i < |records| ==> records[i].data.totalHours.GetOr(0) >= 0) ==> total >= 0
    ensures (forall i :: 0 <= i < |records| ==> records[i].data.totalHours.GetOr(0) == 0) ==> total == 0
  {
    if records == [] then 0
    else TotalCentiHours(records[..|records| - 1]) + records[|records| - 1].data.totalHours.GetOr(0)
  }

  /** The total of a concatenation is the sum of the totals: every record's
      hours are counted once, whatever the order. */
  lemma {:induction false} TotalCentiHoursAppend(a: seq<AttendanceDoc>, b: seq<AttendanceDoc>)
    ensures TotalCentiHours(a + b) == TotalCentiHours(a) + TotalCentiHours(b)
  {
    if b == [] {
      assert a + b == a;
    } else {
      var init := b[..|b| - 1];
      var hours := b[|b| - 1].data.totalHours.GetOr(0);
      var ab := a + b;
      assert ab[..|ab| - 1] == a + init && ab[|ab| - 1] == b[|b| - 1];
      assert TotalCentiHours(ab) == TotalCentiHours(a + init) + hours;
      assert TotalCentiHours(b) == TotalCentiHours(init) + hours;
      TotalCentiHoursAppend(a, init);
    }
  }

  /** A single record contributes its `total_hours`, or 0 when it has none. */
  lemma TotalCentiHoursOne(d: AttendanceDoc)
    ensures TotalCentiHours([d]) == d.data.totalHours.GetOr(0)
  {
    assert [d][..0] == [];
  }

  /** The record has a sign-in `get_sign_in_datetime` can read. */
  predicate HasSignIn(d: AttendanceDoc) {
    Reading(d.data.signInTime).Some?
  }

  /** The record has a sign-out `get_sign_out_datetime` can read. */
  predicate HasSignOut(d: AttendanceDoc) {
    Reading(d.data.signOutTime).Some?
  }

  /** The parsed sign-in moments, in record order: the list the loop builds,
      one moment for each record with a readable sign-in, in the same order. */
  function SignInMoments(records: seq<AttendanceDoc>): (ts: seq<int>)
    ensures |ts| <= |records|
    ensures forall t :: t in ts <==> exists i :: 0 <= i < |records| && Reading(records[i].data.signInTime) == Some(t)
  {
    if records == [] then []
    else
      var init := records[..|records| - 1];
      var last := records[|records| - 1];
      assert forall i :: 0 <= i < |init| ==> init[i] == records[i];
      SignInMoments(init) + (match Reading(last.data.signInTime) case Some(t) => [t] case None => [])
  }

  /** The parsed sign-out moments, one for each record with a readable
      sign-out, in record order. */
  function SignOutMoments(records: seq<AttendanceDoc>): (ts: seq<int>)
    ensures |ts| <= |records|
    ensures forall t :: t in ts <==> exists i :: 0 <= i < |records| && Reading(records[i].data.signOutTime) == Some(t)
  {
    if records == [] then []
    else
      var init := records[..|records| - 1];
      var last := records[|records| - 1];
      assert forall i :: 0 <= i < |init| ==> init[i] == records[i];
      SignOutMoments(init) + (match Reading(last.data.signOutTime) case Some(t) => [t] case None => [])
  }

  /** The sign-in moments are those of the records with a readable sign-in,
      one per such record and in record order: a record counts as often as it
      occurs, which is what the averages depend on. */
  lemma {:induction false} SignInMomentsFollowRecords(records: seq<AttendanceDoc>)
    ensures |SignInMoments(records)| == |Filter(records, HasSignIn)|
    ensures forall k :: 0 <= k < |SignInMoments(records)| ==>
      Reading(Filter(records, HasSignIn)[k].data.signInTime) == Some(SignInMoments(records)[k])
  {
    if records != [] {
      var init := records[..|records| - 1];
      var last := records[|records| - 1];
      SignInMomentsFollowRecords(init);
      var f := Filter(init, HasSignIn);
      var m := SignInMoments(init);
      var tail := match Reading(last.data.signInTime) case Some(t) => [t] case None => [];
      assert Filter(records, HasSignIn) == f + (if HasSignIn(last) then [last] else []);
      assert SignInMoments(records) == m + tail;
    }
  }

  /** The sign-out moments are those of the records with a readable sign-out,
      one per such record and in record order: a record counts as often as it
      occurs, which is what the averages depend on. */
  lemma {:induction false} SignOutMomentsFollowRecords(records: seq<AttendanceDoc>)
    ensures |SignOutMoments(records)| == |Filter(records, HasSignOut)|
    ensures forall k :: 0 <= k < |SignOutMoments(records)| ==>
      Reading(Filter(records, HasSignOut)[k].data.signOutTime) == Some(SignOutMoments(records)[k])
  {
    if records != [] {
      var init := records[..|records| - 1];
      var last := records[|records| - 1];
      SignOutMomentsFollowRecords(init);
      var f := Filter(init, HasSignOut);
      var m := SignOutMoments(init);
      var tail := match Reading(last.data.signOutTime) case Some(t) => [t] case None => [];
      assert Filter(records, HasSignOut) == f + (if HasSignOut(last) then [last] else []);
      assert SignOutMoments(records) == m + tail;
    }
  }

  /** The loop over the records that collects the parsed sign-in and
      sign-out moments. */
  method CollectMoments(records: seq<AttendanceDoc>) returns (signIns: seq<int>, signOuts: seq<int>)
    ensures signIns == SignInMoments(records) && signOuts == SignOutMoments(records)
  {
    signIns := [];
    signOuts := [];
    for i := 0 to |records|
      invariant signIns == SignInMoments(records[..i])
      invariant signOuts == SignOutMoments(records[..i])
    {
      assert records[..i + 1][..i] == records[..i];
      var signIn := Reading(records[i].data.signInTime);
      var signOut := Reading(records[i].data.signOutTime);
      if signIn.Some? {
        signIns := signIns + [signIn.value];
      }
      if signOut.Some? {
        signOuts := signOuts + [signOut.value];
      }
    }
    assert records[..|records|] == records;
  }

  /** `sum([t.hour for t in times])` */
  function HourSum(ts: seq<int>): (s: nat)
    ensures s <= 23 * |ts|
  {
    if ts == [] then 0 else HourSum(ts[..|ts| - 1]) + HourOf(ts[|ts| - 1])
  }

  /** `sum([t.minute for t in times])` */
  function MinuteSum(ts: seq<int>): (s: nat)
    ensures s <= 59 * |ts|
  {
    if ts == [] then 0 else MinuteSum(ts[..|ts| - 1]) + MinuteOf(ts[|ts| - 1])
  }

  /** The whole part of a mean of values each at most `k - 1` is below `k`. */
  lemma MeanBelow(sum: nat, n: nat, k: nat)
    requires n > 0 && sum < k * n
    ensures 0 <= sum / n < k
  {
    var q := sum / n;
    assert q * n <= sum;
  }

  /** `f"{int(avg_hour):02d}:{int(avg_minute):02d}"`, or the default when
      there are no moments; hours and minutes are averaged independently. */
  function AverageClock(ts: seq<int>, default: string): (r: string)
    ensures ts == [] ==> r == default
    ensures ts != [] ==> |r| == 5 && r[2] == ':'
  {
    if ts == [] then default
    else
      var h := HourSum(ts) / |ts|;
      var m := MinuteSum(ts) / |ts|;
      MeanBelow(HourSum(ts), |ts|, 24);
      MeanBelow(MinuteSum(ts), |ts|, 60);
      Pad2(h) + ":" + Pad2(m)
  }

  /** The clock text reads back as the whole parts of the mean hour and of
      the mean minute: a valid time of day, never past 23:59. */
  lemma AverageClockReadsBack(ts: seq<int>, default: string)
    requires ts != []
    ensures
      var r := AverageClock(ts, default);
      DigitValue(r[0]) * 10 + DigitValue(r[1]) == HourSum(ts) / |ts| < 24 &&
      DigitValue(r[3]) * 10 + DigitValue(r[4]) == MinuteSum(ts) / |ts| < 60
  {
    MeanBelow(HourSum(ts), |ts|, 24);
    MeanBelow(MinuteSum(ts), |ts|, 60);
    var h: nat := HourSum(ts) / |ts|;
    var m: nat := MinuteSum(ts) / |ts|;
    var r := AverageClock(ts, default);
    var hh, mm := Pad2(h), Pad2(m);
    assert r == hh + ":" + mm;
    assert r[0] == hh[0] && r[1] == hh[1] && r[3] == mm[0] && r[4] == mm[1];
  }

  /** The stats dictionary; `total_hours` in hundredths of an hour. */
  datatype Stats = Stats(totalDays: nat, totalCentiHours: int, completeDays: nat, avgHoursPerDay: real,
                         avgSignIn: string, avgSignOut: string)

  /** `total_hours / total_days if total_days > 0 else 0`, in hours. */
  function MeanHours(centiHours: int, days: nat): (avg: real)
    ensures days == 0 ==> avg == 0.0
    ensures days > 0 ==> avg * (days as real) == (centiHours as real) / 100.0
  {
    if days > 0 then ((centiHours as real) / 100.0) / (days as real) else 0.0
  }

  /** The statistics of a list of records. */
  function StatsOf(records: seq<AttendanceDoc>): (s: Stats)
    ensures s.totalDays == |records| && s.completeDays <= s.totalDays
    ensures s.totalDays == 0 ==> s.avgHoursPerDay == 0.0 && s.totalCentiHours == 0 && s.avgSignIn == "09:00" && s.avgSignOut == "17:00"
    ensures forall x :: x in records && IsComplete(x) ==> s.completeDays > 0
    ensures s.totalCentiHours == TotalCentiHours(records)
    ensures s.avgHoursPerDay == MeanHours(s.totalCentiHours, s.totalDays)
    ensures s.avgSignIn == AverageClock(SignInMoments(records), "09:00")
    ensures s.avgSignOut == AverageClock(SignOutMoments(records), "17:00")
    ensures s.completeDays == 0 <==> forall i :: 0 <= i < |records| ==> !IsComplete(records[i])
    ensures s.completeDays == s.totalDays <==> forall i :: 0 <= i < |records| ==> IsComplete(records[i])
  {
    var total := TotalCentiHours(records);
    var complete := Filter(records, IsComplete);
    FilterKeepsAll(records, IsComplete);
    FilterKeepsNone(records, IsComplete);
    Stats(|records|, total, |complete|, MeanHours(total, |records|),
          AverageClock(SignInMoments(records), "09:00"), AverageClock(SignOutMoments(records), "17:00"))
  }

  /** The counted statistics add up over the two parts of a list of records:
      the days, the complete days and the hours. */
  lemma StatsOfAppend(a: seq<AttendanceDoc>, b: seq<AttendanceDoc>)
    ensures StatsOf(a + b).totalDays == StatsOf(a).totalDays + StatsOf(b).totalDays
    ensures StatsOf(a + b).completeDays == StatsOf(a).completeDays + StatsOf(b).completeDays
    ensures StatsOf(a + b).totalCentiHours == StatsOf(a).totalCentiHours + StatsOf(b).totalCentiHours
  {
    FilterAppend(a, b, IsComplete);
    TotalCentiHoursAppend(a, b);
  }

  /** The statistics block, with the collecting loop. */
  method ComputeStats(records: seq<AttendanceDoc>) returns (s: Stats)
    ensures s == StatsOf(records)
  {
    var signIns, signOuts := CollectMoments(records);
    var total := TotalCentiHours(records);
    var complete := Select(records, IsComplete);
    s := Stats(|records|, total, |complete|, MeanHours(total, |records|), AverageClock(signIns, "09:00"), AverageClock(signOuts, "17:00"));
  }

  // ----- the record lists of the attendance views -----

  /** The `date` query argument as the handlers read it: absent or empty,
      rejected by `strptime`, or a date (formatted back as `YYYY-MM-DD`). */
  datatype DateFilter = NoDate | Unparseable | OnDate(date: string)

  /** The records of `employee_attendance`: the employee's record for the
      filtered date if there is one, otherwise the latest fifty. */
  function EmployeeRecords(db: Option<Store>, employeeId: string, filter: DateFilter): (r: seq<AttendanceDoc>)
    ensures forall i :: 0 <= i < |r| ==> r[i].data.employeeId == employeeId
    ensures filter.OnDate? ==> |r| <= 1 && forall i :: 0 <= i < |r| ==> r[i].data.date == filter.date
    ensures filter.OnDate? && db.Some? ==> (r == [] <==> forall i :: 0 <= i < |db.value.attendance| ==> !AttendanceOfDay(employeeId, filter.date)(db.value.attendance[i]))
    ensures !filter.OnDate? ==> r == AttendanceByEmployee(db, employeeId, 50)
  {
    match filter
    case OnDate(date) =>
      (match TodayRecord(db, employeeId, date) case Some(d) => [d] case None => [])
    case _ => AttendanceByEmployee(db, employeeId, 50)
  }

  /** The status filter of `admin_attendance`. */
  function StatusFiltered(records: seq<AttendanceDoc>, status: Option<string>): (r: seq<AttendanceDoc>)
    ensures status == Some("incomplete_sessions") ==>
      forall x :: x in r <==> x in records && Truthy(x.data.signInTime) && !Truthy(x.data.signOutTime)
    ensures status == Some("completed_sessions") ==>
      forall x :: x in r <==> x in records && IsComplete(x)
    ensures status != Some("incomplete_sessions") && status != Some("completed_sessions") ==> r == records
    ensures forall x :: x in r ==> x in records
  {
    if status == Some("incomplete_sessions") then Filter(records, IsOpenSession)
    else if status == Some("completed_sessions") then Filter(records, IsComplete)
    else records
  }

  /** `record.sign_in_time and not record.sign_out_time` */
  predicate IsOpenSession(d: AttendanceDoc) {
    Truthy(d.data.signInTime) && !Truthy(d.data.signOutTime)
  }

  /** The open and the completed sessions split the signed-in records: no
      record is in both, and together they are all of them. */
  lemma StatusFiltersPartition(records: seq<AttendanceDoc>)
    ensures
      |StatusFiltered(records, Some("incomplete_sessions"))| + |StatusFiltered(records, Some("completed_sessions"))| ==
      |Filter(records, (d: AttendanceDoc) => Truthy(d.data.signInTime))|
    ensures forall x :: x in StatusFiltered(records, Some("incomplete_sessions")) ==> x !in StatusFiltered(records, Some("completed_sessions"))
  {
    FilterSplitCount(records, (d: AttendanceDoc) => Truthy(d.data.signInTime), (d: AttendanceDoc) => Truthy(d.data.signOutTime),
                     IsComplete, IsOpenSession);
  }

  /** The records of `admin_attendance`: the records of the filtered date, or
      the latest hundred, then the status filter. */
  function AdminRecords(db: Option<Store>, filter: DateFilter, status: Option<string>): (r: seq<AttendanceDoc>)
    ensures filter.OnDate? ==> forall i :: 0 <= i < |r| ==> r[i].data.date == filter.date
    ensures !filter.OnDate? ==> |r| <= 100
  {
    var base := if filter.OnDate? then AllIn(db, Attendance, AttendanceOnDate(filter.date)) else RecentAttendance(db, 100);
    var r := StatusFiltered(base, status);
    assert forall i :: 0 <= i < |r| ==> r[i] in base by {
      forall i | 0 <= i < |r| ensures r[i] in base {
        assert r[i] in r;
      }
    }
    r
  }

  // ----- admin_dashboard -----

  /** The three counts of the admin dashboard. */
  datatype DashboardCounts = DashboardCounts(totalEmployees: nat, signedInToday: nat, signedOutToday: nat)

  /** Active employees, today's records still open, today's records signed out. */
  function AdminDashboard(db: Option<Store>, today: string): (c: DashboardCounts)
    ensures db.None? ==> c == DashboardCounts(0, 0, 0)
  {
    var employees := if db.None? then [] else Filter(db.value.employees, IsActiveDoc);
    var todays := AllIn(db, Attendance, AttendanceOnDate(today));
    DashboardCounts(|employees|, |Filter(todays, IsOpenSession)|,
                    |Filter(todays, (d: AttendanceDoc) => Truthy(d.data.signOutTime))|)
  }

  /** A record is never counted both as signed in and as signed out, so the
      two counts never exceed the number of today's records; and only active
      employees are counted. */
  lemma DashboardCountsDisjoint(db: Option<Store>, today: string)
    ensures
      var c := AdminDashboard(db, today);
      c.signedInToday + c.signedOutToday <= |AllIn(db, Attendance, AttendanceOnDate(today))| &&
      (db.Some? ==> c.totalEmployees <= |db.value.employees|)
  {
    FilterDisjointCount(AllIn(db, Attendance, AttendanceOnDate(today)), IsOpenSession, (d: AttendanceDoc) => Truthy(d.data.signOutTime));
  }

  // ----- employee_dashboard -----

  /** Today's record goes first when the recent list holds no record of its
      date; the recent list is otherwise shown as fetched. */
  function MergeToday(recent: seq<AttendanceDoc>, today: Option<AttendanceDoc>): (r: seq<AttendanceDoc>)
    ensures today.Some? ==> exists i :: 0 <= i < |r| && r[i].data.date == today.value.data.date
    ensures |recent| <= |r| <= |recent| + 1 && r[|r| - |recent|..] == recent
    ensures (today.None? || exists i :: 0 <= i < |recent| && recent[i].data.date == today.value.data.date) ==> r == recent
  {
    if today.Some? && !(exists i :: 0 <= i < |recent| && recent[i].data.date == today.value.data.date) then
      var r := [today.value] + recent;
      assert r[0] == today.value;
      r
    else recent
  }

  /** The list of `employee_dashboard`: the ten latest records, with today's
      record put first when the limit left it out. */
  function DashboardRecords(db: Option<Store>, employeeId: string, today: string): (r: seq<AttendanceDoc>)
    ensures forall i :: 0 <= i < |r| ==> r[i].data.employeeId == employeeId
    ensures |r| <= 11
  {
    MergeToday(AttendanceByEmployee(db, employeeId, 10), TodayRecord(db, employeeId, today))
  }

  /** Once the employee has a record for today, the dashboard shows a record
      of today. */
  lemma DashboardShowsToday(db: Option<Store>, employeeId: string, today: string)
    requires TodayRecord(db, employeeId, today).Some?
    ensures exists i :: 0 <= i < |DashboardRecords(db, employeeId, today)| && DashboardRecords(db, employeeId, today)[i].data.date == today
  {
    var d := TodayRecord(db, employeeId, today).value;
    assert d.data.date == today;
    var r := MergeToday(AttendanceByEmployee(db, employeeId, 10), Some(d));
    var i :| 0 <= i < |r| && r[i].data.date == d.data.date;
    assert DashboardRecords(db, employeeId, today)[i].data.date == today;
  }

  /** The dashboard through the service: the lookup, the query and the insert. */
  method GetDashboardRecords(svc: FirebaseService, employeeId: string, today: string) returns (r: seq<AttendanceDoc>)
    ensures r == DashboardRecords(svc.db, employeeId, today)
  {
    var todayRecord := svc.GetAttendanceByEmployeeAndDate(employeeId, today);
    r := svc.GetAttendanceByEmployee(employeeId, 10);
    if todayRecord.Some? && !(exists i :: 0 <= i < |r| && r[i].data.date == todayRecord.value.data.date) {
      r := [todayRecord.value] + r;
    }
  }
}
