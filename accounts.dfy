/** The account handlers: `load_user` of `app.py` and `app_firebase.py`, and
    the `employee_change_password`, `admin_add_employee` and
    `admin_toggle_employee_status` handlers of `app.py`. Password hashing is
    abstract: `check_password_hash` is the parameter `matches`, and the salted
    hash `generate_password_hash` produces is the parameter `newHash`. */
module Accounts {
  import opened Values
  import opened Text
  import opened Seqs
  import opened Service
  import opened Models

  // ----- load_user -----

  /** `s.startswith(prefix)` */
  predicate StartsWith(s: string, prefix: string) {
    |prefix| <= |s| && s[..|prefix|] == prefix
  }

  /** The user Flask-Login gets back from a stored user id. */
  datatype LoadedUser = NoUser | AdminUser(admin: AdminDoc) | EmployeeUser(employee: EmployeeDoc)

  /** `user_id.split("-")[1]` for a user id that starts with `word + "-"`:
      the text after the first dash, up to the next one. */
  function SecondField(userId: string, word: string): (r: string)
    requires '-' !in word && StartsWith(userId, word + "-")
    ensures '-' !in r
    ensures r == Split(userId[|word| + 1..], '-')[0]
  {
    assert userId == word + ['-'] + userId[|word| + 1..];
    SplitAtFirstSep(word, '-', userId[|word| + 1..]);
    var fields := Split(userId, '-');
    FieldsHaveNoSep(userId[|word| + 1..], '-');
    fields[1]
  }

  /** No field of a split holds the separator. */
  lemma {:induction false} FieldsHaveNoSep(s: string, sep: char)
    ensures forall k :: 0 <= k < |Split(s, sep)| ==> sep !in Split(s, sep)[k]
  {
    if s != [] {
      FieldsHaveNoSep(s[1..], sep);
      var rest := Split(s[1..], sep);
      if s[0] != sep {
        assert sep !in [s[0]] + rest[0];
        assert Split(s, sep) == [[s[0]] + rest[0]] + rest[1..];
        forall k | 0 <= k < |Split(s, sep)| ensures sep !in Split(s, sep)[k] {
          if k > 0 {
            assert Split(s, sep)[k] == rest[k];
          }
        }
      } else {
        assert Split(s, sep) == [[]] + rest;
        forall k | 0 <= k < |Split(s, sep)| ensures sep !in Split(s, sep)[k] {
          if k > 0 {
            assert Split(s, sep)[k] == rest[k - 1];
          }
        }
      }
    }
  }

  /** `load_user`: an "admin-" id names an admin document, an "employee-" id
      an employee document, each by the second dash-separated field. */
  function LoadUser(db: Option<Store>, userId: string): (r: LoadedUser)
    ensures r.AdminUser? ==> StartsWith(userId, "admin-") && db.Some? && r.admin in db.value.admins
    ensures r.EmployeeUser? ==> StartsWith(userId, "employee-") && db.Some? && r.employee in db.value.employees
    ensures !StartsWith(userId, "admin-") && !StartsWith(userId, "employee-") ==> r == NoUser
  {
    if StartsWith(userId, "admin-") then
      match FirstIn(db, Admins, WithKey(AdminDocId, SecondField(userId, "admin")))
      case Some(a) => AdminUser(a)
      case None => NoUser
    else if StartsWith(userId, "employee-") then
      match FirstIn(db, Employees, WithKey(EmployeeDocId, SecondField(userId, "employee")))
      case Some(e) => EmployeeUser(e)
      case None => NoUser
    else NoUser
  }

  /** The field after the prefix of a `get_id` user id whose document id
      has no dash is that id. */
  lemma SecondFieldOfUserId(word: string, id: string)
    requires '-' !in word && '-' !in id
    ensures StartsWith(word + "-" + id, word + "-") && SecondField(word + "-" + id, word) == id
  {
    var u := word + "-" + id;
    assert u[..|word| + 1] == word + "-";
    assert u[|word| + 1..] == id;
    SplitWithoutSep(id, '-');
  }

  /** The user id `get_id` gives an admin loads that admin again, when its
      document id holds no dash and the admin ids are valid. */
  lemma AdminUserIdRoundTrip(db: Option<Store>, i: nat)
    requires db.Some? && IdsValid(db.value.admins, AdminDocId)
    requires i < |db.value.admins| && '-' !in db.value.admins[i].id
    ensures LoadUser(db, AdminUserId(Some(db.value.admins[i].id))) == AdminUser(db.value.admins[i])
  {
    var a := db.value.admins[i];
    SecondFieldOfUserId("admin", a.id);
    assert AdminUserId(Some(a.id)) == "admin" + "-" + a.id;
    IndexOfUniqueKey(db.value.admins, AdminDocId, i);
  }

  /** The same for an employee. An employee user id never starts with
      "admin-", so it is not mistaken for an admin's. */
  lemma EmployeeUserIdRoundTrip(db: Option<Store>, i: nat)
    requires db.Some? && IdsValid(db.value.employees, EmployeeDocId)
    requires i < |db.value.employees| && '-' !in db.value.employees[i].id
    ensures LoadUser(db, EmployeeUserId(Some(db.value.employees[i].id))) == EmployeeUser(db.value.employees[i])
  {
    var e := db.value.employees[i];
    var u := EmployeeUserId(Some(e.id));
    SecondFieldOfUserId("employee", e.id);
    assert u == "employee" + "-" + e.id;
    assert u[..6] == "employ" != "admin-";
    IndexOfUniqueKey(db.value.employees, EmployeeDocId, i);
  }

  /** A document id with a dash does not survive the round trip: only the
      part before its first dash is looked up. */
  lemma DashedIdIsCut(db: Option<Store>, w: string, rest: string)
    requires '-' !in w
    ensures !StartsWith(EmployeeUserId(Some(w + "-" + rest)), "admin-")
    ensures LoadUser(db, EmployeeUserId(Some(w + "-" + rest))) ==
      match FirstIn(db, Employees, WithKey(EmployeeDocId, w)) case Some(e) => EmployeeUser(e) case None => NoUser
  {
    var u := EmployeeUserId(Some(w + "-" + rest));
    assert u == "employee" + "-" + (w + "-" + rest);
    assert u[..6] == "employ" != "admin-";
    assert u[..9] == "employee-";
    assert u[9..] == w + ['-'] + rest;
    SplitAtFirstSep(w, '-', rest);
  }

  // ----- employee_change_password -----

  datatype PasswordOutcome = FieldsMissing | WrongCurrentPassword | ConfirmationMismatch | TooShort
                           | PasswordChanged | PasswordSaveFailed

  /** The POST branch for the signed-in employee `user`; the three fields are
      the form's texts ('' when absent). */
  function ChangePasswordSpec(db: Option<Store>, user: EmployeeState, current: string, newPassword: string, confirm: string,
                              matches: (string, string) -> bool, newHash: string, freshId: string, now: int): (r: (PasswordOutcome, Option<Store>))
    ensures r.0 != PasswordChanged ==> r.1 == db
  {
    if current == "" || newPassword == "" || confirm == "" then (FieldsMissing, db)
    else if !matches(user.passwordHash, current) then (WrongCurrentPassword, db)
    else if newPassword != confirm then (ConfirmationMismatch, db)
    else if |newPassword| < 6 then (TooShort, db)
    else
      var w := EmployeeSaved(db, user.(passwordHash := newHash), freshId, now).0;
      (if w.ok then PasswordChanged else PasswordSaveFailed, w.db)
  }

  /** The POST branch through the signed-in employee object. */
  method ChangePassword(svc: FirebaseService, user: FirebaseEmployee, current: string, newPassword: string, confirm: string,
                        matches: (string, string) -> bool, newHash: string, freshId: string, now: int)
    returns (outcome: PasswordOutcome)
    modifies svc, user
    requires svc.db.Some? ==> FreshId(svc.db.value.employees, EmployeeDocId, freshId)
    ensures (outcome, svc.db) == ChangePasswordSpec(old(svc.db), old(user.State()), current, newPassword, confirm, matches, newHash, freshId, now)
  {
    if current == "" || newPassword == "" || confirm == "" {
      return FieldsMissing;
    }
    if !matches(user.passwordHash, current) {
      return WrongCurrentPassword;
    }
    if newPassword != confirm {
      return ConfirmationMismatch;
    }
    if |newPassword| < 6 {
      return TooShort;
    }
    user.passwordHash := newHash;
    var ok := user.Save(svc, freshId, now);
    outcome := if ok then PasswordChanged else PasswordSaveFailed;
  }

  /** The checks in the handler's order, each refusing without a write; a
      change happens only when all of them pass, and it stores the new
      hash on the employee's own document and nothing else. */
  lemma ChangePasswordChecksInOrder(db: Option<Store>, user: EmployeeState, current: string, newPassword: string, confirm: string,
                                    matches: (string, string) -> bool, newHash: string, freshId: string, now: int)
    requires IsSet(user.id)
    ensures
      var r := ChangePasswordSpec(db, user, current, newPassword, confirm, matches, newHash, freshId, now);
      (current == "" || newPassword == "" || confirm == "" ==> r.0 == FieldsMissing) &&
      (current != "" && newPassword != "" && confirm != "" && !matches(user.passwordHash, current) ==> r.0 == WrongCurrentPassword) &&
      (current != "" && newPassword != "" && confirm != "" && matches(user.passwordHash, current) && newPassword != confirm ==> r.0 == ConfirmationMismatch) &&
      (current != "" && matches(user.passwordHash, current) && newPassword == confirm && newPassword != "" && |newPassword| < 6 ==> r.0 == TooShort) &&
      (r.0 == PasswordChanged <==>
         current != "" && matches(user.passwordHash, current) && newPassword == confirm && |newPassword| >= 6 &&
         db.Some? && !KeyUnused(db.value.employees, EmployeeDocId, user.id.value)) &&
      (r.0 == PasswordChanged ==>
         r.1.Some? && |r.1.value.employees| == |db.value.employees| &&
         r.1.value == db.value.(employees := r.1.value.employees) &&
         forall i :: 0 <= i < |db.value.employees| ==>
           r.1.value.employees[i] ==
             if db.value.employees[i].id == user.id.value
             then db.value.employees[i].(data := EmployeeWritten(user.(passwordHash := newHash)), updatedAt := now)
             else db.value.employees[i])
  {
  }

  // ----- admin_add_employee -----

  datatype AddOutcome = FieldsRequired | DuplicateEmployeeId | EmployeeAdded | AddFailed

  /** A form field that `all([...])` accepts: present and non-empty. */
  predicate Filled(field: Option<string>) {
    field.Some? && field.value != ""
  }

  /** The employee `admin_add_employee` builds: active, with the hash of the
      given password. */
  function NewEmployee(employeeId: string, name: string, email: string, department: string, passwordHash: string): EmployeeState {
    EmployeeInit(EmployeeDict(None, EmployeeData(employeeId, name, email, department, passwordHash, Some(true)), None, None))
  }

  /** The POST branch; the five fields are the form's values (None when absent). */
  function AddEmployeeSpec(db: Option<Store>, employeeId: Option<string>, name: Option<string>, email: Option<string>,
                           department: Option<string>, password: Option<string>, passwordHash: string,
                           freshId: string, now: int): (r: (AddOutcome, Option<Store>))
    ensures r.0 != EmployeeAdded ==> r.1 == db
  {
    if !(Filled(employeeId) && Filled(name) && Filled(email) && Filled(department) && Filled(password)) then (FieldsRequired, db)
    else if FirstIn(db, Employees, EmployeeIdIs(employeeId.value)).Some? then (DuplicateEmployeeId, db)
    else
      var st := NewEmployee(employeeId.value, name.value, email.value, department.value, passwordHash);
      var w := EmployeeSaved(db, st, freshId, now).0;
      (if w.ok then EmployeeAdded else AddFailed, w.db)
  }

  /** The POST branch through the model objects. */
  method AddEmployee(svc: FirebaseService, employeeId: Option<string>, name: Option<string>, email: Option<string>,
                     department: Option<string>, password: Option<string>, passwordHash: string, freshId: string, now: int)
    returns (outcome: AddOutcome)
    modifies svc
    requires svc.db.Some? ==> FreshId(svc.db.value.employees, EmployeeDocId, freshId)
    ensures (outcome, svc.db) == AddEmployeeSpec(old(svc.db), employeeId, name, email, department, password, passwordHash, freshId, now)
  {
    if !(Filled(employeeId) && Filled(name) && Filled(email) && Filled(department) && Filled(password)) {
      return FieldsRequired;
    }
    var existing := FirebaseEmployee.FindByEmployeeId(svc, employeeId.value);
    if existing != null {
      return DuplicateEmployeeId;
    }
    var employee := new FirebaseEmployee(EmployeeDict(None,
      EmployeeData(employeeId.value, name.value, email.value, department.value, passwordHash, Some(true)), None, None));
    var ok := employee.Save(svc, freshId, now);
    outcome := if ok then EmployeeAdded else AddFailed;
  }

  /** An employee is added exactly when every field is filled, the employee
      id is not taken and the database is available; the new document is
      active, holds the given hash and is appended. */
  lemma AddEmployeeSucceedsIff(db: Option<Store>, employeeId: Option<string>, name: Option<string>, email: Option<string>,
                               department: Option<string>, password: Option<string>, passwordHash: string,
                               freshId: string, now: int)
    ensures
      var r := AddEmployeeSpec(db, employeeId, name, email, department, password, passwordHash, freshId, now);
      (r.0 == EmployeeAdded <==>
         Filled(employeeId) && Filled(name) && Filled(email) && Filled(department) && Filled(password) &&
         db.Some? && forall i :: 0 <= i < |db.value.employees| ==> db.value.employees[i].data.employeeId != employeeId.value) &&
      (r.0 == EmployeeAdded ==>
         r.1 == Some(db.value.(employees := db.value.employees +
           [EmployeeDoc(freshId, EmployeeData(employeeId.value, name.value, email.value, department.value, passwordHash, Some(true)), now, now)])))
  {
  }

  /** No two employees share an employee id. */
  predicate EmployeeIdsUnique(employees: seq<EmployeeDoc>) {
    forall i, j :: 0 <= i < j < |employees| ==> employees[i].data.employeeId != employees[j].data.employeeId
  }

  /** Adding employees keeps employee ids unique, and keeps the store valid. */
  lemma AddEmployeeKeepsIdsUnique(db: Option<Store>, employeeId: Option<string>, name: Option<string>, email: Option<string>,
                                  department: Option<string>, password: Option<string>, passwordHash: string,
                                  freshId: string, now: int)
    requires DbValid(db) && (db.Some? ==> FreshId(db.value.employees, EmployeeDocId, freshId))
    requires db.Some? ==> EmployeeIdsUnique(db.value.employees)
    ensures
      var after := AddEmployeeSpec(db, employeeId, name, email, department, password, passwordHash, freshId, now).1;
      DbValid(after) && (after.Some? ==> EmployeeIdsUnique(after.value.employees))
  {
    var r := AddEmployeeSpec(db, employeeId, name, email, department, password, passwordHash, freshId, now);
    if r.0 == EmployeeAdded {
      AddEmployeeSucceedsIff(db, employeeId, name, email, department, password, passwordHash, freshId, now);
      var es := db.value.employees;
      var t := r.1.value.employees;
      forall i, j | 0 <= i < j < |t| ensures t[i].data.employeeId != t[j].data.employeeId {
        if j == |es| {
          assert t[i] == es[i];
        }
      }
    }
  }

  // ----- admin_toggle_employee_status -----

  datatype ToggleOutcome = EmployeeNotFound | Toggled(nowActive: bool) | ToggleFailed

  /** The handler for the employee with document id `docId`. */
  function ToggleSpec(db: Option<Store>, docId: string, freshId: string, now: int): (r: (ToggleOutcome, Option<Store>))
    ensures !r.0.Toggled? ==> r.1 == db
    ensures r.0 == EmployeeNotFound <==> FirstIn(db, Employees, WithKey(EmployeeDocId, docId)).None?
  {
    match FirstIn(db, Employees, WithKey(EmployeeDocId, docId))
    case None => (EmployeeNotFound, db)
    case Some(d) =>
      var st := EmployeeInit(EmployeeDocDict(d));
      var flipped := st.(isActive := !st.isActive);
      var w := EmployeeSaved(db, flipped, freshId, now).0;
      (if w.ok then Toggled(flipped.isActive) else ToggleFailed, w.db)
  }

  /** The handler through the model object. */
  method ToggleEmployeeStatus(svc: FirebaseService, docId: string, freshId: string, now: int) returns (outcome: ToggleOutcome)
    modifies svc
    requires svc.db.Some? ==> FreshId(svc.db.value.employees, EmployeeDocId, freshId)
    ensures (outcome, svc.db) == ToggleSpec(old(svc.db), docId, freshId, now)
  {
    var employee := FirebaseEmployee.FindByDocId(svc, docId);
    if employee == null {
      return EmployeeNotFound;
    }
    employee.isActive := !employee.isActive;
    var ok := employee.Save(svc, freshId, now);
    outcome := if ok then Toggled(employee.isActive) else ToggleFailed;
  }

  /** In a valid store, toggling a stored employee always succeeds: it
      reports and stores the opposite of the status the employee read as,
      rewriting that one document with `is_active` set. */
  lemma ToggleFlipsStatus(db: Option<Store>, i: nat, freshId: string, now: int)
    requires DbValid(db) && db.Some? && i < |db.value.employees|
    ensures
      var d := db.value.employees[i];
      var r := ToggleSpec(db, d.id, freshId, now);
      r.0 == Toggled(!IsActiveDoc(d)) && r.1.Some? && DbValid(r.1) &&
      |r.1.value.employees| == |db.value.employees| &&
      r.1.value.employees[i] == d.(data := d.data.(isActive := Some(!IsActiveDoc(d))), updatedAt := now) &&
      forall j :: 0 <= j < |db.value.employees| && j != i ==> r.1.value.employees[j] == db.value.employees[j]
  {
    var es := db.value.employees;
    var d := es[i];
    IndexOfUniqueKey(es, EmployeeDocId, i);
    assert !KeyUnused(es, EmployeeDocId, d.id);
    forall j | 0 <= j < |es| && j != i ensures es[j].id != d.id {
    }
  }

  /** Toggling the same employee twice restores the status it read as. */
  lemma ToggleTwiceRestores(db: Option<Store>, i: nat, freshId: string, now1: int, now2: int)
    requires DbValid(db) && db.Some? && i < |db.value.employees|
    ensures
      var d := db.value.employees[i];
      var once := ToggleSpec(db, d.id, freshId, now1).1;
      var twice := ToggleSpec(once, d.id, freshId, now2);
      twice.0 == Toggled(IsActiveDoc(d)) && IsActiveDoc(twice.1.value.employees[i]) == IsActiveDoc(d)
  {
    var d := db.value.employees[i];
    ToggleFlipsStatus(db, i, freshId, now1);
    var once := ToggleSpec(db, d.id, freshId, now1).1;
    assert once.value.employees[i].id == d.id;
    ToggleFlipsStatus(once, i, freshId, now2);
  }
}
