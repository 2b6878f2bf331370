/**
 * The repository the services talk to, held in memory: the tables of the database, the
 * e-mails the mailer has sent, and the set of calls that fail (a lost connection, a
 * rejected statement). The queries follow the SQL of the postgres repositories: LEFT JOINs
 * whose NULL columns make the row scan fail, filters that apply only when their list is
 * non-empty, and LIMIT/OFFSET added only when non-zero.
 */
module Repo {
  import opened Wrappers
  import opened Errors
  import Models
  import Queries
  import Commands

  datatype StudentRow = StudentRow(
    uuid: string,
    firstName: string,
    lastName: string,
    middleName: string,
    email: string,
    password: string,
    groupId: int)

  datatype DebtRow = DebtRow(
    id: int,
    examId: int,
    studentUuid: string,
    teacherUuid: string,
    date: Option<Models.Date>,
    address: Option<string>)

  /** The tables, each in storage order. Keys are primary keys; a lookup takes the first match. */
  datatype Tables = Tables(
    groups: seq<Models.Group>,
    students: seq<StudentRow>,
    teachers: seq<Models.Teacher>,
    exams: seq<Models.Exam>,
    debts: seq<DebtRow>)

  /** An e-mail the mailer sent: to the teacher's address, about a student and an exam. */
  datatype Letter = Letter(student: Models.Student, teacherEmail: string, exam: Models.Exam)

  /** The error of a call that fails. */
  function Failed(op: string): Error {
    Plain(RepositoryFailure(op))
  }

  /** A NULL column scanned into a string or an integer, as GetDebts wraps it. */
  const ScanFailure := Wrap(Plain(RepositoryFailure("scan")), Infrastructure)

  /** The same scan error as GetStudents returns it, unwrapped. */
  const StudentScanFailure := Plain(RepositoryFailure("scan"))

  /** QueryRow found no row. */
  const NoRows := Wrap(Plain(RepositoryFailure("no rows in result set")), Infrastructure)

  /** The mailer's guard against an empty recipient. */
  const NoRecipient := Plain(TeacherEmailRequired)

  /** The first element satisfying p. */
  function Find<T(!new)>(xs: seq<T>, p: T -> bool): (r: Option<T>)
    ensures r.Some? ==> r.value in xs && p(r.value)
    ensures r.None? <==> forall x :: x in xs ==> !p(x)
  {
    if xs == [] then None
    else if p(xs[0]) then Some(xs[0])
    else
      var r := Find(xs[1..], p);
      assert forall x :: x in xs ==> x == xs[0] || x in xs[1..];
      r
  }

  /** The elements satisfying p, in order. */
  function Filter<T(!new)>(xs: seq<T>, p: T -> bool): (r: seq<T>)
    ensures |r| <= |xs|
    ensures forall x :: x in r <==> x in xs && p(x)
  {
    if xs == [] then []
    else
      var rest := Filter(xs[1..], p);
      assert forall x :: x in xs ==> x == xs[0] || x in xs[1..];
      (if p(xs[0]) then [xs[0]] else []) + rest
  }

  /** Go's conversion of an int64 to uint64: a negative value wraps around. */
  function ToUint64(x: int): nat {
    x % 0x1_0000_0000_0000_0000
  }

  /** The rows OFFSET skips out of n: none when the offset is zero and so left out of the SQL. */
  function Skip(n: nat, offset: int): (k: nat)
    ensures k <= n
    ensures offset == 0 ==> k == 0
    ensures 0 < offset < 0x1_0000_0000_0000_0000 ==> k == if offset < n then offset else n
  {
    if offset == 0 then 0
    else if ToUint64(offset) < n then ToUint64(offset) else n
  }

  /** The window LIMIT and OFFSET select, each added to the SQL only when non-zero. */
  function Page<T>(xs: seq<T>, limit: int, offset: int): (r: seq<T>)
    ensures Skip(|xs|, offset) + |r| <= |xs|
    ensures r == xs[Skip(|xs|, offset)..Skip(|xs|, offset) + |r|]
    ensures forall i :: 0 <= i < |r| ==> r[i] == xs[Skip(|xs|, offset) + i]
    ensures limit == 0 ==> |r| == |xs| - Skip(|xs|, offset)
    ensures limit != 0 ==> |r| == if ToUint64(limit) < |xs| - Skip(|xs|, offset) then ToUint64(limit) else |xs| - Skip(|xs|, offset)
  {
    var rest := xs[Skip(|xs|, offset)..];
    if limit != 0 && ToUint64(limit) < |rest| then rest[..ToUint64(limit)] else rest
  }

  /** Without LIMIT and OFFSET every row comes back. */
  lemma PageAll<T>(xs: seq<T>)
    ensures Page(xs, 0, 0) == xs
  {
  }

  /**
   * Squirrel writes LIMIT and OFFSET into the SQL text as the uint64 literal; PostgreSQL takes
   * them as bigint, so a literal of 2^63 or more is refused while the statement executes. That
   * refusal reaches Go only through rows.Err(), which GetDebts, GetExams and GetTeachers never
   * read: rows.Next() is false at once, and the call returns no rows and no error.
   */
  predicate PagingFits(limit: int, offset: int) {
    (limit == 0 || ToUint64(limit) < 0x8000_0000_0000_0000) &&
    (offset == 0 || ToUint64(offset) < 0x8000_0000_0000_0000)
  }

  /** For int64 values the paged query runs exactly when neither the limit nor the offset is negative. */
  lemma PagingFitsIffNonNegative(limit: int, offset: int)
    requires -0x8000_0000_0000_0000 <= limit < 0x8000_0000_0000_0000
    requires -0x8000_0000_0000_0000 <= offset < 0x8000_0000_0000_0000
    ensures PagingFits(limit, offset) <==> 0 <= limit && 0 <= offset
  {
    Int64ToUint64(limit);
    Int64ToUint64(offset);
  }

  /** uint64(x) of an int64: itself when non-negative; x + 2^64, so at least 2^63, when negative. */
  lemma Int64ToUint64(x: int)
    requires -0x8000_0000_0000_0000 <= x < 0x8000_0000_0000_0000
    ensures 0 <= x ==> ToUint64(x) == x
    ensures x < 0 ==> ToUint64(x) == x + 0x1_0000_0000_0000_0000
  {
    if x < 0 {
      assert (x + 0x1_0000_0000_0000_0000) % 0x1_0000_0000_0000_0000 == x + 0x1_0000_0000_0000_0000;
    }
  }

  // Joins.

  function GroupById(t: Tables, id: int): Option<Models.Group> {
    Find(t.groups, (g: Models.Group) => g.id == id)
  }

  function StudentByUuid(t: Tables, uuid: string): Option<StudentRow> {
    Find(t.students, (s: StudentRow) => s.uuid == uuid)
  }

  function TeacherByUuid(t: Tables, uuid: string): Option<Models.Teacher> {
    Find(t.teachers, (x: Models.Teacher) => x.uuid == uuid)
  }

  function ExamById(t: Tables, id: int): Option<Models.Exam> {
    Find(t.exams, (e: Models.Exam) => e.id == id)
  }

  /**
   * A student as GetStudents scans it: group id from the student row, group name from the
   * joined group; with no such group the name is NULL and the scan fails.
   */
  function ScanStudent(t: Tables, s: StudentRow): (r: Option<Models.Student>)
    ensures r.Some? <==> GroupById(t, s.groupId).Some?
    ensures r.Some? ==> (r.value.uuid == s.uuid && r.value.email == s.email &&
      r.value.password == s.password && r.value.group.Some? && r.value.group.value.id == s.groupId)
  {
    match GroupById(t, s.groupId)
    case None => None
    case Some(g) =>
      Some(Models.Student(s.uuid, s.firstName, s.lastName, s.middleName, s.email, s.password,
        Some(Models.Group(s.groupId, g.name))))
  }

  /** Every part of a debt the services dereference is present. */
  predicate Complete(d: Models.Debt) {
    d.exam.Some? && d.student.Some? && d.student.value.group.Some? && d.teacher.Some?
  }

  /**
   * A debt as GetDebts scans it: exam, student with group, and teacher joined; any of them
   * missing leaves NULL columns and the scan fails. Passwords are not selected.
   */
  function ScanDebt(t: Tables, d: DebtRow): (r: Option<Models.Debt>)
    ensures r.Some? ==> Complete(r.value)
    ensures r.Some? ==> (r.value.id == d.id && r.value.date == d.date && r.value.address == d.address &&
      r.value.exam.value.id == d.examId && r.value.student.value.uuid == d.studentUuid &&
      r.value.teacher.value.uuid == d.teacherUuid)
  {
    match (ExamById(t, d.examId), StudentByUuid(t, d.studentUuid), TeacherByUuid(t, d.teacherUuid))
    case (Some(e), Some(s), Some(x)) =>
      (match GroupById(t, s.groupId)
       case Some(g) =>
         Some(Models.Debt(d.id, d.date, d.address, Some(e),
           Some(Models.Student(s.uuid, s.firstName, s.lastName, s.middleName, s.email, "", Some(g))),
           Some(Models.Teacher(x.uuid, x.firstName, x.lastName, x.middleName, x.email, ""))))
       case None => None)
    case _ => None
  }

  /** A debt row scans exactly when its exam, its student, the student's group and its teacher all exist. */
  lemma ScanDebtJoins(t: Tables, d: DebtRow)
    ensures ScanDebt(t, d).Some? <==> (ExamById(t, d.examId).Some? && StudentByUuid(t, d.studentUuid).Some? &&
      GroupById(t, StudentByUuid(t, d.studentUuid).value.groupId).Some? && TeacherByUuid(t, d.teacherUuid).Some?)
  {
  }

  /** The WHERE clause of GetDebts; the student, teacher and exam conditions test joined columns. */
  predicate DebtSelected(t: Tables, f: Queries.GetDebtsFilters, d: DebtRow) {
    (|f.studentUuids| == 0 || (StudentByUuid(t, d.studentUuid).Some? && d.studentUuid in f.studentUuids)) &&
    (|f.teacherUuids| == 0 || (TeacherByUuid(t, d.teacherUuid).Some? && d.teacherUuid in f.teacherUuids)) &&
    (|f.examIds| == 0 || (ExamById(t, d.examId).Some? && d.examId in f.examIds)) &&
    (|f.debtIds| == 0 || d.id in f.debtIds)
  }

  /** Scanning every row in turn; one failed scan fails them all. */
  function ScanDebts(t: Tables, rows: seq<DebtRow>): (r: Option<seq<Models.Debt>>)
    ensures r.Some? <==> forall i :: 0 <= i < |rows| ==> ScanDebt(t, rows[i]).Some?
    ensures r.Some? ==> |r.value| == |rows| && forall i :: 0 <= i < |rows| ==> ScanDebt(t, rows[i]) == Some(r.value[i])
  {
    if rows == [] then Some([])
    else
      var head := ScanDebt(t, rows[0]);
      var rest := ScanDebts(t, rows[1..]);
      if head.None? then None
      else if rest.None? then
        assert exists i :: 0 <= i < |rows| - 1 && ScanDebt(t, rows[1..][i]).None?;
        None
      else Some([head.value] + rest.value)
  }

  /** Scanning students in turn; one failed scan fails them all. */
  function ScanStudents(t: Tables, rows: seq<StudentRow>): (r: Option<seq<Models.Student>>)
    ensures r.Some? <==> forall i :: 0 <= i < |rows| ==> ScanStudent(t, rows[i]).Some?
    ensures r.Some? ==> |r.value| == |rows| && forall i :: 0 <= i < |rows| ==> ScanStudent(t, rows[i]) == Some(r.value[i])
  {
    if rows == [] then Some([])
    else
      match (ScanStudent(t, rows[0]), ScanStudents(t, rows[1..]))
      case (Some(x), Some(xs)) => Some([x] + xs)
      case (None, _) => None
      case (_, None) =>
        assert !ScanStudent(t, rows[1..][0]).Some? || exists i :: 0 <= i < |rows| - 1 && !ScanStudent(t, rows[1..][i]).Some?;
        None
  }

  /** The rows the WHERE clause of GetDebts keeps, then LIMIT and OFFSET. */
  function SelectedDebtRows(t: Tables, f: Queries.GetDebtsFilters): (rows: seq<DebtRow>)
    ensures |rows| <= |t.debts|
    ensures forall i :: 0 <= i < |rows| ==> rows[i] in t.debts && DebtSelected(t, f, rows[i])
    ensures f.limit == 0 && f.offset == 0 ==> forall d :: d in t.debts && DebtSelected(t, f, d) ==> d in rows
  {
    var kept := Filter(t.debts, d => DebtSelected(t, f, d));
    var rows := Page(kept, f.limit, f.offset);
    assert forall i :: 0 <= i < |rows| ==> rows[i] in kept;
    rows
  }

  /**
   * exam_repo.go GetDebts on the tables: filters that do not validate are refused; otherwise
   * the selected rows are scanned one by one, and fail together if any scan fails.
   */
  function QueryDebts(t: Tables, f: Queries.GetDebtsFilters): (r: Result<seq<Models.Debt>, Error>)
    ensures f.Validate().Some? ==> r == Failure(Wrap(f.Validate().value, Infrastructure))
    ensures f.Validate().None? && !PagingFits(f.limit, f.offset) ==> r == Success([])
    ensures r.Success? ==> f.Validate().None?
    ensures r.Success? ==> forall i :: 0 <= i < |r.value| ==> Complete(r.value[i])
  {
    match f.Validate()
    case Some(e) => Failure(Wrap(e, Infrastructure))
    case None =>
      if !PagingFits(f.limit, f.offset) then Success([])
      else
      match ScanDebts(t, SelectedDebtRows(t, f))
      case None => Failure(ScanFailure)
      case Some(ds) => Success(ds)
  }

  /**
   * The rows of a valid query: all of them scan, or the query fails with a scan error; the
   * debts are the scanned rows, one each, in order.
   */
  lemma QueryDebtsScans(t: Tables, f: Queries.GetDebtsFilters)
    requires f.Validate().None? && PagingFits(f.limit, f.offset)
    ensures QueryDebts(t, f).Success? <==>
      forall i :: 0 <= i < |SelectedDebtRows(t, f)| ==> ScanDebt(t, SelectedDebtRows(t, f)[i]).Some?
    ensures QueryDebts(t, f).Failure? ==> QueryDebts(t, f).error == ScanFailure
    ensures QueryDebts(t, f).Success? ==> |QueryDebts(t, f).value| == |SelectedDebtRows(t, f)|
    ensures QueryDebts(t, f).Success? ==>
      forall i :: 0 <= i < |QueryDebts(t, f).value| ==> ScanDebt(t, SelectedDebtRows(t, f)[i]) == Some(QueryDebts(t, f).value[i])
  {
  }

  /** Every debt GetDebts returns is complete and comes from a row its filters select. */
  lemma QueryDebtsSound(t: Tables, f: Queries.GetDebtsFilters, i: int)
    requires QueryDebts(t, f).Success? && 0 <= i < |QueryDebts(t, f).value|
    ensures Complete(QueryDebts(t, f).value[i])
    ensures |f.debtIds| == 0 || QueryDebts(t, f).value[i].id in f.debtIds
    ensures |f.studentUuids| == 0 || QueryDebts(t, f).value[i].student.value.uuid in f.studentUuids
    ensures |f.teacherUuids| == 0 || QueryDebts(t, f).value[i].teacher.value.uuid in f.teacherUuids
    ensures |f.examIds| == 0 || QueryDebts(t, f).value[i].exam.value.id in f.examIds
  {
    if PagingFits(f.limit, f.offset) {
      QueryDebtsScans(t, f);
      var row := SelectedDebtRows(t, f)[i];
      assert ScanDebt(t, row) == Some(QueryDebts(t, f).value[i]);
    } else {
      // out-of-range paging gives no rows, so there is no index i
      assert false;
    }
  }

  /** The student rows GetStudents selects: every non-empty list must hold the column. */
  function SelectedStudentRows(t: Tables, f: Queries.GetStudentsFilters): (rows: seq<StudentRow>)
    ensures |rows| <= |t.students|
    ensures forall s :: s in rows <==> s in t.students && (|f.ids| == 0 || s.uuid in f.ids) && (|f.emails| == 0 || s.email in f.emails)
  {
    Filter(t.students, (s: StudentRow) => (|f.ids| == 0 || s.uuid in f.ids) && (|f.emails| == 0 || s.email in f.emails))
  }

  /** student_repo.go GetStudents on the tables: no paging, even when Limit is set. */
  function QueryStudents(t: Tables, f: Queries.GetStudentsFilters): (r: Result<seq<Models.Student>, Error>)
    ensures f.Validate().Some? ==> r == Failure(f.Validate().value)
    ensures f.Validate().None? && r.Failure? ==> r.error == StudentScanFailure
    ensures r.Success? ==> |r.value| == |SelectedStudentRows(t, f)|
    ensures r.Success? ==> forall i :: 0 <= i < |r.value| ==> ScanStudent(t, SelectedStudentRows(t, f)[i]) == Some(r.value[i])
  {
    match f.Validate()
    case Some(e) => Failure(e)
    case None =>
      match ScanStudents(t, SelectedStudentRows(t, f))
      case None => Failure(StudentScanFailure)
      case Some(ss) => Success(ss)
  }

  /** Every student GetStudents returns has a group and matches the UUID and e-mail filters. */
  lemma QueryStudentsSound(t: Tables, f: Queries.GetStudentsFilters, i: int)
    requires QueryStudents(t, f).Success? && 0 <= i < |QueryStudents(t, f).value|
    ensures QueryStudents(t, f).value[i].group.Some?
    ensures |f.ids| == 0 || QueryStudents(t, f).value[i].uuid in f.ids
    ensures |f.emails| == 0 || QueryStudents(t, f).value[i].email in f.emails
  {
    var row := SelectedStudentRows(t, f)[i];
    assert row in SelectedStudentRows(t, f);
    assert ScanStudent(t, row) == Some(QueryStudents(t, f).value[i]);
  }

  /** The teacher rows a UUID or e-mail filter selects, in storage order. */
  function TeachersWhere(t: Tables, uuids: seq<string>, emails: seq<string>): seq<Models.Teacher> {
    Filter(t.teachers, (x: Models.Teacher) => (|uuids| == 0 || x.uuid in uuids) && (|emails| == 0 || x.email in emails))
  }

  /**
   * teacher_repo.go GetTeachers on the tables: filters, then LIMIT/OFFSET; passwords are
   * selected. A paging literal the database refuses gives no rows and no error.
   */
  function QueryTeachers(t: Tables, f: Queries.GetTeachersFilters): (r: seq<Models.Teacher>)
    ensures !PagingFits(f.limit, f.offset) ==> r == []
    ensures |r| <= |t.teachers|
    ensures forall i :: 0 <= i < |r| ==>
      r[i] in t.teachers && (|f.uuids| == 0 || r[i].uuid in f.uuids) && (|f.emails| == 0 || r[i].email in f.emails)
    ensures f.limit == 0 && f.offset == 0 ==> r == TeachersWhere(t, f.uuids, f.emails)
  {
    if !PagingFits(f.limit, f.offset) then []
    else
      var rows := TeachersWhere(t, f.uuids, f.emails);
      var r := Page(rows, f.limit, f.offset);
      assert forall i :: 0 <= i < |r| ==> r[i] in rows;
      r
  }

  /** exam_repo.go GetExams on the tables. */
  function QueryExams(t: Tables, f: Queries.GetExamsFilters): (r: Result<seq<Models.Exam>, Error>)
    ensures r.Success? <==> f.Validate().None?
    ensures f.Validate().Some? ==> r == Failure(f.Validate().value)
    ensures f.Validate().None? && !PagingFits(f.limit, f.offset) ==> r == Success([])
    ensures r.Success? ==> |r.value| <= |t.exams|
    ensures r.Success? ==> forall i :: 0 <= i < |r.value| ==> r.value[i] in t.exams && (|f.ids| == 0 || r.value[i].id in f.ids)
  {
    match f.Validate()
    case Some(e) => Failure(e)
    case None =>
      if !PagingFits(f.limit, f.offset) then Success([])
      else
      var rows := Filter(t.exams, (e: Models.Exam) => |f.ids| == 0 || e.id in f.ids);
      var r := Page(rows, f.limit, f.offset);
      assert forall i :: 0 <= i < |r| ==> r[i] in rows;
      Success(r)
  }

  /** exam_repo.go GetExamByID: the first exam whose id is listed; none is ErrNoRows. */
  function QueryExamById(t: Tables, f: Queries.GetExamsFilters): (r: Result<Models.Exam, Error>)
    ensures r.Success? ==> r.value in t.exams && r.value.id in f.ids
    ensures r.Failure? <==> forall e :: e in t.exams ==> e.id !in f.ids
    ensures r.Failure? ==> r.error == NoRows
  {
    match Find(t.exams, (e: Models.Exam) => e.id in f.ids)
    case Some(e) => Success(e)
    case None => Failure(NoRows)
  }

  /** teacher_repo.go SearchTeachers: every non-empty list must hold the column; passwords are not selected. */
  function SearchTeacherRows(t: Tables, f: Queries.SearchTeacherFilters): (r: seq<Models.Teacher>)
    ensures |r| <= |t.teachers|
    ensures forall i :: 0 <= i < |r| ==> r[i].password == "" && (|f.uuids| == 0 || r[i].uuid in f.uuids) && (|f.emails| == 0 || r[i].email in f.emails)
  {
    var rows := Filter(t.teachers, (x: Models.Teacher) =>
      (|f.uuids| == 0 || x.uuid in f.uuids) && (|f.firstNames| == 0 || x.firstName in f.firstNames) &&
      (|f.lastNames| == 0 || x.lastName in f.lastNames) && (|f.middleNames| == 0 || x.middleName in f.middleNames) &&
      (|f.emails| == 0 || x.email in f.emails));
    assert forall i :: 0 <= i < |rows| ==> rows[i] in rows;
    seq(|rows|, i requires 0 <= i < |rows| => rows[i].(password := ""))
  }

  /** student_repo.go SearchStudents: the group carries only its id. */
  function SearchStudentRows(t: Tables, f: Queries.SearchStudentFilters): (r: seq<Models.Student>)
    ensures |r| <= |t.students|
    ensures forall i :: 0 <= i < |r| ==> r[i].password == "" && r[i].group.Some? && r[i].group.value.name == "" && (|f.uuids| == 0 || r[i].uuid in f.uuids)
  {
    var rows := Filter(t.students, (s: StudentRow) =>
      (|f.uuids| == 0 || s.uuid in f.uuids) && (|f.firstNames| == 0 || s.firstName in f.firstNames) &&
      (|f.lastNames| == 0 || s.lastName in f.lastNames) && (|f.middleNames| == 0 || s.middleName in f.middleNames) &&
      (|f.emails| == 0 || s.email in f.emails));
    assert forall i :: 0 <= i < |rows| ==> rows[i] in rows;
    seq(|rows|, i requires 0 <= i < |rows| =>
      Models.Student(rows[i].uuid, rows[i].firstName, rows[i].lastName, rows[i].middleName, rows[i].email, "",
        Some(Models.Group(rows[i].groupId, ""))))
  }

  /** The number of debt rows of a student. */
  function CountDebts(rows: seq<DebtRow>, uuid: string): (n: nat)
    ensures n <= |rows|
    ensures n == 0 <==> forall d :: d in rows ==> d.studentUuid != uuid
  {
    if rows == [] then 0
    else
      assert forall x :: x in rows ==> x == rows[0] || x in rows[1..];
      (if rows[0].studentUuid == uuid then 1 else 0) + CountDebts(rows[1..], uuid)
  }

  /** UPDATE debts SET date, teacher_uuid, student_uuid, address WHERE id = DebtID. */
  function ApplyDebtUpdate(rows: seq<DebtRow>, c: Commands.UpdateDebtByID): (r: seq<DebtRow>)
    ensures |r| == |rows|
    ensures forall i :: 0 <= i < |rows| && rows[i].id == c.debtId ==>
      r[i] == DebtRow(rows[i].id, rows[i].examId, c.studentUuid, c.teacherUuid, Some(c.date), c.address)
    ensures forall i :: 0 <= i < |rows| && rows[i].id != c.debtId ==> r[i] == rows[i]
  {
    seq(|rows|, i requires 0 <= i < |rows| =>
      if rows[i].id == c.debtId then rows[i].(studentUuid := c.studentUuid, teacherUuid := c.teacherUuid,
        date := Some(c.date), address := c.address)
      else rows[i])
  }

  /** UPDATE students SET password WHERE uuid = uuid; the text is stored as given. */
  function ApplyPassword(rows: seq<StudentRow>, uuid: string, password: string): (r: seq<StudentRow>)
    ensures |r| == |rows|
    ensures forall i :: 0 <= i < |rows| ==> r[i] == if rows[i].uuid == uuid then rows[i].(password := password) else rows[i]
  {
    seq(|rows|, i requires 0 <= i < |rows| => if rows[i].uuid == uuid then rows[i].(password := password) else rows[i])
  }

  /** The UUID uuid_generate_v4 yields for the n-th insert; distinct inserts get distinct UUIDs. */
  function FreshUuid(n: nat): (u: string)
    ensures |u| == n + 1
  {
    seq(n + 1, _ => 'u')
  }

  class Repository {
    var tables: Tables
    var outbox: seq<Letter>
    /** The calls that fail, by name. */
    var failing: set<string>
    /** The last id the debts' serial column handed out. */
    var lastId: int
    /** The number of UUIDs generated so far. */
    var generated: nat

    constructor (tables: Tables, failing: set<string>, lastId: int)
      ensures this.tables == tables && this.failing == failing && this.lastId == lastId
      ensures outbox == [] && generated == 0
    {
      this.tables := tables;
      this.failing := failing;
      this.lastId := lastId;
      outbox := [];
      generated := 0;
    }

    function GetDebts(f: Queries.GetDebtsFilters): (r: Result<seq<Models.Debt>, Error>)
      reads this
      ensures "GetDebts" in failing ==> r == Failure(Wrap(Failed("GetDebts"), Infrastructure))
      ensures "GetDebts" !in failing ==> r == QueryDebts(tables, f)
      ensures r.Success? ==> forall i :: 0 <= i < |r.value| ==> Complete(r.value[i])
    {
      if "GetDebts" in failing then Failure(Wrap(Failed("GetDebts"), Infrastructure)) else QueryDebts(tables, f)
    }

    function GetStudents(f: Queries.GetStudentsFilters): (r: Result<seq<Models.Student>, Error>)
      reads this
      ensures "GetStudents" in failing ==> r == Failure(Failed("GetStudents"))
      ensures "GetStudents" !in failing ==> r == QueryStudents(tables, f)
    {
      if "GetStudents" in failing then Failure(Failed("GetStudents")) else QueryStudents(tables, f)
    }

    function GetTeachers(f: Queries.GetTeachersFilters): (r: Result<seq<Models.Teacher>, Error>)
      reads this
      ensures "GetTeachers" in failing ==> r == Failure(Failed("GetTeachers"))
      ensures "GetTeachers" !in failing ==> r == Success(QueryTeachers(tables, f))
    {
      if "GetTeachers" in failing then Failure(Failed("GetTeachers")) else Success(QueryTeachers(tables, f))
    }

    function GetExams(f: Queries.GetExamsFilters): (r: Result<seq<Models.Exam>, Error>)
      reads this
      ensures "GetExams" in failing ==> r == Failure(Failed("GetExams"))
      ensures "GetExams" !in failing ==> r == QueryExams(tables, f)
    {
      if "GetExams" in failing then Failure(Failed("GetExams")) else QueryExams(tables, f)
    }

    function GetExamByID(f: Queries.GetExamsFilters): (r: Result<Models.Exam, Error>)
      reads this
      ensures "GetExamByID" in failing ==> r == Failure(Wrap(Failed("GetExamByID"), Infrastructure))
      ensures "GetExamByID" !in failing ==> r == QueryExamById(tables, f)
    {
      if "GetExamByID" in failing then Failure(Wrap(Failed("GetExamByID"), Infrastructure)) else QueryExamById(tables, f)
    }

    function SearchTeachers(f: Queries.SearchTeacherFilters): (r: Result<seq<Models.Teacher>, Error>)
      reads this
      ensures "SearchTeachers" in failing ==> r == Failure(Failed("SearchTeachers"))
      ensures "SearchTeachers" !in failing ==> r == Success(SearchTeacherRows(tables, f))
    {
      if "SearchTeachers" in failing then Failure(Failed("SearchTeachers")) else Success(SearchTeacherRows(tables, f))
    }

    function SearchStudents(f: Queries.SearchStudentFilters): (r: Result<seq<Models.Student>, Error>)
      reads this
      ensures "SearchStudents" in failing ==> r == Failure(Failed("SearchStudents"))
      ensures "SearchStudents" !in failing ==> r == Success(SearchStudentRows(tables, f))
    {
      if "SearchStudents" in failing then Failure(Failed("SearchStudents")) else Success(SearchStudentRows(tables, f))
    }

    function GetAmountOfDebtsForStudent(uuid: string): (r: Result<int, Error>)
      reads this
      ensures "GetAmountOfDebtsForStudent" in failing ==> r == Failure(Failed("GetAmountOfDebtsForStudent"))
      ensures "GetAmountOfDebtsForStudent" !in failing ==> r == Success(CountDebts(tables.debts, uuid))
    {
      if "GetAmountOfDebtsForStudent" in failing then Failure(Failed("GetAmountOfDebtsForStudent"))
      else Success(CountDebts(tables.debts, uuid))
    }

    /** INSERT INTO debts (exam_id, student_uuid, teacher_uuid) RETURNING id: the date is not written. */
    method CreateDebt(c: Commands.CreateDebt) returns (id: int, err: Option<Error>)
      modifies this
      ensures "CreateDebt" in failing ==> id == 0 && err == Some(Failed("CreateDebt")) && unchanged(this)
      ensures "CreateDebt" !in failing ==> (err.None? && id == old(lastId) + 1 && lastId == id &&
        tables == old(tables).(debts := old(tables.debts) + [DebtRow(id, c.examId, c.studentUuid, c.teacherUuid, None, None)]) &&
        outbox == old(outbox) && failing == old(failing) && generated == old(generated))
    {
      if "CreateDebt" in failing {
        return 0, Some(Failed("CreateDebt"));
      }
      lastId := lastId + 1;
      id := lastId;
      tables := tables.(debts := tables.debts + [DebtRow(id, c.examId, c.studentUuid, c.teacherUuid, None, None)]);
      err := None;
    }

    method UpdateDebt(c: Commands.UpdateDebtByID) returns (err: Option<Error>)
      modifies this
      ensures "UpdateDebt" in failing ==> err == Some(Wrap(Failed("UpdateDebt"), Infrastructure)) && unchanged(this)
      ensures "UpdateDebt" !in failing ==> (err.None? &&
        tables == old(tables).(debts := ApplyDebtUpdate(old(tables.debts), c)) &&
        outbox == old(outbox) && failing == old(failing) && lastId == old(lastId) && generated == old(generated))
    {
      if "UpdateDebt" in failing {
        return Some(Wrap(Failed("UpdateDebt"), Infrastructure));
      }
      tables := tables.(debts := ApplyDebtUpdate(tables.debts, c));
      err := None;
    }

    /** INSERT INTO students ... RETURNING uuid, with the password as the command carries it. */
    method CreateStudent(c: Commands.CreateStudent) returns (uuid: string, err: Option<Error>)
      modifies this
      ensures "CreateStudent" in failing ==> uuid == "" && err == Some(Failed("CreateStudent")) && unchanged(this)
      ensures "CreateStudent" !in failing ==> (err.None? && uuid == FreshUuid(old(generated)) && generated == old(generated) + 1 &&
        tables == old(tables).(students := old(tables.students) +
          [StudentRow(uuid, c.firstName, c.lastName, c.middleName, c.email, c.password, c.groupId)]) &&
        outbox == old(outbox) && failing == old(failing) && lastId == old(lastId))
    {
      if "CreateStudent" in failing {
        return "", Some(Failed("CreateStudent"));
      }
      uuid := FreshUuid(generated);
      generated := generated + 1;
      tables := tables.(students := tables.students + [StudentRow(uuid, c.firstName, c.lastName, c.middleName, c.email, c.password, c.groupId)]);
      err := None;
    }

    method CreateTeacher(c: Commands.CreateTeacher) returns (uuid: string, err: Option<Error>)
      modifies this
      ensures "CreateTeacher" in failing ==> uuid == "" && err == Some(Failed("CreateTeacher")) && unchanged(this)
      ensures "CreateTeacher" !in failing ==> (err.None? && uuid == FreshUuid(old(generated)) && generated == old(generated) + 1 &&
        tables == old(tables).(teachers := old(tables.teachers) +
          [Models.Teacher(uuid, c.firstName, c.lastName, c.middleName, c.email, c.password)]) &&
        outbox == old(outbox) && failing == old(failing) && lastId == old(lastId))
    {
      if "CreateTeacher" in failing {
        return "", Some(Failed("CreateTeacher"));
      }
      uuid := FreshUuid(generated);
      generated := generated + 1;
      tables := tables.(teachers := tables.teachers + [Models.Teacher(uuid, c.firstName, c.lastName, c.middleName, c.email, c.password)]);
      err := None;
    }

    method ChangeStudentPassword(uuid: string, password: string) returns (err: Option<Error>)
      modifies this
      ensures "ChangeStudentPassword" in failing ==> err == Some(Wrap(Failed("ChangeStudentPassword"), Infrastructure)) && unchanged(this)
      ensures "ChangeStudentPassword" !in failing ==> (err.None? &&
        tables == old(tables).(students := ApplyPassword(old(tables.students), uuid, password)) &&
        outbox == old(outbox) && failing == old(failing) && lastId == old(lastId) && generated == old(generated))
    {
      if "ChangeStudentPassword" in failing {
        return Some(Wrap(Failed("ChangeStudentPassword"), Infrastructure));
      }
      tables := tables.(students := ApplyPassword(tables.students, uuid, password));
      err := None;
    }

    /** The mailer: an empty recipient is refused before anything is sent. */
    method SendNotification(student: Models.Student, teacherEmail: string, exam: Models.Exam) returns (err: Option<Error>)
      modifies this
      ensures teacherEmail == "" ==> err == Some(NoRecipient) && unchanged(this)
      ensures teacherEmail != "" && "SendNotification" in failing ==> err == Some(Failed("SendNotification")) && unchanged(this)
      ensures teacherEmail != "" && "SendNotification" !in failing ==> (err.None? &&
        outbox == old(outbox) + [Letter(student, teacherEmail, exam)] &&
        tables == old(tables) && failing == old(failing) && lastId == old(lastId) && generated == old(generated))
    {
      if teacherEmail == "" {
        return Some(NoRecipient);
      }
      if "SendNotification" in failing {
        return Some(Failed("SendNotification"));
      }
      outbox := outbox + [Letter(student, teacherEmail, exam)];
      err := None;
    }
  }

  lemma {:induction false} FilterAppend<T(!new)>(xs: seq<T>, ys: seq<T>, p: T -> bool)
    ensures Filter(xs + ys, p) == Filter(xs, p) + Filter(ys, p)
    decreases |xs|
  {
    if xs != [] {
      FilterAppend(xs[1..], ys, p);
      ConsTail(xs, ys);
      FilterHead(xs + ys, p);
      assert (xs + ys)[0] == xs[0];
      var head := if p(xs[0]) then [xs[0]] else [];
      assert head + (Filter(xs[1..], p) + Filter(ys, p)) == (head + Filter(xs[1..], p)) + Filter(ys, p);
    } else {
      assert xs + ys == ys;
    }
  }

  /** Dropping the head of a concatenation drops the head of its first part. */
  lemma ConsTail<T>(xs: seq<T>, ys: seq<T>)
    requires xs != []
    ensures (xs + ys)[1..] == xs[1..] + ys
  {
  }

  /** One step of Filter: the head, if it passes, followed by the filtered tail. */
  lemma FilterHead<T(!new)>(xs: seq<T>, p: T -> bool)
    requires xs != []
    ensures Filter(xs, p) == (if p(xs[0]) then [xs[0]] else []) + Filter(xs[1..], p)
  {
  }

  lemma FilterNone<T(!new)>(xs: seq<T>, p: T -> bool)
    requires forall x :: x in xs ==> !p(x)
    ensures Filter(xs, p) == []
  {
    if Filter(xs, p) != [] {
      assert Filter(xs, p)[0] in Filter(xs, p);
    }
  }

  /** A filter every element passes keeps the whole sequence, in order. */
  lemma FilterAll<T(!new)>(xs: seq<T>, p: T -> bool)
    requires forall x :: x in xs ==> p(x)
    ensures Filter(xs, p) == xs
  {
    assert forall i :: 0 <= i < |xs| ==> xs[i] in xs;
    FilterAllAt(xs, p);
  }

  /** FilterAll by index: the induction behind it. */
  lemma {:induction false} FilterAllAt<T(!new)>(xs: seq<T>, p: T -> bool)
    requires forall i :: 0 <= i < |xs| ==> p(xs[i])
    ensures Filter(xs, p) == xs
    decreases |xs|
  {
    if xs != [] {
      assert forall i :: 0 <= i < |xs| - 1 ==> xs[1..][i] == xs[i + 1];
      FilterAllAt(xs[1..], p);
      FilterHead(xs, p);
      assert [xs[0]] + xs[1..] == xs;
    }
  }
}
