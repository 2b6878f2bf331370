/**
 * The exam usecase of internal/services/exam_usecase.go over the in-memory repository:
 * listing debts, creating and updating a debt after resolving the exam, student and
 * teacher it names, fetching one debt, and listing exams.
 */
module ExamService {
  import opened Wrappers
  import opened Errors
  import Models
  import Types
  import Queries
  import Commands
  import Adapters
  import Repo

  /**
   * The exam id a debt ends up with: an id of zero is kept without a lookup; any other id
   * must name an exam, and then the id found is the id asked for.
   */
  function ResolvedExam(repo: Repo.Repository, id: int): (r: Result<int, Error>)
    reads repo
    ensures id == 0 ==> r == Success(0)
    ensures id != 0 && repo.GetExamByID(Queries.ExamsById(id)).Failure? ==> r == Failure(repo.GetExamByID(Queries.ExamsById(id)).error)
    ensures id != 0 && repo.GetExamByID(Queries.ExamsById(id)).Success? ==> r == Success(id)
  {
    if id == 0 then Success(0)
    else
      match repo.GetExamByID(Queries.ExamsById(id))
      case Failure(e) => Failure(e)
      case Success(exam) => Success(Adapters.DomainFromExam(exam).id)
  }

  /**
   * The student UUID a debt ends up with: an empty UUID is kept without a lookup; any other
   * must name a student, and then the UUID found is the UUID asked for.
   */
  function ResolvedStudent(repo: Repo.Repository, uuid: string): (r: Result<string, Error>)
    reads repo
    ensures uuid == "" ==> r == Success("")
    ensures uuid != "" && repo.GetStudents(Queries.StudentsById(uuid)).Failure? ==>
      r == Failure(repo.GetStudents(Queries.StudentsById(uuid)).error)
    ensures uuid != "" && repo.GetStudents(Queries.StudentsById(uuid)) == Success([]) ==> r == Failure(Plain(NoItemsFound))
    ensures uuid != "" && repo.GetStudents(Queries.StudentsById(uuid)).Success? && |repo.GetStudents(Queries.StudentsById(uuid)).value| != 0 ==>
      r == Success(uuid)
  {
    if uuid == "" then Success("")
    else
      match repo.GetStudents(Queries.StudentsById(uuid))
      case Failure(e) => Failure(e)
      case Success(students) =>
        if |students| == 0 then Failure(Plain(NoItemsFound))
        else
          Repo.QueryStudentsSound(repo.tables, Queries.StudentsById(uuid), 0);
          Success(Adapters.DomainFromStudent(students[0]).uuid)
  }

  /** The teacher UUID a debt ends up with, resolved as the student's is. */
  function ResolvedTeacher(repo: Repo.Repository, uuid: string): (r: Result<string, Error>)
    reads repo
    ensures uuid == "" ==> r == Success("")
    ensures uuid != "" && repo.GetTeachers(Queries.TeachersById(uuid)).Failure? ==>
      r == Failure(repo.GetTeachers(Queries.TeachersById(uuid)).error)
    ensures uuid != "" && repo.GetTeachers(Queries.TeachersById(uuid)) == Success([]) ==> r == Failure(Plain(NoItemsFound))
    ensures uuid != "" && repo.GetTeachers(Queries.TeachersById(uuid)).Success? && |repo.GetTeachers(Queries.TeachersById(uuid)).value| != 0 ==>
      r == Success(uuid)
  {
    if uuid == "" then Success("")
    else
      match repo.GetTeachers(Queries.TeachersById(uuid))
      case Failure(e) => Failure(e)
      case Success(teachers) =>
        if |teachers| == 0 then Failure(Plain(NoItemsFound))
        else Success(Adapters.DomainFromTeacher(teachers[0]).uuid)
  }

  datatype Parties = Parties(examId: int, studentUuid: string, teacherUuid: string)

  /**
   * The resolution CreateDebt and UpdateDebt perform: exam, then student, then teacher; the
   * first failure is the result. A resolution that succeeds changes none of the keys.
   */
  function ResolveParties(repo: Repo.Repository, examId: int, studentUuid: string, teacherUuid: string): (r: Result<Parties, Error>)
    reads repo
    ensures r.Success? <==>
      ResolvedExam(repo, examId).Success? && ResolvedStudent(repo, studentUuid).Success? && ResolvedTeacher(repo, teacherUuid).Success?
    ensures r.Success? ==> r.value == Parties(examId, studentUuid, teacherUuid)
    ensures ResolvedExam(repo, examId).Failure? ==> r == Failure(ResolvedExam(repo, examId).error)
    ensures ResolvedExam(repo, examId).Success? && ResolvedStudent(repo, studentUuid).Failure? ==>
      r == Failure(ResolvedStudent(repo, studentUuid).error)
    ensures (ResolvedExam(repo, examId).Success? && ResolvedStudent(repo, studentUuid).Success? &&
             ResolvedTeacher(repo, teacherUuid).Failure?) ==> r == Failure(ResolvedTeacher(repo, teacherUuid).error)
  {
    match ResolvedExam(repo, examId)
    case Failure(e) => Failure(e)
    case Success(x) =>
      match ResolvedStudent(repo, studentUuid)
      case Failure(e) => Failure(e)
      case Success(s) =>
        match ResolvedTeacher(repo, teacherUuid)
        case Failure(e) => Failure(e)
        case Success(t) => Success(Parties(x, s, t))
  }

  /** A missing date becomes the current time; a supplied one is kept. */
  function DateOr(date: Option<Models.Date>, now: Models.Date): (d: Models.Date)
    ensures date.Some? ==> d == date.value
    ensures date.None? ==> d == now
  {
    date.GetOr(now)
  }

  /** The debt GetDebts builds from a repository debt, field by field; the same as DebtFromDomain. */
  function DebtView(d: Models.Debt): (r: Types.Debt)
    requires Repo.Complete(d)
    ensures r == Adapters.DebtFromDomain(d)
  {
    var s := d.student.value;
    var t := d.teacher.value;
    var group := if s.group.Some? then Types.Group(s.group.value.id, s.group.value.name) else Types.Group(0, "");
    Types.Debt(d.id, d.date, Some(Types.Exam(d.exam.value.id, d.exam.value.name)),
      Some(Types.Student(s.uuid, s.firstName, s.lastName, s.middleName, s.email, Some(group), "")),
      Some(Types.Teacher(t.uuid, t.firstName, t.lastName, t.middleName, t.email, "")), [])
  }

  /** The loop of GetDebts: one field-by-field copy per repository debt, in order. */
  method DebtViews(debts: seq<Models.Debt>) returns (result: seq<Types.Debt>)
    requires forall i :: 0 <= i < |debts| ==> Repo.Complete(debts[i])
    ensures |result| == |debts|
    ensures forall i :: 0 <= i < |debts| ==> result[i] == Adapters.DebtFromDomain(debts[i])
  {
    result := [];
    for i := 0 to |debts|
      invariant |result| == i
      invariant forall j :: 0 <= j < i ==> result[j] == Adapters.DebtFromDomain(debts[j])
    {
      result := result + [DebtView(debts[i])];
    }
  }

  class ExamUsecase {
    const repo: Repo.Repository

    constructor (repo: Repo.Repository)
      ensures this.repo == repo
    {
      this.repo := repo;
    }

    /**
     * GetDebts: every debt, whatever limit and offset say; an empty table is ErroNoItemsFound.
     * The debts come back converted, in the repository's order.
     */
    method GetDebts(limit: int, offset: int) returns (r: Result<seq<Types.Debt>, Error>)
      ensures repo.GetDebts(Queries.NoDebtsFilters).Failure? ==> r == Failure(repo.GetDebts(Queries.NoDebtsFilters).error)
      ensures repo.GetDebts(Queries.NoDebtsFilters) == Success([]) ==> r == Failure(Plain(NoItemsFound))
      ensures repo.GetDebts(Queries.NoDebtsFilters).Success? && |repo.GetDebts(Queries.NoDebtsFilters).value| != 0 ==>
        (r.Success? && |r.value| == |repo.GetDebts(Queries.NoDebtsFilters).value| &&
         forall i :: 0 <= i < |r.value| ==> r.value[i] == Adapters.DebtFromDomain(repo.GetDebts(Queries.NoDebtsFilters).value[i]))
    {
      var q := repo.GetDebts(Queries.NoDebtsFilters);
      if q.Failure? {
        return Failure(q.error);
      }
      var debts := q.value;
      if |debts| == 0 {
        return Failure(Plain(NoItemsFound));
      }
      var result := DebtViews(debts);
      r := Success(result);
    }

    /** The exam, student and teacher CreateDebt resolves for a debt. */
    function CreateParties(debt: Types.Debt): Result<Parties, Error>
      requires debt.exam.Some? && debt.student.Some? && debt.teacher.Some?
      reads repo
    {
      ResolveParties(repo, debt.exam.value.id, debt.student.value.uuid, debt.teacher.value.uuid)
    }

    /**
     * CreateDebt: the debt's exam, student and teacher are resolved in that order and the
     * first failure returns before anything is written; then the repository inserts a row
     * with the given keys and its id is returned.
     */
    method CreateDebt(debt: Types.Debt, now: Models.Date) returns (id: int, err: Option<Error>)
      requires debt.exam.Some? && debt.student.Some? && debt.teacher.Some?
      modifies repo
      ensures old(CreateParties(debt)).Failure? ==> id == 0 && err == Some(old(CreateParties(debt)).error) && unchanged(repo)
      ensures old(CreateParties(debt)).Success? && "CreateDebt" in old(repo.failing) ==>
        id == 0 && err == Some(Repo.Failed("CreateDebt")) && unchanged(repo)
      ensures old(CreateParties(debt)).Success? && "CreateDebt" !in old(repo.failing) ==>
        (err.None? && id == old(repo.lastId) + 1 && repo.lastId == id &&
         repo.tables == old(repo.tables).(debts := old(repo.tables.debts) +
           [Repo.DebtRow(id, debt.exam.value.id, debt.student.value.uuid, debt.teacher.value.uuid, None, None)]) &&
         repo.outbox == old(repo.outbox) && repo.failing == old(repo.failing) && repo.generated == old(repo.generated))
    {
      var examId := debt.exam.value.id;
      if examId != 0 {
        match repo.GetExamByID(Queries.ExamsById(examId)) {
          case Failure(e) =>
            return 0, Some(e);
          case Success(exam) =>
            examId := Adapters.DomainFromExam(exam).id;
        }
      }
      var studentUuid := debt.student.value.uuid;
      if studentUuid != "" {
        match repo.GetStudents(Queries.StudentsById(studentUuid)) {
          case Failure(e) =>
            return 0, Some(e);
          case Success(students) =>
            if |students| == 0 {
              return 0, Some(Plain(NoItemsFound));
            }
            studentUuid := Adapters.DomainFromStudent(students[0]).uuid;
        }
      }
      var teacherUuid := debt.teacher.value.uuid;
      if teacherUuid != "" {
        match repo.GetTeachers(Queries.TeachersById(teacherUuid)) {
          case Failure(e) =>
            return 0, Some(e);
          case Success(teachers) =>
            if |teachers| == 0 {
              return 0, Some(Plain(NoItemsFound));
            }
            teacherUuid := Adapters.DomainFromTeacher(teachers[0]).uuid;
        }
      }
      assert ResolveParties(repo, debt.exam.value.id, debt.student.value.uuid, debt.teacher.value.uuid) ==
        Success(Parties(examId, studentUuid, teacherUuid));
      var date := DateOr(debt.date, now);
      id, err := repo.CreateDebt(Commands.CreateDebt(examId, studentUuid, teacherUuid, date));
    }

    /** The command UpdateDebt sends once the student and teacher are resolved. */
    function UpdateCommand(debt: Types.Debt, now: Models.Date): (c: Commands.UpdateDebtByID)
      requires debt.student.Some? && debt.teacher.Some?
    {
      Commands.UpdateDebtByID(debt.id, DateOr(debt.date, now), debt.teacher.value.uuid, debt.student.value.uuid, None)
    }

    /** The student and teacher UpdateDebt resolves; no exam is looked up. */
    function UpdateParties(debt: Types.Debt): Result<Parties, Error>
      requires debt.student.Some? && debt.teacher.Some?
      reads repo
    {
      ResolveParties(repo, 0, debt.student.value.uuid, debt.teacher.value.uuid)
    }

    /**
     * UpdateDebt: the student and then the teacher are resolved, the date defaults to now,
     * and the debt row with the debt's id gets the date, both UUIDs and no address.
     */
    method UpdateDebt(debt: Types.Debt, now: Models.Date) returns (err: Option<Error>)
      requires debt.student.Some? && debt.teacher.Some?
      modifies repo
      ensures old(UpdateParties(debt)).Failure? ==> err == Some(old(UpdateParties(debt)).error) && unchanged(repo)
      ensures old(UpdateParties(debt)).Success? && "UpdateDebt" in old(repo.failing) ==>
        err == Some(Wrap(Repo.Failed("UpdateDebt"), Infrastructure)) && unchanged(repo)
      ensures old(UpdateParties(debt)).Success? && "UpdateDebt" !in old(repo.failing) ==>
        (err.None? &&
         repo.tables == old(repo.tables).(debts := Repo.ApplyDebtUpdate(old(repo.tables.debts), UpdateCommand(debt, now))) &&
         repo.outbox == old(repo.outbox) && repo.failing == old(repo.failing) && repo.lastId == old(repo.lastId) &&
         repo.generated == old(repo.generated))
    {
      var studentUuid := debt.student.value.uuid;
      if studentUuid != "" {
        match repo.GetStudents(Queries.StudentsById(studentUuid)) {
          case Failure(e) =>
            return Some(e);
          case Success(students) =>
            if |students| == 0 {
              return Some(Plain(NoItemsFound));
            }
            studentUuid := Adapters.DomainFromStudent(students[0]).uuid;
        }
      }
      var teacherUuid := debt.teacher.value.uuid;
      if teacherUuid != "" {
        match repo.GetTeachers(Queries.TeachersById(teacherUuid)) {
          case Failure(e) =>
            return Some(e);
          case Success(teachers) =>
            if |teachers| == 0 {
              return Some(Plain(NoItemsFound));
            }
            teacherUuid := Adapters.DomainFromTeacher(teachers[0]).uuid;
        }
      }
      assert ResolveParties(repo, 0, debt.student.value.uuid, debt.teacher.value.uuid) ==
        Success(Parties(0, studentUuid, teacherUuid));
      var date := DateOr(debt.date, now);
      err := repo.UpdateDebt(Commands.UpdateDebtByID(debt.id, date, teacherUuid, studentUuid, None));
    }

    /**
     * GetDebt: the first debt with the id, converted, carrying the requested id and, as
     * written, the student's last name as its middle name.
     */
    function GetDebt(id: int): (r: Result<Types.Debt, Error>)
      reads repo
      ensures repo.GetDebts(Queries.DebtsById(id)).Failure? ==> r == Failure(repo.GetDebts(Queries.DebtsById(id)).error)
      ensures repo.GetDebts(Queries.DebtsById(id)) == Success([]) ==> r == Failure(Plain(NoItemsFound))
      ensures repo.GetDebts(Queries.DebtsById(id)).Success? && |repo.GetDebts(Queries.DebtsById(id)).value| != 0 ==>
        (var a := Adapters.DebtFromDomain(repo.GetDebts(Queries.DebtsById(id)).value[0]);
         r == Success(a.(id := id, student := Some(a.student.value.(middleName := a.student.value.lastName)))))
    {
      match repo.GetDebts(Queries.DebtsById(id))
      case Failure(e) => Failure(e)
      case Success(debts) =>
        if |debts| == 0 then Failure(Plain(NoItemsFound))
        else
          var d := debts[0];
          var s := d.student.value;
          var t := d.teacher.value;
          var group := if s.group.Some? then Types.Group(s.group.value.id, s.group.value.name) else Types.Group(0, "");
          Success(Types.Debt(id, d.date, Some(Types.Exam(d.exam.value.id, d.exam.value.name)),
            Some(Types.Student(s.uuid, s.firstName, s.lastName, s.lastName, s.email, Some(group), "")),
            Some(Types.Teacher(t.uuid, t.firstName, t.lastName, t.middleName, t.email, "")), []))
    }

    /**
     * GetExams: the page of exams the repository returns, converted, in its order;
     * a repository error is returned as it is.
     */
    method GetExams(limit: int, offset: int) returns (r: Result<seq<Types.Exam>, Error>)
      ensures repo.GetExams(Queries.GetExamsFilters(limit, offset, [])).Failure? ==>
        r == Failure(repo.GetExams(Queries.GetExamsFilters(limit, offset, [])).error)
      ensures repo.GetExams(Queries.GetExamsFilters(limit, offset, [])).Success? ==>
        (r.Success? && |r.value| == |repo.GetExams(Queries.GetExamsFilters(limit, offset, [])).value| &&
         forall i :: 0 <= i < |r.value| ==> r.value[i] == Adapters.ExamFromDomain(repo.GetExams(Queries.GetExamsFilters(limit, offset, [])).value[i]))
    {
      var exams;
      match repo.GetExams(Queries.GetExamsFilters(limit, offset, [])) {
        case Failure(e) =>
          return Failure(e);
        case Success(es) =>
          exams := es;
      }
      var result := Adapters.ExamsFromDomain(exams);
      r := Success(result);
    }
  }

  /** The debt GetDebt returns is the one stored under the requested id. */
  lemma GetDebtFindsRequested(u: ExamUsecase, id: int)
    requires u.GetDebt(id).Success?
    ensures u.repo.GetDebts(Queries.DebtsById(id)).Success? && |u.repo.GetDebts(Queries.DebtsById(id)).value| != 0
    ensures u.repo.GetDebts(Queries.DebtsById(id)).value[0].id == id
    ensures u.GetDebt(id).value.id == id
    ensures u.GetDebt(id).value.student.value.middleName == u.GetDebt(id).value.student.value.lastName
  {
    Repo.QueryDebtsSound(u.repo.tables, Queries.DebtsById(id), 0);
  }

  /** A zero or empty key is never looked up, so it cannot make the resolution fail. */
  lemma EmptyKeysResolve(repo: Repo.Repository)
    ensures ResolveParties(repo, 0, "", "") == Success(Parties(0, "", ""))
  {
  }

  /** A UUID that no student has, in a repository that does not fail, stops the resolution with ErroNoItemsFound. */
  lemma UnknownStudentNotFound(repo: Repo.Repository, examId: int, uuid: string, teacherUuid: string)
    requires uuid != "" && ResolvedExam(repo, examId).Success?
    requires "GetStudents" !in repo.failing
    requires forall s :: s in repo.tables.students ==> s.uuid != uuid
    ensures ResolveParties(repo, examId, uuid, teacherUuid) == Failure(Plain(NoItemsFound))
  {
    var f := Queries.StudentsById(uuid);
    assert f.Validate().None?;
    var rows := Repo.SelectedStudentRows(repo.tables, f);
    if |rows| != 0 {
      FirstIsMember(rows);
      assert false;
    }
    assert Repo.ScanStudents(repo.tables, rows) == Some([]);
  }

  lemma FirstIsMember<T>(xs: seq<T>)
    requires |xs| != 0
    ensures xs[0] in xs
  {
  }
}
