/**
 * internal/services/teacher_usecase.go: teachers are created without a password, listed, and
 * shown their debts; SetDate moves one debt to a new date and to the calling teacher.
 */
module TeacherService {
  import opened Wrappers
  import opened Errors
  import Models
  import Types
  import Queries
  import Commands
  import Adapters
  import Repo

  /** The error of time.Parse on a date that does not follow the layout, as SetDate wraps it. */
  const BadDate := Wrap(Plain(DateParseFailure), Application)

  /** The error of SetDate when no debt has the id. */
  const NoDebt := Wrap(Plain(NoItemsFound), Application)

  class TeacherUsecase {
    const repo: Repo.Repository

    constructor (repo: Repo.Repository)
      ensures this.repo == repo
    {
      this.repo := repo;
    }

    /** CreateTeacher: the names and e-mail are stored; the password is never set, so it is empty. */
    method CreateTeacher(teacher: Types.Teacher) returns (uuid: string, err: Option<Error>)
      modifies repo
      ensures "CreateTeacher" in old(repo.failing) ==> uuid == "" && err == Some(Repo.Failed("CreateTeacher")) && unchanged(repo)
      ensures "CreateTeacher" !in old(repo.failing) ==> (err.None? && uuid == Repo.FreshUuid(old(repo.generated)) &&
        repo.tables == old(repo.tables).(teachers := old(repo.tables.teachers) +
          [Models.Teacher(uuid, teacher.firstName, teacher.lastName, teacher.middleName, teacher.email, "")]) &&
        repo.outbox == old(repo.outbox) && repo.failing == old(repo.failing) && repo.lastId == old(repo.lastId))
    {
      uuid, err := repo.CreateTeacher(Commands.CreateTeacher(teacher.firstName, teacher.lastName, teacher.middleName,
        teacher.email, ""));
      if err.Some? {
        return "", err;
      }
    }

    /**
     * GetTeachers: one page of teachers, converted, in the repository's order, passwords
     * included; an error comes back as it is.
     */
    method GetTeachers(limit: int, offset: int) returns (r: Result<seq<Types.Teacher>, Error>)
      ensures repo.GetTeachers(Queries.GetTeachersFilters([], [], limit, offset)).Failure? ==>
        r == Failure(repo.GetTeachers(Queries.GetTeachersFilters([], [], limit, offset)).error)
      ensures repo.GetTeachers(Queries.GetTeachersFilters([], [], limit, offset)).Success? ==>
        (r.Success? && |r.value| == |repo.GetTeachers(Queries.GetTeachersFilters([], [], limit, offset)).value| &&
         forall i :: 0 <= i < |r.value| ==>
           r.value[i] == Adapters.TeacherFromDomain(repo.GetTeachers(Queries.GetTeachersFilters([], [], limit, offset)).value[i]) &&
           r.value[i].password == repo.GetTeachers(Queries.GetTeachersFilters([], [], limit, offset)).value[i].password)
    {
      var q := repo.GetTeachers(Queries.GetTeachersFilters([], [], limit, offset));
      if q.Failure? {
        return Failure(q.error);
      }
      var teachers := q.value;
      var result := Adapters.TeachersFromDomain(teachers);
      r := Success(result);
    }

    /**
     * GetAllDebts: the debts of the teacher, converted, in the repository's order; an error
     * comes back as an infrastructure error.
     */
    method GetAllDebts(uuid: string) returns (r: Result<seq<Types.Debt>, Error>)
      ensures repo.GetDebts(Queries.TeacherDebts(uuid)).Failure? ==>
        r == Failure(Wrap(repo.GetDebts(Queries.TeacherDebts(uuid)).error, Infrastructure))
      ensures repo.GetDebts(Queries.TeacherDebts(uuid)).Success? ==>
        (r.Success? && |r.value| == |repo.GetDebts(Queries.TeacherDebts(uuid)).value| &&
         forall i :: 0 <= i < |r.value| ==>
           r.value[i] == Adapters.DebtFromDomain(repo.GetDebts(Queries.TeacherDebts(uuid)).value[i]) &&
           r.value[i].teacher.value.uuid == uuid)
    {
      var q := repo.GetDebts(Queries.TeacherDebts(uuid));
      var debts := q.ValuesOr([]);
      var result := Adapters.DebtsFromDomain(debts);
      if q.Failure? {
        return Failure(Wrap(q.error, Infrastructure));
      }
      forall i | 0 <= i < |result|
        ensures result[i].teacher.value.uuid == uuid
      {
        Repo.QueryDebtsSound(repo.tables, Queries.TeacherDebts(uuid), i);
      }
      r := Success(result);
    }

    /**
     * The update SetDate issues, or the error it stops with before updating: the date must
     * parse, and the debt id must find a debt, whose student the update keeps. With several
     * debts found, the first one's student is used.
     */
    function SetDatePlan(teacherUuid: string, date: string, debtId: int, parse: string -> Option<Models.Date>)
      : (r: Result<Commands.UpdateDebtByID, Error>)
      reads repo
      ensures parse(date).None? ==> r == Failure(BadDate)
      ensures parse(date).Some? && repo.GetDebts(Queries.DebtsById(debtId)).Failure? ==>
        r == Failure(Wrap(repo.GetDebts(Queries.DebtsById(debtId)).error, Infrastructure))
      ensures parse(date).Some? && repo.GetDebts(Queries.DebtsById(debtId)) == Success([]) ==> r == Failure(NoDebt)
      ensures r.Success? <==> (parse(date).Some? && repo.GetDebts(Queries.DebtsById(debtId)).Success? &&
        |repo.GetDebts(Queries.DebtsById(debtId)).value| != 0)
      ensures r.Success? ==> (
        var first := repo.GetDebts(Queries.DebtsById(debtId)).value[0];
        first.id == debtId &&
        r.value == Commands.UpdateDebtByID(debtId, parse(date).value, teacherUuid, first.student.value.uuid, None))
    {
      match parse(date)
      case None => Failure(BadDate)
      case Some(examDate) =>
        match repo.GetDebts(Queries.DebtsById(debtId))
        case Failure(e) => Failure(Wrap(e, Infrastructure))
        case Success(debts) =>
          if |debts| == 0 then Failure(NoDebt)
          else
            Repo.QueryDebtsSound(repo.tables, Queries.DebtsById(debtId), 0);
            Success(Commands.UpdateDebtByID(debtId, examDate, teacherUuid, debts[0].student.value.uuid, None))
    }

    /**
     * SetDate: nothing changes when the plan stops; otherwise the planned update is applied to
     * the debt rows, and an update error comes back as an infrastructure error.
     */
    method SetDate(teacherUuid: string, date: string, debtId: int, parse: string -> Option<Models.Date>) returns (err: Option<Error>)
      modifies repo
      ensures old(SetDatePlan(teacherUuid, date, debtId, parse)).Failure? ==>
        err == Some(old(SetDatePlan(teacherUuid, date, debtId, parse)).error) && unchanged(repo)
      ensures old(SetDatePlan(teacherUuid, date, debtId, parse)).Success? && "UpdateDebt" in old(repo.failing) ==>
        err == Some(Wrap(Wrap(Repo.Failed("UpdateDebt"), Infrastructure), Infrastructure)) && unchanged(repo)
      ensures old(SetDatePlan(teacherUuid, date, debtId, parse)).Success? && "UpdateDebt" !in old(repo.failing) ==>
        (err.None? &&
         repo.tables == old(repo.tables).(debts := Repo.ApplyDebtUpdate(old(repo.tables.debts), old(SetDatePlan(teacherUuid, date, debtId, parse)).value)) &&
         repo.outbox == old(repo.outbox) && repo.failing == old(repo.failing) && repo.lastId == old(repo.lastId) &&
         repo.generated == old(repo.generated))
    {
      var examDate;
      match parse(date) {
        case None =>
          return Some(BadDate);
        case Some(d) =>
          examDate := d;
      }
      var q := repo.GetDebts(Queries.DebtsById(debtId));
      if q.Failure? {
        return Some(Wrap(q.error, Infrastructure));
      }
      var debts := q.value;
      if |debts| < 1 || |debts| == 0 {
        return Some(NoDebt);
      }
      var updated := repo.UpdateDebt(Commands.UpdateDebtByID(debtId, examDate, teacherUuid, debts[0].student.value.uuid, None));
      if updated.Some? {
        return Some(Wrap(updated.value, Infrastructure));
      }
      err := None;
    }

    /**
     * GetTeacherByEmail: the teachers with the e-mail, converted, in the repository's order;
     * an error comes back as an infrastructure error.
     */
    method GetTeacherByEmail(email: string) returns (r: Result<seq<Types.Teacher>, Error>)
      ensures repo.GetTeachers(Queries.TeachersByEmail(email)).Failure? ==>
        r == Failure(Wrap(repo.GetTeachers(Queries.TeachersByEmail(email)).error, Infrastructure))
      ensures repo.GetTeachers(Queries.TeachersByEmail(email)).Success? ==>
        (r.Success? && |r.value| == |repo.GetTeachers(Queries.TeachersByEmail(email)).value| &&
         forall i :: 0 <= i < |r.value| ==>
           r.value[i] == Adapters.TeacherFromDomain(repo.GetTeachers(Queries.TeachersByEmail(email)).value[i]) &&
           r.value[i].email == email)
    {
      var q := repo.GetTeachers(Queries.TeachersByEmail(email));
      var teachers := q.ValuesOr([]);
      var result := Adapters.TeachersFromDomain(teachers);
      if q.Failure? {
        return Failure(Wrap(q.error, Infrastructure));
      }
      assert teachers == Repo.QueryTeachers(repo.tables, Queries.TeachersByEmail(email));
      forall i | 0 <= i < |teachers|
        ensures teachers[i].email == email
      {
        assert teachers[i].email in [email];
      }
      r := Success(result);
    }
  }

  /**
   * The debt SetDate updates is a stored row: a row with the requested id and the student
   * the update carries exists, so the update is never a silent no-op.
   */
  lemma SetDateTargetsStoredDebt(u: TeacherUsecase, teacherUuid: string, date: string, debtId: int,
                                 parse: string -> Option<Models.Date>)
    requires u.SetDatePlan(teacherUuid, date, debtId, parse).Success?
    ensures exists k :: (0 <= k < |u.repo.tables.debts| && u.repo.tables.debts[k].id == debtId &&
      u.repo.tables.debts[k].studentUuid == u.SetDatePlan(teacherUuid, date, debtId, parse).value.studentUuid)
  {
    var t, f := u.repo.tables, Queries.DebtsById(debtId);
    Repo.QueryDebtsScans(t, f);
    var row := Repo.SelectedDebtRows(t, f)[0];
    assert Repo.ScanDebt(t, row) == Some(Repo.QueryDebts(t, f).value[0]);
    assert row in t.debts;
    var k :| 0 <= k < |t.debts| && t.debts[k] == row;
  }

  /**
   * The repository refuses the debts of an empty teacher UUID through the filter validator,
   * wrapping it as infrastructure once; GetAllDebts' ensures then adds the second wrap.
   */
  lemma EmptyTeacherUuidRefused(u: TeacherUsecase)
    requires "GetDebts" !in u.repo.failing
    ensures u.repo.GetDebts(Queries.TeacherDebts("")) == Failure(Wrap(Plain(InvalidFilters), Infrastructure))
  {
  }

  /**
   * GetTeachers with a negative limit or offset (strconv.Atoi of the request lets one through)
   * lists nobody and reports no error: the database refuses the wrapped uint64 literal, and
   * the refusal is lost because rows.Err() is never read.
   */
  lemma NegativePagingListsNobody(u: TeacherUsecase, limit: int, offset: int)
    requires "GetTeachers" !in u.repo.failing
    requires -0x8000_0000_0000_0000 <= limit < 0x8000_0000_0000_0000
    requires -0x8000_0000_0000_0000 <= offset < 0x8000_0000_0000_0000
    requires limit < 0 || offset < 0
    ensures u.repo.GetTeachers(Queries.GetTeachersFilters([], [], limit, offset)) == Success([])
  {
    Repo.PagingFitsIffNonNegative(limit, offset);
  }

  /** Without a limit or an offset, GetTeachers lists every stored teacher in storage order. */
  lemma AllTeachersListed(t: Repo.Tables)
    ensures Repo.QueryTeachers(t, Queries.GetTeachersFilters([], [], 0, 0)) == t.teachers
  {
    var none: seq<string> := [];
    Repo.FilterAll(t.teachers, (x: Models.Teacher) => (|none| == 0 || x.uuid in none) && (|none| == 0 || x.email in none));
  }
}
