/**
 * The student usecase of internal/services/student_usecase.go over the in-memory
 * repository: forwarding calls, creating a student with a hashed password, listing
 * students, a student's debts with the groups sitting each exam, and the notification
 * mail to the teacher of an exam.
 */
module StudentService {
  import opened Wrappers
  import opened Errors
  import Models
  import Types
  import Queries
  import Commands
  import Adapters
  import Repo

  /** The group of a debt the repository returned; such a debt always has one. */
  function GroupOf(d: Models.Debt): Models.Group
    requires Repo.Complete(d)
  {
    d.student.value.group.value
  }

  /**
   * The uniqueGroups map after the loop over ds: keyed by group id, each key the id of the
   * group of some debt, each value a group with that id taken from a debt, the last one written.
   */
  function UniqueGroups(ds: seq<Models.Debt>): (m: map<int, Models.Group>)
    requires forall i :: 0 <= i < |ds| ==> Repo.Complete(ds[i])
    ensures forall id :: id in m <==> exists j :: 0 <= j < |ds| && GroupOf(ds[j]).id == id
    ensures forall id :: id in m ==> m[id].id == id && exists j :: 0 <= j < |ds| && GroupOf(ds[j]) == m[id]
  {
    if |ds| == 0 then map[]
    else
      var rest := UniqueGroups(ds[..|ds| - 1]);
      assert forall j :: 0 <= j < |ds| - 1 ==> ds[..|ds| - 1][j] == ds[j];
      rest[GroupOf(ds[|ds| - 1]).id := GroupOf(ds[|ds| - 1])]
  }

  /** A list holding each group of m exactly once, converted. */
  predicate ListsGroups(list: seq<Types.Group>, m: map<int, Models.Group>) {
    |list| == |m| &&
    (forall k :: 0 <= k < |list| ==> list[k].id in m && list[k] == Adapters.GroupFromDomain(m[list[k].id])) &&
    (forall id :: id in m ==> exists k :: 0 <= k < |list| && list[k].id == id) &&
    (forall k, l :: 0 <= k < l < |list| ==> list[k].id != list[l].id)
  }

  /** The inner loop writing uniqueGroups, one debt at a time. */
  method CollectGroups(ds: seq<Models.Debt>) returns (m: map<int, Models.Group>)
    requires forall i :: 0 <= i < |ds| ==> Repo.Complete(ds[i])
    ensures m == UniqueGroups(ds)
  {
    m := map[];
    for j := 0 to |ds|
      invariant m == UniqueGroups(ds[..j])
    {
      assert ds[..j + 1][..j] == ds[..j];
      var g := ds[j].student.value.group.value;
      m := m[g.id := Models.Group(g.id, g.name)];
    }
    assert ds[..|ds|] == ds;
  }

  /** The loop over the map: the groups come out in no particular order, each once. */
  method ListGroups(m: map<int, Models.Group>) returns (list: seq<Types.Group>)
    requires forall id :: id in m ==> m[id].id == id
    ensures ListsGroups(list, m)
  {
    list := [];
    var rest := m.Keys;
    while rest != {}
      invariant rest <= m.Keys
      invariant |list| + |rest| == |m.Keys|
      invariant forall k :: 0 <= k < |list| ==> list[k].id in m && list[k].id !in rest && list[k] == Adapters.GroupFromDomain(m[list[k].id])
      invariant forall id :: id in m && id !in rest ==> exists k :: 0 <= k < |list| && list[k].id == id
      invariant forall k, l :: 0 <= k < l < |list| ==> list[k].id != list[l].id
      decreases |rest|
    {
      NonEmptyHasMember(rest);
      var key :| key in rest;
      var group := m[key];
      ghost var before := list;
      list := list + [Types.Group(group.id, group.name)];
      assert list[|before|].id == key;
      assert forall k :: 0 <= k < |before| ==> list[k] == before[k];
      rest := rest - {key};
    }
  }

  lemma NonEmptyHasMember(s: set<int>)
    requires s != {}
    ensures exists x :: x in s
  {
    if forall x :: x !in s {
      assert false;
    }
  }

  /**
   * Each group of the debts appears in the list exactly once, and every entry of the list is
   * the group of one of the debts.
   */
  lemma {:induction false} ListedGroupsExactlyOnce(ds: seq<Models.Debt>, list: seq<Types.Group>)
    requires forall i :: 0 <= i < |ds| ==> Repo.Complete(ds[i])
    requires ListsGroups(list, UniqueGroups(ds))
    ensures forall j :: 0 <= j < |ds| ==> exists k :: 0 <= k < |list| && list[k].id == GroupOf(ds[j]).id
    ensures forall k :: 0 <= k < |list| ==> exists j :: 0 <= j < |ds| && list[k] == Adapters.GroupFromDomain(GroupOf(ds[j]))
  {
    var m := UniqueGroups(ds);
    forall j | 0 <= j < |ds|
      ensures exists k :: 0 <= k < |list| && list[k].id == GroupOf(ds[j]).id
    {
      assert GroupOf(ds[j]).id in m;
    }
    forall k | 0 <= k < |list|
      ensures exists j :: 0 <= j < |ds| && list[k] == Adapters.GroupFromDomain(GroupOf(ds[j]))
    {
      var j :| 0 <= j < |ds| && GroupOf(ds[j]) == m[list[k].id];
      assert list[k] == Adapters.GroupFromDomain(GroupOf(ds[j]));
    }
  }

  /** The error of every step of SendNotification that finds nothing, or fails. */
  const NotFound := Wrap(Plain(NoItemsFound), Application)

  class StudentUsecase {
    const repo: Repo.Repository

    constructor (repo: Repo.Repository)
      ensures this.repo == repo
    {
      this.repo := repo;
    }

    /** GetAmountOfDebts: the repository's count of the student's debt rows. */
    function GetAmountOfDebts(uuid: string): (r: Result<int, Error>)
      reads repo
      ensures "GetAmountOfDebtsForStudent" in repo.failing ==> r == Failure(Repo.Failed("GetAmountOfDebtsForStudent"))
      ensures "GetAmountOfDebtsForStudent" !in repo.failing ==> r.Success? && 0 <= r.value <= |repo.tables.debts|
      ensures r.Success? ==> (r.value == 0 <==> forall d :: d in repo.tables.debts ==> d.studentUuid != uuid)
    {
      repo.GetAmountOfDebtsForStudent(uuid)
    }

    /** ChangePassword: the password is handed on, and stored, as it is given. */
    method ChangePassword(uuid: string, password: string) returns (err: Option<Error>)
      modifies repo
      ensures "ChangeStudentPassword" in old(repo.failing) ==>
        err == Some(Wrap(Repo.Failed("ChangeStudentPassword"), Infrastructure)) && unchanged(repo)
      ensures "ChangeStudentPassword" !in old(repo.failing) ==> (err.None? &&
        repo.tables == old(repo.tables).(students := Repo.ApplyPassword(old(repo.tables.students), uuid, password)) &&
        repo.outbox == old(repo.outbox) && repo.failing == old(repo.failing) && repo.lastId == old(repo.lastId) &&
        repo.generated == old(repo.generated))
    {
      err := repo.ChangeStudentPassword(uuid, password);
    }

    /** CreateStudent: the stored password is the hash of the given one; the group id comes from the student's group. */
    method CreateStudent(student: Types.Student, hash: string -> string) returns (uuid: string, err: Option<Error>)
      requires student.group.Some?
      modifies repo
      ensures "CreateStudent" in old(repo.failing) ==> uuid == "" && err == Some(Repo.Failed("CreateStudent")) && unchanged(repo)
      ensures "CreateStudent" !in old(repo.failing) ==> (err.None? && uuid == Repo.FreshUuid(old(repo.generated)) &&
        repo.tables == old(repo.tables).(students := old(repo.tables.students) +
          [Repo.StudentRow(uuid, student.firstName, student.lastName, student.middleName, student.email,
             hash(student.password), student.group.value.id)]) &&
        repo.outbox == old(repo.outbox) && repo.failing == old(repo.failing) && repo.lastId == old(repo.lastId))
    {
      uuid, err := repo.CreateStudent(Commands.CreateStudent(student.firstName, student.lastName, student.middleName,
        student.group.value.id, student.email, hash(student.password)));
      if err.Some? {
        return "", err;
      }
    }

    /** GetStudents: the repository's students, converted, in its order; errors come back as they are. */
    method GetStudents(limit: int, offset: int) returns (r: Result<seq<Types.Student>, Error>)
      ensures repo.GetStudents(Queries.GetStudentsFilters(limit, offset, [], [])).Failure? ==>
        r == Failure(repo.GetStudents(Queries.GetStudentsFilters(limit, offset, [], [])).error)
      ensures repo.GetStudents(Queries.GetStudentsFilters(limit, offset, [], [])).Success? ==>
        (r.Success? && |r.value| == |repo.GetStudents(Queries.GetStudentsFilters(limit, offset, [], [])).value| &&
         forall i :: 0 <= i < |r.value| ==>
           r.value[i] == Adapters.StudentFromDomain(repo.GetStudents(Queries.GetStudentsFilters(limit, offset, [], [])).value[i]))
    {
      var q := repo.GetStudents(Queries.GetStudentsFilters(limit, offset, [], []));
      if q.Failure? {
        return Failure(q.error);
      }
      var students := q.value;
      var result := Adapters.StudentsFromDomain(students);
      r := Success(result);
    }

    /** The exam id under which GetAllDebts looks up the groups of a debt. */
    function ExamOf(d: Models.Debt): int {
      Adapters.DebtFromDomain(d).exam.value.id
    }

    /** The first GetDebts of GetAllDebts: the student's own debts. */
    function OwnDebts(uuid: string): Result<seq<Models.Debt>, Error>
      reads repo
    {
      repo.GetDebts(Queries.StudentDebts(uuid))
    }

    /** The GetDebts of GetAllDebts for one debt: every debt of its exam. */
    function ExamLookup(d: Models.Debt): Result<seq<Models.Debt>, Error>
      reads repo
    {
      repo.GetDebts(Queries.ExamDebts(ExamOf(d)))
    }

    /** A returned debt: the converted repository debt, with the groups of every debt of its exam. */
    predicate GroupedDebt(d: Models.Debt, out: Types.Debt)
      reads repo
    {
      ExamLookup(d).Success? && out == Adapters.DebtFromDomain(d).(groups := out.groups) &&
      ListsGroups(out.groups, UniqueGroups(ExamLookup(d).value))
    }

    /**
     * GetAllDebts: the student's debts, converted, in the repository's order, each with the
     * distinct groups of the debts of its exam; the first lookup that fails is the error.
     */
    method GetAllDebts(uuid: string) returns (r: Result<seq<Types.Debt>, Error>)
      ensures OwnDebts(uuid).Failure? ==> r == Failure(Wrap(OwnDebts(uuid).error, Infrastructure))
      ensures OwnDebts(uuid).Success? ==>
        (r.Success? <==> forall i :: 0 <= i < |OwnDebts(uuid).value| ==> ExamLookup(OwnDebts(uuid).value[i]).Success?)
      ensures r.Success? ==> (OwnDebts(uuid).Success? && |r.value| == |OwnDebts(uuid).value| &&
        forall i :: 0 <= i < |r.value| ==> GroupedDebt(OwnDebts(uuid).value[i], r.value[i]) && r.value[i].student.value.uuid == uuid)
      ensures OwnDebts(uuid).Success? && r.Failure? ==>
        exists i :: 0 <= i < |OwnDebts(uuid).value| && ExamLookup(OwnDebts(uuid).value[i]).Failure? &&
          (forall j :: 0 <= j < i ==> ExamLookup(OwnDebts(uuid).value[j]).Success?) &&
          r.error == Wrap(ExamLookup(OwnDebts(uuid).value[i]).error, Infrastructure)
    {
      var q := repo.GetDebts(Queries.StudentDebts(uuid));
      assert q == OwnDebts(uuid);
      var debts := q.ValuesOr([]);
      var result := Adapters.DebtsFromDomain(debts);
      if q.Failure? {
        return Failure(Wrap(q.error, Infrastructure));
      }
      assert debts == OwnDebts(uuid).value;
      r := AttachGroups(debts, result);
      if r.Success? {
        forall i | 0 <= i < |r.value|
          ensures r.value[i].student.value.uuid == uuid
        {
          Repo.QueryDebtsSound(repo.tables, Queries.StudentDebts(uuid), i);
        }
      }
    }

    /** The second loop of GetAllDebts: each converted debt gets the groups of its exam. */
    method AttachGroups(debts: seq<Models.Debt>, converted: seq<Types.Debt>) returns (r: Result<seq<Types.Debt>, Error>)
      requires |converted| == |debts|
      requires forall i :: 0 <= i < |debts| ==> converted[i] == Adapters.DebtFromDomain(debts[i])
      ensures r.Success? ==> |r.value| == |debts| && forall i :: 0 <= i < |debts| ==> GroupedDebt(debts[i], r.value[i])
      ensures r.Failure? ==>
        exists i :: 0 <= i < |debts| && ExamLookup(debts[i]).Failure? &&
          (forall j :: 0 <= j < i ==> ExamLookup(debts[j]).Success?) &&
          r.error == Wrap(ExamLookup(debts[i]).error, Infrastructure)
    {
      var result := converted;
      for i := 0 to |result|
        invariant |result| == |debts|
        invariant forall j :: i <= j < |result| ==> result[j] == Adapters.DebtFromDomain(debts[j])
        invariant forall j :: 0 <= j < i ==> GroupedDebt(debts[j], result[j])
      {
        var groups := ExamGroups(debts[i], result[i].exam.value.id);
        if groups.Failure? {
          return Failure(groups.error);
        }
        result := result[i := result[i].(groups := groups.value)];
      }
      r := Success(result);
    }

    /** One pass of the second loop: the distinct groups of every debt of the debt's exam. */
    method ExamGroups(d: Models.Debt, examId: int) returns (r: Result<seq<Types.Group>, Error>)
      requires examId == ExamOf(d)
      ensures ExamLookup(d).Failure? ==> r == Failure(Wrap(ExamLookup(d).error, Infrastructure))
      ensures ExamLookup(d).Success? ==> r.Success? && GroupedDebt(d, Adapters.DebtFromDomain(d).(groups := r.value))
    {
      var g := repo.GetDebts(Queries.ExamDebts(examId));
      if g.Failure? {
        return Failure(Wrap(g.error, Infrastructure));
      }
      var unique := CollectGroups(g.value);
      var groupList := ListGroups(unique);
      r := Success(groupList);
    }

    /** The debts whose groups a returned debt lists are exactly debts of its exam. */
    lemma ExamLookupSameExam(d: Models.Debt, j: int)
      requires ExamLookup(d).Success? && 0 <= j < |ExamLookup(d).value|
      ensures ExamLookup(d).value[j].exam.value.id == ExamOf(d)
    {
      Repo.QueryDebtsSound(repo.tables, Queries.ExamDebts(ExamOf(d)), j);
    }

    /**
     * What SendNotification sends, or the error it stops with before sending: the student
     * with the UUID, the first teacher with the UUID of the first debt of the exam, and that
     * debt's exam name under the requested exam id. A lookup that fails comes back with no
     * rows, so it is reported as ErroNoItemsFound like one that finds nothing.
     */
    function NotificationPlan(uuid: string, examId: int): (r: Result<Repo.Letter, Error>)
      reads repo
      ensures r.Failure? ==> r.error == NotFound
      ensures r.Success? <==> (|repo.GetStudents(Queries.StudentsById(uuid)).ValuesOr([])| != 0 &&
        |repo.GetDebts(Queries.ExamDebts(examId)).ValuesOr([])| != 0 &&
        |repo.GetTeachers(Queries.TeachersById(repo.GetDebts(Queries.ExamDebts(examId)).value[0].teacher.value.uuid)).ValuesOr([])| != 0)
      ensures r.Success? ==> (
        var debt := repo.GetDebts(Queries.ExamDebts(examId)).value[0];
        r.value.student == repo.GetStudents(Queries.StudentsById(uuid)).value[0] &&
        r.value.exam == Models.Exam(examId, debt.exam.value.name) &&
        r.value.teacherEmail == repo.GetTeachers(Queries.TeachersById(debt.teacher.value.uuid)).value[0].email)
    {
      var students := repo.GetStudents(Queries.StudentsById(uuid)).ValuesOr([]);
      if |students| == 0 then Failure(NotFound)
      else
        var exams := repo.GetDebts(Queries.ExamDebts(examId)).ValuesOr([]);
        if |exams| == 0 then Failure(NotFound)
        else
          var teachers := repo.GetTeachers(Queries.TeachersById(exams[0].teacher.value.uuid)).ValuesOr([]);
          if |teachers| == 0 then Failure(NotFound)
          else
            Success(Repo.Letter(students[0], teachers[0].email, Models.Exam(examId, exams[0].exam.value.name)))
    }

    /**
     * SendNotification: nothing is sent when a lookup comes back empty; otherwise the mailer
     * gets the planned letter, and a mailer error comes back as an infrastructure error.
     */
    method SendNotification(uuid: string, examId: int) returns (err: Option<Error>)
      modifies repo
      ensures old(NotificationPlan(uuid, examId)).Failure? ==> err == Some(NotFound) && unchanged(repo)
      ensures old(NotificationPlan(uuid, examId)).Success? && old(NotificationPlan(uuid, examId)).value.teacherEmail == "" ==>
        err == Some(Wrap(Repo.NoRecipient, Infrastructure)) && unchanged(repo)
      ensures (old(NotificationPlan(uuid, examId)).Success? && old(NotificationPlan(uuid, examId)).value.teacherEmail != "" &&
               "SendNotification" in old(repo.failing)) ==>
        err == Some(Wrap(Repo.Failed("SendNotification"), Infrastructure)) && unchanged(repo)
      ensures (old(NotificationPlan(uuid, examId)).Success? && old(NotificationPlan(uuid, examId)).value.teacherEmail != "" &&
               "SendNotification" !in old(repo.failing)) ==>
        (err.None? && repo.outbox == old(repo.outbox) + [old(NotificationPlan(uuid, examId)).value] &&
         repo.tables == old(repo.tables) && repo.failing == old(repo.failing) && repo.lastId == old(repo.lastId) &&
         repo.generated == old(repo.generated))
    {
      var students := repo.GetStudents(Queries.StudentsById(uuid)).ValuesOr([]);
      if |students| == 0 {
        return Some(NotFound);
      }
      var exams := repo.GetDebts(Queries.ExamDebts(examId)).ValuesOr([]);
      if |exams| == 0 {
        return Some(NotFound);
      }
      var teachers := repo.GetTeachers(Queries.TeachersById(exams[0].teacher.value.uuid)).ValuesOr([]);
      if |teachers| == 0 {
        return Some(NotFound);
      }
      var sent := repo.SendNotification(students[0], teachers[0].email, Models.Exam(examId, exams[0].exam.value.name));
      if sent.Some? {
        return Some(Wrap(sent.value, Infrastructure));
      }
      err := None;
    }

    /**
     * GetStudentByEmail: the students with the e-mail, converted, in the repository's order;
     * an error comes back as an infrastructure error.
     */
    method GetStudentByEmail(email: string) returns (r: Result<seq<Types.Student>, Error>)
      ensures repo.GetStudents(Queries.StudentsByEmail(email)).Failure? ==>
        r == Failure(Wrap(repo.GetStudents(Queries.StudentsByEmail(email)).error, Infrastructure))
      ensures repo.GetStudents(Queries.StudentsByEmail(email)).Success? ==>
        (r.Success? && |r.value| == |repo.GetStudents(Queries.StudentsByEmail(email)).value| &&
         forall i :: 0 <= i < |r.value| ==>
           r.value[i] == Adapters.StudentFromDomain(repo.GetStudents(Queries.StudentsByEmail(email)).value[i]) &&
           r.value[i].email == email)
    {
      var q := repo.GetStudents(Queries.StudentsByEmail(email));
      var students := q.ValuesOr([]);
      var result := Adapters.StudentsFromDomain(students);
      if q.Failure? {
        return Failure(Wrap(q.error, Infrastructure));
      }
      forall i | 0 <= i < |result|
        ensures result[i].email == email
      {
        Repo.QueryStudentsSound(repo.tables, Queries.StudentsByEmail(email), i);
      }
      r := Success(result);
    }
  }

  /**
   * The planned letter is about the requested student, is addressed to a stored teacher who
   * teaches the first debt of the exam, and names an exam the debt is really of.
   */
  lemma NotificationPlanSound(u: StudentUsecase, uuid: string, examId: int)
    requires u.NotificationPlan(uuid, examId).Success?
    ensures u.NotificationPlan(uuid, examId).value.student.uuid == uuid
    ensures u.repo.GetDebts(Queries.ExamDebts(examId)).value[0].exam.value.id == examId
    ensures exists t :: (t in u.repo.tables.teachers &&
      t.uuid == u.repo.GetDebts(Queries.ExamDebts(examId)).value[0].teacher.value.uuid &&
      t.email == u.NotificationPlan(uuid, examId).value.teacherEmail)
  {
    var repo := u.repo;
    Repo.QueryStudentsSound(repo.tables, Queries.StudentsById(uuid), 0);
    Repo.QueryDebtsSound(repo.tables, Queries.ExamDebts(examId), 0);
    var byUuid := Queries.TeachersById(repo.GetDebts(Queries.ExamDebts(examId)).value[0].teacher.value.uuid);
    var teachers := Repo.QueryTeachers(repo.tables, byUuid);
    assert repo.GetTeachers(byUuid) == Success(teachers);
    assert teachers[0] in repo.tables.teachers;
  }

  /** GetStudents with a zero limit sets no filter at all, and the validator refuses it. */
  lemma ZeroLimitRefused(u: StudentUsecase, offset: int)
    requires "GetStudents" !in u.repo.failing
    ensures u.repo.GetStudents(Queries.GetStudentsFilters(0, offset, [], [])) == Failure(Queries.DomainInvalidFilters)
  {
  }

  /** Any two non-zero limits, with any offsets, list the same students: the query does not page. */
  lemma StudentsNotPaged(t: Repo.Tables, limit1: int, offset1: int, limit2: int, offset2: int)
    requires limit1 != 0 && limit2 != 0
    ensures Repo.QueryStudents(t, Queries.GetStudentsFilters(limit1, offset1, [], [])) ==
      Repo.QueryStudents(t, Queries.GetStudentsFilters(limit2, offset2, [], []))
  {
    assert Repo.SelectedStudentRows(t, Queries.GetStudentsFilters(limit1, offset1, [], [])) ==
      Repo.SelectedStudentRows(t, Queries.GetStudentsFilters(limit2, offset2, [], []));
  }
}
