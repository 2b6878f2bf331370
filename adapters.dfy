/**
 * Domain-to-service converters of internal/services/types/exam_adapter.go. A nil pointer
 * in the source record is None; the converters never produce a missing sub-record where
 * the source always allocates one.
 */
module Adapters {
  import opened Wrappers
  import Models
  import Types

  function ExamFromDomain(src: Models.Exam): (r: Types.Exam)
    ensures r.id == src.id && r.name == src.name
  {
    Types.Exam(src.id, src.name)
  }

  function GroupFromDomain(src: Models.Group): (r: Types.Group)
    ensures r.id == src.id && r.name == src.name
  {
    Types.Group(src.id, src.name)
  }

  /** The group a converted student gets: a copy of the source group, or {0, ""} when it is nil. */
  function GroupOrZero(g: Option<Models.Group>): (r: Types.Group)
    ensures g.None? ==> r == Types.ZeroGroup
    ensures g.Some? ==> r == GroupFromDomain(g.value)
  {
    match g
    case Some(grp) => Types.Group(grp.id, grp.name)
    case None => Types.Group(0, "")
  }

  /**
   * DebtFromDomain: every sub-record of the result is present. Exam, teacher and student are
   * copies of the source parts (without passwords) or zero records when those are nil, and
   * the student's group is {0, ""} when the student or its group is nil.
   */
  function DebtFromDomain(src: Models.Debt): (r: Types.Debt)
    ensures r.exam.Some? && r.teacher.Some? && r.student.Some? && r.student.value.group.Some?
    ensures r.id == src.id && r.date == src.date && r.groups == []
    ensures r.exam.value == (if src.exam.Some? then ExamFromDomain(src.exam.value) else Types.ZeroExam)
    ensures r.teacher.value ==
      (if src.teacher.Some? then DomainFromTeacher(src.teacher.value) else Types.ZeroTeacher)
    ensures r.student.value ==
      (if src.student.Some? then DomainFromStudent(src.student.value)
       else Types.ZeroStudent.(group := Some(Types.ZeroGroup)))
    ensures src.student.None? || src.student.value.group.None? ==>
      r.student.value.group.value == Types.ZeroGroup
  {
    var ex := match src.exam
      case Some(e) => Types.Exam(e.id, e.name)
      case None => Types.Exam(0, "");
    var teacher := match src.teacher
      case Some(t) => Types.Teacher(t.uuid, t.firstName, t.lastName, t.middleName, t.email, "")
      case None => Types.Teacher("", "", "", "", "", "");
    var student := match src.student
      case Some(s) =>
        var g := match s.group
          case Some(grp) => Types.Group(grp.id, grp.name)
          case None => Types.Group(0, "");
        Types.Student(s.uuid, s.firstName, s.lastName, s.middleName, s.email, Some(g), "")
      case None => Types.Student("", "", "", "", "", Some(Types.Group(0, "")), "");
    Types.Debt(src.id, src.date, Some(ex), Some(student), Some(teacher), [])
  }

  /** TeacherFromDomain: every field is copied, the password included. */
  function TeacherFromDomain(src: Models.Teacher): (r: Types.Teacher)
    ensures r.uuid == src.uuid && r.email == src.email && r.password == src.password
    ensures r.firstName == src.firstName && r.lastName == src.lastName && r.middleName == src.middleName
  {
    Types.Teacher(src.uuid, src.firstName, src.lastName, src.middleName, src.email, src.password)
  }

  /** StudentFromDomain: every field is copied, the password included; the group is always present. */
  function StudentFromDomain(src: Models.Student): (r: Types.Student)
    ensures r.uuid == src.uuid && r.email == src.email && r.password == src.password
    ensures r.firstName == src.firstName && r.lastName == src.lastName && r.middleName == src.middleName
    ensures r.group == Some(GroupOrZero(src.group))
  {
    var groupName := if src.group.Some? then src.group.value.name else "";
    var groupId := if src.group.Some? then src.group.value.id else 0;
    Types.Student(src.uuid, src.firstName, src.lastName, src.middleName, src.email,
      Some(Types.Group(groupId, groupName)), src.password)
  }

  /** DomainFromStudent: as StudentFromDomain, except that the password is dropped. */
  function DomainFromStudent(src: Models.Student): (r: Types.Student)
    ensures r == StudentFromDomain(src).(password := "")
  {
    var groupId := if src.group.Some? then src.group.value.id else 0;
    var groupName := if src.group.Some? then src.group.value.name else "";
    Types.Student(src.uuid, src.firstName, src.lastName, src.middleName, src.email,
      Some(Types.Group(groupId, groupName)), "")
  }

  /** DomainFromTeacher: as TeacherFromDomain, except that the password is dropped. */
  function DomainFromTeacher(src: Models.Teacher): (r: Types.Teacher)
    ensures r == TeacherFromDomain(src).(password := "")
  {
    Types.Teacher(src.uuid, src.firstName, src.lastName, src.middleName, src.email, "")
  }

  /** DomainFromExam: the same copy as ExamFromDomain. */
  function DomainFromExam(src: Models.Exam): (r: Types.Exam)
    ensures r == ExamFromDomain(src)
  {
    Types.Exam(src.id, src.name)
  }

  // The conversion loops of the usecases: make a result slice of the same length and fill it
  // index by index.

  method DebtsFromDomain(debts: seq<Models.Debt>) returns (result: seq<Types.Debt>)
    ensures |result| == |debts|
    ensures forall i :: 0 <= i < |debts| ==> result[i] == DebtFromDomain(debts[i])
  {
    result := [];
    for i := 0 to |debts|
      invariant |result| == i
      invariant forall j :: 0 <= j < i ==> result[j] == DebtFromDomain(debts[j])
    {
      result := result + [DebtFromDomain(debts[i])];
    }
  }

  method ExamsFromDomain(exams: seq<Models.Exam>) returns (result: seq<Types.Exam>)
    ensures |result| == |exams|
    ensures forall i :: 0 <= i < |exams| ==> result[i] == ExamFromDomain(exams[i])
  {
    result := [];
    for i := 0 to |exams|
      invariant |result| == i
      invariant forall j :: 0 <= j < i ==> result[j] == ExamFromDomain(exams[j])
    {
      result := result + [ExamFromDomain(exams[i])];
    }
  }

  method StudentsFromDomain(students: seq<Models.Student>) returns (result: seq<Types.Student>)
    ensures |result| == |students|
    ensures forall i :: 0 <= i < |students| ==> result[i] == StudentFromDomain(students[i])
  {
    result := [];
    for i := 0 to |students|
      invariant |result| == i
      invariant forall j :: 0 <= j < i ==> result[j] == StudentFromDomain(students[j])
    {
      result := result + [StudentFromDomain(students[i])];
    }
  }

  method TeachersFromDomain(teachers: seq<Models.Teacher>) returns (result: seq<Types.Teacher>)
    ensures |result| == |teachers|
    ensures forall i :: 0 <= i < |teachers| ==> result[i] == TeacherFromDomain(teachers[i])
  {
    result := [];
    for i := 0 to |teachers|
      invariant |result| == i
      invariant forall j :: 0 <= j < i ==> result[j] == TeacherFromDomain(teachers[j])
    {
      result := result + [TeacherFromDomain(teachers[i])];
    }
  }
}
