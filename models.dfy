/**
 * Domain entities (internal/domain/models). Each record carries the union of the fields
 * the services and repositories read and write, including Email and Password on Student
 * and the nullable Date and Address of a Debt. Go pointers that may be nil are Options.
 */
module Models {
  import opened Wrappers

  /** An instant, in nanoseconds; time values are opaque to the services. */
  datatype Date = Date(nanos: int)

  datatype Group = Group(id: int, name: string)

  datatype Student = Student(
    uuid: string,
    firstName: string,
    lastName: string,
    middleName: string,
    email: string,
    password: string,
    group: Option<Group>)

  datatype Teacher = Teacher(
    uuid: string,
    firstName: string,
    lastName: string,
    middleName: string,
    email: string,
    password: string)

  datatype Exam = Exam(id: int, name: string)

  datatype Debt = Debt(
    id: int,
    date: Option<Date>,
    address: Option<string>,
    exam: Option<Exam>,
    student: Option<Student>,
    teacher: Option<Teacher>)
}

/**
 * Service-layer records (internal/services/types), the values usecases return and accept.
 */
module Types {
  import opened Wrappers
  import Models

  datatype Group = Group(id: int, name: string)

  datatype Student = Student(
    uuid: string,
    firstName: string,
    lastName: string,
    middleName: string,
    email: string,
    group: Option<Group>,
    password: string)

  datatype Teacher = Teacher(
    uuid: string,
    firstName: string,
    lastName: string,
    middleName: string,
    email: string,
    password: string)

  datatype Exam = Exam(id: int, name: string)

  datatype Debt = Debt(
    id: int,
    date: Option<Models.Date>,
    exam: Option<Exam>,
    student: Option<Student>,
    teacher: Option<Teacher>,
    groups: seq<Group>)

  /** The zero values Go gives these records. */
  const ZeroGroup := Group(0, "")
  const ZeroExam := Exam(0, "")
  const ZeroTeacher := Teacher("", "", "", "", "", "")
  const ZeroStudent := Student("", "", "", "", "", None, "")
}
