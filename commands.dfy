/** Write commands of internal/domain/commands, and the one with a validator. */
module Commands {
  import opened Wrappers
  import opened Errors
  import Models

  /** UpdateDebtByID; Address is the field the repository's update writes and nobody sets. */
  datatype UpdateDebtByID = UpdateDebtByID(
    debtId: int,
    date: Models.Date,
    teacherUuid: string,
    studentUuid: string,
    address: Option<string>)
  {
    /** UpdateDebtByID.Validate: only the debt id is examined. */
    function Validate(): (r: Option<Error>)
      ensures r.Some? <==> debtId == 0
      ensures r.Some? ==> r.value.Root() == PkgInvalidCommand && r.value == Wrap(Plain(PkgInvalidCommand), Domain)
    {
      if debtId == 0 then Some(Wrap(Plain(PkgInvalidCommand), Domain)) else None
    }
  }

  datatype CreateDebt = CreateDebt(examId: int, studentUuid: string, teacherUuid: string, date: Models.Date)

  datatype CreateStudent = CreateStudent(
    firstName: string,
    lastName: string,
    middleName: string,
    groupId: int,
    email: string,
    password: string)

  datatype CreateTeacher = CreateTeacher(
    firstName: string,
    lastName: string,
    middleName: string,
    email: string,
    password: string)

  /** Any non-zero debt id passes, whatever the date and the two UUIDs are, even empty ones. */
  lemma UpdateDebtOnlyIdMatters(c: UpdateDebtByID, date: Models.Date, teacherUuid: string, studentUuid: string)
    requires c.debtId != 0
    ensures c.(date := date, teacherUuid := teacherUuid, studentUuid := studentUuid).Validate().None?
    ensures c.(teacherUuid := "", studentUuid := "").Validate().None?
  {
  }
}
