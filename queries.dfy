/**
 * Search filters of internal/domain/queries and their Validate methods. Every loop in the
 * source is an early-returning existence scan, so each validator is a predicate over the
 * filter; an error result is "Some".
 */
module Queries {
  import opened Wrappers
  import opened Errors

  /** utils/errors ErrInvalidFilters wrapped with ERR_DOMAIN, the failure of GetStudentsFilters. */
  const DomainInvalidFilters := Wrap(Plain(InvalidFilters), Domain)

  /** pkg/errors ErrInvalidFilters wrapped with ERR_DOMAIN, the failure of GetTeachersFilters. */
  const DomainPkgInvalidFilters := Wrap(Plain(PkgInvalidFilters), Domain)

  /** True when some entry of xs is the empty string. */
  predicate HasEmpty(xs: seq<string>) {
    exists k :: 0 <= k < |xs| && xs[k] == ""
  }

  /** True when some entry of xs is zero. */
  predicate HasZero(xs: seq<int>) {
    exists k :: 0 <= k < |xs| && xs[k] == 0
  }

  /** A `for range` loop returning at the first empty string: it finds one exactly when there is one. */
  function ScanForEmpty(xs: seq<string>): (found: bool)
    ensures found <==> HasEmpty(xs)
  {
    if xs == [] then false
    else if xs[0] == "" then true
    else ScanForEmpty(xs[1..])
  }

  /** A `for range` loop returning at the first zero: it finds one exactly when there is one. */
  function ScanForZero(xs: seq<int>): (found: bool)
    ensures found <==> HasZero(xs)
  {
    if xs == [] then false
    else if xs[0] == 0 then true
    else ScanForZero(xs[1..])
  }

  datatype GetStudentsFilters = GetStudentsFilters(
    limit: int, offset: int, ids: seq<string>, emails: seq<string>)
  {
    /** GetStudentsFilters.Validate (value receiver). */
    function Validate(): (r: Option<Error>)
      ensures r.Some? ==> r.value == DomainInvalidFilters
      ensures r.None? <==>
        (|emails| != 0 || |ids| != 0 || limit != 0) && !HasEmpty(emails) && !HasEmpty(ids)
    {
      if |emails| == 0 && |ids| == 0 && limit == 0 then Some(DomainInvalidFilters)
      else if ScanForEmpty(emails) then Some(DomainInvalidFilters)
      else if ScanForEmpty(ids) then Some(DomainInvalidFilters)
      else None
    }
  }

  datatype GetDebtsFilters = GetDebtsFilters(
    studentUuids: seq<string>,
    teacherUuids: seq<string>,
    examIds: seq<int>,
    debtIds: seq<int>,
    limit: int,
    offset: int)
  {
    /** GetDebtsFilters.Validate: returns ErrInvalidFilters bare. */
    function Validate(): (r: Option<Error>)
      ensures r.Some? ==> r.value == Plain(InvalidFilters)
      ensures r.None? <==> !HasEmpty(studentUuids) && !HasEmpty(teacherUuids) && !HasZero(examIds)
    {
      if ScanForEmpty(studentUuids) then Some(Plain(InvalidFilters))
      else if ScanForEmpty(teacherUuids) then Some(Plain(InvalidFilters))
      else if ScanForZero(examIds) then Some(Plain(InvalidFilters))
      else None
    }
  }

  /** The filter with every list empty and no paging. */
  const NoDebtsFilters := GetDebtsFilters([], [], [], [], 0, 0)

  datatype GetExamsFilters = GetExamsFilters(limit: int, offset: int, ids: seq<int>)
  {
    /** GetExamsFilters.Validate: returns ErrInvalidFilters bare. */
    function Validate(): (r: Option<Error>)
      ensures r.Some? ==> r.value == Plain(InvalidFilters)
      ensures r.None? <==> !HasZero(ids)
    {
      if ScanForZero(ids) then Some(Plain(InvalidFilters)) else None
    }
  }

  /** GetTeachersFilters with the fields the callers set (UUIDs, Emails, Limit, Offset). */
  datatype GetTeachersFilters = GetTeachersFilters(
    uuids: seq<string>, emails: seq<string>, limit: int, offset: int)
  {
    /** GetTeachersFilters.Validate (value receiver): only UUIDs is examined. */
    function Validate(): (r: Option<Error>)
      ensures r.Some? ==> r.value == DomainPkgInvalidFilters
      ensures r.None? <==> |uuids| != 0 && !HasEmpty(uuids)
    {
      if |uuids| == 0 then Some(DomainPkgInvalidFilters)
      else if ScanForEmpty(uuids) then Some(DomainPkgInvalidFilters)
      else None
    }
  }

  /** SearchTeacherFilters: the rows whose value is in every non-empty list. */
  datatype SearchTeacherFilters = SearchTeacherFilters(
    uuids: seq<string>,
    firstNames: seq<string>,
    lastNames: seq<string>,
    middleNames: seq<string>,
    emails: seq<string>)

  /** SearchStudentFilters: the rows whose value is in every non-empty list. */
  datatype SearchStudentFilters = SearchStudentFilters(
    uuids: seq<string>,
    firstNames: seq<string>,
    lastNames: seq<string>,
    middleNames: seq<string>,
    emails: seq<string>)

  /** The filters the usecases build for a lookup by one key; filters they leave unset are zero. */
  function StudentsById(uuid: string): GetStudentsFilters {
    GetStudentsFilters(0, 0, [uuid], [])
  }

  function TeachersById(uuid: string): GetTeachersFilters {
    GetTeachersFilters([uuid], [], 0, 0)
  }

  function ExamsById(id: int): GetExamsFilters {
    GetExamsFilters(0, 0, [id])
  }

  function DebtsById(id: int): GetDebtsFilters {
    GetDebtsFilters([], [], [], [id], 0, 0)
  }

  function StudentDebts(uuid: string): GetDebtsFilters {
    GetDebtsFilters([uuid], [], [], [], 0, 0)
  }

  function TeacherDebts(uuid: string): GetDebtsFilters {
    GetDebtsFilters([], [uuid], [], [], 0, 0)
  }

  function ExamDebts(id: int): GetDebtsFilters {
    GetDebtsFilters([], [], [id], [], 0, 0)
  }

  function StudentsByEmail(email: string): GetStudentsFilters {
    GetStudentsFilters(0, 0, [], [email])
  }

  function TeachersByEmail(email: string): GetTeachersFilters {
    GetTeachersFilters([], [email], 0, 0)
  }

  // Properties of the validators.

  /** A student filter that sets nothing but a non-zero Limit passes. */
  lemma StudentsLimitOnlyPasses(limit: int, offset: int)
    requires limit != 0
    ensures GetStudentsFilters(limit, offset, [], []).Validate().None?
  {
  }

  /** Offset never changes the verdict on a student filter. */
  lemma StudentsOffsetIgnored(f: GetStudentsFilters, offset: int)
    ensures f.(offset := offset).Validate() == f.Validate()
  {
  }

  /** An empty email anywhere in the list fails a student filter. */
  lemma StudentsEmptyEmailFails(f: GetStudentsFilters, k: int)
    requires 0 <= k < |f.emails| && f.emails[k] == ""
    ensures f.Validate() == Some(DomainInvalidFilters)
  {
  }

  /** Debt ids, limit and offset are never examined: a zero debt id passes. */
  lemma DebtsUncheckedFields(f: GetDebtsFilters, debtIds: seq<int>, limit: int, offset: int)
    ensures f.(debtIds := debtIds, limit := limit, offset := offset).Validate() == f.Validate()
    ensures GetDebtsFilters([], [], [], [0], 0, 0).Validate().None?
  {
  }

  /** Exam filters ignore limit and offset. */
  lemma ExamsPagingIgnored(f: GetExamsFilters, limit: int, offset: int)
    ensures f.(limit := limit, offset := offset).Validate() == f.Validate()
  {
  }
}
