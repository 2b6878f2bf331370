/** The older filter validators of internal/domain/student: they return ErrInvalidFilters bare. */
module LegacyStudent {
  import opened Wrappers
  import opened Errors
  import Queries

  datatype GetStudentsFilters = GetStudentsFilters(ids: seq<string>)
  {
    /** student.GetStudentsFilters.Validate: fails exactly when some ID is empty; [] passes. */
    function Validate(): (r: Option<Error>)
      ensures r.Some? <==> Queries.HasEmpty(ids)
      ensures r.Some? ==> r.value == Plain(PkgInvalidFilters)
    {
      if Queries.ScanForEmpty(ids) then Some(Plain(PkgInvalidFilters)) else None
    }
  }
}

/** The older filter validator of internal/domain/teacher. */
module LegacyTeacher {
  import opened Wrappers
  import opened Errors
  import Queries

  datatype GetTeachersFilters = GetTeachersFilters(uuids: seq<string>)
  {
    /** teacher.GetTeachersFilters.Validate: fails exactly when some UUID is empty; [] passes. */
    function Validate(): (r: Option<Error>)
      ensures r.Some? <==> Queries.HasEmpty(uuids)
      ensures r.Some? ==> r.value == Plain(PkgInvalidFilters)
    {
      if Queries.ScanForEmpty(uuids) then Some(Plain(PkgInvalidFilters)) else None
    }
  }

  /**
   * The older validator accepts an empty list, where the one in internal/domain/queries
   * rejects it; on a non-empty list the two agree on pass or fail.
   */
  lemma {:induction false} DiffersFromQueriesOnlyOnEmpty(uuids: seq<string>)
    ensures uuids == [] ==>
      GetTeachersFilters(uuids).Validate().None? && Queries.GetTeachersFilters(uuids, [], 0, 0).Validate().Some?
    ensures uuids != [] ==>
      (GetTeachersFilters(uuids).Validate().None? <==> Queries.GetTeachersFilters(uuids, [], 0, 0).Validate().None?)
  {
  }
}

/** The older debt filter of internal/domain/exam. */
module LegacyExam {
  import opened Wrappers
  import opened Errors

  datatype GetAllDebtsFilter = GetAllDebtsFilter(studentUuid: string)
  {
    /** exam.GetAllDebtsFilter.Validate: only "" fails; whitespace such as " " passes. */
    function Validate(): (r: Option<Error>)
      ensures r.Some? <==> studentUuid == ""
      ensures r.Some? ==> r.value == Plain(PkgInvalidFilters)
    {
      if studentUuid == "" then Some(Plain(PkgInvalidFilters)) else None
    }
  }
}
