# Debt tracker core, in Dafny

This project models the core of a service that tracks students' academic debts: exams a
student still owes, each tied to a teacher. The model covers:

- the roster-sheet parser of the file usecase;
- the password generator;
- the search-filter and command validators, including the older ones under
  `internal/domain/{student,teacher,exam}`;
- the domain-to-service adapters;
- the decisions of the access-token middleware;
- the exam, student and teacher usecases, run against an in-memory repository.

Layout:

- `wrappers.dfy`: `Option` and `Result`.
- `errors.dfy`: the sentinel errors and the layer tag that `log.ErrorWrapper` adds. Both
  `pkg/errors` and `utils/errors` declare `ErrInvalidFilters` and `ErrInvalidCommand`. These
  are distinct causes here, as they are for `errors.Is`.
- `gostrings.dfy`: `strings.Split`, `TrimSpace` and `TrimPrefix`, with their laws.
- `models.dfy`: the domain records (`Models`) and the service records (`Types`).
- `queries.dfy`, `legacy_queries.dfy`, `commands.dfy`: filters, commands and their `Validate`
  methods.
- `adapters.dfy`: `exam_adapter.go`, plus the `result[i] = types.XFromDomain(...)` loops of
  the usecases.
- `password.dfy`: `GeneratePassword`.
- `jwt.dfy`: `GenerateAccessToken`'s claims and `ValidateAccessToken`.
- `roster.dfy`: `ParseFile`.
- `repository.dfy`: the repository as a class over in-memory tables. It has a set of calls
  that fail, a serial counter and a UUID counter. Each query follows the SQL of its postgres
  repository:
  - LEFT JOINs whose NULL columns make the row scan fail;
  - filters that apply only to a non-empty list;
  - LIMIT and OFFSET added only when non-zero, after Go's `uint64` conversion. A negative
    value wraps to 2^63 or more, beyond PostgreSQL's bigint. The database refuses it only
    as the statement executes, and that refusal reaches Go only through `rows.Err()`. The
    debts, exams and teachers queries never read `rows.Err()`, so they return no rows and no
    error.
- `exam_usecase.dfy`, `student_usecase.dfy`, `teacher_usecase.dfy`: the three usecases as
  classes over that repository.

Several behaviours are modelled as the code has them:

- `ParseFile` stops each row at the column equal to the number of *kept* students, not the
  header width. A header cell that names no student therefore hides the later columns
  (`RosterParser.SkippedHeaderHidesLaterStudent`).
- `ParseFile` returns only an error in the source; the lists it builds are returned here.
- `GetDebt` fills the student's middle name from the last name.
- `ExamUsecase.GetDebts` never passes limit and offset to the repository.
- The repository's `CreateDebt` does not write the date.
- `StudentUsecase.GetStudents` cannot page, and a zero limit is refused by the filter
  validator.
- `ChangePassword` stores the password as given, without hashing.
- `SendNotification` reports a failing lookup as "no items found", because a failing call
  returns no rows and the emptiness check comes first.
- `TeacherUsecase.GetTeachers` hands out the stored passwords.
- `CreateTeacher` stores an empty password.
- `SetDate` wraps an update error as an infrastructure error twice: once in the repository,
  once in the usecase.

`queries/teacher_query.go` declares only `UUIDs`, but its callers set `Emails`, `Limit` and
`Offset`. The filter here has all four fields, and its `Validate` looks at `UUIDs` alone, as
written. The repository's `GetTeachers` is modelled without applying that validator; see
"Left out".

## Model

| member | source | states |
|---|---|---|
| Errors.Wrap | utils/log/log.go:12-37 | wrapping with a layer keeps the root cause that `errors.Is` finds |
| GoStrings.Split | internal/services/file_usecase.go:40 | a split always has at least one piece |
| GoStrings.JoinSplit | internal/services/file_usecase.go:40 | joining the pieces of a split with the separator gives back the text |
| GoStrings.SplitPieces | internal/services/file_usecase.go:40-42 | there is one piece more than separators, and no piece holds a separator |
| GoStrings.SplitJoin | internal/services/file_usecase.go:73-86 | splitting joined separator-free pieces gives back the pieces |
| GoStrings.TrimSpace | internal/services/file_usecase.go:67 | the result is a contiguous part of the text that neither starts nor ends with white space |
| GoStrings.TrimSpaceCut | internal/services/file_usecase.go:97-100 | everything cut off is white space; the result is empty exactly for all-white-space text |
| GoStrings.TrimSpaceIdempotent | internal/services/file_usecase.go:67 | trimming twice is trimming once |
| GoStrings.TrimPrefix | utils/auth/jwt.go:76 | with the prefix present, prefix plus result is the text; otherwise the text is unchanged |
| Queries.ScanForEmpty | internal/domain/queries/student_query.go:38-47 | the early-return scan finds an empty string exactly when one exists |
| Queries.ScanForZero | internal/domain/queries/exam_query.go:27-31 | the early-return scan finds a zero exactly when one exists |
| Queries.GetStudentsFilters.Validate | internal/domain/queries/student_query.go:34-50 | passes iff some email, ID or a non-zero limit is set and no email or ID is empty; every failure is ErrInvalidFilters wrapped with ERR_DOMAIN |
| Queries.StudentsLimitOnlyPasses | internal/domain/queries/student_query.go:35-49 | a filter setting only a non-zero limit passes |
| Queries.StudentsOffsetIgnored | internal/domain/queries/student_query.go:34-50 | the offset never changes the verdict |
| Queries.StudentsEmptyEmailFails | internal/domain/queries/student_query.go:38-42 | an empty email at any position fails |
| Queries.GetDebtsFilters.Validate | internal/domain/queries/exam_query.go:16-34 | passes iff no student UUID or teacher UUID is empty and no exam ID is zero; the failure is bare ErrInvalidFilters |
| Queries.DebtsUncheckedFields | internal/domain/queries/exam_query.go:7-34 | debt IDs, limit and offset never change the verdict, and a zero debt ID passes |
| Queries.GetExamsFilters.Validate | internal/domain/queries/exam_query.go:42-50 | fails iff some ID is zero, with bare ErrInvalidFilters |
| Queries.ExamsPagingIgnored | internal/domain/queries/exam_query.go:42-50 | limit and offset never change the verdict |
| Queries.GetTeachersFilters.Validate | internal/domain/queries/teacher_query.go:12-22 | passes iff the UUID list is non-empty with no empty UUID; every failure is pkg/errors' ErrInvalidFilters wrapped with ERR_DOMAIN |
| LegacyStudent.GetStudentsFilters.Validate | internal/domain/student/student_query.go:9-17 | fails iff some ID is empty (an empty list passes), with pkg/errors' ErrInvalidFilters bare |
| LegacyTeacher.GetTeachersFilters.Validate | internal/domain/teacher/teacher_query.go:9-16 | fails iff some UUID is empty (an empty list passes), with pkg/errors' ErrInvalidFilters bare |
| LegacyTeacher.DiffersFromQueriesOnlyOnEmpty | internal/domain/teacher/teacher_query.go:9-15 | the older validator accepts the empty list that the newer one rejects, and agrees with it on every non-empty list |
| LegacyExam.GetAllDebtsFilter.Validate | internal/domain/exam/exam_query.go:9-15 | fails iff the UUID is "", so whitespace passes; the failure is pkg/errors' ErrInvalidFilters bare |
| Commands.UpdateDebtByID.Validate | internal/domain/commands/exam_command.go:17-23 | fails iff the debt ID is zero, with pkg/errors' ErrInvalidCommand wrapped with ERR_DOMAIN |
| Commands.UpdateDebtOnlyIdMatters | internal/domain/commands/exam_command.go:17-23 | with a non-zero ID, any date and any UUIDs (even empty ones) pass |
| Adapters.ExamFromDomain | internal/services/types/exam_adapter.go:8-13 | ID and name are copied |
| Adapters.GroupFromDomain | internal/services/types/exam_adapter.go:15-20 | ID and name are copied |
| Adapters.GroupOrZero | internal/services/types/exam_adapter.go:73-78 | a missing group becomes {0, ""}; a present one is copied |
| Adapters.DebtFromDomain | internal/services/types/exam_adapter.go:22-60 | exam, teacher, student and the student's group are always present; nil parts become zero records; ID and date are copied; no passwords |
| Adapters.TeacherFromDomain | internal/services/types/exam_adapter.go:62-71 | every field is copied, the password included |
| Adapters.StudentFromDomain | internal/services/types/exam_adapter.go:72-91 | every field is copied, the password included; the group is always present and {0, ""} when missing |
| Adapters.DomainFromStudent | internal/services/types/exam_adapter.go:93-115 | equals StudentFromDomain with the password dropped |
| Adapters.DomainFromTeacher | internal/services/types/exam_adapter.go:116-124 | equals TeacherFromDomain with the password dropped |
| Adapters.DomainFromExam | internal/services/types/exam_adapter.go:126-131 | equals ExamFromDomain |
| Adapters.DebtsFromDomain | internal/services/student_usecase.go:124-127 | same length as the input, with the i-th result being DebtFromDomain of the i-th debt |
| Adapters.ExamsFromDomain | internal/services/exam_usecase.go:282-285 | same length as the input, with the i-th result being ExamFromDomain of the i-th exam |
| Adapters.StudentsFromDomain | internal/services/student_usecase.go:90-93 | same length as the input, with the i-th result being StudentFromDomain of the i-th student |
| Adapters.TeachersFromDomain | internal/services/teacher_usecase.go:77-80 | same length as the input, with the i-th result being TeacherFromDomain of the i-th teacher |
| Generator.AlphabetShape | utils/generator/password.go:8-18 | DefaultLen (DEFAULTLEN) is 12; the alphabet is 26 + 26 + 10 + 25 = 87 characters |
| Generator.GeneratePassword | utils/generator/password.go:10-30 | on success: exactly `length` characters, the i-th being allChars at the i-th draw, and exactly `length` draws used. Success iff those draws all succeed. The first failed draw gives "" and the error. Length 0 gives "" with no draw |
| Auth.NumericDateMonotone | utils/auth/jwt.go:47-49 | truncating to whole seconds preserves order |
| Auth.NewClaims | utils/auth/jwt.go:42-51 | the claims carry the UUID; ExpiresAt is the first clock reading plus 7200 s; IssuedAt and NotBefore are the other two readings |
| Auth.ClaimsWindow | utils/auth/jwt.go:47-49 | with one instant read three times: ExpiresAt = IssuedAt + 7200 and NotBefore = IssuedAt. With a clock that moves forward: lifetime at most 7200 s, NotBefore not before IssuedAt |
| Auth.ExtractToken | utils/auth/jwt.go:69-80 | empty header gives "Authorization header required"; no "Bearer " prefix gives "Bearer token malformed"; otherwise "Bearer " plus the token is the header |
| Auth.ExtractTokenRoundTrip | utils/auth/jwt.go:76-80 | the token of "Bearer " + t is t, even for an empty t |
| Auth.RoleOfCases | utils/auth/jwt.go:131-140 | the role is student, teacher, admin or ""; "" exactly when both searches are empty; admin only without a student match and with the first teacher's email "admin" |
| Auth.ValidateAccessToken | utils/auth/jwt.go:66-147 | each abort with its status and message, in order; an empty UUID in the claims is refused; a failed search gives 400; otherwise the session carries RoleOf of the two searches and the claimed UUID |
| RosterParser.HeaderRoundTrip | internal/services/file_usecase.go:39-55 | a header of four or more space-free words names the student with last, first, middle name and group taken from the first four |
| RosterParser.ShortHeaderSkipped | internal/services/file_usecase.go:40-44 | a header with fewer than three spaces names no student |
| RosterParser.TeacherRoundTrip | internal/services/file_usecase.go:73-86 | a teacher cell of four or more words names the teacher with last, first, middle name and email from the first four |
| RosterParser.ParseFile | internal/services/file_usecase.go:29-113 | error iff fewer than two rows, with all lists empty. Otherwise: the students of the header; one teacher per distinct key, in order of first appearance; and the debts of every row, in row then column order |
| RosterParser.ParseStudents | internal/services/file_usecase.go:35-55 | the kept students in column order, and the map from column index to student |
| RosterParser.ParseCells | internal/services/file_usecase.go:92-112 | the debts of one row's cells, as RowDebts defines them |
| RosterParser.PrefixStep | internal/services/file_usecase.go:62-112 | one more row extends the keys and the debts by that row's own |
| RosterParser.DedupStep | internal/services/file_usecase.go:78-89 | a new key is appended and a seen key is reused |
| RosterParser.StudentKeysSpec | internal/services/file_usecase.go:39-55 | the map holds exactly the columns whose header names a student, and has as many entries as there are kept students |
| RosterParser.KeptBound | internal/services/file_usecase.go:36-55 | never more students than header cells |
| RosterParser.KeptContains | internal/services/file_usecase.go:53-54 | every student a header names is among the returned students |
| RosterParser.RowDebtsCutoff | internal/services/file_usecase.go:93-95 | no cell at or past the kept-student count records a debt |
| RosterParser.DedupSpec | internal/services/file_usecase.go:78-89 | every key is kept, each exactly once |
| RosterParser.TeacherListContains | internal/services/file_usecase.go:78-89 | a valid key's teacher is among the returned teachers |
| RosterParser.TeacherListOrigin | internal/services/file_usecase.go:81-88 | every returned teacher is the teacher of some key |
| RosterParser.RowDebtsWellFormed | internal/services/file_usecase.go:97-111 | each debt of a row names a kept student and the row's teacher, with a trimmed, non-empty exam name |
| RosterParser.DebtsReferToParsed | internal/services/file_usecase.go:62-111 | every debt's student and teacher are among the returned students and teachers |
| RosterParser.SkippedHeaderHidesLaterStudent | internal/services/file_usecase.go:93-95 | with a first header naming no student and a second naming one, that student is kept but no row records a debt for it |
| Repo.Skip | internal/infrastructure/postgres/exam_repo.go:379-381 | no row is skipped at offset 0; a positive offset below 2^64 skips that many rows, at most all |
| Repo.Page | internal/infrastructure/postgres/exam_repo.go:376-381 | the result is the contiguous window after the skipped rows; limit 0 keeps the rest; otherwise at most uint64(limit) rows |
| Repo.PageAll | internal/infrastructure/postgres/teacher_repo.go:226-231 | without limit and offset every row comes back |
| Repo.Int64ToUint64 | internal/infrastructure/postgres/teacher_repo.go:226-231 | `uint64` of a non-negative int64 is itself; of a negative one it is x + 2^64, at least 2^63 |
| Repo.PagingFitsIffNonNegative | internal/infrastructure/postgres/exam_repo.go:376-381 | for int64 values, the paging literals are within bigint exactly when neither limit nor offset is negative |
| Repo.ScanStudent | internal/infrastructure/postgres/student_repo.go:263-295 | scans iff the student's group exists; UUID, email, password and group ID come from the row |
| Repo.ScanDebt | internal/infrastructure/postgres/exam_repo.go:370-438 | a scanned debt is complete; ID, date, address and the three keys come from the row |
| Repo.ScanDebtJoins | internal/infrastructure/postgres/exam_repo.go:370-374 | a row scans iff its exam, student, student's group and teacher all exist |
| Repo.ScanDebts | internal/infrastructure/postgres/exam_repo.go:410-440 | succeeds iff every row scans, and then gives one debt per row, in order |
| Repo.ScanStudents | internal/infrastructure/postgres/student_repo.go:283-302 | succeeds iff every row scans, and then gives one student per row, in order |
| Repo.SelectedDebtRows | internal/infrastructure/postgres/exam_repo.go:376-393 | every row is a stored row the WHERE clause keeps; without paging, every such row is there |
| Repo.QueryDebts | internal/infrastructure/postgres/exam_repo.go:345-442 | filters that fail Validate give that error wrapped as infrastructure; paging beyond bigint gives no debts and no error, because `rows.Err()` is never read (401-405); success iff the filters are valid; every returned debt is complete |
| Repo.QueryDebtsScans | internal/infrastructure/postgres/exam_repo.go:401-442 | a valid query with fitting paging succeeds iff every selected row scans, fails otherwise with the scan error, and returns the scanned rows in order |
| Repo.QueryDebtsSound | internal/infrastructure/postgres/exam_repo.go:382-393 | every returned debt is complete and satisfies each non-empty student, teacher, exam and debt-ID filter |
| Repo.SelectedStudentRows | internal/infrastructure/postgres/student_repo.go:265-270 | a stored row is selected iff its UUID and email pass the non-empty lists |
| Repo.QueryStudents | internal/infrastructure/postgres/student_repo.go:247-305 | Validate's error comes back bare; a scan failure is bare; on success, one scanned student per selected row, with no paging |
| Repo.QueryStudentsSound | internal/infrastructure/postgres/student_repo.go:265-270 | every returned student has a group and passes the UUID and email filters |
| Repo.QueryTeachers | internal/infrastructure/postgres/teacher_repo.go:211-262 | paging beyond bigint gives no teachers, because `rows.Err()` is never read; always at most the stored teachers, each stored and passing the UUID and email filters; without paging, exactly those in storage order |
| Repo.QueryExams | internal/infrastructure/postgres/exam_repo.go:304-344 | succeeds iff Validate passes, whose error comes back bare; paging beyond bigint gives no exams, because `rows.Err()` is never read; otherwise stored exams passing the ID filter |
| Repo.QueryExamById | internal/infrastructure/postgres/exam_repo.go:223-237 | a stored exam with a listed ID; "no rows" iff none has one |
| Repo.SearchTeacherRows | internal/infrastructure/postgres/teacher_repo.go:24-91 | teachers passing every non-empty list, without passwords |
| Repo.SearchStudentRows | internal/infrastructure/postgres/student_repo.go:49-121 | students passing every non-empty list, without passwords, with the group carrying only its ID |
| Repo.CountDebts | internal/domain/repositories/student_repository.go:19 | the count is at most the row count, and zero iff no row is the student's |
| Repo.ApplyDebtUpdate | internal/infrastructure/postgres/exam_repo.go:446-472 | rows with the ID get date, both UUIDs and address; every other row is unchanged |
| Repo.ApplyPassword | internal/infrastructure/postgres/student_repo.go:24-47 | rows with the UUID get the password as given; every other row is unchanged |
| Repo.FreshUuid | internal/infrastructure/postgres/student_repo.go:219 | the n-th generated UUID has length n + 1, so distinct inserts get distinct UUIDs |
| Repo.Repository.GetDebts | internal/infrastructure/postgres/exam_repo.go:345-442 | a failing call gives its error wrapped as infrastructure (401-405); otherwise QueryDebts; every returned debt is complete |
| Repo.Repository.GetStudents | internal/infrastructure/postgres/student_repo.go:247-305 | a failing call gives its error; otherwise QueryStudents |
| Repo.Repository.GetTeachers | internal/infrastructure/postgres/teacher_repo.go:206-262 | a failing call gives its error; otherwise QueryTeachers |
| Repo.Repository.GetExams | internal/infrastructure/postgres/exam_repo.go:304-344 | a failing call gives its error; otherwise QueryExams |
| Repo.Repository.GetExamByID | internal/infrastructure/postgres/exam_repo.go:223-237 | a failing call gives its error wrapped as infrastructure (226, 233); otherwise QueryExamById |
| Repo.Repository.SearchTeachers | internal/infrastructure/postgres/teacher_repo.go:24-91 | a failing call gives its error; otherwise SearchTeacherRows |
| Repo.Repository.SearchStudents | internal/infrastructure/postgres/student_repo.go:49-121 | a failing call gives its error; otherwise SearchStudentRows |
| Repo.Repository.GetAmountOfDebtsForStudent | internal/domain/repositories/student_repository.go:19 | a failing call gives its error; otherwise the student's debt-row count |
| Repo.Repository.CreateDebt | internal/infrastructure/postgres/exam_repo.go:180-207 | appends a row with the next serial ID and the three keys, but no date, and returns the ID; a failure changes nothing |
| Repo.Repository.UpdateDebt | internal/infrastructure/postgres/exam_repo.go:446-472 | the tables become ApplyDebtUpdate of the command; a failure is an infrastructure error and changes nothing |
| Repo.Repository.CreateStudent | internal/infrastructure/postgres/student_repo.go:215-245 | appends a student row with a fresh UUID and the command's fields, password as given; a failure changes nothing |
| Repo.Repository.CreateTeacher | internal/infrastructure/postgres/teacher_repo.go:99-128 | appends a teacher with a fresh UUID and the command's fields; a failure changes nothing |
| Repo.Repository.ChangeStudentPassword | internal/infrastructure/postgres/student_repo.go:24-47 | the student rows become ApplyPassword; a failure is an infrastructure error and changes nothing |
| Repo.Repository.SendNotification | internal/infrastructure/mail/student_mail.go:75-115 | an empty recipient is refused before sending; otherwise one letter is appended to the outbox, and a failure sends nothing |
| Repo.FilterAppend | internal/infrastructure/postgres/teacher_repo.go:220-225 | filtering distributes over concatenation |
| Repo.FilterNone | internal/infrastructure/postgres/student_repo.go:265-270 | a filter nothing passes keeps nothing |
| Repo.FilterAll | internal/infrastructure/postgres/teacher_repo.go:220-225 | a filter everything passes keeps the whole sequence, in order |
| ExamService.ResolvedExam | internal/services/exam_usecase.go:145-155 | ID 0 is kept without a lookup; otherwise the lookup's error, or the requested ID |
| ExamService.ResolvedStudent | internal/services/exam_usecase.go:157-170 | "" is kept without a lookup; otherwise the search's error, bare ErroNoItemsFound for no match, or the requested UUID |
| ExamService.ResolvedTeacher | internal/services/exam_usecase.go:172-185 | as ResolvedStudent, over teachers |
| ExamService.ResolveParties | internal/services/exam_usecase.go:145-185 | exam, then student, then teacher; the first failure is the result, and success keeps all three keys |
| ExamService.DateOr | internal/services/exam_usecase.go:187-190 | a missing date becomes now; a supplied one is kept |
| ExamService.DebtView | internal/services/exam_usecase.go:52-79 | the record GetDebts builds is DebtFromDomain of the debt |
| ExamService.DebtViews | internal/services/exam_usecase.go:49-80 | one DebtFromDomain per repository debt, count and order kept |
| ExamService.ExamUsecase.GetDebts | internal/services/exam_usecase.go:40-83 | the unfiltered, unpaged query's error comes back bare; no debts gives ErroNoItemsFound; otherwise every debt converted, in order |
| ExamService.ExamUsecase.CreateDebt | internal/services/exam_usecase.go:144-204 | a resolution failure returns before anything is written; otherwise a row with the given keys is appended and its ID returned |
| ExamService.ExamUsecase.UpdateDebt | internal/services/exam_usecase.go:94-142 | student, then teacher, is resolved with no exam lookup; on success the row with the debt's ID gets the defaulted date, both UUIDs and no address |
| ExamService.ExamUsecase.GetDebt | internal/services/exam_usecase.go:206-244 | the query's error, or ErroNoItemsFound for no match; otherwise the first match, converted, with the requested ID and the last name as middle name |
| ExamService.ExamUsecase.GetExams | internal/services/exam_usecase.go:272-292 | the repository's error bare; otherwise its exams converted, count and order kept |
| ExamService.GetDebtFindsRequested | internal/services/exam_usecase.go:207-232 | a debt GetDebt returns is stored under the requested ID, and its middle name is its last name |
| ExamService.EmptyKeysResolve | internal/services/exam_usecase.go:145-185 | a zero exam ID and empty UUIDs resolve without any lookup |
| ExamService.UnknownStudentNotFound | internal/services/exam_usecase.go:157-166 | an unknown student UUID stops the resolution with ErroNoItemsFound |
| StudentService.UniqueGroups | internal/services/student_usecase.go:141-147 | an ID is a key iff it is the group ID of some debt; each value is that group |
| StudentService.CollectGroups | internal/services/student_usecase.go:141-147 | the loop computes UniqueGroups |
| StudentService.ListGroups | internal/services/student_usecase.go:148-154 | every group of the map appears once, converted, in any order |
| StudentService.ListedGroupsExactlyOnce | internal/services/student_usecase.go:133-157 | every debt's group is listed, and every listed group is the group of one of the debts |
| StudentService.StudentUsecase.GetAmountOfDebts | internal/services/student_usecase.go:29-31 | the repository's count for the UUID, passed through; zero iff the student has no debt row |
| StudentService.StudentUsecase.ChangePassword | internal/services/student_usecase.go:34-36 | the UUID and password are forwarded unchanged and stored as given |
| StudentService.StudentUsecase.CreateStudent | internal/services/student_usecase.go:39-54 | the stored password is the hash of the plaintext; the group ID comes from the student's group; a failure gives "" and the error |
| StudentService.StudentUsecase.GetStudents | internal/services/student_usecase.go:80-100 | the repository's error bare; otherwise its students converted, count and order kept |
| StudentService.StudentUsecase.GetAllDebts | internal/services/student_usecase.go:119-160 | a failing first query is an infrastructure error. Otherwise success iff every per-exam lookup succeeds, and then each debt is converted, in order, with the groups of its exam. The first failing lookup is the error |
| StudentService.StudentUsecase.AttachGroups | internal/services/student_usecase.go:133-157 | every converted debt gets its exam's groups; the first failing lookup is the error |
| StudentService.StudentUsecase.ExamGroups | internal/services/student_usecase.go:134-156 | one lookup's error, wrapped as infrastructure, or the distinct groups of the exam's debts |
| StudentService.StudentUsecase.ExamLookupSameExam | internal/services/student_usecase.go:134-136 | the lookup returns only debts of the asked-for exam |
| StudentService.StudentUsecase.NotificationPlan | internal/services/student_usecase.go:162-206 | every failure is ErroNoItemsFound; success iff the student, the exam's debts and the first debt's teacher are all non-empty. The letter names the first student, the requested exam ID with the first debt's exam name, and the first teacher's email |
| StudentService.StudentUsecase.SendNotification | internal/services/student_usecase.go:162-213 | nothing is sent when a step finds nothing; otherwise the planned letter is sent, and a mailer error is an infrastructure error |
| StudentService.StudentUsecase.GetStudentByEmail | internal/services/student_usecase.go:215-231 | an infrastructure error on failure; otherwise the students converted, count and order kept, each with the email |
| StudentService.NotificationPlanSound | internal/services/student_usecase.go:165-206 | the letter is about the requested student, the debt is of the requested exam, and the recipient is a stored teacher of that debt |
| StudentService.ZeroLimitRefused | internal/services/student_usecase.go:80-84 | GetStudents with limit 0 is refused by the filter validator |
| StudentService.StudentsNotPaged | internal/infrastructure/postgres/student_repo.go:247-305 | any two non-zero limits, with any offsets, give the same students |
| TeacherService.TeacherUsecase.CreateTeacher | internal/services/teacher_usecase.go:28-41 | the names and email are stored and the password is empty; a failure gives "" and the error |
| TeacherService.TeacherUsecase.GetTeachers | internal/services/teacher_usecase.go:67-87 | the repository's error bare; otherwise its teachers converted, count and order kept, passwords included |
| TeacherService.TeacherUsecase.GetAllDebts | internal/services/teacher_usecase.go:105-120 | an infrastructure error on failure; otherwise the teacher's debts converted, count and order kept |
| TeacherService.TeacherUsecase.SetDatePlan | internal/services/teacher_usecase.go:122-146 | an unparsable date is an application error before any lookup; a failing lookup an infrastructure error; no match ErroNoItemsFound. Otherwise the update carries the requested ID, the parsed date, the given teacher and the first match's student |
| TeacherService.TeacherUsecase.SetDate | internal/services/teacher_usecase.go:122-152 | nothing changes when the plan stops; otherwise the planned update is applied, and an update error comes back wrapped twice |
| TeacherService.TeacherUsecase.GetTeacherByEmail | internal/services/teacher_usecase.go:154-169 | an infrastructure error on failure; otherwise the teachers converted, count and order kept, each with the email |
| TeacherService.SetDateTargetsStoredDebt | internal/services/teacher_usecase.go:129-145 | the updated ID belongs to a stored debt row of the planned student |
| TeacherService.EmptyTeacherUuidRefused | internal/services/teacher_usecase.go:105-117 | an empty teacher UUID is refused by the debt filter validator |
| TeacherService.NegativePagingListsNobody | internal/services/teacher_usecase.go:67-71 | with a negative int64 limit or offset the repository query lists nobody and reports no error: the database's refusal is lost because `rows.Err()` is never read |
| TeacherService.AllTeachersListed | internal/services/teacher_usecase.go:67-71 | with no limit or offset, every stored teacher is listed, in storage order |

## Left out

- Spreadsheet reading (`excelize` `GetRows`) and the printing loops of `ParseFile`: the grid
  is the input and the lists are returned.
- `ParseFile` on a grid whose header row is empty: `rows[0][1:]` panics in Go, so this is a
  precondition.
- The other panics are preconditions too: a nil student group in `CreateStudent`, and nil
  exam, student or teacher pointers in `CreateDebt` and `UpdateDebt`.
- Generator.GeneratePassword: a negative length makes `make` panic in Go
  (utils/generator/password.go:20), and the `nat` parameter excludes it.
- `crypto/rand`: its outcomes are the `draws` parameter of `GeneratePassword`.
- `Generator.GeneratePassword` requires as many draws as characters, because the random
  source is unbounded.
- JWT signing and parsing (HMAC): `ValidateAccessToken` takes what the library would report
  as a parameter.
- The hasher: `CreateStudent` takes the hash as a parameter.
- `time.Now` and `time.Parse`: the instants are parameters, and a date is an opaque count of
  nanoseconds.
- SMTP: the mailer appends a letter to an outbox. Its message text is left out.
- The text of errors and the runtime caller lookup of `log.ErrorWrapper`: an error is its
  root cause plus the layers wrapped around it.
- Logging, `fmt.Println` and context values.
- SQL text, transactions and connection pooling.
- `Repo.Repository.GetTeachers` does not apply `GetTeachersFilters.Validate`. As declared, that
  validator would reject every call the usecases make, because none of them sets `UUIDs` except
  the lookups by UUID.
- UUID generation is a counter, and primary-key uniqueness is not enforced: a lookup takes the
  first match. The counter's strings may also equal UUIDs already in the initial tables.
- `internal/domain/repositories/student_repository.go:19` declares
  `GetAmountOfDebtsForStudent`, but no implementation is part of this model. It is modelled as
  the count of the student's debt rows.
- int64 values are unbounded integers, except where Go converts them to `uint64` for LIMIT and
  OFFSET.
- Of PostgreSQL's type rules, only the bigint range of the LIMIT and OFFSET literals is
  modelled. The model takes pgx v5's behaviour as given: an error raised while the statement
  executes appears only through `rows.Err()`, and `rows.Next()` is then false at once.
- Row order: none of the SELECTs has an ORDER BY, so PostgreSQL may return rows in any
  order. The model uses storage order for it. The first-match picks (`GetDebt`, `SetDatePlan`,
  the notification plan, `ValidateAccessToken`) and the LIMIT/OFFSET windows inherit that
  choice.
- Strings are sequences of code points, while Go's `strings.Split`, `TrimPrefix` and indexing
  work on UTF-8 bytes. The two agree for valid UTF-8 with the ASCII separators used here.
- The single-call usecases `CreateExam`, `DeleteDebt`, `DeleteExam`, `GetExam`, `UpdateExam`,
  `DeleteStudent`, `GetStudent`, `UpdateStudent`, `DeleteTeacher`, `GetTeacher` and
  `UpdateTeacher`: each forwards one repository call over operations this model does not hold.
- The group usecase, the legacy usecases under `internal/application` (their constructors
  leave the repository nil), the HTTP layer, configuration and server start-up.
- StudentService.ListedGroupsExactlyOnce: it does not restate that list IDs are distinct,
  because its `ListsGroups` precondition already says so.
- The order in which `GetAllDebts` lists groups: it follows Go's map iteration, so the model
  picks keys in an unspecified order.
