/**
 * The access-token middleware: the claims a new token carries, and the checks a request's
 * Authorization header goes through before the role and UUID are put in the request context.
 * Signing and parsing the token are HMAC operations outside this model; parsing is a
 * parameter that says what the JWT library would report for a token string.
 */
module Auth {
  import opened Wrappers
  import opened GoStrings
  import Models
  import Queries
  import Repo

  const StudentRole := "student"
  const TeacherRole := "teacher"
  const AdminRole := "admin"
  const BearerPrefix := "Bearer "

  const NanosPerSecond := 1_000_000_000
  /** 120 minutes. */
  const TokenLifetime := 120 * 60 * NanosPerSecond

  /** An HTTP status and the error text of AbortWithStatusJSON. */
  datatype Abort = Abort(status: int, message: string)

  const Unauthorized := 401
  const BadRequest := 400

  /** The registered claims as NumericDates: whole seconds since the Unix epoch. */
  datatype RegisteredClaims = RegisteredClaims(expiresAt: int, issuedAt: int, notBefore: int)

  datatype CustomClaims = CustomClaims(userUuid: string, registered: RegisteredClaims)

  /** What ParseWithClaims and the checks after it find in a token string. */
  datatype Parsed = ParseError | NotValid | ForeignClaims | Claims(claims: CustomClaims)

  /** What the middleware puts in the request context. */
  datatype Session = Session(role: string, uuid: string)

  /** jwt.NewNumericDate: the instant truncated to a whole second. */
  function NumericDate(t: Models.Date): int {
    t.nanos / NanosPerSecond
  }

  lemma NumericDateMonotone(a: Models.Date, b: Models.Date)
    requires a.nanos <= b.nanos
    ensures NumericDate(a) <= NumericDate(b)
  {
    var qa, qb := a.nanos / NanosPerSecond, b.nanos / NanosPerSecond;
    assert a.nanos == qa * NanosPerSecond + a.nanos % NanosPerSecond;
    assert b.nanos == qb * NanosPerSecond + b.nanos % NanosPerSecond;
  }

  /**
   * The claims of GenerateAccessToken. It reads the clock three times, for ExpiresAt,
   * IssuedAt and NotBefore in that order; read1..read3 are those readings.
   */
  function NewClaims(userUuid: string, read1: Models.Date, read2: Models.Date, read3: Models.Date): (c: CustomClaims)
    ensures c.userUuid == userUuid
    ensures c.registered.expiresAt == NumericDate(read1) + 7200
    ensures c.registered.issuedAt == NumericDate(read2) && c.registered.notBefore == NumericDate(read3)
  {
    var expires := Models.Date(read1.nanos + TokenLifetime);
    assert expires.nanos / NanosPerSecond == read1.nanos / NanosPerSecond + 7200;
    CustomClaims(userUuid, RegisteredClaims(NumericDate(expires), NumericDate(read2), NumericDate(read3)))
  }

  /**
   * A token is valid for 7200 seconds from its issue, and not before its issue, when the
   * clock reads the same instant three times; with a clock that moves forward the lifetime
   * is at most 7200 seconds and NotBefore is never earlier than IssuedAt.
   */
  lemma ClaimsWindow(userUuid: string, read1: Models.Date, read2: Models.Date, read3: Models.Date)
    ensures read1 == read2 == read3 ==>
      (NewClaims(userUuid, read1, read2, read3).registered ==
       RegisteredClaims(NumericDate(read2) + 7200, NumericDate(read2), NumericDate(read2)))
    ensures read1.nanos <= read2.nanos <= read3.nanos ==>
      var r := NewClaims(userUuid, read1, read2, read3).registered;
      r.expiresAt <= r.issuedAt + 7200 && r.issuedAt <= r.notBefore
  {
    if read1.nanos <= read2.nanos <= read3.nanos {
      NumericDateMonotone(read1, read2);
      NumericDateMonotone(read2, read3);
    }
  }

  /** The token of a "Bearer " Authorization header. */
  function ExtractToken(header: string): (r: Result<string, Abort>)
    ensures header == "" ==> r == Failure(Abort(Unauthorized, "Authorization header required"))
    ensures header != "" && !HasPrefix(header, BearerPrefix) ==> r == Failure(Abort(Unauthorized, "Bearer token malformed"))
    ensures header != "" && HasPrefix(header, BearerPrefix) ==> r.Success?
    ensures r.Success? ==> BearerPrefix + r.value == header
  {
    if header == "" then Failure(Abort(Unauthorized, "Authorization header required"))
    else
      var token := TrimPrefix(header, BearerPrefix);
      if token == header then Failure(Abort(Unauthorized, "Bearer token malformed"))
      else Success(token)
  }

  /** Any token, even an empty one, comes back out of the header built from it. */
  lemma ExtractTokenRoundTrip(token: string)
    ensures ExtractToken(BearerPrefix + token) == Success(token)
  {
    assert HasPrefix(BearerPrefix + token, BearerPrefix);
    assert (BearerPrefix + token)[|BearerPrefix|..] == token;
  }

  /**
   * The role of a user, by priority: student if a student has the UUID, otherwise admin if
   * the first teacher with it has the e-mail "admin", teacher if some teacher has it, and
   * no role at all otherwise.
   */
  function RoleOf(teachers: seq<Models.Teacher>, students: seq<Models.Student>): string {
    if |students| != 0 then StudentRole
    else if |teachers| != 0 && teachers[0].email == AdminRole then AdminRole
    else if |teachers| != 0 then TeacherRole
    else ""
  }

  /** The role is one of the three, or empty exactly when nobody has the UUID. */
  lemma RoleOfCases(teachers: seq<Models.Teacher>, students: seq<Models.Student>)
    ensures RoleOf(teachers, students) in {StudentRole, TeacherRole, AdminRole, ""}
    ensures RoleOf(teachers, students) == "" <==> |teachers| == 0 && |students| == 0
    ensures RoleOf(teachers, students) == AdminRole ==> |students| == 0 && teachers[0].email == AdminRole
  {
  }

  /**
   * ValidateAccessToken on a request's Authorization header. The role is looked up by the
   * claimed UUID among teachers, then among students; either search failing aborts the
   * request with 400.
   */
  method ValidateAccessToken(header: string, parse: string -> Parsed, repo: Repo.Repository) returns (r: Result<Session, Abort>)
    ensures ExtractToken(header).Failure? ==> r == Failure(ExtractToken(header).error)
    ensures ExtractToken(header).Success? ==>
      var parsed := parse(ExtractToken(header).value);
      (parsed.ParseError? || parsed.NotValid? ==> r == Failure(Abort(Unauthorized, "Invalid token"))) &&
      (parsed.ForeignClaims? ==> r == Failure(Abort(Unauthorized, "Invalid token claims"))) &&
      (parsed.Claims? && parsed.claims.userUuid == "" ==> r == Failure(Abort(Unauthorized, "Invalid user UUID in token"))) &&
      (parsed.Claims? && parsed.claims.userUuid != "" ==>
        var uuid := parsed.claims.userUuid;
        var teachers := repo.SearchTeachers(Queries.SearchTeacherFilters([uuid], [], [], [], []));
        var students := repo.SearchStudents(Queries.SearchStudentFilters([uuid], [], [], [], []));
        (teachers.Failure? || students.Failure? ==> r == Failure(Abort(BadRequest, "invalid request: cannot determine role"))) &&
        (teachers.Success? && students.Success? ==> r == Success(Session(RoleOf(teachers.value, students.value), uuid))))
  {
    var token;
    match ExtractToken(header) {
      case Failure(abort) =>
        return Failure(abort);
      case Success(t) =>
        token := t;
    }
    var claims;
    match parse(token) {
      case ParseError =>
        return Failure(Abort(Unauthorized, "Invalid token"));
      case NotValid =>
        return Failure(Abort(Unauthorized, "Invalid token"));
      case ForeignClaims =>
        return Failure(Abort(Unauthorized, "Invalid token claims"));
      case Claims(c) =>
        claims := c;
    }
    if claims.userUuid == "" {
      return Failure(Abort(Unauthorized, "Invalid user UUID in token"));
    }
    var teachers;
    match repo.SearchTeachers(Queries.SearchTeacherFilters([claims.userUuid], [], [], [], [])) {
      case Failure(_) =>
        return Failure(Abort(BadRequest, "invalid request: cannot determine role"));
      case Success(ts) =>
        teachers := ts;
    }
    var students;
    match repo.SearchStudents(Queries.SearchStudentFilters([claims.userUuid], [], [], [], [])) {
      case Failure(_) =>
        return Failure(Abort(BadRequest, "invalid request: cannot determine role"));
      case Success(ss) =>
        students := ss;
    }
    var role := "";
    if |teachers| != 0 {
      role := TeacherRole;
      if teachers[0].email == AdminRole {
        role := AdminRole;
      }
    }
    if |students| != 0 {
      role := StudentRole;
    }
    r := Success(Session(role, claims.userUuid));
  }
}
