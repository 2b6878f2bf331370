/**
 * The error values of the services: the sentinel errors of utils/errors and pkg/errors,
 * and the layer tag that log.ErrorWrapper attaches to an error.
 */
module Errors {

  /** The layer names of utils/errors/errors.go (ERR_DOMAIN, ERR_APPLICATION, ...). */
  datatype Layer = Domain | Application | Interfaces | Infrastructure

  /** Root causes: the sentinel errors, and errors coming out of collaborators. */
  datatype Cause =
    | InvalidFilters        // utils/errors ErrInvalidFilters, "search filters are invalid"
    | InvalidCommand        // utils/errors ErrInvalidCommand
    | PkgInvalidFilters     // pkg/errors ErrInvalidFilters: the same text, a distinct sentinel
    | PkgInvalidCommand     // pkg/errors ErrInvalidCommand: the same text, a distinct sentinel
    | InvalidData           // ErrInvalidData
    | NoItemsFound          // ErroNoItemsFound, "no items found"
    | NotEnoughRows         // "not enough rows in the table"
    | RandomSourceFailure   // an error from crypto/rand
    | DateParseFailure      // an error from time.Parse
    | TeacherEmailRequired  // the mailer's "teacher email is required"
    | RepositoryFailure(op: string)  // any other error a repository call returns

  /** An error as returned: a bare sentinel, or one wrapped with a layer by log.ErrorWrapper. */
  datatype Error = Plain(cause: Cause) | Wrapped(inner: Error, layer: Layer) {
    /** The sentinel at the bottom of the wrapping, what errors.Is would find. */
    function Root(): Cause {
      match this
      case Plain(c) => c
      case Wrapped(e, _) => e.Root()
    }
  }

  /** log.ErrorWrapper(err, layer, ""): tags an error with a layer and keeps its root cause. */
  function Wrap(e: Error, layer: Layer): (r: Error)
    ensures r.Root() == e.Root()
  {
    Wrapped(e, layer)
  }
}
