/** The error taxonomy every service returns: a status code and a message. */
module AppErrors {

  /** The five kinds of failure a service reports. */
  datatype Kind = Validation | Unauthorized | NotFound | Conflict | Internal

  /** The HTTP status the transport layer sends for each kind. */
  function StatusOf(k: Kind): int {
    match k
    case Validation => 400
    case Unauthorized => 401
    case NotFound => 404
    case Conflict => 409
    case Internal => 500
  }

  /** Reads a status code back as a kind; codes outside the taxonomy have none. */
  function KindOfStatus(code: int): (k: Option<Kind>)
    ensures k.Some? ==> StatusOf(k.value) == code
  {
    if code == 400 then Some(Validation)
    else if code == 401 then Some(Unauthorized)
    else if code == 404 then Some(NotFound)
    else if code == 409 then Some(Conflict)
    else if code == 500 then Some(Internal)
    else None
  }

  datatype Option<T> = None | Some(value: T)

  datatype AppError = AppError(code: int, message: string) {
    /** The text of the error is its message, unchanged. */
    function Error(): string { message }

    function KindOf(): Option<Kind> { KindOfStatus(code) }
  }

  /** Outcome of an operation that returns only an error (nil on success). */
  datatype Outcome = Done | Fail(error: AppError)

  /** Outcome of an operation that returns a value or an error. */
  datatype Result<T> = Ok(value: T) | Err(error: AppError)

  function NewValidationError(msg: string): (e: AppError)
    ensures e.code == 400 && e.KindOf() == Some(Validation)
    ensures e.Error() == msg
  {
    AppError(400, msg)
  }

  function NewNotFoundError(msg: string): (e: AppError)
    ensures e.code == 404 && e.KindOf() == Some(NotFound)
    ensures e.Error() == msg
  {
    AppError(404, msg)
  }

  function NewConflictError(msg: string): (e: AppError)
    ensures e.code == 409 && e.KindOf() == Some(Conflict)
    ensures e.Error() == msg
  {
    AppError(409, msg)
  }

  function NewInternalError(msg: string): (e: AppError)
    ensures e.code == 500 && e.KindOf() == Some(Internal)
    ensures e.Error() == msg
  {
    AppError(500, msg)
  }

  function NewUnauthorizedError(msg: string): (e: AppError)
    ensures e.code == 401 && e.KindOf() == Some(Unauthorized)
    ensures e.Error() == msg
  {
    AppError(401, msg)
  }

  /** Every kind has its own status code: the status identifies the kind. */
  lemma StatusIdentifiesKind(k: Kind, k': Kind)
    ensures KindOfStatus(StatusOf(k)) == Some(k)
    ensures StatusOf(k) == StatusOf(k') ==> k == k'
  {
  }

  predicate IsKind(e: AppError, k: Kind) {
    e.code == StatusOf(k)
  }
}
