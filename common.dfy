/** Types shared by every service of the CRM: identifiers, the two closed enums,
    the error taxonomy the services throw, and the wrapper datatypes. */
module Common {

  /** Record identifiers are opaque strings assigned by the store. */
  type Id = string

  /** The user roles of the CRM (a closed enum). */
  datatype Role = ADMIN | EMPLOYEE

  /** The statuses a task can be in (a closed enum). */
  datatype TaskStatus = PENDING | IN_PROGRESS | DONE

  datatype Option<+T> = None | Some(value: T) {
    /** The wrapped value, or `default` when there is none (`??` in the source). */
    function GetOr(default: T): T {
      match this
      case Some(v) => v
      case None => default
    }
  }

  datatype Result<+T, +E> = Ok(value: T) | Err(error: E)

  /** An error reported by the store: its code (`"P2002"`, `"P2025"`, ...) and,
      for a unique violation, the fields of the violated constraint. */
  datatype StoreError = StoreError(code: string, target: seq<string>)

  /** The HTTP exception classes the services throw. */
  datatype ErrorKind =
    | BadRequest    // 400
    | Unauthorized  // 401
    | Forbidden     // 403
    | NotFound      // 404
    | Conflict      // 409

  /** What a service operation fails with: one of its own exceptions, or a store
      error it does not translate and lets propagate (a 500 to the client). */
  datatype Error =
    | Http(kind: ErrorKind, message: string)
    | Unhandled(cause: StoreError)

  /** The error both the customer directory and task creation raise for an
      absent customer. */
  const CustomerNotFound: Error := Http(NotFound, "Customer not found")

  function Min(a: int, b: int): int { if a <= b then a else b }
  function Max(a: int, b: int): int { if a >= b then a else b }
}
