/** Option and Result, the failure-carrying datatypes used throughout the model. */
module Wrappers {

  datatype Option<+T> = None | Some(value: T) {

    /** The value held, or `default` when there is none. */
    function GetOr(default: T): T
    {
      match this
      case Some(v) => v
      case None => default
    }
  }

  datatype Result<+R, +E> = Success(value: R) | Failure(error: E)

  /**
   * A Python exception as the engine observes it: the name of its class
   * (`type(e).__name__`) and its string form (`str(e)`).
   */
  datatype Exception = Exception(kind: string, message: string)

  /** The exception classes of the database layer (subclasses of SQLAlchemyError). */
  predicate IsDatabaseError(e: Exception)
  {
    e.kind in {"SQLAlchemyError", "DBAPIError", "DatabaseError", "IntegrityError",
               "OperationalError", "ProgrammingError", "DataError", "InternalError",
               "InvalidRequestError"}
  }
}
