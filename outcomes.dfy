/** Exceptions as values. The bridge's own exception classes only forward a message to
    their superclass, so each becomes a tag carrying that message; a call either returns
    normally or throws one of these. */
module Outcomes {

  datatype Option<+T> = None | Some(value: T) {
    /** This if present, else `other`: of two calls made in order, the first refusal wins. */
    function OrElse(other: Option<T>): (r: Option<T>)
      ensures r.None? <==> None? && other.None?
      ensures Some? ==> r == this
    {
      if Some? then this else other
    }
  }

  /** The exceptions the bridge raises, catches or lets escape. */
  datatype Fault =
    | SqlException(message: string)
    | DatabaseException(message: string)
    | InvalidStatementType(message: string)
    | InvalidPreparedStatementType(message: string)
    | NullPointer

  /** The message of `new DatabaseException(cause)` for an SQLException cause: Java takes
      the cause's toString(), that is its class name, a colon and its message. */
  function CauseMessage(sqlMessage: string): string {
    "java.sql.SQLException: " + sqlMessage
  }

  /** A normal return of a T or a thrown fault; `:-` propagates the fault as Java would. */
  datatype Outcome<+T> = Ok(value: T) | Thrown(fault: Fault) {
    predicate IsFailure() { Thrown? }

    function PropagateFailure<U>(): Outcome<U>
      requires Thrown?
    {
      Thrown(fault)
    }

    function Extract(): T
      requires Ok?
    {
      value
    }

    /** The fault thrown, if any. */
    function Failure(): (r: Option<Fault>)
      ensures r.None? <==> Ok?
      ensures r.Some? ==> this == Thrown(r.value)
    {
      if Ok? then None else Some(fault)
    }
  }

  /** What a call that the driver may refuse yields: the refusal if there is one, else `result`. */
  function Guarded<T>(refusal: Option<Fault>, result: Outcome<T>): Outcome<T> {
    if refusal.Some? then Thrown(refusal.value) else result
  }
}
