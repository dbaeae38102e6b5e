/** How `lunar_mission_detail` and `book_flight` of mysite/polls/views.py turn a failed lookup
    into an answer. Both look the row up with `get_object_or_404` inside a `try` whose first
    handler is `except <Model>.DoesNotExist` (answer 404 "Not found") and whose second is
    `except Exception` (answer 422 "Validation error"). */
module Handlers {
  import opened Common
  import Flights
  import MissionDesk

  /** The exceptions the handlers' `except` clauses tell apart: `Http404`, which
      `get_object_or_404` raises and which derives from `Exception` only; the model's own
      `DoesNotExist`; everything else. */
  datatype Raised = Http404 | ModelDoesNotExist | OtherException

  /** The two error answers of the handlers. */
  datatype ErrorReply = NotFoundReply | ValidationErrorReply

  /** `get_object_or_404`: the matching row, or `Http404` when there is none. */
  function GetObjectOr404<T>(row: Option<T>): (r: Result<T, Raised>)
    ensures r.Ok? <==> row.Some?
    ensures r.Ok? ==> r.value == row.value
    ensures r.Err? ==> r.error == Http404
  {
    match row
    case Some(x) => Ok(x)
    case None => Err(Http404)
  }

  /** The handlers' `except` chain as written: only `ModelDoesNotExist` is answered 404. */
  function CatchAsWritten(e: Raised): ErrorReply
  {
    match e
    case ModelDoesNotExist => NotFoundReply
    case _ => ValidationErrorReply
  }

  /** As written, a lookup that finds nothing is answered 422, never 404: the `DoesNotExist`
      clause cannot fire for it. */
  lemma MissingRowAnsweredAsValidationError<T>(row: Option<T>)
    ensures GetObjectOr404(row).Err? ==> CatchAsWritten(GetObjectOr404(row).error) == ValidationErrorReply
    ensures GetObjectOr404(row).Err? <==> row.None?
  {
  }

  /** The dispatch the handlers evidently intend: a missing row, however signalled, is answered
      404, and every other failure 422. */
  function Catch(e: Raised): ErrorReply
  {
    match e
    case Http404 => NotFoundReply
    case ModelDoesNotExist => NotFoundReply
    case OtherException => ValidationErrorReply
  }

  /** With the intended dispatch, a lookup is answered 404 exactly when it finds nothing;
      otherwise the two dispatches agree. */
  lemma MissingRowAnsweredNotFound<T>(row: Option<T>)
    ensures (GetObjectOr404(row).Err? && Catch(GetObjectOr404(row).error) == NotFoundReply) <==> row.None?
    ensures forall e: Raised :: e != Http404 ==> Catch(e) == CatchAsWritten(e)
  {
  }

  /** The answer to a failed update or deletion of a mission. The store reports a missing id
      as `NotFound`, which the intended dispatch answers 404; a request that failed part-way
      raised some other exception and is answered 422. */
  function DetailReply(e: MissionDesk.DetailError): (reply: ErrorReply)
    ensures reply == NotFoundReply <==> e.NotFound?
  {
    match e
    case NotFound => Catch(Http404)
    case Rejected(_) => Catch(OtherException)
  }

  /** The answer to a failed booking: an unknown flight number is answered 404; a request
      without a flight number raised a `KeyError` and is answered 422, as are the two explicit
      refusals. */
  function BookReply(e: Flights.BookError): (reply: ErrorReply)
    ensures reply == NotFoundReply <==> e.NotFound?
  {
    match e
    case NotFound => Catch(Http404)
    case MissingFlightNumber => Catch(OtherException)
    case NoSeatsAvailable => ValidationErrorReply
    case AlreadyBooked => ValidationErrorReply
  }
}
