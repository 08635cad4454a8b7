/**
 * How a failed request becomes an HTTP answer: RouterImpl.commonError for
 * the routes of the settings router (tenant addresses, base URL, locale,
 * upload), and the commonError and failure handler that SettingsService
 * and ConfigService each define the same way for their own routes.
 *
 * The text of an exception (getMessage) is carried by UserError,
 * IllegalArgument and Failure; for the other kinds it is foreign and given
 * by `messageOf`. HttpResponseStatus.reasonPhrase is `reasonPhrase`.
 */
module ErrorMapping {
  import opened Common

  const HttpBadRequest := 400
  const HttpForbidden := 403
  const HttpNotFound := 404
  const HttpInternalError := 500

  /** cause.getMessage(). */
  function Message(e: Error, messageOf: Error -> string): string {
    match e
    case UserError(m) => m
    case IllegalArgument(m) => m
    case Failure(m) => m
    case _ => messageOf(e)
  }

  /** RouterImpl's choice of status for a cause. */
  function RouterStatus(e: Error, defaultCode: int): int {
    match e
    case Forbidden => HttpForbidden
    case NotFound => HttpNotFound
    case UserError(_) => HttpBadRequest
    case IllegalArgument(_) => HttpBadRequest
    case _ => defaultCode
  }

  /**
   * RouterImpl.commonError(ctx, cause, defaultCode): a null cause is
   * answered with the default code and its reason phrase; otherwise the
   * cause's kind picks the status and its message is the body.
   */
  function RouterError(cause: Option<Error>, defaultCode: int, reasonPhrase: int -> string,
                       messageOf: Error -> string): Answer {
    match cause
    case None => Answer(defaultCode, reasonPhrase(defaultCode))
    case Some(e) => Answer(RouterStatus(e, defaultCode), Message(e, messageOf))
  }

  /** RouterImpl.commonError(ctx, cause): the default code is 500. */
  function RouterCommonError(e: Error, reasonPhrase: int -> string, messageOf: Error -> string): Answer {
    RouterError(Some(e), HttpInternalError, reasonPhrase, messageOf)
  }

  /** RouterImpl.failureHandler: the context's failure, with its status code as the default. */
  function RouterFailure(failure: Option<Error>, statusCode: int, reasonPhrase: int -> string,
                         messageOf: Error -> string): Answer {
    RouterError(failure, statusCode, reasonPhrase, messageOf)
  }

  /**
   * A failed future of a route is answered 403, 404 or 400 by the storage
   * exceptions and by IllegalArgumentException (a malformed UUID or
   * number), and 500 exactly for database and other failures; the body is
   * the cause's message.
   */
  lemma RouterCommonErrorMeaning(e: Error, reasonPhrase: int -> string, messageOf: Error -> string)
    ensures var a := RouterCommonError(e, reasonPhrase, messageOf);
      && a.body == Message(e, messageOf)
      && (a.status == HttpForbidden <==> e.Forbidden?)
      && (a.status == HttpNotFound <==> e.NotFound?)
      && (a.status == HttpBadRequest <==> e.UserError? || e.IllegalArgument?)
      && (a.status == HttpInternalError <==> e.PgError? || e.Failure?)
  {
  }

  /**
   * The failure handler answers a failure without a cause with the
   * context's code and its reason phrase; a cause of a known kind keeps
   * the status that kind picks, whatever the context's code.
   */
  lemma RouterFailureMeaning(failure: Option<Error>, statusCode: int, reasonPhrase: int -> string,
                             messageOf: Error -> string)
    ensures failure.None? ==>
      RouterFailure(failure, statusCode, reasonPhrase, messageOf) == Answer(statusCode, reasonPhrase(statusCode))
    ensures failure.Some? && !failure.value.PgError? && !failure.value.Failure? ==>
      RouterFailure(failure, statusCode, reasonPhrase, messageOf) == RouterCommonError(failure.value, reasonPhrase, messageOf)
    ensures failure.Some? && (failure.value.PgError? || failure.value.Failure?) ==>
      RouterFailure(failure, statusCode, reasonPhrase, messageOf).status == statusCode
  {
  }

  /** SettingsService.commonError and ConfigService.commonError: their choice of status. */
  function ServiceStatus(e: Error): int {
    match e
    case Forbidden => HttpForbidden
    case NotFound => HttpNotFound
    case UserError(_) => HttpBadRequest
    case _ => HttpInternalError
  }

  /** SettingsService.commonError and ConfigService.commonError. */
  function ServiceError(e: Error, messageOf: Error -> string): Answer {
    Answer(ServiceStatus(e), Message(e, messageOf))
  }

  /**
   * The failure handler of SettingsService and ConfigService: the
   * context's status code and its reason phrase, whatever the failure.
   */
  function ServiceFailure(statusCode: int, reasonPhrase: int -> string): Answer {
    Answer(statusCode, reasonPhrase(statusCode))
  }

  /**
   * The settings and configuration routes answer as the settings router
   * does, except for an IllegalArgumentException (a malformed UUID in a
   * header or the path), which they answer 500 where the router answers
   * 400.
   */
  lemma ServiceAgreesWithRouter(e: Error, reasonPhrase: int -> string, messageOf: Error -> string)
    ensures !e.IllegalArgument? ==> ServiceError(e, messageOf) == RouterCommonError(e, reasonPhrase, messageOf)
    ensures e.IllegalArgument? ==>
      ServiceError(e, messageOf).status == HttpInternalError
      && RouterCommonError(e, reasonPhrase, messageOf).status == HttpBadRequest
    ensures ServiceError(e, messageOf).body == RouterCommonError(e, reasonPhrase, messageOf).body
  {
  }

  /** The two failure handlers agree on a failure without a cause. */
  lemma FailureHandlersAgree(statusCode: int, reasonPhrase: int -> string, messageOf: Error -> string)
    ensures RouterFailure(None, statusCode, reasonPhrase, messageOf) == ServiceFailure(statusCode, reasonPhrase)
  {
  }
}
