/**
 * Values shared by every part of the model: Java's nullable references as
 * Option, the exceptions that cross layers as an Error kind, asynchronous
 * results as Result, JSON values and UUIDs.
 */
module Common {

  /** A Java reference that may be null. */
  datatype Option<+T> = None | Some(value: T)

  /**
   * The exception kinds the services tell apart.
   *  - Forbidden, NotFound and UserError are the storage layer's own
   *    ForbiddenException, NotFoundException and UserException;
   *  - IllegalArgument is java.lang.IllegalArgumentException and its
   *    subclasses (UUID.fromString and Integer.parseInt throw these);
   *  - PgError is io.vertx.pgclient.PgException with its SQLSTATE;
   *  - Failure is any other Throwable, with its message.
   */
  datatype Error =
    | Forbidden
    | NotFound
    | UserError(message: string)
    | IllegalArgument(message: string)
    | PgError(sqlState: string)
    | Failure(message: string)

  /** PostgreSQL SQLSTATE codes the model produces. */
  const UniqueViolation := "23505"
  const NotNullViolation := "23502"
  const UndefinedTable := "42P01"
  const RaiseException := "P0001"
  const InvalidRowCountInLimit := "2201W"
  const InvalidRowCountInOffset := "2201X"

  /** A completed Vert.x Future: a value or the exception it failed with. */
  datatype Result<+T> = Ok(value: T) | Err(error: Error)

  /**
   * java.util.UUID: two 64-bit halves; equality is equality of both.
   * Parsing and printing UUID text are foreign and enter the model as
   * parameters where they are used.
   */
  datatype Uuid = Uuid(mostSigBits: int, leastSigBits: int)

  /** A JSON value as Jackson/Vert.x hold it (numbers restricted to integers). */
  datatype Json =
    | JNull
    | JBool(b: bool)
    | JNumber(n: int)
    | JString(s: string)
    | JArray(items: seq<Json>)
    | JObject(members: seq<(string, Json)>)

  /** A request's answer: HTTP status and body text. */
  datatype Answer = Answer(status: int, body: string)
}
