/** Identifiers, optional values and the error and response shapes shared by every controller. */
module Common {

  /** A document id (a Mongo ObjectId in its string form), a socket id or any other key. */
  type Id = string

  datatype Option<T> = None | Some(value: T)

  /** The ways a request handler can fail. */
  datatype Error =
      /** `next(new ExpressError(message, status))`, or `res.status(status).json({success: false, message})`. */
    | HttpError(status: nat, message: string)
      /** The document store refuses to look up an id that is not a well-formed ObjectId. */
    | CastError(id: Id)
      /** The document store refuses to save a document that breaks its schema (the named field). */
    | ValidationError(path: string)
      /** A JavaScript exception thrown by the handler's own code. */
    | ScriptError(message: string)

  /** What a request handler sends back: a success status with its payload, or an error. */
  datatype Response<T> = Success(status: nat, value: T) | Failure(error: Error)

  /** JavaScript truthiness of an optional string field of a request body (absent or `''` is falsy). */
  predicate Truthy(v: Option<string>) {
    v.Some? && v.value != ""
  }
}
