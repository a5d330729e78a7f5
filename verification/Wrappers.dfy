/** Result types shared by every module of the model. */
module Wrappers {
  datatype Option<+T> = None | Some(value: T)

  /** The two kinds of DatabaseError the registries raise. */
  datatype Failure = RoutingError | ConfigurationError

  datatype Result<+T> = Ok(value: T) | Err(error: Failure)

  /** How a COMMIT ends: confirmed, refused by the server, or lost with the connection, applied or not. */
  datatype Ending = Confirmed | Refused | Lost(applied: bool)
}
