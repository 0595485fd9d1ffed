/** Success or error, the shape every throwing operation of the library takes in this model. */
module Outcomes {

  /** `Err` carries the message of the JavaScript `Error` the source throws. */
  datatype Result<+T> = Ok(value: T) | Err(message: string)

  /**
   * The outcome of an operation that is run for its effect: a call into the filesystem,
   * or a chainable method that either returns its receiver or throws.
   */
  datatype Status = Done | Failed(message: string)

  datatype Option<+T> = None | Some(value: T)
}
