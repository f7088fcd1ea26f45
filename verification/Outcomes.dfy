/** Option and result types and a bound shared by the other modules. */
module Outcomes {
  datatype Option<+T> = None | Some(value: T)

  /** The largest integer that the source's numbers hold exactly. */
  const MAX_SAFE_INTEGER := 9007199254740991

  datatype Result<+T, +E> = Ok(value: T) | Err(error: E)
}
