/** Small shared vocabulary: optional values, failures, bytes. */
module Prelude {
  datatype Option<+T> = None | Some(value: T)

  /** The failures the modelled operations report to their callers. */
  datatype Error =
    | PlanError(message: string)
    | ExecutionError(message: string)
    | IoError

  datatype Result<+T> = Ok(value: T) | Err(error: Error)

  newtype byte = b: int | 0 <= b < 256

  type Bytes = seq<byte>

  /** All parts one after the other. */
  function Concat(parts: seq<Bytes>): Bytes {
    if |parts| == 0 then [] else Concat(parts[..|parts| - 1]) + parts[|parts| - 1]
  }
}
