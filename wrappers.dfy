// Small shared value types used by every other module.
module Wrappers {

  /** Rust's `Option<T>`. */
  datatype Option<+T> = None | Some(value: T)

  /** Rust's `core::cmp::Ordering`. */
  datatype Ordering = Less | Equal | Greater {
    /** `Ordering::reverse`: the ordering seen from the other operand. */
    function Reverse(): Ordering {
      match this
      case Less => Greater
      case Equal => Equal
      case Greater => Less
    }
  }

  /** `Result<(), OutOfMemoryError>`, the outcome of reserving or queueing. */
  datatype Status = Ok | OutOfMemory {
    /** `Result::or`: this result when it is `Ok`, otherwise the other one. */
    function Or(other: Status): (r: Status)
      ensures r == Ok <==> this == Ok || other == Ok
      ensures this == Ok ==> r == this
    {
      if this == Ok then this else other
    }
  }

  /** An unsigned byte, as stored on the wire and in `[u8; N]` buffers. */
  type byte = bv8
}
