/** Option and Result, the two standard wrappers the gateway's signatures use. */
module Wrappers {
  datatype Option<+T> = None | Some(value: T) {
    /** The value, or a default. */
    function GetOr(default: T): T {
      if Some? then value else default
    }

    /** This value if there is one, otherwise the other option. */
    function Or(other: Option<T>): Option<T> {
      if Some? then this else other
    }
  }

  datatype Result<+T, +E> = Ok(value: T) | Err(error: E)

  const TWO_TO_THE_64: int := 0x1_0000_0000_0000_0000

  /** The range of the source's u64 and, on a 64-bit target, of usize. */
  type U64 = n: int | 0 <= n < TWO_TO_THE_64
}
