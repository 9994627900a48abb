/** Results of operations that may have nothing to return, or may halt the kernel. */
module Outcomes {
  datatype Option<+T> = None | Some(value: T)

  /** Why the kernel halted in panic() or in a failed KASSERT. */
  datatype Cause =
    | NoPages         // no block of physical pages is large enough
    | NoRegion        // no region of virtual pages is large enough
    | ReserveBroken   // a cache fell below its reserve
    | CacheEmpty      // an object was retrieved from an empty cache
    | Misuse          // any other assertion

  datatype Outcome<+T> = Ok(value: T) | Halted(cause: Cause)
}
