/** Shared wrappers: Swift optionals and the ways the view controller can
    stop the app (a force-unwrapped nil, an array subscript out of range, a
    table update UIKit rejects). */
module Base {

  /** A Swift optional. */
  datatype Option<+T> = None | Some(value: T)

  /** Why the process would end: a Swift runtime trap, or UIKit's
      inconsistency exception when `deleteRows` leaves the table with a row
      count other than the old count minus the deleted rows. */
  datatype Trap = NilUnwrapped | IndexOutOfRange | RowCountMismatch

  /** The result of an event handler: either it ran to the end, or it trapped. */
  datatype Outcome<+T> = Ok(value: T) | Crash(trap: Trap)
}
