/** Values shared by the three aggregates: optional search results, and what a
    validating mutator reports instead of throwing `std::invalid_argument`. */
module Outcomes {

  /** The result of a search that may find nothing (`find_if` reaching `end()`). */
  datatype Option<+T> = None | Some(value: T)

  /** What a `void` mutator does: return normally, or throw `std::invalid_argument`. */
  datatype Outcome = Ok | InvalidArgument(message: string)

  /** A computed value, or the `std::invalid_argument` thrown instead of computing it. */
  datatype Result<+T> = Success(value: T) | Failure(message: string) {

    /** The computed value, or `default` when the computation threw. */
    function GetOr(default: T): T {
      match this
      case Success(v) => v
      case Failure(_) => default
    }

    /** Forgets the value and keeps only whether (and why) it threw. */
    function ToOutcome(): Outcome {
      match this
      case Success(_) => Ok
      case Failure(m) => InvalidArgument(m)
    }
  }
}
