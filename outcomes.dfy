/** How the evaluation helpers end: with a value, or with the exception that aborts the run. */
module Outcomes {

  /** The ways the modelled code aborts. Every one of them is fatal: nothing catches it. */
  datatype Error =
    | IndexOutOfRange       // an IndexError from a Python list or numpy row lookup
    | OriginalClassMissing  // the assertion after the per-box loop of the ground-truth expansion
    | EmptyConcatenate      // np.concatenate of an empty list of rows
    | LengthMismatch        // the assertion that a reduced prediction vector has num_classes entries

  datatype Result<+T> = Ok(value: T) | Err(error: Error)
}
