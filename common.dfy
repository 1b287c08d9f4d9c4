/** Values shared by every part of the PDW generator model: the nullable
    cell, the failure outcome of a generation step, and the failures the
    generator's numeric library can raise. */
module Common {

  /** A cell that may hold the table library's missing-value marker (NaN). */
  datatype Option<+T> = None | Some(value: T)

  /** The exceptions the generator can raise while producing pulses. */
  datatype Failure =
    | NegativeScale   // a normal draw asked for with a negative standard deviation
    | NoLevels        // a staggered pattern with no levels: `i % len(values)` divides by zero
    | EmptyRange      // an integer draw asked for from an empty range (`low >= high`)

  datatype Result<+T> = Ok(value: T) | Err(error: Failure)
}
