/** What every model shares: optional values, and choices that the model leaves open. */
module Prelude {

  datatype Option<+T> = None | Some(value: T)

  /** An outcome decided outside the model: a device error, a failed allocation. */
  method Chance() returns (b: bool) {
    b := *;
  }
}
