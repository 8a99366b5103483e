/** The router departs in a few lines from what its comments, tests and README say it does.
    Each such line is modelled twice. */
module Builds {

  /** AsTyped: every line does what its text says.
      Repaired: the departing lines do what their comment, test or README says instead. */
  datatype Build = AsTyped | Repaired
}
