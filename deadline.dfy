/**
 * The wall clock of a run.  Each test `datetime.now() > timeout` is one
 * reading; the model numbers the readings of a run 0, 1, 2, ... and asks an
 * oracle whether the deadline had passed at reading `t`.  Every loop that
 * reads the clock threads the reading counter `t` through its state.
 */
module Deadline {

  /** `late(t)`: the deadline had passed at the t-th clock reading of the run. */
  type Oracle = nat -> bool

  /** The state a loop ends in, and whether it ended early because the deadline had passed. */
  datatype Halt<S> = Halt(state: S, timedOut: bool)
}
