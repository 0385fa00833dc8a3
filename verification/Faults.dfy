/** Outcomes the environment chooses for one atomic disk action. */
module Faults {
  /** The action succeeds, raises with or without effect, or the process dies around it. */
  datatype Fault = Done | Raise(applied: bool) | Die(applied: bool)

  predicate Applied(fault: Fault) {
    fault.Done? || fault.applied
  }
}
