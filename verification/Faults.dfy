/**
 How an external action can end. Every action that leaves the process may succeed, be refused, end
 uncertainly with or without having taken effect, or kill the process.
 */
module Faults {

  datatype Outcome = Done | Refused | Uncertain(applied: bool) | Died(applied: bool)

  /** Did the action take effect, whatever was reported? */
  predicate Applied(o: Outcome) {
    o.Done? || (o.Uncertain? && o.applied) || (o.Died? && o.applied)
  }

  datatype Result = Success | Failure | Death

  function Report(o: Outcome): Result {
    match o
    case Done => Success
    case Died(_) => Death
    case _ => Failure
  }
}
