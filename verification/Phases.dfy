/** Lifecycle phases of a workload (api/v1alpha1/gpuworkload_types.go). */
module Phases {
  datatype Phase = NoPhase | Queued | Scheduled | Running | Succeeded | Failed | Preempted

  predicate Terminal(p: Phase) {
    p in {Succeeded, Failed, Preempted}
  }

  /** none < Queued < Scheduled < Running < terminal */
  function Rank(p: Phase): nat {
    match p
    case NoPhase => 0
    case Queued => 1
    case Scheduled => 2
    case Running => 3
    case _ => 4
  }
}
