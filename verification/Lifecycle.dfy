/** The candidate lifecycle: its states and the state classes the runtime distinguishes. */
module Lifecycle {

  datatype CandidateState =
    | Declared | Dispatched | OutputReceived | Valid | Invalid | Eligible | Rejected | Selected
    | Superseded | Cancelled | Failed | Abstained | Retired

  predicate IsContent(s: CandidateState) {
    s == Valid || s == Eligible || s == Selected
  }

  predicate InFlight(s: CandidateState) {
    s == Declared || s == Dispatched
  }
}
