/**
 The runtime's three-valued requirement on a monitoring source: resolved either
 way, or not resolved yet.
 */
module Requirements {
  datatype Requirement = Required | NotRequired | Pending

  /** While unresolved, keep what is live. */
  predicate Else(req: Requirement, live: bool) {
    req.Required? || (req.Pending? && live)
  }
}
