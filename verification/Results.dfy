/** The result words of the agent's status entries. */
module Results {
  /** The results of status.controlStatus a governor write can have. */
  datatype Result =
    | Applied | AppliedUnverified | Equivalent | Unsupported | NotApplied | Refused
    | Drift | Contended | Disabled | Restored | Error | Unset

  /** The results a write or a command that reports an error is sorted into. */
  type WriteError = r: Result | r == Refused || r == Unsupported || r == Error witness Refused

  datatype Option<+T> = None | Some(value: T) {
    function UnwrapOr(otherwise: T): T {
      if Some? then value else otherwise
    }
  }
}
