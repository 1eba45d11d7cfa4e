/** Values shared by every model in this project. */
module Base {
  datatype Option<+T> = None | Some(value: T)

  function Last<T>(s: seq<T>): T
    requires |s| > 0
  {
    s[|s| - 1]
  }

  // A durable command's kind and state, as both inboxes record them.

  type CommandId = nat

  datatype Kind = Create | Restore | Input | Interrupt | GateResponse | OtherKind

  datatype CommandState = Pending | Claimed | Applying | Applied | Rejected

  predicate Terminal(s: CommandState) { s == Applied || s == Rejected }
}

/** Ownership of the residency grant, as an applier and its consumer see it. */
module Fencing {
  /** Once lost it stays lost. */
  class Fence {
    var lost: bool

    constructor ()
      ensures !lost
    {
      lost := false;
    }

    /** The point check; the grant may have ended since the last one. */
    method Held() returns (held: bool)
      modifies this
      ensures held == !lost && (old(lost) ==> lost)
    {
      var ended := *;
      lost := lost || ended;
      held := !lost;
    }
  }
}
