/** Failure-carrying result types shared by the store and the game handlers. */
module Wrappers {

  datatype Option<+T> = None | Some(value: T)

  /** Why a game request is turned away with a client error, before anything is written. */
  datatype Rejection =
    | InvalidParameters    // "Invalid game parameters"
    | InsufficientBalance  // "Insufficient balance" (also sent for an unknown user)

  /** What a game handler answers.  `Exhausted` stands for a request that never completes
      because every draw the entropy oracle still holds was rejected (the source keeps drawing). */
  datatype Outcome<+T> = Reject(reason: Rejection) | Exhausted | Ok(value: T)
}
