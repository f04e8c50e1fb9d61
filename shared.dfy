/** Definitions used by more than one part of the application. */
module Shared {
  /** The payload of a reward sent to the server: credits and gamecoins to add. */
  datatype Reward = Reward(credits: nat, gamecoins: nat)

  function Min(a: int, b: int): int {
    if a <= b then a else b
  }

  function Max(a: int, b: int): int {
    if a <= b then b else a
  }
}
