// Attempts of the example handlers under Prosody's retry model: staged state, operations that may throw, and
// success or failure as a whole.
module Attempts {

  // The capacity of the deque of each example.
  const CAPACITY: nat := 100

  // How an awaited operation goes. It works, or it throws: before it took effect, after it took effect, or,
  // when it has two parts, between them.
  datatype Outcome = Works | ThrowsBefore | ThrowsMidway | ThrowsAfter

  // An attempt that threw, or is still running or succeeded, and what it left.
  datatype Attempt<W> = Threw(world: W) | Ok(world: W) {
    predicate IsFailure() {
      Threw?
    }

    function PropagateFailure(): Attempt<W>
      requires Threw?
    {
      this
    }

    function Extract(): W
      requires Ok?
    {
      world
    }
  }
}
