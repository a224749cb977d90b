// Shared by the other modules.
module Basics {
  datatype Option<+T> = None | Some(value: T)

  /** What the blob store's Put comes to: the file stored, no trace of it, or - when the call fails
      after its rename - an error although the file is there. */
  datatype Put = Stored | NotStored | Stranded

  /** The kinds of asset. */
  datatype Kind = Original | Preview

  function Max(a: int, b: int): int {
    if a < b then b else a
  }
}
