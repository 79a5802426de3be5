/** Sealing a definition: `forall k :: Opened(k) ==> body` means `body`, but the verifier looks inside only where
    `Opened` is mentioned.  It keeps large invariants out of proofs that merely pass them on. */
module Sealed {

  predicate Opened(k: nat) {
    true
  }
}
