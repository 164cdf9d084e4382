// Sealed facts: a fact stated as "forall k :: Unfold(k) ==> fact" is the fact itself, but the
// verifier looks inside only where Unfold is mentioned. Long runs then compose without what
// the fact is about being unfolded at every intermediate state.
module Sealing {

  predicate Unfold(k: int) { true }
}
