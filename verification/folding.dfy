/** Keeping a long invariant folded in proofs that only pass it on. */
module Folding {

  /** Always true. An invariant stated for all k with Shown(k) is unfolded only
      where Shown(0) is mentioned, and passed on as a whole elsewhere. */
  predicate Shown(k: nat) {
    true
  }
}
