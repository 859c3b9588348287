/** Facts about index sequences shared by the record filters. */
module Sequences {
  /** Indices below `bound`, in strictly increasing order. */
  predicate IncreasingBelow(ks: seq<nat>, bound: int) {
    && (forall j | 0 <= j < |ks| :: ks[j] < bound)
    && (forall j1, j2 | 0 <= j1 < j2 < |ks| :: ks[j1] < ks[j2])
  }
}
