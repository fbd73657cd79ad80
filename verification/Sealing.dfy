/**
 Predicates that are passed around much more often than they are looked into are stated as
 `forall u {:trigger Look(u)} :: Look(u) ==> P`: they mean P, and the solver unfolds P only
 where a lemma mentions `Look`.
 */
module Sealing {
  ghost predicate Look(u: int) { true }
}
