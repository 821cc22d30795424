/** Carrying review results over a head move that is a trivial rebase
    (runkod/trivialrebase.go, carryForwardTrivialRebase). */
module Carry {
  import opened Changes
  import opened Git
  import opened Store

  /** trivialRebaseOf: only an open row's version can be rebased trivially. */
  predicate CarriesFrom(repo: Repo, was: Change, base: Sha, head: Sha) {
    was.status == Open && TrivialRebase(repo, Version(was.base, was.head), Version(base, head))
  }

  /** Approvals move under every tier, passing runs only under conflict-only. */
  function CarryForward(r: Review, key: Key, from: Sha, to: Sha, carryChecks: bool): Review {
    Review(
      if key in r.approvals then r.approvals[key := MoveApprovals(r.approvals[key], from, to)] else r.approvals,
      if carryChecks then CopyPassing(r.runs, key, from, to) else r.runs)
  }

  /** The new head is covered when every required check is green after the copy. */
  predicate Covered(r: Review, key: Key, to: Sha, carryChecks: bool, required: set<Name>) {
    carryChecks && forall n :: n in required ==> Green(r.runs, key, to, n)
  }
}
