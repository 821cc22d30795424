/** What each review operation leaves on record, entry by entry (runkod/store.go,
    actions.go). */
module ReviewLaw {
  import opened Changes
  import opened Git
  import opened Store
  import opened Carry
  import opened Receive
  import opened Landing

  function ApprovalOf(r: Review, key: Key, owner: Name): Option<Approval> {
    if key in r.approvals && owner in r.approvals[key] then Some(r.approvals[key][owner]) else None
  }

  function RunOf(r: Review, key: Key, head: Sha, name: Name): Option<Run> {
    if (key, head) in r.runs && name in r.runs[(key, head)] then Some(r.runs[(key, head)][name]) else None
  }

  /** `a` is on record for that owner; every other approval and every run is as it was. */
  ghost predicate OnlyApproval(before: Review, after: Review, key: Key, owner: Name, a: Approval) {
    && (forall k, n :: ApprovalOf(after, k, n) == if k == key && n == owner then Some(a) else ApprovalOf(before, k, n))
    && (forall k, h, n :: RunOf(after, k, h, n) == RunOf(before, k, h, n))
  }

  /** The same for a run. */
  ghost predicate OnlyRun(before: Review, after: Review, key: Key, head: Sha, name: Name, run: Run) {
    && (forall k, h, n ::
          RunOf(after, k, h, n) == if k == key && h == head && n == name then Some(run) else RunOf(before, k, h, n))
    && (forall k, n :: ApprovalOf(after, k, n) == ApprovalOf(before, k, n))
  }

  ghost predicate OnlyReview(s: State, t: State) {
    t == s.(review := t.review, log := t.log)
  }

  /** An approval is taken from a human, not the author, for a required owner of an open
      Change; it replaces that owner's alone. */
  lemma ApproveExactly(s: State, key: Key, owner: Name, approver: Name, agent: bool, required: set<Name>)
    ensures var t := Approve(s, key, owner, approver, agent, required);
            if key in s.rows && s.rows[key].status == Open && !agent && owner != NONE && approver != NONE
               && approver != s.rows[key].author && owner in required
            then && OnlyReview(s, t) && OnlyApproval(s.review, t.review, key, owner, Approval(approver, s.rows[key].head))
                 && t.log == s.log.(approved :=
                      s.log.approved + {(key, owner, approver, Version(s.rows[key].base, s.rows[key].head))})
            else t == s
  {
  }

  /** An acknowledgement is taken from a human for a policy run that is there and not green
      yet, and turns that run green. */
  lemma AckExactly(s: State, key: Key, acker: Name, agent: bool)
    ensures var t := AckPolicy(s, key, acker, agent);
            if key in s.rows && s.rows[key].status == Open && !agent && acker != NONE
               && RunOf(s.review, key, s.rows[key].head, AGENT_POLICY) in {Some(Failing), Some(Running)}
            then && OnlyReview(s, t) && OnlyRun(s.review, t.review, key, s.rows[key].head, AGENT_POLICY, Passing)
                 && t.log == s.log.(acked := s.log.acked + {(key, s.rows[key].head)})
            else t == s
  {
  }

  /** A report replaces one run at the current head, never the policy run. */
  lemma ReportExactly(s: State, key: Key, name: Name, run: Run)
    ensures var t := ReportCheck(s, key, name, run);
            if key in s.rows && name != NONE && name != AGENT_POLICY
            then OnlyReview(s, t) && OnlyRun(s.review, t.review, key, s.rows[key].head, name, run)
            else t == s
  {
  }

  lemma RerunExactly(s: State, key: Key, name: Name, required: set<Name>)
    ensures var t := RerunCheck(s, key, name, required);
            if key in s.rows && s.rows[key].status == Open && name in required
            then OnlyReview(s, t) && OnlyRun(s.review, t.review, key, s.rows[key].head, name, Running)
            else t == s
  {
  }

  // ----- Carrying results to another head

  /** The run at the new head: its own, or the old head's if that passed and runs carry. */
  function CarriedRun(r: Review, key: Key, from: Sha, to: Sha, carryChecks: bool, name: Name): Option<Run> {
    if RunOf(r, key, to, name).Some? then RunOf(r, key, to, name)
    else if carryChecks && RunOf(r, key, from, name) == Some(Passing) then Some(Passing) else None
  }

  /** The owner's approval: bound to the new head if it was bound to the old one. */
  function CarriedApproval(r: Review, key: Key, from: Sha, to: Sha, owner: Name): Option<Approval> {
    var a := ApprovalOf(r, key, owner);
    if a.Some? && a.value.head == from then Some(Approval(a.value.approver, to)) else a
  }

  /** Only the entries of `key` may differ. */
  ghost predicate OnlyOf(before: Review, after: Review, key: Key) {
    && (forall k, h, n :: k != key ==> RunOf(after, k, h, n) == RunOf(before, k, h, n))
    && (forall k, n :: k != key ==> ApprovalOf(after, k, n) == ApprovalOf(before, k, n))
  }

  lemma CarriesExactly(r: Review, key: Key, from: Sha, to: Sha, carryChecks: bool)
    ensures var t := CarryForward(r, key, from, to, carryChecks);
            && OnlyOf(r, t, key)
            && (forall n :: ApprovalOf(t, key, n) == CarriedApproval(r, key, from, to, n))
            && (forall h, n :: RunOf(t, key, h, n) ==
                  if h == to then CarriedRun(r, key, from, to, carryChecks, n) else RunOf(r, key, h, n))
  {
  }

  // ----- One member of a push

  /** The version on record moves to (base, head) by what the detector calls a trivial rebase. */
  predicate Rides(repo: Repo, rows: Rows, key: Key, base: Sha, head: Sha) {
    key in rows && rows[key].status == Open && TrivialRebase(repo, Version(rows[key].base, rows[key].head), Version(base, head))
  }

  function RiddenRun(s: State, p: Push, key: Key, base: Sha, head: Sha, name: Name): Option<Run> {
    if Rides(s.repo, s.rows, key, base, head)
    then CarriedRun(s.review, key, s.rows[key].head, head, p.carryChecks, name)
    else RunOf(s.review, key, head, name)
  }

  /** The move is covered: every check the Change's gate requires has passed at the new head. */
  ghost predicate RidesCovered(s: State, p: Push, key: Key, base: Sha, head: Sha) {
    && Rides(s.repo, s.rows, key, base, head) && p.carryChecks
    && forall n :: (key, n) in p.required ==> RiddenRun(s, p, key, base, head, n) == Some(Passing)
  }

  /** What `key`'s review results are once it is recorded at (base, head): carried where it
      rides; and with findings against it the policy run fails anew, unless the move is covered
      and brought a passing one along. */
  ghost predicate ReviewsMember(s: State, p: Push, key: Key, base: Sha, head: Sha, r: Review) {
    && (forall n :: ApprovalOf(r, key, n) ==
          if Rides(s.repo, s.rows, key, base, head) then CarriedApproval(s.review, key, s.rows[key].head, head, n)
          else ApprovalOf(s.review, key, n))
    && (forall h, n :: h != head ==> RunOf(r, key, h, n) == RunOf(s.review, key, h, n))
    && (forall n :: n != AGENT_POLICY || key !in p.findings ==> RunOf(r, key, head, n) == RiddenRun(s, p, key, base, head, n))
    && (key in p.findings ==>
          RunOf(r, key, head, AGENT_POLICY) ==
          (if RidesCovered(s, p, key, base, head) && RiddenRun(s, p, key, base, head, AGENT_POLICY) == Some(Passing)
           then Some(Passing) else Some(Failing)))
  }

  lemma CarriedGreen(s: State, p: Push, key: Key, base: Sha, head: Sha)
    requires CarriesFromRow(s, key, base, head)
    ensures var r := CarryForward(s.review, key, s.rows[key].head, head, p.carryChecks);
            && (forall n :: Green(r.runs, key, head, n) <==> RiddenRun(s, p, key, base, head, n) == Some(Passing))
            && (Covered(r, key, head, p.carryChecks, RequiredOf(p.required, key)) <==> RidesCovered(s, p, key, base, head))
  {
    var r := CarryForward(s.review, key, s.rows[key].head, head, p.carryChecks);
    CarriesExactly(s.review, key, s.rows[key].head, head, p.carryChecks);
    forall n ensures Green(r.runs, key, head, n) <==> RunOf(r, key, head, n) == Some(Passing) {}
    forall n ensures n in RequiredOf(p.required, key) <==> (key, n) in p.required {}
  }

  predicate CarriesFromRow(s: State, key: Key, base: Sha, head: Sha) {
    key in s.rows && CarriesFrom(s.repo, s.rows[key], base, head)
  }

  lemma MintsExactly(r: Review, findings: set<Key>, m: Member, covered: bool)
    ensures var t := r.(runs := Mint(r.runs, findings, m, covered));
            && (forall k, n :: ApprovalOf(t, k, n) == ApprovalOf(r, k, n))
            && (forall k: Key, h: Sha, n: Name ::
                  k != m.id || h != m.sha || n != AGENT_POLICY || m.id !in findings ==> RunOf(t, k, h, n) == RunOf(r, k, h, n))
            && (m.id in findings ==>
                  RunOf(t, m.id, m.sha, AGENT_POLICY) ==
                  (if covered && RunOf(r, m.id, m.sha, AGENT_POLICY) == Some(Passing) then Some(Passing) else Some(Failing)))
  {
  }

  lemma MemberReviewed(s: State, p: Push, m: Member, base: Sha)
    ensures var r := Reviewed(s, p, m, base); OnlyOf(s.review, r, m.id) && ReviewsMember(s, p, m.id, base, m.sha, r)
  {
    if CarriesFromRow(s, m.id, base, m.sha) {
      var r := CarryForward(s.review, m.id, s.rows[m.id].head, m.sha, p.carryChecks);
      CarriesExactly(s.review, m.id, s.rows[m.id].head, m.sha, p.carryChecks);
      CarriedGreen(s, p, m.id, base, m.sha);
      MintsExactly(r, p.findings, m, Covered(r, m.id, m.sha, p.carryChecks, RequiredOf(p.required, m.id)));
    } else {
      MintsExactly(s.review, p.findings, m, false);
    }
  }
}
