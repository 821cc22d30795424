/** Landing a Change on trunk (runkod/actions.go, land.go, api.go) and the reviews that gate
    it. */
module Landing {
  import opened Changes
  import opened Git
  import opened Store
  import opened Sync

  /** What the tree and the org ask of a Change: required owners, owners waived by an
      auto-approve zone, whether its author is a human, required checks, whether the whole
      diff is in such a zone, and every remaining blocker. */
  datatype Gate = Gate(
    owners: set<Name>,
    waived: set<Name>,
    humanAuthor: bool,
    checks: set<Name>,
    fullyAuto: bool,
    unblocked: bool)

  /** force: the override was asked for; authorized: the caller may force; lost: trunk
      compare-and-swaps lost to rivals; revalidate: the tier wants checks re-run; closes:
      the single-use policy applies to the origin's owner. */
  datatype LandRequest = LandRequest(
    key: Key, gate: Gate, force: bool, authorized: bool, lost: nat, revalidate: bool, closes: bool)

  const MAX_LAND_RACE_RETRIES := 5

  // ----- The gate

  /** An approval counts only for the head it was granted for. */
  predicate Approved(s: State, key: Key, owner: Name, head: Sha) {
    && key in s.review.approvals && owner in s.review.approvals[key]
    && s.review.approvals[key][owner].head == head
  }

  predicate OwnerSatisfied(s: State, c: Change, g: Gate, owner: Name) {
    || Approved(s, c.key, owner, c.head)
    || (owner == c.author && c.author != NONE && g.humanAuthor)
    || owner in g.waived
  }

  /** mergeCheckNames plus the agent-policy check, required where a run of it exists. */
  predicate ChecksPass(s: State, c: Change, g: Gate) {
    && (forall n :: n in g.checks ==> Green(s.review.runs, c.key, c.head, n))
    && (AGENT_POLICY in RunsAt(s.review.runs, c.key, c.head) && !g.fullyAuto ==>
          Green(s.review.runs, c.key, c.head, AGENT_POLICY))
  }

  predicate BaseOnTrunk(trunk: seq<Sha>, base: Sha) {
    base == NONE || base in trunk
  }

  /** changeWithHead: some row, of any state, whose head is `base`, landed on today's trunk. */
  predicate ParentLanded(s: State, base: Sha) {
    base != NONE &&
    exists p :: p in s.rows && s.rows[p].head == base && s.rows[p].status == Landed
      && s.rows[p].landed != NONE && s.rows[p].landed in s.trunk
  }

  predicate Mergeable(s: State, c: Change, g: Gate) {
    && (forall o :: o in g.owners ==> OwnerSatisfied(s, c, g, o))
    && ChecksPass(s, c, g)
    && (BaseOnTrunk(s.trunk, c.base) || ParentLanded(s, c.base))
    && g.unblocked
  }

  /** refuseUnlandedParent: the base is off trunk and an open Change owns it. */
  predicate UnlandedParent(s: State, c: Change) {
    && !BaseOnTrunk(s.trunk, c.base)
    && exists p :: p in s.rows && s.rows[p].status == Open && s.rows[p].head == c.base
  }

  // ----- The attempt

  datatype Outcome = Lands(commit: Commit) | Conflicts(cells: set<Cell>) | Revalidate | Error

  /** land.Land against the current tip: re-stamped when trunk has not moved since the base,
      rebased onto the tip otherwise.  Without a base there is nothing to rebase from. */
  function Attempt(repo: Repo, trunk: seq<Sha>, c: Change, revalidate: bool): Outcome
    requires c.head < |repo| && c.base < |repo| && Tip(trunk) < |repo|
  {
    var tip := Tip(trunk);
    if tip == c.base then Lands(Commit(tip, c.key, WithTrailer(repo, c.head, c.key), repo[c.head].tree))
    else if tip == NONE then Error
    else if revalidate then Revalidate
    else if c.base == NONE then Error
    else
      var merged := MergeTree(repo[c.base].tree, repo[tip].tree, repo[c.head].tree);
      if merged.None? then Conflicts(ConflictCells(repo[c.base].tree, repo[tip].tree, repo[c.head].tree))
      else Lands(Commit(tip, c.key, WithTrailer(repo, c.head, c.key), merged.value))
  }

  predicate HasOpenFrom(rows: Rows, ws: Name) {
    exists k :: k in rows && rows[k].status == Open && rows[k].workspace == ws
  }

  /** maybeCloseAgentWorkspace: a workspace closes when its last open Change concludes. */
  function MaybeClose(s: State, ws: Name, closes: bool): State {
    if closes && ws != NONE && ws in s.spaces && !HasOpenFrom(s.rows, ws)
    then s.(spaces := s.spaces[ws := s.spaces[ws].(closed := true)])
    else s
  }

  /** Landing `c` as `commit`: trunk grows by it and the row becomes landed. */
  function LandAs(s: State, c: Change, commit: Commit, forced: bool): State {
    var sha := |s.repo|;
    s.(repo := s.repo + [commit], trunk := s.trunk + [sha],
       rows := s.rows[c.key := c.(status := Landed, landed := sha, forced := forced)])
  }

  /** The refusals before the attempt: the ordering gate, force's authorization and the
      merge gate. */
  predicate MayLand(s: State, c: Change, r: LandRequest) {
    && c.status == Open
    && (r.force ==> r.authorized)
    && !UnlandedParent(s, c)
    && (Mergeable(s, c, r.gate) || r.force)
    && r.lost < MAX_LAND_RACE_RETRIES
  }

  predicate KnownTips(s: State) {
    && Tip(s.trunk) < |s.repo|
    && forall k :: k in s.rows ==> s.rows[k].key == k && s.rows[k].head < |s.repo| && s.rows[k].base < |s.repo|
  }

  /** landChangeCore: landed and abandoned rows, and every refusal, leave the state alone. */
  function LandChange(s: State, r: LandRequest): State
    requires KnownTips(s)
  {
    if r.key !in s.rows || !MayLand(s, s.rows[r.key], r) then s
    else
      var c := s.rows[r.key];
      var o := Attempt(s.repo, s.trunk, c, r.revalidate && !r.force);
      if !o.Lands? then s
      else MaybeClose(LandAs(s, c, o.commit, r.force && !Mergeable(s, c, r.gate)), c.workspace, r.closes)
  }

  // ----- Abandoning and reviewing

  /** abandonChangeCore. */
  function Abandon(s: State, key: Key, closes: bool): State {
    if key !in s.rows || s.rows[key].status == Landed then s
    else
      var c := s.rows[key];
      MaybeClose(s.(rows := s.rows[key := c.(status := Abandoned)]), c.workspace, closes)
  }

  /** approveChangeCore: only an open Change, never by an agent or the head's own pusher,
      and only for an owner the tree requires. */
  function Approve(s: State, key: Key, owner: Name, approver: Name, agent: bool, required: set<Name>): State {
    if key !in s.rows || s.rows[key].status != Open || agent || owner == NONE || approver == NONE
       || approver == s.rows[key].author || owner !in required then s
    else
      var c := s.rows[key];
      var m := if key in s.review.approvals then s.review.approvals[key] else map[];
      s.(review := s.review.(approvals := s.review.approvals[key := m[owner := Approval(approver, c.head)]]),
         log := s.log.(approved := s.log.approved + {(key, owner, approver, Version(c.base, c.head))}))
  }

  /** ackPolicyCore: a human turns the agent-policy run at the current head green. */
  function AckPolicy(s: State, key: Key, acker: Name, agent: bool): State {
    if key !in s.rows || s.rows[key].status != Open || agent || acker == NONE then s
    else
      var head := s.rows[key].head;
      if AGENT_POLICY !in RunsAt(s.review.runs, key, head) || Green(s.review.runs, key, head, AGENT_POLICY) then s
      else
        s.(review := s.review.(runs := PutRun(s.review.runs, key, head, AGENT_POLICY, Passing)),
           log := s.log.(acked := s.log.acked + {(key, head)}))
  }

  /** handlePostCheck: an external report at the current head, under a name; the policy check's
      is reserved. */
  function ReportCheck(s: State, key: Key, name: Name, run: Run): State {
    if key !in s.rows || name == NONE || name == AGENT_POLICY then s
    else s.(review := s.review.(runs := PutRun(s.review.runs, key, s.rows[key].head, name, run)))
  }

  /** rerunCheckCore: only a required check of an open Change goes back to the queue. */
  function RerunCheck(s: State, key: Key, name: Name, required: set<Name>): State {
    if key !in s.rows || s.rows[key].status != Open || name !in required then s
    else s.(review := s.review.(runs := PutRun(s.review.runs, key, s.rows[key].head, name, Running)))
  }

  // ----- Workspaces

  /** createWorkspaceCore: a workspace needs a base revision, so trunk must be born. */
  function CreateWorkspace(s: State, id: Name, owner: Name): State {
    if s.trunk == [] || id == NONE || owner == NONE || id in s.spaces then s
    else s.(spaces := s.spaces[id := Workspace(owner, false)])
  }

  /** deleteWorkspaceCore: refused while an open Change was born there. */
  function DeleteWorkspace(s: State, id: Name, allowed: bool): State {
    if id !in s.spaces || !allowed || HasOpenFrom(s.rows, id) then s
    else s.(spaces := s.spaces - {id})
  }
}
