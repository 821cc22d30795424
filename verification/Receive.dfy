/** One push to refs/for/<trunk> (runkod/prereceive.go): the pushed series of commits is
    resolved into Changes, each gets a base and a head, and a workspace branch may carry
    only one stack. */
module Receive {
  import opened Changes
  import opened Git
  import opened Store
  import opened Carry

  /** objects: the quarantined commits; allowed: the secret scan and structural policy
      verdict; findings: members that owe an agent-policy acknowledgement; carryChecks:
      the revalidation tier is conflict-only; required: the checks each member's gate
      demands. */
  datatype Push = Push(
    objects: seq<Commit>,
    tip: Sha,
    author: Name,
    workspace: Name,
    branch: Name,
    allowed: bool,
    findings: set<Key>,
    carryChecks: bool,
    required: set<(Key, Name)>)

  function BranchOf(p: Push): Name {
    if p.branch == NONE then HEAD_BRANCH else p.branch
  }

  /** GenerateChangeID: any fixed function of the seed will do, only determinism is used. */
  function GenerateChangeID(seed: Sha): Key {
    seed + 1
  }

  /** The Change a commit belongs to when it is pushed as a tip. */
  function IdOf(repo: Repo, s: Sha): Key
    requires s < |repo|
  {
    if repo[s].trailer != NONE then repo[s].trailer else GenerateChangeID(s)
  }

  datatype Member = Member(sha: Sha, id: Key)

  predicate InRepo(repo: Repo, walk: seq<Sha>) {
    forall x :: x in walk ==> 0 < x < |repo|
  }

  function IdAt(repo: Repo, tip: Sha, sha: Sha): Key
    requires sha < |repo| && tip < |repo|
  {
    if sha == tip then IdOf(repo, tip) else repo[sha].trailer
  }

  predicate IsLanded(rows: Rows, id: Key) {
    id in rows && rows[id].status == Landed
  }

  /** The members of a walk, near to far: the first commit of each Change-Id heads it,
      commits without one fold into the Change above, landed Changes are skipped. */
  function TopDown(repo: Repo, rows: Rows, tip: Sha, walk: seq<Sha>, seen: set<Key>): (ms: seq<Member>)
    requires tip < |repo| && InRepo(repo, walk)
    ensures forall m :: m in ms ==> m.sha in walk && m.id == IdAt(repo, tip, m.sha) && m.id != NONE && m.id !in seen
    ensures forall m :: m in ms && m.sha != tip ==> !IsLanded(rows, m.id)
    ensures forall i, j :: 0 <= i < j < |ms| ==> ms[i].id != ms[j].id
  {
    if walk == [] then []
    else
      var sha, rest := walk[0], walk[1..];
      assert sha in walk && forall x :: x in rest ==> x in walk;
      var id := IdAt(repo, tip, sha);
      if id == NONE || id in seen then TopDown(repo, rows, tip, rest, seen)
      else if sha != tip && IsLanded(rows, id) then TopDown(repo, rows, tip, rest, seen + {id})
      else
        var ms := TopDown(repo, rows, tip, rest, seen + {id});
        [Member(sha, id)] + ms
  }

  function Reverse<T>(q: seq<T>): (r: seq<T>)
    ensures |r| == |q| && forall i :: 0 <= i < |q| ==> r[i] == q[|q| - 1 - i]
  {
    seq(|q|, i requires 0 <= i < |q| => q[|q| - 1 - i])
  }

  lemma InReverse<T>(q: seq<T>, x: T)
    requires x in Reverse(q)
    ensures x in q
  {
    var i :| 0 <= i < |q| && Reverse(q)[i] == x;
    assert x == q[|q| - 1 - i];
  }

  /** seriesMembers: the pushed series bottom-up, or the tip alone when trunk has it. */
  function Series(repo: Repo, trunk: seq<Sha>, rows: Rows, tip: Sha): (ms: seq<Member>)
    requires ValidRepo(repo) && 0 < tip < |repo|
  {
    var walk := RevList(repo, trunk, tip, STACK_WALK_LIMIT);
    if walk == [] then [Member(tip, IdOf(repo, tip))]
    else Reverse(TopDown(repo, rows, tip, walk, {}))
  }

  /** nearestPendingChangeBase: the nearest commit of another Change the store knows. */
  function Nearest(repo: Repo, known: set<Key>, walk: seq<Sha>, id: Key): (r: Option<Sha>)
    requires InRepo(repo, walk)
    ensures r.Some? ==> r.value in walk
  {
    if walk == [] then None
    else
      var sha, rest := walk[0], walk[1..];
      assert sha in walk && forall x :: x in rest ==> x in walk;
      var key := repo[sha].trailer;
      if key != NONE && key != id && key in known then Some(sha)
      else Nearest(repo, known, rest, id)
  }

  /** computeBaseSHA: the stack parent's commit, or trunk's merge-base. */
  function ComputeBase(repo: Repo, trunk: seq<Sha>, known: set<Key>, sha: Sha, id: Key): (b: Sha)
    requires ValidRepo(repo) && 0 < sha < |repo|
    ensures b <= sha
  {
    var near := Nearest(repo, known, RevList(repo, trunk, repo[sha].parent, STACK_WALK_LIMIT), id);
    if near.Some? then near.value else MergeBase(repo, trunk, sha)
  }

  // ----- Acceptance

  /** resolveOrigin and the changes-are-born-in-workspaces rule, whose one exemption is an
      unborn trunk. */
  predicate OriginAllowed(s: State, p: Push) {
    if p.workspace == NONE then s.trunk == []
    else
      && p.workspace in s.spaces
      && !s.spaces[p.workspace].closed
      && (p.author == NONE || s.spaces[p.workspace].owner == NONE || p.author == s.spaces[p.workspace].owner)
  }

  predicate FromBranch(c: Change, ws: Name, branch: Name) {
    c.status == Open && c.workspace == ws && c.branch == branch
  }

  /** enforceOneStackPerBranch: the series carries every open Change of its origin. */
  predicate CarriesBranch(rows: Rows, ms: seq<Member>, ws: Name, branch: Name) {
    forall k :: k in rows && FromBranch(rows[k], ws, branch) ==> exists m :: m in ms && m.id == k
  }

  function Quarantined(s: State, p: Push): State {
    s.(repo := s.repo + p.objects)
  }

  predicate Accepted(s: State, p: Push) {
    var q := Quarantined(s, p);
    && ValidRepo(q.repo) && 0 < p.tip < |q.repo|
    && p.allowed
    && OriginAllowed(s, p)
    && !IsLanded(s.rows, IdOf(q.repo, p.tip))
    && (p.workspace != NONE ==>
          CarriesBranch(s.rows, Series(q.repo, s.trunk, s.rows, p.tip), p.workspace, BranchOf(p)))
  }

  // ----- Recording

  function RequiredOf(required: set<(Key, Name)>, key: Key): set<Name> {
    set r | r in required && r.0 == key :: r.1
  }

  /** A member with findings owes the agent-policy check, minted failing unless the
      carry-forward covered the head and brought an acknowledged run along. */
  function Mint(runs: Runs, findings: set<Key>, m: Member, covered: bool): Runs {
    if m.id !in findings || (covered && Green(runs, m.id, m.sha, AGENT_POLICY)) then runs
    else PutRun(runs, m.id, m.sha, AGENT_POLICY, Failing)
  }

  /** What recording a member at (base, m.sha) does to the review results. */
  function Reviewed(s: State, p: Push, m: Member, base: Sha): Review {
    if m.id in s.rows && CarriesFrom(s.repo, s.rows[m.id], base, m.sha) then
      var r := CarryForward(s.review, m.id, s.rows[m.id].head, m.sha, p.carryChecks);
      var covered := Covered(r, m.id, m.sha, p.carryChecks, RequiredOf(p.required, m.id));
      r.(runs := Mint(r.runs, p.findings, m, covered))
    else s.review.(runs := Mint(s.review.runs, p.findings, m, false))
  }

  /** One turn of commit's loop: ref and row, carry-forward, policy check. */
  function RecordMember(s: State, p: Push, m: Member): (r: State)
    requires ValidRepo(s.repo) && 0 < m.sha < |s.repo|
  {
    var base := ComputeBase(s.repo, s.trunk, s.rows.Keys, m.sha, m.id);
    s.(rows := s.rows[m.id := Upserted(s.rows, m.id, base, m.sha, p.author, p.workspace, BranchOf(p))],
       refs := s.refs[m.id := m.sha],
       review := Reviewed(s, p, m, base),
       log := s.log.(
         versions := s.log.versions + {(m.id, Version(base, m.sha))},
         found := if m.id in p.findings then s.log.found + {(m.id, m.sha)} else s.log.found))
  }

  predicate InRepoMembers(repo: Repo, ms: seq<Member>) {
    forall m :: m in ms ==> 0 < m.sha < |repo|
  }

  function Record(s: State, p: Push, ms: seq<Member>): (r: State)
    requires ValidRepo(s.repo) && InRepoMembers(s.repo, ms)
    ensures r.repo == s.repo && r.trunk == s.trunk && r.spaces == s.spaces && r.log.tips == s.log.tips
    decreases |ms|
  {
    if ms == [] then s
    else
      var n := |ms| - 1;
      SplitLast(ms);
      RecordMember(Record(s, p, ms[..n]), p, ms[n])
  }

  lemma SeriesInRepo(repo: Repo, trunk: seq<Sha>, rows: Rows, tip: Sha)
    requires ValidRepo(repo) && 0 < tip < |repo|
    ensures InRepoMembers(repo, Series(repo, trunk, rows, tip))
  {
    var walk := RevList(repo, trunk, tip, STACK_WALK_LIMIT);
    if walk != [] {
      var top := TopDown(repo, rows, tip, walk, {});
      forall m | m in Reverse(top) ensures 0 < m.sha < |repo| {
        InReverse(top, m);
      }
    }
  }

  /** An accepted push, end to end. */
  function ReceivePush(s: State, p: Push): State {
    if !Accepted(s, p) then s
    else
      var q := Quarantined(s, p);
      var ms := Series(q.repo, q.trunk, q.rows, p.tip);
      SeriesInRepo(q.repo, q.trunk, q.rows, p.tip);
      Record(q.(log := q.log.(tips := q.log.tips[(p.workspace, BranchOf(p)) := p.tip])), p, ms)
  }
}
