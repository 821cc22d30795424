/** Pushes, syncs and review operations keep the invariant on review results. */
module ReviewInv {
  import opened Changes
  import opened Git
  import opened Store
  import opened Carry
  import opened Receive
  import opened Pushes
  import opened Sync
  import opened Landing
  import opened Trails

  ghost predicate VersionsLogged(rows: Rows, versions: set<(Key, Version)>) {
    forall k :: k in rows ==> (k, Version(rows[k].base, rows[k].head)) in versions
  }

  ghost predicate Reviewed(s: State) {
    && Traced(s.repo, s.log, s.review)
    && VersionsLogged(s.rows, s.log.versions)
    && Readable(s.repo, s.log.versions)
    && RunsKnown(s.repo, s.review.runs)
  }

  /** Check runs exist at known commits only. */
  ghost predicate RunsKnown(repo: Repo, runs: Store.Runs) {
    forall x :: x in runs ==> x.1 < |repo|
  }

  /** Findings are only ever logged together with a policy run at that head. */
  lemma TracedFound(repo: Repo, log: Log, r: Review, key: Key, head: Sha)
    requires Traced(repo, log, r) && AGENT_POLICY in RunsAt(r.runs, key, head)
    ensures Traced(repo, log.(found := log.found + {(key, head)}), r)
  {
    var log' := log.(found := log.found + {(key, head)});
    forall k | k in r.approvals ensures ApprovalsTraced(repo, log', r.approvals[k], k) {
      assert ApprovalsTraced(repo, log, r.approvals[k], k);
      forall o | o in r.approvals[k] ensures FromApproval(repo, log', k, o, r.approvals[k][o]) {
        FromApprovalGrows(repo, repo, log, log', k, o, r.approvals[k][o]);
      }
    }
    forall k: Key, h: Sha | Green(r.runs, k, h, AGENT_POLICY) ensures FromAck(repo, log', k, h) {
      FromAckGrows(repo, repo, log, log', k, h);
    }
  }

  lemma TracedMint(repo: Repo, log: Log, r: Review, findings: set<Key>, m: Member, covered: bool)
    requires Traced(repo, log, r)
    ensures var r' := r.(runs := Mint(r.runs, findings, m, covered));
            Traced(repo, log, r') && (m.id in findings ==> AGENT_POLICY in RunsAt(r'.runs, m.id, m.sha))
  {
    TracedPut(repo, log, r, m.id, m.sha, AGENT_POLICY, Failing);
  }

  lemma MemberReviewed(s: State, p: Push, m: Member, base: Sha, log: Log)
    requires Traced(s.repo, log, s.review)
    requires m.id in s.rows ==> (m.id, Version(s.rows[m.id].base, s.rows[m.id].head)) in log.versions
    requires (m.id, Version(base, m.sha)) in log.versions
    ensures var r := Receive.Reviewed(s, p, m, base);
            Traced(s.repo, log, r) && (m.id in p.findings ==> AGENT_POLICY in RunsAt(r.runs, m.id, m.sha))
  {
    if m.id in s.rows && CarriesFrom(s.repo, s.rows[m.id], base, m.sha) {
      var v, w := Version(s.rows[m.id].base, s.rows[m.id].head), Version(base, m.sha);
      TracedCarry(s.repo, log, s.review, m.id, v, w, p.carryChecks);
      var r := CarryForward(s.review, m.id, v.head, w.head, p.carryChecks);
      TracedMint(s.repo, log, r, p.findings, m, Covered(r, m.id, m.sha, p.carryChecks, RequiredOf(p.required, m.id)));
    } else {
      TracedMint(s.repo, log, s.review, p.findings, m, false);
    }
  }

  lemma RecordMemberReviewed(s: State, p: Push, m: Member)
    requires ValidRepo(s.repo) && 0 < m.sha < |s.repo| && Reviewed(s)
    ensures Reviewed(RecordMember(s, p, m))
  {
    var base := ComputeBase(s.repo, s.trunk, s.rows.Keys, m.sha, m.id);
    var log := s.log.(versions := s.log.versions + {(m.id, Version(base, m.sha))});
    var r := RecordMember(s, p, m);
    TracedGrows(s.repo, s.repo, s.log, log, s.review);
    MemberReviewed(s, p, m, base, log);
    if m.id in p.findings {
      TracedFound(s.repo, log, r.review, m.id, m.sha);
      assert r.log == log.(found := log.found + {(m.id, m.sha)});
    } else {
      assert r.log == log;
    }
    UpsertHead(s.rows, m.id, base, m.sha, p.author, p.workspace, BranchOf(p));
  }

  lemma {:induction false} RecordReviewed(s: State, p: Push, ms: seq<Member>)
    requires ValidRepo(s.repo) && InRepoMembers(s.repo, ms) && Reviewed(s)
    ensures Reviewed(Record(s, p, ms))
    decreases |ms|
  {
    if ms != [] {
      RecordLast(s, p, ms);
      RecordReviewed(s, p, ms[..|ms| - 1]);
      RecordMemberReviewed(Record(s, p, ms[..|ms| - 1]), p, ms[|ms| - 1]);
    }
  }

  lemma PushReviewed(s: State, p: Push)
    requires Reviewed(s)
    ensures Reviewed(ReceivePush(s, p))
  {
    if Accepted(s, p) {
      var q := Quarantined(s, p);
      var ms := Series(q.repo, q.trunk, q.rows, p.tip);
      SeriesInRepo(q.repo, q.trunk, q.rows, p.tip);
      var t := q.(log := q.log.(tips := q.log.tips[(p.workspace, BranchOf(p)) := p.tip]));
      TracedGrows(s.repo, t.repo, s.log, t.log, s.review);
      RecordReviewed(t, p, ms);
    }
  }

  // ----- Syncs

  lemma WriteReviewed(s: State, w: Write, carryChecks: bool)
    requires Reviewed(s) && w.key in s.rows && w.base < |s.repo| && w.head < |s.repo|
    ensures Reviewed(ApplyWrite(s, w, carryChecks))
  {
    var was, r := s.rows[w.key], ApplyWrite(s, w, carryChecks);
    TracedGrows(s.repo, s.repo, s.log, r.log, s.review);
    if CarriesFrom(s.repo, was, w.base, w.head) {
      TracedCarry(s.repo, r.log, s.review, w.key, Version(was.base, was.head), Version(w.base, w.head), carryChecks);
    }
    UpsertHead(s.rows, w.key, w.base, w.head, was.author, NONE, NONE);
  }

  lemma {:induction false} ApplyReviewed(s: State, ws: seq<Write>, carryChecks: bool)
    requires Reviewed(s) && WritesIn(s.rows, ws)
    requires forall w :: w in ws ==> w.base < |s.repo| && w.head < |s.repo|
    ensures Reviewed(Apply(s, ws, carryChecks))
    decreases |ws|
  {
    if ws != [] {
      var n := |ws| - 1;
      SplitLast(ws);
      ApplyReviewed(s, ws[..n], carryChecks);
      WriteReviewed(Apply(s, ws[..n], carryChecks), ws[n], carryChecks);
    }
  }

  // ----- Review operations

  lemma ApproveReviewed(s: State, key: Key, owner: Name, approver: Name, agent: bool, required: set<Name>)
    requires Reviewed(s)
    ensures Reviewed(Approve(s, key, owner, approver, agent, required))
  {
    var r := Approve(s, key, owner, approver, agent, required);
    if r != s {
      TracedGrows(s.repo, s.repo, s.log, r.log, s.review);
      var c := s.rows[key];
      var v := Version(c.base, c.head);
      assert Trail(s.repo, r.log.versions, key, [v], c.head) && [v][0] == v;
      assert FromApproval(s.repo, r.log, key, owner, Approval(approver, c.head));
      assert ApprovalsTraced(s.repo, r.log, r.review.approvals[key], key) by {
        if key in s.review.approvals { assert ApprovalsTraced(s.repo, r.log, s.review.approvals[key], key); }
      }
    }
  }

  lemma AckReviewed(s: State, key: Key, acker: Name, agent: bool)
    requires Reviewed(s)
    ensures Reviewed(AckPolicy(s, key, acker, agent))
  {
    var r := AckPolicy(s, key, acker, agent);
    if r != s {
      TracedGrows(s.repo, s.repo, s.log, r.log, s.review);
      var v := Version(s.rows[key].base, s.rows[key].head);
      assert Trail(s.repo, r.log.versions, key, [v], v.head) && [v][0].head == v.head;
      TracedPut(s.repo, r.log, s.review, key, v.head, AGENT_POLICY, Passing);
    }
  }

  lemma ReportReviewed(s: State, key: Key, name: Name, run: Run)
    requires Reviewed(s)
    ensures Reviewed(ReportCheck(s, key, name, run))
  {
    if key in s.rows && name != NONE && name != AGENT_POLICY {
      TracedPut(s.repo, s.log, s.review, key, s.rows[key].head, name, run);
    }
  }

  lemma RerunReviewed(s: State, key: Key, name: Name, required: set<Name>)
    requires Reviewed(s)
    ensures Reviewed(RerunCheck(s, key, name, required))
  {
    if key in s.rows {
      TracedPut(s.repo, s.log, s.review, key, s.rows[key].head, name, Running);
    }
  }

  lemma LandReviewed(s: State, r: LandRequest)
    requires Reviewed(s) && KnownTips(s)
    ensures Reviewed(LandChange(s, r))
  {
    var t := LandChange(s, r);
    TracedGrows(s.repo, t.repo, s.log, t.log, s.review);
  }
}
