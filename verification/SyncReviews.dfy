/** What a sync does to review results (runkod/sync.go, trivialrebase.go, store.go). */
module SyncReviews {
  import opened Changes
  import opened Store
  import opened Carry
  import opened Sync
  import opened SyncStack
  import opened SyncTheorems
  import opened Landing
  import opened Trails
  import opened ReviewInv

  // ----- Check runs

  /** One write leaves a run at the new head exactly when it carries a green one. */
  lemma WriteRuns(s: State, w: Write, carry: bool, name: Name)
    requires w.key in s.rows && (w.key, w.head) !in s.review.runs
    ensures var was := s.rows[w.key]; var r := ApplyWrite(s, w, carry);
            && (name in RunsAt(r.review.runs, w.key, w.head) <==>
                  carry && CarriesFrom(s.repo, was, w.base, w.head) && Green(s.review.runs, w.key, was.head, name))
            && (name in RunsAt(r.review.runs, w.key, w.head) ==> Green(r.review.runs, w.key, w.head, name))
  {
  }

  lemma WriteElsewhere(s: State, w: Write, carry: bool, key: Key, h: Sha)
    requires w.key in s.rows && w.key != key
    ensures var r := ApplyWrite(s, w, carry);
            && RunsAt(r.review.runs, key, h) == RunsAt(s.review.runs, key, h)
            && ((key, h) in r.review.runs <==> (key, h) in s.review.runs)
            && (forall o, x :: Approved(r, key, o, x) <==> Approved(s, key, o, x))
            && (key in s.rows ==> r.rows[key] == s.rows[key])
  {
  }

  lemma {:induction false} ApplyElsewhere(s: State, ws: seq<Write>, carry: bool, key: Key, h: Sha)
    requires WritesIn(s.rows, ws) && key in s.rows && forall x :: x in ws ==> x.key != key
    ensures var r := Apply(s, ws, carry);
            && RunsAt(r.review.runs, key, h) == RunsAt(s.review.runs, key, h)
            && ((key, h) in r.review.runs <==> (key, h) in s.review.runs)
            && (forall o, x :: Approved(r, key, o, x) <==> Approved(s, key, o, x))
            && r.rows[key] == s.rows[key]
    decreases |ws|
  {
    if ws != [] {
      var n := |ws| - 1;
      SplitLast(ws);
      ApplyElsewhere(s, ws[..n], carry, key, h);
      WriteElsewhere(Apply(s, ws[..n], carry), ws[n], carry, key, h);
    }
  }

  lemma SplitWrites(ws: seq<Write>, w: Write)
    requires DistinctWrites(ws) && w in ws
    ensures var n := |ws| - 1;
            && DistinctWrites(ws[..n]) && (forall x :: x in ws[..n] ==> x in ws && x.key != ws[n].key)
            && (w == ws[n] || w in ws[..n])
  {
    SplitLast(ws);
  }

  /** What all the writes leave for one of them. */
  ghost predicate RunsCarried(s: State, r: State, w: Write, carry: bool, name: Name)
    requires w.key in s.rows
  {
    && (name in RunsAt(r.review.runs, w.key, w.head) <==>
          carry && CarriesFrom(s.repo, s.rows[w.key], w.base, w.head)
          && Green(s.review.runs, w.key, s.rows[w.key].head, name))
    && (name in RunsAt(r.review.runs, w.key, w.head) ==> Green(r.review.runs, w.key, w.head, name))
  }

  lemma {:induction false} ApplyRuns(s: State, ws: seq<Write>, carry: bool, w: Write, name: Name)
    requires WritesIn(s.rows, ws) && DistinctWrites(ws) && w in ws && (w.key, w.head) !in s.review.runs
    ensures RunsCarried(s, Apply(s, ws, carry), w, carry, name)
    decreases |ws|
  {
    var n := |ws| - 1;
    SplitWrites(ws, w);
    var before := Apply(s, ws[..n], carry);
    if w == ws[n] {
      ApplyElsewhere(s, ws[..n], carry, w.key, w.head);
      ApplyElsewhere(s, ws[..n], carry, w.key, s.rows[w.key].head);
      WriteRuns(before, w, carry, name);
    } else {
      ApplyRuns(s, ws[..n], carry, w, name);
      WriteElsewhere(before, ws[n], carry, w.key, w.head);
    }
  }

  /** After a sync a rewritten member has a run of a check exactly when the old head's was
      green and the carry-forward took it along; then it is green.  Nothing mints the policy
      check: an unacknowledged finding does not follow its Change. */
  lemma SyncCarriesRun(s: State, ks: seq<Key>, carry: bool, w: Write, name: Name)
    requires CleanSync(s, ks) && ReviewInv.Reviewed(s)
    requires w in PlanFor(s.repo, s.rows, Tip(s.trunk), ks).writes
    ensures var r := SyncMembers(s, ks, carry);
            && w.key in s.rows && s.rows[w.key].head < |s.repo|
            && (name in RunsAt(r.review.runs, w.key, w.head) <==>
                  carry && s.repo[s.rows[w.key].head].trailer == w.key
                  && Green(s.review.runs, w.key, s.rows[w.key].head, name))
            && (name in RunsAt(r.review.runs, w.key, w.head) ==> Green(r.review.runs, w.key, w.head, name))
  {
    SyncWrite(s, ks, w);
    var plan := PlanFor(s.repo, s.rows, Tip(s.trunk), ks);
    ApplyRuns(s.(repo := plan.repo), plan.writes, carry, w, name);
  }

  /** A planned write is carried exactly when the old head carries the Change-Id. */
  lemma SyncWrite(s: State, ks: seq<Key>, w: Write)
    requires CleanSync(s, ks) && w in PlanFor(s.repo, s.rows, Tip(s.trunk), ks).writes
    ensures var plan := PlanFor(s.repo, s.rows, Tip(s.trunk), ks);
            && WritesIn(s.rows, plan.writes) && DistinctWrites(plan.writes)
            && s.rows[w.key].head < |s.repo| && w.head >= |s.repo|
            && (CarriesFrom(plan.repo, s.rows[w.key], w.base, w.head) <==> s.repo[s.rows[w.key].head].trailer == w.key)
  {
    PlanShape(s.repo, s.rows, Tip(s.trunk), ks);
    PlanWrites(s.repo, s.rows, Tip(s.trunk), ks);
    PlanMinted(s.repo, s.rows, Tip(s.trunk), ks, w);
    SyncIsTrivialRebase(s, ks, w);
    assert w.key in ks && s.rows[w.key].status == Open;
  }

  // ----- Approvals

  /** No approval is bound to `head` yet. */
  ghost predicate Unseen(s: State, key: Key, head: Sha) {
    forall o :: !Approved(s, key, o, head)
  }

  lemma WriteApprovals(s: State, w: Write, carry: bool, owner: Name)
    requires w.key in s.rows && Unseen(s, w.key, w.head)
    ensures Approved(ApplyWrite(s, w, carry), w.key, owner, w.head) <==>
              CarriesFrom(s.repo, s.rows[w.key], w.base, w.head) && Approved(s, w.key, owner, s.rows[w.key].head)
  {
    assert !Approved(s, w.key, owner, w.head);
  }

  lemma {:induction false} ApplyApprovals(s: State, ws: seq<Write>, carry: bool, w: Write, owner: Name)
    requires WritesIn(s.rows, ws) && DistinctWrites(ws) && w in ws && Unseen(s, w.key, w.head)
    ensures Approved(Apply(s, ws, carry), w.key, owner, w.head) <==>
              CarriesFrom(s.repo, s.rows[w.key], w.base, w.head) && Approved(s, w.key, owner, s.rows[w.key].head)
    decreases |ws|
  {
    var n := |ws| - 1;
    SplitWrites(ws, w);
    var before := Apply(s, ws[..n], carry);
    if w == ws[n] {
      ApplyElsewhere(s, ws[..n], carry, w.key, w.head);
      WriteApprovals(before, w, carry, owner);
    } else {
      ApplyApprovals(s, ws[..n], carry, w, owner);
      WriteElsewhere(before, ws[n], carry, w.key, w.head);
    }
  }

  /** Approvals are bound to recorded heads, so never to a commit yet to be minted. */
  lemma UnseenFresh(s: State, key: Key, head: Sha)
    requires ReviewInv.Reviewed(s) && head >= |s.repo|
    ensures Unseen(s, key, head)
  {
    forall o ensures !Approved(s, key, o, head) {
      if key in s.review.approvals && o in s.review.approvals[key] { ApprovedHeadKnown(s, key, o); }
    }
  }

  lemma ApprovedHeadKnown(s: State, key: Key, o: Name)
    requires ReviewInv.Reviewed(s) && key in s.review.approvals && o in s.review.approvals[key]
    ensures s.review.approvals[key][o].head < |s.repo|
  {
    var a := s.review.approvals[key][o];
    assert ApprovalsTraced(s.repo, s.log, s.review.approvals[key], key) && FromApproval(s.repo, s.log, key, o, a);
    var vs :| Trail(s.repo, s.log.versions, key, vs, a.head);
    assert (key, vs[|vs| - 1]) in s.log.versions;
  }

  /** After a sync an approval counts at a rewritten member's head exactly when it counted
      at the old one and that head carries the member's Change-Id. */
  lemma SyncCarriesApproval(s: State, ks: seq<Key>, carry: bool, w: Write, owner: Name)
    requires CleanSync(s, ks) && ReviewInv.Reviewed(s)
    requires w in PlanFor(s.repo, s.rows, Tip(s.trunk), ks).writes
    ensures var r := SyncMembers(s, ks, carry);
            && w.key in s.rows && s.rows[w.key].head < |s.repo|
            && (Approved(r, w.key, owner, w.head) <==>
                  s.repo[s.rows[w.key].head].trailer == w.key && Approved(s, w.key, owner, s.rows[w.key].head))
  {
    SyncWrite(s, ks, w);
    UnseenFresh(s, w.key, w.head);
    ApprovalCarried(s, PlanFor(s.repo, s.rows, Tip(s.trunk), ks), carry, w, owner);
  }

  lemma ApprovalCarried(s: State, plan: Plan, carry: bool, w: Write, owner: Name)
    requires plan.Planned? && WritesIn(s.rows, plan.writes) && DistinctWrites(plan.writes) && w in plan.writes
    requires Unseen(s, w.key, w.head)
    ensures Approved(Apply(s.(repo := plan.repo), plan.writes, carry), w.key, owner, w.head) <==>
              CarriesFrom(plan.repo, s.rows[w.key], w.base, w.head) && Approved(s, w.key, owner, s.rows[w.key].head)
  {
    var t := s.(repo := plan.repo);
    forall o ensures !Approved(t, w.key, o, w.head) { assert !Approved(s, w.key, o, w.head); }
    ApplyApprovals(t, plan.writes, carry, w, owner);
  }
}
