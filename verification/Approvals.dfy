/** Approvals and policy findings over whole runs. */
module Approvals {
  import opened Changes
  import opened Git
  import opened Store
  import opened Receive
  import opened WellFormed
  import opened Sync
  import opened SyncStack
  import opened Landing
  import opened Trails
  import opened ReviewInv
  import opened Runs
  import opened RunTheorems
  import opened LandTheorems

  lemma SyncReviewed(s: State, ks: seq<Key>, carry: bool)
    requires Wf(s) && s.trunk != [] && ReviewInv.Reviewed(s)
    requires Listed(s.rows, ks)
    ensures ReviewInv.Reviewed(SyncMembers(s, ks, carry))
  {
    var plan := PlanFor(s.repo, s.rows, Tip(s.trunk), ks);
    var t := s.(repo := plan.repo);
    TracedGrows(s.repo, t.repo, s.log, t.log, s.review);
    if plan.Planned? {
      PlanWrites(s.repo, s.rows, Tip(s.trunk), ks);
      forall w | w in plan.writes ensures w.base < |t.repo| && w.head < |t.repo| {
        PlanMinted(s.repo, s.rows, Tip(s.trunk), ks, w);
      }
      ApplyReviewed(t, plan.writes, carry);
    }
  }

  lemma SyncChangeReviewed(s: State, key: Key, carry: bool)
    requires Wf(s) && ReviewInv.Reviewed(s)
    ensures ReviewInv.Reviewed(SyncChange(s, key, carry))
  {
    if IsOpen(s.rows, key) && s.trunk != [] {
      var ks := SyncOnMembers(s, key, carry);
      SyncReviewed(s, ks, carry);
    }
  }

  lemma StepReviewed(s: State, e: Event)
    requires Wf(s) && ReviewInv.Reviewed(s)
    ensures ReviewInv.Reviewed(Step(s, e))
  {
    match e
    case PushEvent(p) => PushReviewed(s, p);
    case SyncEvent(key, carry) => SyncChangeReviewed(s, key, carry);
    case LandEvent(r) => WfKnown(s); LandReviewed(s, r);
    case ApproveEvent(key, owner, approver, agent, required) =>
      ApproveReviewed(s, key, owner, approver, agent, required);
    case AckEvent(key, acker, agent) => AckReviewed(s, key, acker, agent);
    case ReportEvent(key, name, run) => ReportReviewed(s, key, name, run);
    case RerunEvent(key, name, required) => RerunReviewed(s, key, name, required);
    case _ =>
  }

  lemma {:induction false} AlwaysReviewed(s: State, es: seq<Event>)
    requires Fresh(s)
    ensures ReviewInv.Reviewed(After(s, es))
    decreases |es|
  {
    if es != [] {
      AlwaysReviewed(s, es[..|es| - 1]);
      StepReviewed(After(s, es[..|es| - 1]), es[|es| - 1]);
    }
  }

  /** An approval counted at the current head goes back, through trivial rebases and
      re-records of the same head, to an explicit approval by the same approver; and if the
      re-recorded heads of the Change agree, everything the current version changes was
      changed, to the same content, by the version that was approved. */
  lemma CountedApprovals(s: State, es: seq<Event>, key: Key, owner: Name)
    requires Fresh(s)
    requires key in After(s, es).rows && Approved(After(s, es), key, owner, After(s, es).rows[key].head)
    ensures var t := After(s, es); FromApproval(t.repo, t.log, key, owner, t.review.approvals[key][owner])
    ensures var t := After(s, es);
            exists v :: (key, owner, t.review.approvals[key][owner].approver, v) in t.log.approved
              && KnownVersion(t.repo, v)
              && (HeadsAgree(t.repo, t.log.versions, key) ==> CoveredBy(t.repo, Version(t.rows[key].base, t.rows[key].head), v))
  {
    AlwaysReviewed(s, es);
    var t := After(s, es);
    assert ApprovalsTraced(t.repo, t.log, t.review.approvals[key], key);
    var a := t.review.approvals[key][owner];
    assert FromApproval(t.repo, t.log, key, owner, a);
    var vs :| Trail(t.repo, t.log.versions, key, vs, a.head) && (key, owner, a.approver, vs[0]) in t.log.approved;
    assert (key, vs[0]) in t.log.versions;
    var cur := Version(t.rows[key].base, t.rows[key].head);
    assert (key, cur) in t.log.versions && KnownVersion(t.repo, cur);
    TrailsCoverIff(t.repo, t.log.versions, key);
  }

  /** Policy findings are never shed by a push: a head whose push carried findings has an
      agent-policy run, and that run is green only on the strength of an acknowledgement of
      this head or of one it is a trivial rebase of. */
  lemma FindingsStay(s: State, es: seq<Event>, key: Key)
    requires Fresh(s)
    requires key in After(s, es).rows
    ensures var t := After(s, es); var head := t.rows[key].head;
            && ((key, head) in t.log.found ==> AGENT_POLICY in RunsAt(t.review.runs, key, head))
            && (Green(t.review.runs, key, head, AGENT_POLICY) ==> FromAck(t.repo, t.log, key, head))
  {
    AlwaysReviewed(s, es);
  }

  // ----- Every land

  /** The author's own ownership, or an auto-approve zone, spares the owner's approval. */
  predicate Spared(c: Change, g: Gate, owner: Name) {
    owner in g.waived || (owner == c.author && c.author != NONE && g.humanAuthor)
  }

  /** What an unforced land rests on: an explicit approval, carried by trivial rebases at
      most, for every required owner not spared; every required check green; and findings at
      the head acknowledged, outside an auto-approve zone. */
  ghost predicate Earned(t: State, r: LandRequest) {
    && IsOpen(t.rows, r.key)
    && var c := t.rows[r.key];
       && (forall owner :: owner in r.gate.owners && !Spared(c, r.gate, owner) ==>
             Approved(t, r.key, owner, c.head)
             && FromApproval(t.repo, t.log, r.key, owner, t.review.approvals[r.key][owner]))
       && Mergeable(t, c, r.gate)
       && (!r.gate.fullyAuto && (r.key, c.head) in t.log.found ==> FromAck(t.repo, t.log, r.key, c.head))
  }

  lemma MergeableEarned(t: State, r: LandRequest)
    requires Wf(t) && ReviewInv.Reviewed(t) && IsOpen(t.rows, r.key) && Mergeable(t, t.rows[r.key], r.gate)
    ensures Earned(t, r)
  {
    var c := t.rows[r.key];
    assert GoodRow(t.repo, r.key, c);
    forall owner | owner in r.gate.owners && !Spared(c, r.gate, owner)
      ensures Approved(t, r.key, owner, c.head)
        && FromApproval(t.repo, t.log, r.key, owner, t.review.approvals[r.key][owner])
    {
      assert OwnerSatisfied(t, c, r.gate, owner);
      assert ApprovalsTraced(t.repo, t.log, t.review.approvals[r.key], r.key);
    }
  }

  /** The event that landed `k`, in the state it met. */
  ghost predicate LandsEarned(t: State, e: Event, k: Key, landed: Change) {
    && e.LandEvent? && e.request.key == k && Earned(t, e.request)
    && t.rows[k].head == landed.head && t.rows[k].base == landed.base
  }

  ghost predicate EarnedIn(s: State, es: seq<Event>, k: Key, landed: Change)
    requires Wf(s)
  {
    exists i :: 0 <= i < |es| && LandsEarned(After(s, es[..i]), es[i], k, landed)
  }

  lemma EarnedOnwards(s: State, es: seq<Event>, k: Key, landed: Change)
    requires Wf(s) && es != []
    ensures EarnedIn(s, es[..|es| - 1], k, landed) ==> EarnedIn(s, es, k, landed)
    ensures LandsEarned(After(s, es[..|es| - 1]), es[|es| - 1], k, landed) ==> EarnedIn(s, es, k, landed)
  {
    var pre := es[..|es| - 1];
    assert forall i :: 0 <= i < |pre| ==> pre[..i] == es[..i] && pre[i] == es[i];
  }

  lemma LandedNow(t: State, e: Event, k: Key)
    requires Wf(t) && ReviewInv.Reviewed(t) && !IsLanded(t.rows, k)
    requires IsLanded(Step(t, e).rows, k) && !Step(t, e).rows[k].forced
    ensures LandsEarned(t, e, k, Step(t, e).rows[k])
  {
    if !e.LandEvent? { OnlyLandLands(t, e, k); }
    WfKnown(t);
    LandReplaysDelta(t, e.request);
    LandPassedGate(t, e.request);
    MergeableEarned(t, e.request);
  }

  lemma LandPassedGate(t: State, r: LandRequest)
    requires KnownTips(t) && LandsOn(t, LandChange(t, r), r.key) && !LandChange(t, r).rows[r.key].forced
    ensures Mergeable(t, t.rows[r.key], r.gate)
  {
  }

  /** In every run, every Change landed without force was open, at the version that landed,
      when a land request met a gate that held: every owner that request required and did not
      spare had approved, every check was green, every finding acknowledged. */
  lemma {:induction false} LandedWasApproved(s: State, es: seq<Event>, k: Key)
    requires Fresh(s) && IsLanded(After(s, es).rows, k) && !After(s, es).rows[k].forced
    ensures EarnedIn(s, es, k, After(s, es).rows[k])
    decreases |es|
  {
    if es != [] {
      var pre, e := es[..|es| - 1], es[|es| - 1];
      var t := After(s, pre);
      AlwaysReviewed(s, pre);
      EarnedOnwards(s, es, k, After(s, es).rows[k]);
      if IsLanded(t.rows, k) {
        StepFrozen(t, e);
        LandedWasApproved(s, pre, k);
      } else {
        LandedNow(t, e, k);
      }
    }
  }
}
