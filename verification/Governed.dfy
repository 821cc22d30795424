/** The merge gate over whole runs, with owners and zones read from the trees: nothing lands
    unforced on a path whose owners neither consented nor were spared by trunk. */
module Governed {
  import opened Changes
  import opened Git
  import opened Store
  import opened Receive
  import opened WellFormed
  import opened Landing
  import opened Policy
  import opened MergeGate
  import opened Trails
  import opened Runs
  import opened RunTheorems
  import opened Approvals
  import opened Authors
  import opened Provenance

  /** An approval of `key` is checked against the owners its current version requires, and an
      unforced land of it against the gate that tree, org and caller define. */
  ghost predicate AsTree(o: Org, s: State, e: Event, key: Key) {
    IsOpen(s.rows, key) ==>
      && (e.ApproveEvent? && e.key == key ==> e.required == Requires(o, s, key))
      && (e.LandEvent? && e.request.key == key ==> exists x :: e.request.gate == GateOf(o, s, s.rows[key], x))
  }

  ghost predicate Governs(o: Org, s: State, es: seq<Event>, key: Key)
    requires Wf(s)
    decreases |es|
  {
    es == [] || (Governs(o, s, es[..|es| - 1], key) && AsTree(o, After(s, es[..|es| - 1]), es[|es| - 1], key))
  }

  // ----- Approvals

  lemma OwnedStays(o: Org, repo: Repo, repo': Repo, v: Version, owner: Name)
    requires repo <= repo' && KnownVersion(repo, v)
    ensures KnownVersion(repo', v) && (OwnsPart(o, repo, v, owner) <==> OwnsPart(o, repo', v, owner))
  {
    assert repo[v.base] == repo'[v.base] && repo[v.head] == repo'[v.head];
  }

  ghost predicate GrantsOwned(o: Org, t: State, key: Key) {
    forall g :: g in t.log.approved && g.0 == key ==> KnownVersion(t.repo, g.3) && OwnsPart(o, t.repo, g.3, g.1)
  }

  lemma StepOwned(o: Org, s: State, e: Event, t: State, key: Key)
    requires Wf(s) && t == Step(s, e) && GrantsOwned(o, s, key) && AsTree(o, s, e, key)
    requires s.repo <= t.repo && Explained(s, e, s.log, t.log)
    ensures GrantsOwned(o, t, key)
  {
    forall g | g in t.log.approved && g.0 == key ensures KnownVersion(t.repo, g.3) && OwnsPart(o, t.repo, g.3, g.1) {
      if g !in s.log.approved {
        assert GoodRow(s.repo, key, s.rows[key]);
        RequiredOwned(o, s.repo, g.3, g.1);
      }
      OwnedStays(o, s.repo, t.repo, g.3, g.1);
    }
  }

  /** In every run each approval was given for an owner of something its version changed. */
  lemma {:induction false} ApprovalsAreOwners(o: Org, s: State, es: seq<Event>, key: Key)
    requires Fresh(s) && Governs(o, s, es, key)
    ensures GrantsOwned(o, After(s, es), key)
    decreases |es|
  {
    if es != [] {
      var t, e := After(s, es[..|es| - 1]), es[|es| - 1];
      ApprovalsAreOwners(o, s, es[..|es| - 1], key);
      StepFrozen(t, e);
      StepExplained(t, e);
      StepOwned(o, t, e, Step(t, e), key);
    }
  }

  // ----- Lands

  /** A human owner who was not the last to push the Change approved a version from which the
      head comes by trivial rebases and re-records, and which changed something that owner
      owned. */
  ghost predicate BackedBy(o: Org, u: State, s: State, pre: seq<Event>, c: Change, owner: Name, approver: Name, vs: seq<Version>)
    requires Wf(s)
  {
    && Trail(u.repo, u.log.versions, c.key, vs, c.head)
    && GrantedIn(s, pre, (c.key, owner, approver, vs[0]))
    && KnownVersion(u.repo, vs[0]) && OwnsPart(o, u.repo, vs[0], owner)
  }

  ghost predicate Backed(o: Org, u: State, s: State, pre: seq<Event>, c: Change, owner: Name)
    requires Wf(s)
  {
    exists approver, vs :: BackedBy(o, u, s, pre, c, owner, approver, vs)
  }

  /** The human who made the last accepted push of the Change owns it. */
  ghost predicate WroteIt(s: State, pre: seq<Event>, k: Key, owner: Name, human: bool)
    requires Wf(s)
  {
    human && owner != NONE && LastPush(s, pre, k).Some? && LastPush(s, pre, k).value.author == owner
  }

  /** Whoever owns something the Change changes backed it, wrote it, or owns only what trunk's
      zones spare.  `u` is the state after `pre`. */
  ghost predicate OwnersConsent(o: Org, u: State, s: State, pre: seq<Event>, c: Change, x: Terms)
    requires Wf(s) && Known(u, c)
  {
    forall owner :: OwnsPart(o, u.repo, Version(c.base, c.head), owner) ==>
      Backed(o, u, s, pre, c, owner) || WroteIt(s, pre, c.key, owner, x.human) || ZoneSpares(o, u, c, x.vetoed, owner)
  }

  /** `e`, after `pre`, meets `k` open at the version that landed: every check the terms name
      is green there, findings are acknowledged, and unless the caller is a bot lane the owners
      consent. */
  ghost predicate LandsGoverned(o: Org, s: State, pre: seq<Event>, e: Event, k: Key, landed: Change)
    requires Wf(s)
  {
    var u := After(s, pre);
    && LandsEarned(u, e, k, landed)
    && exists x :: GovernedBy(o, u, s, pre, u.rows[k], x)
  }

  ghost predicate GovernedBy(o: Org, u: State, s: State, pre: seq<Event>, c: Change, x: Terms)
    requires Wf(s)
  {
    && Known(u, c) && MayMerge(o, u, c, x)
    && (x.lane.None? ==> OwnersConsent(o, u, s, pre, c, x))
  }

  lemma TracedBacked(o: Org, u: State, s: State, pre: seq<Event>, c: Change, owner: Name, a: Approval)
    requires Fresh(s) && u == After(s, pre) && GrantsOwned(o, u, c.key) && a.head == c.head
    requires FromApproval(u.repo, u.log, c.key, owner, a)
    ensures Backed(o, u, s, pre, c, owner)
  {
    LogIsTrue(s, pre);
    var vs :| Trail(u.repo, u.log.versions, c.key, vs, c.head) && (c.key, owner, a.approver, vs[0]) in u.log.approved;
    assert BackedBy(o, u, s, pre, c, owner, a.approver, vs);
  }

  lemma EarnedConsent(o: Org, u: State, s: State, pre: seq<Event>, r: LandRequest, x: Terms, owner: Name)
    requires Fresh(s) && u == After(s, pre) && GrantsOwned(o, u, r.key)
    requires Earned(u, r) && u.rows[r.key].key == r.key && r.gate == GateOf(o, u, u.rows[r.key], x)
    requires x.lane.None? && Known(u, u.rows[r.key])
    requires var c := u.rows[r.key]; OwnsPart(o, u.repo, Version(c.base, c.head), owner)
    ensures var c := u.rows[r.key];
            Backed(o, u, s, pre, c, owner) || WroteIt(s, pre, r.key, owner, x.human) || ZoneSpares(o, u, c, x.vetoed, owner)
  {
    var c := u.rows[r.key];
    OwnersIff(o, u, c, x);
    assert owner in r.gate.owners;
    if !Spared(c, r.gate, owner) {
      TracedBacked(o, u, s, pre, c, owner, u.review.approvals[r.key][owner]);
    } else {
      AuthorIsLastPusher(s, pre, r.key);
    }
  }

  lemma {:induction false} GovernsBefore(o: Org, s: State, es: seq<Event>, key: Key, i: nat)
    requires Wf(s) && Governs(o, s, es, key) && i < |es|
    ensures Governs(o, s, es[..i], key) && AsTree(o, After(s, es[..i]), es[i], key)
    decreases |es|
  {
    if i < |es| - 1 {
      GovernsBefore(o, s, es[..|es| - 1], key, i);
      SameMoment(es, i);
    }
  }

  /** In every run held to the tree, every Change landed without force was open, at the
      version that landed, when its land met a gate that held: every check its terms name was
      green at that head, and unless a bot lane landed it, whoever owned anything it changed
      had backed it, had written it, or owned only what trunk's own zones spare. */
  lemma LandedWithOwners(o: Org, s: State, es: seq<Event>, k: Key)
    requires Fresh(s) && Governs(o, s, es, k)
    requires IsLanded(After(s, es).rows, k) && !After(s, es).rows[k].forced
    ensures exists i :: 0 <= i < |es| && LandsGoverned(o, s, es[..i], es[i], k, After(s, es).rows[k])
  {
    var landed := After(s, es).rows[k];
    LandedWasApproved(s, es, k);
    var i :| 0 <= i < |es| && LandsEarned(After(s, es[..i]), es[i], k, landed);
    GovernsBefore(o, s, es, k, i);
    MomentGoverned(o, s, es[..i], es[i], k, landed);
  }

  lemma MomentGoverned(o: Org, s: State, pre: seq<Event>, e: Event, k: Key, landed: Change)
    requires Fresh(s) && Governs(o, s, pre, k)
    requires LandsEarned(After(s, pre), e, k, landed) && AsTree(o, After(s, pre), e, k)
    ensures LandsGoverned(o, s, pre, e, k, landed)
  {
    var u := After(s, pre);
    var c := u.rows[k];
    WfKnown(u);
    var x :| e.request.gate == GateOf(o, u, c, x);
    MergesIff(o, u, c, x);
    ApprovalsAreOwners(o, s, pre, k);
    if x.lane.None? { AllConsent(o, u, s, pre, e.request, x); }
    assert GovernedBy(o, u, s, pre, c, x);
  }

  lemma AllConsent(o: Org, u: State, s: State, pre: seq<Event>, r: LandRequest, x: Terms)
    requires Fresh(s) && u == After(s, pre) && GrantsOwned(o, u, r.key)
    requires Earned(u, r) && u.rows[r.key].key == r.key && r.gate == GateOf(o, u, u.rows[r.key], x)
    requires x.lane.None? && Known(u, u.rows[r.key])
    ensures OwnersConsent(o, u, s, pre, u.rows[r.key], x)
  {
    var c := u.rows[r.key];
    forall owner | OwnsPart(o, u.repo, Version(c.base, c.head), owner)
      ensures Backed(o, u, s, pre, c, owner) || WroteIt(s, pre, r.key, owner, x.human) || ZoneSpares(o, u, c, x.vetoed, owner)
    {
      EarnedConsent(o, u, s, pre, r, x, owner);
    }
  }
}
