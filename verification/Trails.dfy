/** Where a review result at a head comes from: a trail of versions of the Change, each a
    trivial rebase of the one before or the same head recorded again. */
module Trails {
  import opened Changes
  import opened Git
  import opened Store
  import opened Carry

  predicate Link(repo: Repo, v: Version, w: Version) {
    TrivialRebase(repo, v, w) || v.head == w.head
  }

  /** `vs` are recorded versions of `key`, each linked to the next, ending at `head`. */
  predicate Trail(repo: Repo, versions: set<(Key, Version)>, key: Key, vs: seq<Version>, head: Sha) {
    && |vs| > 0
    && (forall i :: 0 <= i < |vs| ==> (key, vs[i]) in versions)
    && (forall i :: 0 <= i < |vs| - 1 ==> Link(repo, vs[i], vs[i + 1]))
    && vs[|vs| - 1].head == head
  }

  /** The approval `a` by `owner` goes back to an explicit one. */
  ghost predicate FromApproval(repo: Repo, log: Log, key: Key, owner: Name, a: Approval) {
    exists vs :: Trail(repo, log.versions, key, vs, a.head) && (key, owner, a.approver, vs[0]) in log.approved
  }

  /** The green policy run at `head` goes back to an acknowledgement. */
  ghost predicate FromAck(repo: Repo, log: Log, key: Key, head: Sha) {
    exists vs: seq<Version> :: Trail(repo, log.versions, key, vs, head) && (key, vs[0].head) in log.acked
  }

  predicate LogGrows(a: Log, b: Log) {
    a.versions <= b.versions && a.approved <= b.approved && a.acked <= b.acked
  }

  lemma TrailGrows(repo: Repo, repo': Repo, a: set<(Key, Version)>, b: set<(Key, Version)>,
                   key: Key, vs: seq<Version>, head: Sha)
    requires repo <= repo' && a <= b && Trail(repo, a, key, vs, head)
    ensures Trail(repo', b, key, vs, head)
  {
    assert forall x: nat :: x < |repo| ==> repo'[x] == repo[x];
  }

  lemma FromApprovalGrows(repo: Repo, repo': Repo, a: Log, b: Log, key: Key, owner: Name, x: Approval)
    requires repo <= repo' && LogGrows(a, b) && FromApproval(repo, a, key, owner, x)
    ensures FromApproval(repo', b, key, owner, x)
  {
    var vs: seq<Version> :| Trail(repo, a.versions, key, vs, x.head) && (key, owner, x.approver, vs[0]) in a.approved;
    TrailGrows(repo, repo', a.versions, b.versions, key, vs, x.head);
  }

  lemma FromAckGrows(repo: Repo, repo': Repo, a: Log, b: Log, key: Key, head: Sha)
    requires repo <= repo' && LogGrows(a, b) && FromAck(repo, a, key, head)
    ensures FromAck(repo', b, key, head)
  {
    var vs: seq<Version> :| Trail(repo, a.versions, key, vs, head) && (key, vs[0].head) in a.acked;
    TrailGrows(repo, repo', a.versions, b.versions, key, vs, head);
  }

  /** A trail to `v.head` goes on to any trivial rebase of `v`. */
  lemma TrailOn(repo: Repo, versions: set<(Key, Version)>, key: Key, vs: seq<Version>, v: Version, w: Version)
    requires Trail(repo, versions, key, vs, v.head) && TrivialRebase(repo, v, w)
    requires (key, v) in versions && (key, w) in versions
    ensures Trail(repo, versions, key, vs + [v, w], w.head) && (vs + [v, w])[0] == vs[0]
  {
  }

  // ----- The invariant on review results

  ghost predicate ApprovalsTraced(repo: Repo, log: Log, m: map<Name, Approval>, key: Key) {
    forall o :: o in m ==> FromApproval(repo, log, key, o, m[o])
  }

  /** Every approval goes back to an explicit one, every green policy run to an
      acknowledgement, and every head found wanting has a policy run. */
  ghost predicate Traced(repo: Repo, log: Log, r: Review) {
    && (forall k :: k in r.approvals ==> ApprovalsTraced(repo, log, r.approvals[k], k))
    && (forall k: Key, h: Sha :: Green(r.runs, k, h, AGENT_POLICY) ==> FromAck(repo, log, k, h))
    && (forall f :: f in log.found ==> AGENT_POLICY in RunsAt(r.runs, f.0, f.1))
  }

  lemma TracedGrows(repo: Repo, repo': Repo, a: Log, b: Log, r: Review)
    requires repo <= repo' && LogGrows(a, b) && a.found == b.found && Traced(repo, a, r)
    ensures Traced(repo', b, r)
  {
    forall k | k in r.approvals ensures ApprovalsTraced(repo', b, r.approvals[k], k) {
      forall o | o in r.approvals[k] ensures FromApproval(repo', b, k, o, r.approvals[k][o]) {
        FromApprovalGrows(repo, repo', a, b, k, o, r.approvals[k][o]);
      }
    }
    forall k: Key, h: Sha | Green(r.runs, k, h, AGENT_POLICY) ensures FromAck(repo', b, k, h) {
      FromAckGrows(repo, repo', a, b, k, h);
    }
  }

  /** Writing a policy run that is not green, or one already accounted for. */
  lemma TracedPut(repo: Repo, log: Log, r: Review, key: Key, head: Sha, name: Name, run: Run)
    requires Traced(repo, log, r)
    requires name == AGENT_POLICY && run == Passing ==> FromAck(repo, log, key, head)
    ensures Traced(repo, log, r.(runs := PutRun(r.runs, key, head, name, run)))
  {
    var runs := PutRun(r.runs, key, head, name, run);
    forall k: Key, h: Sha | Green(runs, k, h, AGENT_POLICY) ensures FromAck(repo, log, k, h) {
      if (k, h) != (key, head) || name != AGENT_POLICY { assert Green(r.runs, k, h, AGENT_POLICY); }
    }
  }

  /** Carrying results from `v.head` to a trivial rebase of it. */
  lemma TracedCarry(repo: Repo, log: Log, r: Review, key: Key, v: Version, w: Version, carryChecks: bool)
    requires Traced(repo, log, r) && TrivialRebase(repo, v, w)
    requires (key, v) in log.versions && (key, w) in log.versions
    ensures Traced(repo, log, CarryForward(r, key, v.head, w.head, carryChecks))
  {
    var c := CarryForward(r, key, v.head, w.head, carryChecks);
    if key in r.approvals {
      var m, m' := r.approvals[key], c.approvals[key];
      assert ApprovalsTraced(repo, log, m, key);
      forall o | o in m' ensures FromApproval(repo, log, key, o, m'[o]) {
        assert FromApproval(repo, log, key, o, m[o]);
        if m[o].head == v.head {
          var vs: seq<Version> :| Trail(repo, log.versions, key, vs, v.head) && (key, o, m[o].approver, vs[0]) in log.approved;
          TrailOn(repo, log.versions, key, vs, v, w);
        }
      }
    }
    forall k: Key, h: Sha | Green(c.runs, k, h, AGENT_POLICY) ensures FromAck(repo, log, k, h) {
      if !Green(r.runs, k, h, AGENT_POLICY) {
        assert carryChecks && k == key && h == w.head && Green(r.runs, key, v.head, AGENT_POLICY);
        var vs: seq<Version> :| Trail(repo, log.versions, key, vs, v.head) && (key, vs[0].head) in log.acked;
        TrailOn(repo, log.versions, key, vs, v, w);
      }
    }
    forall f | f in log.found ensures AGENT_POLICY in RunsAt(c.runs, f.0, f.1) {
      assert AGENT_POLICY in RunsAt(r.runs, f.0, f.1);
    }
  }

  // ----- What a trail covers

  predicate Readable(repo: Repo, versions: set<(Key, Version)>) {
    forall x :: x in versions ==> KnownVersion(repo, x.1)
  }

  /** Every cell `cur` changes is changed by `v` to the same content. */
  ghost predicate CoveredBy(repo: Repo, cur: Version, v: Version)
    requires KnownVersion(repo, cur) && KnownVersion(repo, v)
  {
    forall c, x :: Touches(repo, cur, c, x) ==> Touches(repo, v, c, x)
  }

  /** No head of `key` was ever recorded with two bases. */
  ghost predicate HeadsBound(versions: set<(Key, Version)>, key: Key) {
    forall v, w :: (key, v) in versions && (key, w) in versions && v.head == w.head ==> v == w
  }

  /** Where a head of `key` was recorded with two bases, it leaves the same cells of both
      alone. */
  ghost predicate HeadsAgree(repo: Repo, versions: set<(Key, Version)>, key: Key) {
    forall v, w :: (key, v) in versions && (key, w) in versions && v.head == w.head ==> Agree(repo, v, w)
  }

  ghost predicate Agree(repo: Repo, v: Version, w: Version) {
    KnownVersion(repo, v) && KnownVersion(repo, w)
    && forall c :: At(repo[v.head].tree, c) == At(repo[v.base].tree, c) ==> At(repo[w.head].tree, c) == At(repo[w.base].tree, c)
  }

  lemma BoundAgrees(repo: Repo, versions: set<(Key, Version)>, key: Key)
    requires HeadsBound(versions, key) && Readable(repo, versions)
    ensures HeadsAgree(repo, versions, key)
  {
    forall v, w | (key, v) in versions && (key, w) in versions && v.head == w.head ensures Agree(repo, v, w) {
      assert KnownVersion(repo, (key, v).1);
    }
  }

  /** For one head, covering is agreeing. */
  lemma AgreeCovers(repo: Repo, v: Version, w: Version)
    requires KnownVersion(repo, v) && KnownVersion(repo, w) && v.head == w.head
    ensures Agree(repo, v, w) <==> CoveredBy(repo, w, v)
  {
    if CoveredBy(repo, w, v) {
      forall c | At(repo[v.head].tree, c) == At(repo[v.base].tree, c) ensures At(repo[w.head].tree, c) == At(repo[w.base].tree, c) {
        assert Touches(repo, w, c, At(repo[w.head].tree, c)) ==> Touches(repo, v, c, At(repo[w.head].tree, c));
      }
    }
  }

  /** Along a trail whose heads agree, whatever the last version changes was changed to the
      same content by the first. */
  lemma {:induction false} TrailCovers(repo: Repo, versions: set<(Key, Version)>, key: Key, vs: seq<Version>,
                                       v: Version, c: Cell, x: Option<Content>)
    requires Trail(repo, versions, key, vs, v.head) && (key, v) in versions
    requires HeadsAgree(repo, versions, key) && Readable(repo, versions)
    requires KnownVersion(repo, v) && Touches(repo, v, c, x)
    ensures KnownVersion(repo, vs[0]) && Touches(repo, vs[0], c, x)
    decreases |vs|
  {
    var n := |vs| - 1;
    var last := vs[n];
    assert (key, last) in versions && last.head == v.head;
    assert Agree(repo, last, v);
    assert Touches(repo, last, c, x);
    if n > 0 {
      var u := vs[n - 1];
      assert last == vs[(n - 1) + 1] && Link(repo, u, last);
      assert (key, u) in versions && KnownVersion(repo, (key, u).1);
      if u.head != last.head {
        ChainCovers(repo, [u, last], c, x);
      } else {
        assert Agree(repo, u, last);
      }
      assert Touches(repo, u, c, x);
      TrailCovers(repo, versions, key, vs[..n], u, c, x);
    }
  }

  /** Every trail of the Change covers: its last version changes nothing that its first did
      not, and nothing differently. */
  ghost predicate TrailsCover(repo: Repo, versions: set<(Key, Version)>, key: Key) {
    forall vs: seq<Version>, v: Version :: Trail(repo, versions, key, vs, v.head) && (key, v) in versions ==>
      KnownVersion(repo, v) && KnownVersion(repo, vs[0]) && CoveredBy(repo, v, vs[0])
  }

  /** All trails of a Change cover if and only if its re-recorded heads agree. */
  lemma TrailsCoverIff(repo: Repo, versions: set<(Key, Version)>, key: Key)
    requires Readable(repo, versions)
    ensures TrailsCover(repo, versions, key) <==> HeadsAgree(repo, versions, key)
  {
    if HeadsAgree(repo, versions, key) {
      forall vs: seq<Version>, v: Version | Trail(repo, versions, key, vs, v.head) && (key, v) in versions
        ensures KnownVersion(repo, v) && KnownVersion(repo, vs[0]) && CoveredBy(repo, v, vs[0])
      {
        assert KnownVersion(repo, (key, v).1) && (key, vs[0]) in versions && KnownVersion(repo, (key, vs[0]).1);
        forall c, x | Touches(repo, v, c, x) ensures Touches(repo, vs[0], c, x) {
          TrailCovers(repo, versions, key, vs, v, c, x);
        }
      }
    }
    if TrailsCover(repo, versions, key) {
      forall v, w | (key, v) in versions && (key, w) in versions && v.head == w.head ensures Agree(repo, v, w) {
        assert Trail(repo, versions, key, [v], w.head);
        AgreeCovers(repo, v, w);
      }
    }
  }
}
