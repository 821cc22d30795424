/** What a push does to approvals (runkod/prereceive.go, trivialrebase.go). */
module PushReviews {
  import opened Changes
  import opened Git
  import opened Store
  import opened Carry
  import opened Receive
  import opened Pushes
  import opened WellFormed
  import opened Landing

  /** Recording another member leaves a Change's row and approvals alone. */
  lemma MemberElsewhere(s: State, p: Push, m: Member, key: Key)
    requires ValidRepo(s.repo) && 0 < m.sha < |s.repo| && m.id != key
    ensures var r := RecordMember(s, p, m);
            && (forall o, x :: Approved(r, key, o, x) <==> Approved(s, key, o, x))
            && (key in r.rows <==> key in s.rows) && (key in s.rows ==> r.rows[key] == s.rows[key])
  {
  }

  lemma {:induction false} RecordElsewhere(s: State, p: Push, ms: seq<Member>, key: Key)
    requires ValidRepo(s.repo) && InRepoMembers(s.repo, ms) && forall m :: m in ms ==> m.id != key
    ensures var r := Record(s, p, ms);
            && (forall o, x :: Approved(r, key, o, x) <==> Approved(s, key, o, x))
            && (key in r.rows <==> key in s.rows) && (key in s.rows ==> r.rows[key] == s.rows[key])
    decreases |ms|
  {
    if ms != [] {
      SplitLast(ms);
      RecordElsewhere(s, p, ms[..|ms| - 1], key);
      MemberElsewhere(Record(s, p, ms[..|ms| - 1]), p, ms[|ms| - 1], key);
    }
  }

  /** An approval counts at a recorded head when it did already, or when it counted at the
      old head and the detector calls the move a trivial rebase. */
  ghost predicate ApprovalMoves(s: State, r: State, m: Member, owner: Name) {
    && m.id in r.rows && r.rows[m.id].head == m.sha
    && (Approved(r, m.id, owner, m.sha) <==>
          || Approved(s, m.id, owner, m.sha)
          || (m.id in s.rows && CarriesFrom(s.repo, s.rows[m.id], r.rows[m.id].base, m.sha)
              && Approved(s, m.id, owner, s.rows[m.id].head)))
  }

  lemma MemberApprovals(s: State, p: Push, m: Member, owner: Name)
    requires ValidRepo(s.repo) && 0 < m.sha < |s.repo|
    ensures ApprovalMoves(s, RecordMember(s, p, m), m, owner)
  {
  }

  lemma {:induction false} RecordApprovals(s: State, p: Push, ms: seq<Member>, m: Member, owner: Name)
    requires ValidRepo(s.repo) && InRepoMembers(s.repo, ms) && DistinctIds(ms) && m in ms
    ensures ApprovalMoves(s, Record(s, p, ms), m, owner)
    decreases |ms|
  {
    var n := |ms| - 1;
    SplitLast(ms);
    SplitMembers(ms, m);
    var before := Record(s, p, ms[..n]);
    if m == ms[n] {
      RecordElsewhere(s, p, ms[..n], m.id);
      MemberApprovals(before, p, m, owner);
    } else {
      RecordApprovals(s, p, ms[..n], m, owner);
      MemberElsewhere(before, p, ms[n], m.id);
    }
  }

  lemma SplitMembers(ms: seq<Member>, m: Member)
    requires DistinctIds(ms) && m in ms
    ensures var n := |ms| - 1;
            && DistinctIds(ms[..n]) && (forall x :: x in ms[..n] ==> x.id != ms[n].id)
            && (m == ms[n] || m in ms[..n])
  {
  }

  /** After an accepted push, for every member of the series: an approval counts at its new
      head exactly when it counted there before, or counted at the old head of a Change whose
      move is a trivial rebase.  Anything else resets it. */
  lemma PushCarriesApproval(s: State, p: Push, m: Member, owner: Name)
    requires Wf(s) && Accepted(s, p)
    requires m in Series(Quarantined(s, p).repo, s.trunk, s.rows, p.tip)
    ensures ApprovalMoves(Quarantined(s, p), ReceivePush(s, p), m, owner)
  {
    var q := Quarantined(s, p);
    var ms := Series(q.repo, q.trunk, q.rows, p.tip);
    SeriesInRepo(q.repo, q.trunk, q.rows, p.tip);
    SeriesDistinct(q.repo, q.trunk, q.rows, p.tip);
    var t := q.(log := q.log.(tips := q.log.tips[(p.workspace, BranchOf(p)) := p.tip]));
    RecordApprovals(t, p, ms, m, owner);
    SameApprovals(q, t, ReceivePush(s, p), m, owner);
  }

  lemma SameApprovals(q: State, t: State, r: State, m: Member, owner: Name)
    requires t == q.(log := t.log) && ApprovalMoves(t, r, m, owner)
    ensures ApprovalMoves(q, r, m, owner)
  {
  }
}
