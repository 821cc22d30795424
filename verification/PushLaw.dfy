/** What a push walks, whether it is accepted and what it leaves, said of commits, rows and
    reviews one by one (runkod/prereceive.go). */
module PushLaw {
  import opened Changes
  import opened Git
  import opened Store
  import opened Receive
  import opened Pushes
  import opened ReviewLaw

  // ----- Walks

  /** The i-th first parent of `s`, NONE from beyond the root on. */
  function Ancestor(repo: Repo, s: Sha, i: nat): (a: Sha)
    requires ValidRepo(repo) && s < |repo|
    ensures a < |repo|
    decreases i
  {
    if i == 0 then s
    else
      var a := Ancestor(repo, s, i - 1);
      assert a > 0 ==> repo[a].parent < a;
      repo[a].parent
  }

  lemma {:induction false} AncestorUp(repo: Repo, s: Sha, i: nat)
    requires ValidRepo(repo) && s < |repo|
    ensures repo[s].parent < |repo| && Ancestor(repo, s, i + 1) == Ancestor(repo, repo[s].parent, i)
    decreases i
  {
    assert s > 0 ==> repo[s].parent < s;
    if i > 0 { AncestorUp(repo, s, i - 1); }
  }

  /** `a` is one that a walk of what trunk lacks goes on through. */
  predicate OffTrunk(trunk: seq<Sha>, a: Sha) {
    a != NONE && a !in trunk
  }

  /** The first parents of `s` in order, as far as trunk, a root or the limit. */
  ghost predicate Walks(repo: Repo, trunk: seq<Sha>, s: Sha, limit: nat, walk: seq<Sha>)
    requires ValidRepo(repo) && s < |repo|
  {
    && |walk| <= limit
    && (forall i :: 0 <= i < |walk| ==> walk[i] == Ancestor(repo, s, i) && OffTrunk(trunk, walk[i]))
    && (|walk| < limit ==> !OffTrunk(trunk, Ancestor(repo, s, |walk|)))
  }

  lemma WalksOn(repo: Repo, trunk: seq<Sha>, s: Sha, limit: nat, rest: seq<Sha>)
    requires ValidRepo(repo) && s < |repo| && repo[s].parent < |repo| && OffTrunk(trunk, s)
    requires Walks(repo, trunk, repo[s].parent, limit, rest)
    ensures Walks(repo, trunk, s, limit + 1, [s] + rest)
  {
    var walk := [s] + rest;
    forall i | 0 <= i < |walk| ensures walk[i] == Ancestor(repo, s, i) && OffTrunk(trunk, walk[i]) {
      if i > 0 { AncestorUp(repo, s, i - 1); }
    }
    AncestorUp(repo, s, |rest|);
  }

  /** `rev-list` walks so. */
  lemma {:induction false} RevListExactly(repo: Repo, trunk: seq<Sha>, s: Sha, limit: nat)
    requires ValidRepo(repo) && s < |repo|
    ensures Walks(repo, trunk, s, limit, RevList(repo, trunk, s, limit))
    decreases limit
  {
    if limit != 0 && s != NONE && s !in trunk {
      RevListExactly(repo, trunk, repo[s].parent, limit - 1);
      WalksOn(repo, trunk, s, limit - 1, RevList(repo, trunk, repo[s].parent, limit - 1));
    }
  }

  /** The merge-base is the first first parent that trunk has. */
  lemma {:induction false} MergeBaseExactly(repo: Repo, trunk: seq<Sha>, s: Sha) returns (i: nat)
    requires ValidRepo(repo) && s < |repo|
    ensures MergeBase(repo, trunk, s) == Ancestor(repo, s, i) && !OffTrunk(trunk, Ancestor(repo, s, i))
    ensures forall j :: 0 <= j < i ==> OffTrunk(trunk, Ancestor(repo, s, j))
    decreases s
  {
    i := 0;
    if OffTrunk(trunk, s) {
      var k := MergeBaseExactly(repo, trunk, repo[s].parent);
      AncestorUp(repo, s, k);
      forall j | 0 <= j < k + 1 ensures OffTrunk(trunk, Ancestor(repo, s, j)) {
        if j > 0 { AncestorUp(repo, s, j - 1); }
      }
      i := k + 1;
    }
  }

  /** The commit names another Change that the store knows. */
  predicate NamesOther(repo: Repo, known: set<Key>, id: Key, a: Sha)
    requires a < |repo|
  {
    repo[a].trailer != NONE && repo[a].trailer != id && repo[a].trailer in known
  }

  lemma {:induction false} NearestExactly(repo: Repo, known: set<Key>, walk: seq<Sha>, id: Key)
    requires InRepo(repo, walk)
    ensures forall i :: 0 <= i < |walk| ==> walk[i] in walk
    ensures var r := Nearest(repo, known, walk, id);
            if r.Some? then exists i :: 0 <= i < |walk| && walk[i] == r.value && NamesOther(repo, known, id, walk[i])
                              && forall j :: 0 <= j < i ==> !NamesOther(repo, known, id, walk[j])
            else forall j :: 0 <= j < |walk| ==> !NamesOther(repo, known, id, walk[j])
  {
    assert forall i :: 0 <= i < |walk| ==> walk[i] in walk;
    if walk != [] && !NamesOther(repo, known, id, walk[0]) {
      assert forall x :: x in walk[1..] ==> x in walk;
      NearestExactly(repo, known, walk[1..], id);
      var r := Nearest(repo, known, walk, id);
      if r.Some? {
        var i :| 0 <= i < |walk[1..]| && walk[1..][i] == r.value && NamesOther(repo, known, id, walk[1..][i])
          && forall j :: 0 <= j < i ==> !NamesOther(repo, known, id, walk[1..][j]);
        assert walk[i + 1] == r.value && forall j :: 0 <= j < i + 1 ==> j == 0 || walk[j] == walk[1..][j - 1];
      } else {
        assert forall j :: 0 < j < |walk| ==> walk[j] == walk[1..][j - 1];
      }
    }
  }

  /** `base` is what a Change at `sha` is stacked on: the nearest commit below, among the first
      hundred that trunk lacks, that names another known Change; or, without one, where the
      line meets trunk. */
  ghost predicate StacksOn(repo: Repo, trunk: seq<Sha>, known: set<Key>, sha: Sha, id: Key, base: Sha)
    requires ValidRepo(repo) && sha < |repo|
  {
    || (exists i :: 0 < i <= 100 && base == Ancestor(repo, sha, i) && NearestAt(repo, trunk, known, sha, id, i))
    || ((forall i :: 0 < i <= 100 ==> !NearestAt(repo, trunk, known, sha, id, i))
        && exists i: nat :: base == Ancestor(repo, sha, i) && !OffTrunk(trunk, base)
             && forall j :: 0 <= j < i ==> OffTrunk(trunk, Ancestor(repo, sha, j)))
  }

  /** Counting from the commit's parent, the i-th names another known Change, it is the first
      that does, and trunk has none up to there. */
  ghost predicate NearestAt(repo: Repo, trunk: seq<Sha>, known: set<Key>, sha: Sha, id: Key, i: nat)
    requires ValidRepo(repo) && sha < |repo|
  {
    && (forall j :: 0 < j <= i ==> OffTrunk(trunk, Ancestor(repo, sha, j)))
    && NamesOther(repo, known, id, Ancestor(repo, sha, i))
    && forall j :: 0 < j < i ==> !NamesOther(repo, known, id, Ancestor(repo, sha, j))
  }

  lemma BasesExactly(repo: Repo, trunk: seq<Sha>, known: set<Key>, sha: Sha, id: Key)
    requires ValidRepo(repo) && 0 < sha < |repo|
    ensures StacksOn(repo, trunk, known, sha, id, ComputeBase(repo, trunk, known, sha, id))
  {
    var walk := RevList(repo, trunk, repo[sha].parent, STACK_WALK_LIMIT);
    RevListExactly(repo, trunk, repo[sha].parent, STACK_WALK_LIMIT);
    NearestExactly(repo, known, walk, id);
    forall j | 0 <= j <= |walk| ensures Ancestor(repo, sha, j + 1) == Ancestor(repo, repo[sha].parent, j) {
      AncestorUp(repo, sha, j);
    }
    var near := Nearest(repo, known, walk, id);
    if near.Some? {
      var i :| 0 <= i < |walk| && walk[i] == near.value && NamesOther(repo, known, id, walk[i])
        && forall j :: 0 <= j < i ==> !NamesOther(repo, known, id, walk[j]);
      NearFound(repo, trunk, known, sha, id, walk, i);
    } else {
      NoneNear(repo, trunk, known, sha, id, walk);
      var i := MergeBaseExactly(repo, trunk, sha);
    }
  }

  lemma NearFound(repo: Repo, trunk: seq<Sha>, known: set<Key>, sha: Sha, id: Key, walk: seq<Sha>, i: nat)
    requires ValidRepo(repo) && sha < |repo| && InRepo(repo, walk) && i < |walk| && forall k :: 0 <= k < |walk| ==> walk[k] in walk
    requires forall k :: 0 <= k < |walk| ==> walk[k] == Ancestor(repo, sha, k + 1) && OffTrunk(trunk, walk[k])
    requires NamesOther(repo, known, id, walk[i]) && forall j :: 0 <= j < i ==> !NamesOther(repo, known, id, walk[j])
    ensures NearestAt(repo, trunk, known, sha, id, i + 1) && Ancestor(repo, sha, i + 1) == walk[i]
  {
    forall j | 0 < j <= i + 1 ensures Ancestor(repo, sha, j) == walk[j - 1] {}
  }

  lemma NoneNear(repo: Repo, trunk: seq<Sha>, known: set<Key>, sha: Sha, id: Key, walk: seq<Sha>)
    requires ValidRepo(repo) && sha < |repo| && InRepo(repo, walk) && forall k :: 0 <= k < |walk| ==> walk[k] in walk
    requires forall k :: 0 <= k < |walk| ==> walk[k] == Ancestor(repo, sha, k + 1) && OffTrunk(trunk, walk[k])
    requires |walk| == 100 || !OffTrunk(trunk, Ancestor(repo, sha, |walk| + 1))
    requires forall j :: 0 <= j < |walk| ==> !NamesOther(repo, known, id, walk[j])
    ensures forall i :: 0 < i <= 100 ==> !NearestAt(repo, trunk, known, sha, id, i)
  {
    forall i | 0 < i <= 100 ensures !NearestAt(repo, trunk, known, sha, id, i) {
      if i <= |walk| { assert Ancestor(repo, sha, i) == walk[i - 1]; }
    }
  }

  // ----- The series

  /** The Change a commit of the walk belongs to. */
  function NameOf(repo: Repo, tip: Sha, a: Sha): Key
    requires a < |repo|
  {
    if a == tip && repo[a].trailer == NONE then GenerateChangeID(a) else repo[a].trailer
  }

  /** The i-th commit heads a Change of the series: it is the nearest of that name, and the
      Change has not landed, unless it is the tip's. */
  ghost predicate HeadsMember(repo: Repo, rows: Rows, tip: Sha, walk: seq<Sha>, i: nat)
    requires i < |walk| && InRepo(repo, walk)
  {
    assert forall k :: 0 <= k < |walk| ==> walk[k] in walk;
    var id := NameOf(repo, tip, walk[i]);
    && id != NONE && (walk[i] == tip || !(id in rows && rows[id].status == Landed))
    && forall j :: 0 <= j < i ==> NameOf(repo, tip, walk[j]) != id
  }

  /** `m` stands for a commit of the walk that heads a Change not seen before. */
  ghost predicate MemberOf(repo: Repo, rows: Rows, tip: Sha, walk: seq<Sha>, seen: set<Key>, m: Member)
    requires InRepo(repo, walk)
  {
    m.id !in seen && exists i :: HeadedBy(repo, rows, tip, walk, m, i)
  }

  ghost predicate HeadedBy(repo: Repo, rows: Rows, tip: Sha, walk: seq<Sha>, m: Member, i: int)
    requires InRepo(repo, walk)
  {
    0 <= i < |walk| && m == Member(walk[i], NameAt(repo, tip, walk, i)) && HeadsMember(repo, rows, tip, walk, i)
  }

  lemma {:induction false} TopDownExactly(repo: Repo, rows: Rows, tip: Sha, walk: seq<Sha>, seen: set<Key>, m: Member)
    requires tip < |repo| && InRepo(repo, walk)
    ensures m in TopDown(repo, rows, tip, walk, seen) <==> MemberOf(repo, rows, tip, walk, seen, m)
  {
    if walk != [] {
      var rest := walk[1..];
      assert walk[0] in walk && forall x :: x in rest ==> x in walk;
      var id := NameAt(repo, tip, walk, 0);
      var more := if id == NONE || id in seen then seen else seen + {id};
      TopDownExactly(repo, rows, tip, rest, more, m);
      MemberNext(repo, rows, tip, walk, seen, more, m);
    }
  }

  lemma MemberNext(repo: Repo, rows: Rows, tip: Sha, walk: seq<Sha>, seen: set<Key>, more: set<Key>, m: Member)
    requires InRepo(repo, walk) && walk != [] && InRepo(repo, walk[1..])
    requires var id := NameAt(repo, tip, walk, 0); more == if id == NONE || id in seen then seen else seen + {id}
    ensures MemberOf(repo, rows, tip, walk, seen, m) <==>
              (m.id !in seen && HeadedBy(repo, rows, tip, walk, m, 0)) || MemberOf(repo, rows, tip, walk[1..], more, m)
  {
    var rest := walk[1..];
    HeadsNext(repo, rows, tip, walk);
    forall i | 0 < i < |walk|
      ensures HeadedBy(repo, rows, tip, walk, m, i) <==>
                HeadedBy(repo, rows, tip, rest, m, i - 1) && m.id != NameAt(repo, tip, walk, 0)
    {
      assert rest[i - 1] == walk[i];
    }
    if i :| HeadedBy(repo, rows, tip, rest, m, i) {
      assert HeadedBy(repo, rows, tip, walk, m, i + 1) <==> m.id != NameAt(repo, tip, walk, 0);
    }
  }

  function NameAt(repo: Repo, tip: Sha, walk: seq<Sha>, i: nat): Key
    requires i < |walk| && InRepo(repo, walk)
  {
    assert walk[i] in walk;
    NameOf(repo, tip, walk[i])
  }

  lemma HeadsNext(repo: Repo, rows: Rows, tip: Sha, walk: seq<Sha>)
    requires InRepo(repo, walk) && walk != []
    ensures InRepo(repo, walk[1..])
    ensures forall i :: 0 < i < |walk| ==>
              NameAt(repo, tip, walk, i) == NameAt(repo, tip, walk[1..], i - 1)
              && (HeadsMember(repo, rows, tip, walk, i) <==>
                    HeadsMember(repo, rows, tip, walk[1..], i - 1) && NameAt(repo, tip, walk, i) != NameAt(repo, tip, walk, 0))
  {
    assert forall x :: x in walk[1..] ==> x in walk;
    assert forall j :: 0 < j < |walk| ==> walk[1..][j - 1] == walk[j];
  }

  /** The members of a push: one for each commit of the walk that heads a Change, or the tip
      alone where trunk has it already. */
  ghost predicate InSeries(repo: Repo, trunk: seq<Sha>, rows: Rows, tip: Sha, m: Member)
    requires ValidRepo(repo) && 0 < tip < |repo|
  {
    if tip in trunk then m == Member(tip, NameOf(repo, tip, tip))
    else exists walk :: Walks(repo, trunk, tip, 100, walk) && InRepo(repo, walk) && MemberOf(repo, rows, tip, walk, {}, m)
  }

  lemma WalksUnique(repo: Repo, trunk: seq<Sha>, s: Sha, limit: nat, p: seq<Sha>, q: seq<Sha>)
    requires ValidRepo(repo) && s < |repo| && Walks(repo, trunk, s, limit, p) && Walks(repo, trunk, s, limit, q)
    ensures p == q
  {
    assert |p| == |q| && forall i :: 0 <= i < |p| ==> p[i] == q[i];
  }

  lemma SeriesExactly(repo: Repo, trunk: seq<Sha>, rows: Rows, tip: Sha, m: Member)
    requires ValidRepo(repo) && 0 < tip < |repo|
    ensures m in Series(repo, trunk, rows, tip) <==> InSeries(repo, trunk, rows, tip, m)
  {
    var walk := RevList(repo, trunk, tip, STACK_WALK_LIMIT);
    RevListExactly(repo, trunk, tip, STACK_WALK_LIMIT);
    if tip !in trunk {
      var top := TopDown(repo, rows, tip, walk, {});
      TopDownExactly(repo, rows, tip, walk, {}, m);
      if m in Reverse(top) { InReverse(top, m); }
      if m in top {
        var i :| 0 <= i < |top| && top[i] == m;
        assert Reverse(top)[|top| - 1 - i] == m;
      }
      if InSeries(repo, trunk, rows, tip, m) {
        var w :| Walks(repo, trunk, tip, 100, w) && InRepo(repo, w) && MemberOf(repo, rows, tip, w, {}, m);
        WalksUnique(repo, trunk, tip, 100, walk, w);
      }
    }
  }

  ghost predicate Descends(q: seq<Sha>) {
    forall i, j :: 0 <= i < j < |q| ==> q[j] < q[i]
  }

  function Shas(ms: seq<Member>): seq<Sha> {
    seq(|ms|, i requires 0 <= i < |ms| => ms[i].sha)
  }

  lemma DescendsOn(x: Sha, q: seq<Sha>)
    requires Descends(q) && forall y :: y in q ==> y < x
    ensures Descends([x] + q)
  {
    var r := [x] + q;
    forall i, j | 0 <= i < j < |r| ensures r[j] < r[i] {
      assert r[j] == q[j - 1] && q[j - 1] in q;
      if i > 0 { assert r[i] == q[i - 1]; }
    }
  }

  /** A walk goes down to older commits. */
  lemma {:induction false} WalkDescends(repo: Repo, trunk: seq<Sha>, s: Sha, limit: nat)
    requires ValidRepo(repo) && s < |repo|
    ensures Descends(RevList(repo, trunk, s, limit))
    decreases limit
  {
    if limit != 0 && s != NONE && s !in trunk {
      WalkDescends(repo, trunk, repo[s].parent, limit - 1);
      DescendsOn(s, RevList(repo, trunk, repo[s].parent, limit - 1));
    }
  }

  lemma {:induction false} TopDownDescends(repo: Repo, rows: Rows, tip: Sha, walk: seq<Sha>, seen: set<Key>)
    requires tip < |repo| && InRepo(repo, walk) && Descends(walk)
    ensures Descends(Shas(TopDown(repo, rows, tip, walk, seen)))
  {
    if walk != [] {
      var rest := walk[1..];
      assert walk[0] in walk && forall x :: x in rest ==> x in walk;
      var id := IdAt(repo, tip, walk[0]);
      var more := if id == NONE || id in seen then seen else seen + {id};
      TopDownDescends(repo, rows, tip, rest, more);
      var top, below := TopDown(repo, rows, tip, walk, seen), TopDown(repo, rows, tip, rest, more);
      if top != below { HeadThenBelow(top, below, walk); }
    }
  }

  lemma HeadThenBelow(top: seq<Member>, below: seq<Member>, walk: seq<Sha>)
    requires walk != [] && Descends(walk) && Descends(Shas(below)) && forall m :: m in below ==> m.sha in walk[1..]
    requires top != [] && top[0].sha == walk[0] && top[1..] == below
    ensures Descends(Shas(top))
  {
    forall y | y in Shas(below) ensures y < walk[0] {
      var i :| 0 <= i < |below| && below[i].sha == y;
      assert below[i] in below;
      var j :| 0 <= j < |walk[1..]| && walk[1..][j] == y;
      assert walk[j + 1] == y;
    }
    DescendsOn(walk[0], Shas(below));
    assert Shas(top) == [walk[0]] + Shas(below) by {
      assert forall i :: 0 < i < |top| ==> top[i] == below[i - 1];
    }
  }

  /** The series is listed from the bottom up: older commits first. */
  lemma SeriesAscends(repo: Repo, trunk: seq<Sha>, rows: Rows, tip: Sha, i: nat, j: nat)
    requires ValidRepo(repo) && 0 < tip < |repo| && i < j < |Series(repo, trunk, rows, tip)|
    ensures var ms := Series(repo, trunk, rows, tip); ms[i].sha < ms[j].sha
  {
    var walk := RevList(repo, trunk, tip, STACK_WALK_LIMIT);
    WalkDescends(repo, trunk, tip, STACK_WALK_LIMIT);
    TopDownDescends(repo, rows, tip, walk, {});
    if walk != [] { ReversedAscends(TopDown(repo, rows, tip, walk, {}), i, j); }
  }

  lemma ReversedAscends(top: seq<Member>, i: nat, j: nat)
    requires Descends(Shas(top)) && i < j < |top|
    ensures Reverse(top)[i].sha < Reverse(top)[j].sha
  {
    assert Shas(top)[|top| - 1 - i] < Shas(top)[|top| - 1 - j];
  }

  // ----- Acceptance

  /** The push names a workspace that is registered, not closed and the pusher's, or none while
      trunk is unborn. */
  predicate MayPushFrom(s: State, p: Push) {
    if p.workspace == NONE then s.trunk == []
    else
      && p.workspace in s.spaces && !s.spaces[p.workspace].closed
      && (p.author == s.spaces[p.workspace].owner || p.author == NONE || s.spaces[p.workspace].owner == NONE)
  }

  /** Every open Change of the push's own branch is a member of the push. */
  ghost predicate RidesAlong(s: State, repo: Repo, p: Push)
    requires ValidRepo(repo) && 0 < p.tip < |repo|
  {
    var branch := if p.branch != NONE then p.branch else HEAD_BRANCH;
    forall k :: k in s.rows && s.rows[k].status == Open && s.rows[k].workspace == p.workspace && s.rows[k].branch == branch ==>
      exists sha :: InSeries(repo, s.trunk, s.rows, p.tip, Member(sha, k))
  }

  ghost predicate MayPush(s: State, p: Push) {
    var repo := s.repo + p.objects;
    && ValidRepo(repo) && 0 < p.tip < |repo| && p.allowed && MayPushFrom(s, p)
    && (var k := NameOf(repo, p.tip, p.tip); k in s.rows ==> s.rows[k].status != Landed)
    && (p.workspace != NONE ==> RidesAlong(s, repo, p))
  }

  lemma CarriesExactlyBranch(s: State, repo: Repo, p: Push)
    requires ValidRepo(repo) && 0 < p.tip < |repo|
    ensures CarriesBranch(s.rows, Series(repo, s.trunk, s.rows, p.tip), p.workspace, BranchOf(p)) <==> RidesAlong(s, repo, p)
  {
    var ms := Series(repo, s.trunk, s.rows, p.tip);
    forall m ensures m in ms <==> InSeries(repo, s.trunk, s.rows, p.tip, m) { SeriesExactly(repo, s.trunk, s.rows, p.tip, m); }
    if CarriesBranch(s.rows, ms, p.workspace, BranchOf(p)) {
      forall k | k in s.rows && FromBranch(s.rows[k], p.workspace, BranchOf(p))
        ensures exists sha :: InSeries(repo, s.trunk, s.rows, p.tip, Member(sha, k))
      {
        var m :| m in ms && m.id == k;
        assert m == Member(m.sha, k);
      }
    }
    if RidesAlong(s, repo, p) {
      forall k | k in s.rows && FromBranch(s.rows[k], p.workspace, BranchOf(p)) ensures exists m :: m in ms && m.id == k {
        var sha :| InSeries(repo, s.trunk, s.rows, p.tip, Member(sha, k));
        assert Member(sha, k) in ms;
      }
    }
  }

  lemma AcceptsExactly(s: State, p: Push)
    ensures Accepted(s, p) <==> MayPush(s, p)
  {
    var repo := s.repo + p.objects;
    if ValidRepo(repo) && 0 < p.tip < |repo| { CarriesExactlyBranch(s, repo, p); }
  }

  // ----- What an accepted push leaves

  /** The row of a member: at its commit, on what it stacks on, by this pusher; open; and what
      else it was, or a new Change of this push's branch. */
  ghost predicate MemberRow(s: State, repo: Repo, p: Push, known: set<Key>, m: Member, c: Change)
    requires ValidRepo(repo) && m.sha < |repo|
  {
    && c.head == m.sha && c.author == p.author && StacksOn(repo, s.trunk, known, m.sha, m.id, c.base)
    && c.key == (if m.id in s.rows then s.rows[m.id].key else m.id)
    && (m.id in s.rows ==>
          c.status == (if s.rows[m.id].status == Landed then Landed else Open)
          && c.landed == s.rows[m.id].landed && c.forced == s.rows[m.id].forced)
    && (m.id !in s.rows ==> c.status == Open && c.landed == NONE && !c.forced)
    && (p.workspace != NONE || m.id !in s.rows ==> c.workspace == p.workspace && c.branch == BranchOf(p))
    && (p.workspace == NONE && m.id in s.rows ==> c.workspace == s.rows[m.id].workspace && c.branch == s.rows[m.id].branch)
  }

  /** Nothing of a Change that is no member has moved. */
  ghost predicate Elsewhere(s: State, t: State, k: Key) {
    && s.log.versions <= t.log.versions && s.log.found <= t.log.found
    && (k in t.rows <==> k in s.rows) && (k in s.rows ==> t.rows[k] == s.rows[k])
    && (k in t.refs <==> k in s.refs) && (k in s.refs ==> t.refs[k] == s.refs[k])
    && (forall h, n :: RunOf(t.review, k, h, n) == RunOf(s.review, k, h, n))
    && (forall n :: ApprovalOf(t.review, k, n) == ApprovalOf(s.review, k, n))
  }

  lemma MemberElsewhere(s: State, p: Push, m: Member, k: Key)
    requires ValidRepo(s.repo) && 0 < m.sha < |s.repo| && m.id != k
    ensures Elsewhere(s, RecordMember(s, p, m), k)
  {
    ReviewLaw.MemberReviewed(s, p, m, ComputeBase(s.repo, s.trunk, s.rows.Keys, m.sha, m.id));
  }

  lemma {:induction false} RecordElsewhere(s: State, p: Push, ms: seq<Member>, k: Key)
    requires ValidRepo(s.repo) && InRepoMembers(s.repo, ms) && forall m :: m in ms ==> m.id != k
    ensures Elsewhere(s, Record(s, p, ms), k)
    decreases |ms|
  {
    if ms != [] {
      SplitLast(ms);
      RecordElsewhere(s, p, ms[..|ms| - 1], k);
      MemberElsewhere(Record(s, p, ms[..|ms| - 1]), p, ms[|ms| - 1], k);
    }
  }

  /** What recording leaves of member i, whose lower neighbours are known by then. */
  ghost predicate MemberLeft(s: State, p: Push, ms: seq<Member>, i: nat, t: State)
    requires ValidRepo(s.repo) && InRepoMembers(s.repo, ms) && i < |ms|
  {
    assert ms[i] in ms;
    var m := ms[i];
    && m.id in t.rows && MemberRow(s, s.repo, p, s.rows.Keys + Ids(ms[..i]), m, t.rows[m.id])
    && m.id in t.refs && t.refs[m.id] == m.sha
    && (m.id, Version(t.rows[m.id].base, m.sha)) in t.log.versions && (m.id in p.findings ==> (m.id, m.sha) in t.log.found)
    && ReviewsMember(s, p, m.id, t.rows[m.id].base, m.sha, t.review)
  }

  /** A member's entries are all its recording reads. */
  lemma SameEntries(s: State, u: State, p: Push, k: Key, base: Sha, head: Sha, r: Review)
    requires u.repo == s.repo && Elsewhere(s, u, k) && ReviewsMember(u, p, k, base, head, r)
    ensures ReviewsMember(s, p, k, base, head, r)
  {
    assert Rides(u.repo, u.rows, k, base, head) <==> Rides(s.repo, s.rows, k, base, head);
    assert forall n :: RiddenRun(u, p, k, base, head, n) == RiddenRun(s, p, k, base, head, n);
  }

  lemma LastLeft(s: State, p: Push, ms: seq<Member>)
    requires ValidRepo(s.repo) && InRepoMembers(s.repo, ms) && DistinctIds(ms) && ms != []
    ensures MemberLeft(s, p, ms, |ms| - 1, Record(s, p, ms))
  {
    var n := |ms| - 1;
    var m, before := ms[n], Record(s, p, ms[..n]);
    RecordLast(s, p, ms);
    IdsLast(ms);
    RecordDomain(s, p, ms[..n]);
    forall x | x in ms[..n] ensures x.id != m.id { assert x.id in Ids(ms[..n]); }
    RecordElsewhere(s, p, ms[..n], m.id);
    var t := Record(s, p, ms);
    assert before.rows.Keys == s.rows.Keys + Ids(ms[..n]);
    RowLeft(s, before, p, s.rows.Keys + Ids(ms[..n]), m, t.rows[m.id]);
    ReviewLaw.MemberReviewed(before, p, m, t.rows[m.id].base);
    SameEntries(s, before, p, m.id, t.rows[m.id].base, m.sha, t.review);
  }

  lemma RowLeft(s: State, before: State, p: Push, known: set<Key>, m: Member, c: Change)
    requires ValidRepo(s.repo) && 0 < m.sha < |s.repo| && known == before.rows.Keys && Elsewhere(s, before, m.id)
    requires c == Upserted(before.rows, m.id, ComputeBase(s.repo, s.trunk, known, m.sha, m.id), m.sha, p.author, p.workspace, BranchOf(p))
    ensures MemberRow(s, s.repo, p, known, m, c)
  {
    var base := ComputeBase(s.repo, s.trunk, known, m.sha, m.id);
    BasesExactly(s.repo, s.trunk, known, m.sha, m.id);
    UpsertHead(before.rows, m.id, base, m.sha, p.author, p.workspace, BranchOf(p));
  }

  lemma LeftStays(s: State, p: Push, ms: seq<Member>, i: nat, u: State, t: State)
    requires ValidRepo(s.repo) && InRepoMembers(s.repo, ms) && i < |ms| - 1 && InRepoMembers(s.repo, ms[..|ms| - 1])
    requires MemberLeft(s, p, ms[..|ms| - 1], i, u) && Elsewhere(u, t, ms[i].id)
    ensures MemberLeft(s, p, ms, i, t)
  {
    assert ms[..|ms| - 1][..i] == ms[..i] && ms[..|ms| - 1][i] == ms[i];
  }

  lemma {:induction false} MembersLeft(s: State, p: Push, ms: seq<Member>, i: nat)
    requires ValidRepo(s.repo) && InRepoMembers(s.repo, ms) && DistinctIds(ms) && i < |ms|
    ensures MemberLeft(s, p, ms, i, Record(s, p, ms))
    decreases |ms|
  {
    var n := |ms| - 1;
    if i == n {
      LastLeft(s, p, ms);
    } else {
      RecordLast(s, p, ms);
      IdsLast(ms);
      MembersLeft(s, p, ms[..n], i);
      assert ms[i].id != ms[n].id;
      MemberElsewhere(Record(s, p, ms[..n]), p, ms[n], ms[i].id);
      LeftStays(s, p, ms, i, Record(s, p, ms[..n]), Record(s, p, ms));
    }
  }

  /** An accepted push: its objects are kept, each member is recorded in order from the bottom
      up, and nothing else moves. */
  ghost predicate Receives(s: State, p: Push, t: State)
    requires ValidRepo(s.repo + p.objects) && 0 < p.tip < |s.repo + p.objects|
  {
    var q := s.(repo := s.repo + p.objects);
    var ms := Series(q.repo, q.trunk, q.rows, p.tip);
    && t == s.(repo := q.repo, rows := t.rows, refs := t.refs, review := t.review, log := t.log)
    && InRepoMembers(q.repo, ms)
    && t.log.tips == s.log.tips[(p.workspace, if p.branch != NONE then p.branch else HEAD_BRANCH) := p.tip]
    && (forall i :: 0 <= i < |ms| ==> MemberLeft(q, p, ms, i, t))
    && (forall k :: (forall m :: m in ms ==> m.id != k) ==> Elsewhere(q, t, k))
  }

  lemma ReceivesExactly(s: State, p: Push)
    ensures if MayPush(s, p) then Receives(s, p, ReceivePush(s, p)) else ReceivePush(s, p) == s
  {
    AcceptsExactly(s, p);
    if MayPush(s, p) {
      var q := Quarantined(s, p);
      var ms := Series(q.repo, q.trunk, q.rows, p.tip);
      SeriesInRepo(q.repo, q.trunk, q.rows, p.tip);
      SeriesDistinct(q.repo, q.trunk, q.rows, p.tip);
      var u := q.(log := q.log.(tips := q.log.tips[(p.workspace, BranchOf(p)) := p.tip]));
      var t := ReceivePush(s, p);
      forall i | 0 <= i < |ms| ensures MemberLeft(q, p, ms, i, t) {
        MembersLeft(u, p, ms, i);
        SameLog(q, u, p, ms, i, t);
      }
      forall k | (forall m :: m in ms ==> m.id != k) ensures Elsewhere(q, t, k) {
        RecordElsewhere(u, p, ms, k);
      }
    }
  }

  /** What is logged plays no part. */
  lemma SameLog(q: State, u: State, p: Push, ms: seq<Member>, i: nat, t: State)
    requires u == q.(log := u.log) && ValidRepo(q.repo) && InRepoMembers(q.repo, ms) && i < |ms| && MemberLeft(u, p, ms, i, t)
    ensures MemberLeft(q, p, ms, i, t)
  {
    assert ms[i] in ms;
    var m := ms[i];
    assert forall n :: RiddenRun(u, p, m.id, t.rows[m.id].base, m.sha, n) == RiddenRun(q, p, m.id, t.rows[m.id].base, m.sha, n);
  }
}
