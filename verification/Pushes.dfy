/** What an accepted push leaves in the store, and that the store then derives the stack
    that was pushed. */
module Pushes {
  import opened Changes
  import opened Git
  import opened Store
  import opened Receive

  predicate DistinctIds(ms: seq<Member>) {
    forall i, j :: 0 <= i < j < |ms| ==> ms[i].id != ms[j].id
  }

  function Ids(ms: seq<Member>): set<Key> {
    set m | m in ms :: m.id
  }

  lemma IdsLast(ms: seq<Member>)
    requires ms != [] && DistinctIds(ms)
    ensures var n := |ms| - 1;
            DistinctIds(ms[..n]) && Ids(ms) == Ids(ms[..n]) + {ms[n].id} && ms[n].id !in Ids(ms[..n])
  {
    var n := |ms| - 1;
    assert ms == ms[..n] + [ms[n]];
  }

  /** The base recorded for the i-th member: those below it are already in the store. */
  function BaseOf(s: State, ms: seq<Member>, i: nat): Sha
    requires ValidRepo(s.repo) && InRepoMembers(s.repo, ms) && i < |ms|
  {
    assert ms[i] in ms;
    ComputeBase(s.repo, s.trunk, s.rows.Keys + Ids(ms[..i]), ms[i].sha, ms[i].id)
  }

  function RowOf(s: State, p: Push, ms: seq<Member>, i: nat): Change
    requires ValidRepo(s.repo) && InRepoMembers(s.repo, ms) && i < |ms|
  {
    Upserted(s.rows, ms[i].id, BaseOf(s, ms, i), ms[i].sha, p.author, p.workspace, BranchOf(p))
  }

  /** The last turn of the recording loop. */
  lemma RecordLast(s: State, p: Push, ms: seq<Member>)
    requires ValidRepo(s.repo) && InRepoMembers(s.repo, ms) && ms != []
    ensures InRepoMembers(s.repo, ms[..|ms| - 1])
    ensures var m := ms[|ms| - 1]; var before := Record(s, p, ms[..|ms| - 1]); var r := Record(s, p, ms);
            && 0 < m.sha < |s.repo|
            && r == RecordMember(before, p, m)
            && r.rows == before.rows[m.id := Upserted(before.rows, m.id,
                 ComputeBase(s.repo, s.trunk, before.rows.Keys, m.sha, m.id), m.sha, p.author, p.workspace, BranchOf(p))]
            && r.refs == before.refs[m.id := m.sha]
  {
    assert ms[|ms| - 1] in ms && forall m :: m in ms[..|ms| - 1] ==> m in ms;
  }

  lemma UpsertAgree(a: Rows, b: Rows, key: Key, base: Sha, head: Sha, author: Name, ws: Name, branch: Name)
    requires (key in a <==> key in b) && (key in a ==> a[key] == b[key])
    ensures Upserted(a, key, base, head, author, ws, branch) == Upserted(b, key, base, head, author, ws, branch)
  {
  }

  lemma UpsertHead(rows: Rows, key: Key, base: Sha, head: Sha, author: Name, ws: Name, branch: Name)
    ensures var c := Upserted(rows, key, base, head, author, ws, branch);
            && c.head == head && c.base == base && c.author == author
            && (key in rows ==> c.key == rows[key].key && c.landed == rows[key].landed && c.forced == rows[key].forced)
            && (key !in rows ==> c.key == key && c.landed == NONE && !c.forced && c.branch == branch)
            && (c.status == Landed <==> IsLanded(rows, key))
            && c.status != Abandoned
            && (ws != NONE ==> c.workspace == ws && c.branch == branch)
            && (ws == NONE ==> c.workspace == if key in rows then rows[key].workspace else NONE)
            && (ws == NONE && key in rows ==> c.branch == rows[key].branch)
  {
  }

  /** `r` differs from `before` on `key` only. */
  ghost predicate Untouched(before: Rows, r: Rows, ids: set<Key>) {
    forall k :: k !in ids ==> (k in before <==> k in r) && (k in before ==> r[k] == before[k])
  }

  /** Recording writes the members' rows and no others. */
  lemma {:induction false} RecordDomain(s: State, p: Push, ms: seq<Member>)
    requires ValidRepo(s.repo) && InRepoMembers(s.repo, ms) && DistinctIds(ms)
    ensures var r := Record(s, p, ms);
            r.rows.Keys == s.rows.Keys + Ids(ms) && Untouched(s.rows, r.rows, Ids(ms))
    decreases |ms|
  {
    if ms != [] {
      RecordLast(s, p, ms);
      IdsLast(ms);
      RecordDomain(s, p, ms[..|ms| - 1]);
    }
  }

  lemma RowOfPrefix(s: State, p: Push, ms: seq<Member>, i: nat)
    requires ValidRepo(s.repo) && InRepoMembers(s.repo, ms) && i < |ms| - 1
    ensures InRepoMembers(s.repo, ms[..|ms| - 1])
    ensures ms[..|ms| - 1][i] == ms[i] && RowOf(s, p, ms[..|ms| - 1], i) == RowOf(s, p, ms, i)
  {
    assert forall m :: m in ms[..|ms| - 1] ==> m in ms;
    assert ms[..|ms| - 1][..i] == ms[..i];
  }

  lemma {:induction false} RecordRow(s: State, p: Push, ms: seq<Member>, i: nat)
    requires ValidRepo(s.repo) && InRepoMembers(s.repo, ms) && DistinctIds(ms) && i < |ms|
    ensures var r := Record(s, p, ms);
            ms[i].id in r.rows && r.rows[ms[i].id] == RowOf(s, p, ms, i)
    decreases |ms|
  {
    var n := |ms| - 1;
    var m, lower := ms[n], ms[..n];
    RecordLast(s, p, ms);
    IdsLast(ms);
    if i == n {
      RecordDomain(s, p, lower);
      UpsertAgree(Record(s, p, lower).rows, s.rows, m.id, BaseOf(s, ms, n), m.sha, p.author, p.workspace, BranchOf(p));
    } else {
      RecordRow(s, p, lower, i);
      RowOfPrefix(s, p, ms, i);
    }
  }

  lemma {:induction false} RecordRefs(s: State, p: Push, ms: seq<Member>)
    requires ValidRepo(s.repo) && InRepoMembers(s.repo, ms) && RefsFollow(s)
    ensures RefsFollow(Record(s, p, ms))
    decreases |ms|
  {
    if ms != [] {
      RecordLast(s, p, ms);
      RecordRefs(s, p, ms[..|ms| - 1]);
      var m, before := ms[|ms| - 1], Record(s, p, ms[..|ms| - 1]);
      UpsertHead(before.rows, m.id, ComputeBase(s.repo, s.trunk, before.rows.Keys, m.sha, m.id), m.sha,
                 p.author, p.workspace, BranchOf(p));
    }
  }

  lemma SeriesDistinct(repo: Repo, trunk: seq<Sha>, rows: Rows, tip: Sha)
    requires ValidRepo(repo) && 0 < tip < |repo|
    ensures DistinctIds(Series(repo, trunk, rows, tip))
  {
    var walk := RevList(repo, trunk, tip, STACK_WALK_LIMIT);
    if walk != [] {
      var top := TopDown(repo, rows, tip, walk, {});
      forall i, j | 0 <= i < j < |top| ensures Reverse(top)[i].id != Reverse(top)[j].id {
        assert top[|top| - 1 - j].id != top[|top| - 1 - i].id;
      }
    }
  }

  /** A series member lies on the pushed tip's first-parent line, under its own Change-Id,
      and never revives a landed Change. */
  lemma SeriesMember(repo: Repo, trunk: seq<Sha>, rows: Rows, tip: Sha, m: Member)
    requires ValidRepo(repo) && 0 < tip < |repo| && m in Series(repo, trunk, rows, tip)
    ensures 0 < m.sha < |repo| && OnLine(repo, tip, m.sha)
    ensures m.id == IdOf(repo, m.sha)
    ensures !IsLanded(rows, IdOf(repo, tip)) ==> !IsLanded(rows, m.id)
  {
    var walk := RevList(repo, trunk, tip, STACK_WALK_LIMIT);
    if walk != [] {
      var top := TopDown(repo, rows, tip, walk, {});
      InReverse(top, m);
      RevListOnLine(repo, trunk, tip, STACK_WALK_LIMIT);
    }
  }
}
