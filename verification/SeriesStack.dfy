/** A pushed series and the stack the store derives from it agree: bases are recorded so
    that every member's parent is the member pushed directly below it. */
module SeriesStack {
  import opened Changes
  import opened Forest
  import opened Git
  import opened Store
  import opened Receive
  import opened Pushes
  import opened WellFormed

  ghost predicate Ok(repo: Repo, trunk: seq<Sha>, tip: Sha) {
    ValidRepo(repo) && 0 < tip < |repo|
  }

  function Walked(repo: Repo, trunk: seq<Sha>, tip: Sha): (walk: seq<Sha>)
    requires Ok(repo, trunk, tip)
    ensures InRepo(repo, walk)
  {
    RevList(repo, trunk, tip, STACK_WALK_LIMIT)
  }

  function Id(repo: Repo, tip: Sha, walk: seq<Sha>, i: nat): Key
    requires InRepo(repo, walk) && tip < |repo| && i < |walk|
  {
    assert walk[i] in walk;
    IdAt(repo, tip, walk[i])
  }

  /** Each Change-Id labels one block of the walk; unlabelled commits may sit anywhere. */
  ghost predicate Contiguous(repo: Repo, tip: Sha, walk: seq<Sha>)
    requires InRepo(repo, walk) && tip < |repo|
  {
    forall i, j, k :: 0 <= i < j < k < |walk| && Id(repo, tip, walk, i) == Id(repo, tip, walk, k) != NONE ==>
      Id(repo, tip, walk, j) == NONE || Id(repo, tip, walk, j) == Id(repo, tip, walk, i)
  }

  ghost predicate NoneLanded(repo: Repo, rows: Rows, tip: Sha, walk: seq<Sha>)
    requires InRepo(repo, walk) && tip < |repo|
  {
    forall x :: x in walk ==> !IsLanded(rows, IdAt(repo, tip, x))
  }

  /** The push brings a series the receive funnel can walk in full. */
  ghost predicate CleanSeries(repo: Repo, trunk: seq<Sha>, rows: Rows, tip: Sha) {
    && Ok(repo, trunk, tip)
    && tip !in trunk
    && Complete(repo, trunk, tip, STACK_WALK_LIMIT)
    && Contiguous(repo, tip, Walked(repo, trunk, tip))
    && NoneLanded(repo, rows, tip, Walked(repo, trunk, tip))
  }

  // ----- Where the members sit in the walk

  ghost function SeenAt(repo: Repo, tip: Sha, walk: seq<Sha>, i: nat): set<Key>
    requires InRepo(repo, walk) && tip < |repo| && i <= |walk|
  {
    set j: nat | j < i && Id(repo, tip, walk, j) != NONE :: Id(repo, tip, walk, j)
  }

  lemma InRepoTail(repo: Repo, walk: seq<Sha>, i: nat)
    requires InRepo(repo, walk) && i <= |walk|
    ensures InRepo(repo, walk[i..])
  {
    assert forall x :: x in walk[i..] ==> x in walk;
  }

  ghost function From(repo: Repo, rows: Rows, tip: Sha, walk: seq<Sha>, i: nat): seq<Member>
    requires InRepo(repo, walk) && tip < |repo| && i <= |walk|
  {
    InRepoTail(repo, walk, i);
    TopDown(repo, rows, tip, walk[i..], SeenAt(repo, tip, walk, i))
  }

  /** Member `m` sits at `i`, and `lower` is what the scan lists after it. */
  ghost predicate SitsAt(repo: Repo, rows: Rows, tip: Sha, walk: seq<Sha>, m: Member, lower: seq<Member>, i: nat)
    requires InRepo(repo, walk) && tip < |repo|
  {
    && i < |walk|
    && m == Member(walk[i], Id(repo, tip, walk, i)) && m.id != NONE
    && lower == From(repo, rows, tip, walk, i + 1)
  }

  lemma FromEnd(repo: Repo, rows: Rows, tip: Sha, walk: seq<Sha>)
    requires InRepo(repo, walk) && tip < |repo|
    ensures From(repo, rows, tip, walk, |walk|) == []
  {
    assert walk[|walk|..] == [];
  }

  lemma FromStep(repo: Repo, rows: Rows, tip: Sha, walk: seq<Sha>, i: nat)
    requires InRepo(repo, walk) && tip < |repo| && i < |walk| && NoneLanded(repo, rows, tip, walk)
    ensures var id := Id(repo, tip, walk, i); var rest := From(repo, rows, tip, walk, i + 1);
            From(repo, rows, tip, walk, i) ==
              if id != NONE && id !in SeenAt(repo, tip, walk, i) then [Member(walk[i], id)] + rest else rest
  {
    assert walk[i..][0] == walk[i] && walk[i..][1..] == walk[i + 1..] && walk[i] in walk;
    InRepoTail(repo, walk, i);
    InRepoTail(repo, walk, i + 1);
    SeenNext(repo, tip, walk, i);
    var seen, id := SeenAt(repo, tip, walk, i), Id(repo, tip, walk, i);
    assert id == NONE || id in seen ==> SeenAt(repo, tip, walk, i + 1) == seen;
  }

  lemma TailOfTail<T>(x: T, rest: seq<T>, k: nat)
    requires k <= |rest|
    ensures ([x] + rest)[k + 1..] == rest[k..]
  {
  }

  lemma {:induction false} Positions(repo: Repo, rows: Rows, tip: Sha, walk: seq<Sha>, i: nat, k: nat) returns (at: nat)
    requires InRepo(repo, walk) && tip < |repo| && i <= |walk| && NoneLanded(repo, rows, tip, walk)
    requires k < |From(repo, rows, tip, walk, i)|
    ensures var top := From(repo, rows, tip, walk, i);
            SitsAt(repo, rows, tip, walk, top[k], top[k + 1..], at)
    decreases |walk| - i
  {
    FromEnd(repo, rows, tip, walk);
    FromStep(repo, rows, tip, walk, i);
    var id, rest := Id(repo, tip, walk, i), From(repo, rows, tip, walk, i + 1);
    if id == NONE || id in SeenAt(repo, tip, walk, i) {
      at := Positions(repo, rows, tip, walk, i + 1, k);
    } else {
      TailOfTail(Member(walk[i], id), rest, k);
      if k > 0 { at := Positions(repo, rows, tip, walk, i + 1, k - 1); } else { at := i; }
    }
  }

  lemma SeenNext(repo: Repo, tip: Sha, walk: seq<Sha>, i: nat)
    requires InRepo(repo, walk) && tip < |repo| && i < |walk|
    ensures SeenAt(repo, tip, walk, i + 1)
         == SeenAt(repo, tip, walk, i) + if Id(repo, tip, walk, i) == NONE then {} else {Id(repo, tip, walk, i)}
  {
  }

  // ----- The nearest known commit of another Change is the next member's head

  lemma {:induction false} NearestIsNext(repo: Repo, rows: Rows, tip: Sha, walk: seq<Sha>,
                                         seen: set<Key>, id: Key, known: set<Key>)
    requires InRepo(repo, walk) && tip < |repo| && tip !in walk && id in seen
    requires NoneLanded(repo, rows, tip, walk)
    requires forall x :: x in walk && repo[x].trailer in seen ==> repo[x].trailer == id
    ensures var lower := TopDown(repo, rows, tip, walk, seen);
            && (lower == [] ==> Nearest(repo, known, walk, id) == None)
            && (lower != [] && lower[0].id in known ==> Nearest(repo, known, walk, id) == Some(lower[0].sha))
  {
    if walk != [] {
      var rest := walk[1..];
      assert walk[0] in walk && forall x :: x in rest ==> x in walk;
      var key := repo[walk[0]].trailer;
      if key == NONE || key in seen {
        NearestIsNext(repo, rows, tip, rest, seen, id, known);
      }
    }
  }

  /** In a clean series only the current block's Change-Id can come up again below it. */
  lemma BelowAreFresh(repo: Repo, trunk: seq<Sha>, tip: Sha, i: nat, x: Sha)
    requires Ok(repo, trunk, tip) && Contiguous(repo, tip, Walked(repo, trunk, tip))
    requires i < |Walked(repo, trunk, tip)| && Id(repo, tip, Walked(repo, trunk, tip), i) != NONE
    requires x in Walked(repo, trunk, tip)[i + 1..]
    ensures 0 < x < tip
    ensures repo[x].trailer in SeenAt(repo, tip, Walked(repo, trunk, tip), i + 1) ==>
              repo[x].trailer == Id(repo, tip, Walked(repo, trunk, tip), i)
  {
    var walk := Walked(repo, trunk, tip);
    assert walk[1..] == RevList(repo, trunk, repo[tip].parent, STACK_WALK_LIMIT - 1);
    var k :| i < k < |walk| && walk[k] == x;
    assert x == walk[1..][k - 1] && x in walk[1..];
    if repo[x].trailer in SeenAt(repo, tip, walk, i + 1) {
      assert Id(repo, tip, walk, k) == repo[x].trailer;
      var j: nat :| j <= i && Id(repo, tip, walk, j) == repo[x].trailer && Id(repo, tip, walk, j) != NONE;
      assert j == i || Id(repo, tip, walk, i) == Id(repo, tip, walk, j);
    }
  }

  /** Seen from a member, the nearest commit of another known Change is the head of the
      member below, and there is none below the bottom one. */
  lemma SeriesNearest(repo: Repo, trunk: seq<Sha>, rows: Rows, ms: seq<Member>, tip: Sha, n: nat, known: set<Key>)
    requires CleanSeries(repo, trunk, rows, tip)
    requires ms == Series(repo, trunk, rows, tip) && n < |ms|
    requires n > 0 ==> ms[n - 1].id in known
    ensures 0 < ms[n].sha < |repo|
    ensures Nearest(repo, known, RevList(repo, trunk, repo[ms[n].sha].parent, STACK_WALK_LIMIT), ms[n].id)
         == if n > 0 then Some(ms[n - 1].sha) else None
  {
    SeriesInRepo(repo, trunk, rows, tip);
    var walk := Walked(repo, trunk, tip);
    var top := TopDown(repo, rows, tip, walk, {});
    assert walk[0..] == walk && SeenAt(repo, tip, walk, 0) == {};
    var k := |top| - 1 - n;
    assert ms == Reverse(top) && ms[n] == top[k] && ms[n] in ms;
    var at := Positions(repo, rows, tip, walk, 0, k);
    var below, seen, id := walk[at + 1..], SeenAt(repo, tip, walk, at + 1), ms[n].id;
    CompleteRest(repo, trunk, tip, STACK_WALK_LIMIT, at);
    assert id in seen by { assert Id(repo, tip, walk, at) == id; }
    forall x | x in below
      ensures x in walk && x != tip && (repo[x].trailer in seen ==> repo[x].trailer == id)
    {
      BelowAreFresh(repo, trunk, tip, at, x);
    }
    NearestIsNext(repo, rows, tip, below, seen, id, known);
    if n > 0 {
      assert ms[n - 1] == top[k + 1] && top[k + 1..][0] == top[k + 1];
    } else {
      assert top[k + 1..] == [];
    }
  }

  /** Each recorded base is the head of the Change directly below; the bottom one's is
      trunk's merge-base. */
  lemma SeriesBases(s: State, ms: seq<Member>, tip: Sha, n: nat)
    requires CleanSeries(s.repo, s.trunk, s.rows, tip)
    requires ms == Series(s.repo, s.trunk, s.rows, tip) && n < |ms|
    ensures InRepoMembers(s.repo, ms) && ms[n] in ms
    ensures BaseOf(s, ms, n) == if n > 0 then ms[n - 1].sha else MergeBase(s.repo, s.trunk, ms[0].sha)
  {
    SeriesInRepo(s.repo, s.trunk, s.rows, tip);
    if n > 0 { assert ms[..n][n - 1] == ms[n - 1] && ms[n - 1].id in Ids(ms[..n]); }
    SeriesNearest(s.repo, s.trunk, s.rows, ms, tip, n, s.rows.Keys + Ids(ms[..n]));
  }

  // ----- The stack the store derives

  /** What a clean push records, row by row: every member open, at its commit, stacked on
      the member pushed directly below it. */
  lemma PushedRows(s: State, p: Push, n: nat)
    requires Wf(s) && Accepted(s, p)
    requires CleanSeries(Quarantined(s, p).repo, s.trunk, s.rows, p.tip)
    requires n < |Series(Quarantined(s, p).repo, s.trunk, s.rows, p.tip)|
    ensures var q := Quarantined(s, p); var ms := Series(q.repo, s.trunk, s.rows, p.tip);
            var r := ReceivePush(s, p);
            && DistinctIds(ms)
            && IsOpen(r.rows, ms[n].id) && r.rows[ms[n].id].head == ms[n].sha
            && r.rows[ms[n].id].base == if n > 0 then ms[n - 1].sha else MergeBase(q.repo, s.trunk, p.tip)
  {
    var q := Quarantined(s, p);
    var ms := Series(q.repo, s.trunk, s.rows, p.tip);
    SeriesInRepo(q.repo, q.trunk, q.rows, p.tip);
    SeriesDistinct(q.repo, q.trunk, q.rows, p.tip);
    var t := q.(log := q.log.(tips := q.log.tips[(p.workspace, BranchOf(p)) := p.tip]));
    RecordRow(t, p, ms, n);
    SeriesBases(t, ms, p.tip, n);
    SeriesMember(q.repo, q.trunk, q.rows, p.tip, ms[n]);
    UpsertHead(t.rows, ms[n].id, BaseOf(t, ms, n), ms[n].sha, p.author, p.workspace, BranchOf(p));
    MergeBaseWalk(q.repo, q.trunk, p.tip, STACK_WALK_LIMIT, ms[n].sha);
  }

  /** Commits of one walk share their merge-base with trunk. */
  lemma {:induction false} MergeBaseWalk(repo: Repo, trunk: seq<Sha>, tip: Sha, limit: nat, s: Sha)
    requires ValidRepo(repo) && tip < |repo|
    ensures s in RevList(repo, trunk, tip, limit) ==>
              MergeBase(repo, trunk, s) == MergeBase(repo, trunk, tip)
  {
    if limit != 0 && tip != NONE && tip !in trunk {
      MergeBaseWalk(repo, trunk, repo[tip].parent, limit - 1, s);
    }
  }

  function IdList(ms: seq<Member>): (q: seq<Key>)
    ensures |q| == |ms| && forall i :: 0 <= i < |ms| ==> q[i] == ms[i].id
  {
    seq(|ms|, i requires 0 <= i < |ms| => ms[i].id)
  }

  /** `path` is a bare path of the forest: each node's only child is the next one. */
  ghost predicate BarePath(f: Forest, path: seq<Key>) {
    && |path| > 0 && NoDup(path) && Subset(path, f.nodes)
    && path[0] !in f.parent
    && (forall i, k :: 0 <= i < |path| ==> (k in Kids(f, path[i]) <==> i + 1 < |path| && k == path[i + 1]))
  }

  lemma PathKids(f: Forest, path: seq<Key>, i: nat)
    requires BarePath(f, path) && i < |path|
    ensures Kids(f, path[i]) == if i + 1 < |path| then [path[i + 1]] else []
  {
    AscendingUnique(Kids(f, path[i]), if i + 1 < |path| then [path[i + 1]] else []);
  }

  lemma {:induction false} DfsOfPath(f: Forest, path: seq<Key>, i: nat, seen: set<Key>)
    requires Valid(f) && BarePath(f, path) && i < |path|
    requires forall j :: i < j < |path| ==> path[j] !in seen
    ensures Subset(Kids(f, path[i]), f.nodes)
    ensures Dfs(f, Kids(f, path[i]), seen).out == path[i + 1..]
    decreases |path| - i
  {
    KidsSubset(f, path[i]);
    PathKids(f, path, i);
    if i + 1 < |path| {
      var next := path[i + 1];
      DfsOfPath(f, path, i + 1, seen + {next});
      DfsOfOne(f, next, seen);
      NextAndRest(path, i + 1);
    }
  }

  lemma NextAndRest<T>(q: seq<T>, i: nat)
    requires i < |q|
    ensures q[i..] == [q[i]] + q[i + 1..]
  {
  }

  lemma DfsOfOne(f: Forest, k: Key, seen: set<Key>)
    requires Valid(f) && k in f.nodes && k !in seen
    ensures Subset(Kids(f, k), f.nodes)
    ensures Dfs(f, [k], seen).out == [k] + Dfs(f, Kids(f, k), seen + {k}).out
  {
    KidsSubset(f, k);
    assert [k][1..] == [];
  }

  lemma {:induction false} PathBelow(f: Forest, path: seq<Key>, i: nat)
    requires Valid(f) && BarePath(f, path) && i < |path|
    ensures Below(f, path[0], path[i], i)
  {
    if i > 0 {
      PathBelow(f, path, i - 1);
      assert path[i] in Kids(f, path[i - 1]);
    }
  }

  /** Any member of a bare path derives the path itself as its stack. */
  lemma StackOfPath(f: Forest, path: seq<Key>, i: nat)
    requires Valid(f) && BarePath(f, path) && i < |path|
    ensures path[i] in f.nodes && Stack(f, path[i]) == path
  {
    assert path[i] in path;
    PathBelow(f, path, i);
    assert AtLeast(f, path[0], path[i], i);
    ClimbToRoot(f, path[0], path[i], i, {path[i]});
    DfsOfPath(f, path, 0, {path[0]});
    HeadAndRest(path);
  }

  lemma HeadAndRest<T>(q: seq<T>)
    requires q != []
    ensures [q[0]] + q[1..] == q
  {
  }

  /** Nothing outside the pushed series is stacked on it, and it is stacked on nothing. */
  ghost predicate Alone(rows: Rows, ms: seq<Member>, bottom: Sha) {
    && (forall k, m :: IsOpen(rows, k) && k !in Ids(ms) && m in ms ==> rows[k].base != m.sha)
    && (forall k :: IsOpen(rows, k) ==> rows[k].head != bottom)
  }

  /** Every member open, at its commit, based on the member directly below. */
  ghost predicate SeriesRows(rows: Rows, ms: seq<Member>, bottom: Sha) {
    && DistinctIds(ms)
    && (forall n :: 0 <= n < |ms| ==>
          && IsOpen(rows, ms[n].id)
          && rows[ms[n].id].head == ms[n].sha
          && rows[ms[n].id].base == ShaBelow(ms, n, bottom))
  }

  function ShaBelow(ms: seq<Member>, n: nat, bottom: Sha): Sha
    requires n < |ms|
  {
    if n > 0 then ms[n - 1].sha else bottom
  }

  /** No member but the next one up is based on a member's head. */
  lemma OnlyNextUp(repo: Repo, rows: Rows, ms: seq<Member>, bottom: Sha, i: nat, k: Key)
    requires GoodRows(repo, rows) && SeriesRows(rows, ms, bottom) && Alone(rows, ms, bottom) && i < |ms|
    ensures StackedOn(rows, k, ms[i].id) <==> i + 1 < |ms| && k == ms[i + 1].id
  {
    assert IsOpen(rows, ms[i].id) && ms[i] in ms;
    if i + 1 < |ms| { assert IsOpen(rows, ms[i + 1].id); }
    if StackedOn(rows, k, ms[i].id) {
      assert k in Ids(ms);
      var m :| m in ms && m.id == k;
      var j :| 0 <= j < |ms| && ms[j] == m;
      if j > 0 { HeadsDistinct(repo, rows, ms[j - 1].id, ms[i].id); }
    }
  }

  lemma SeriesNodes(repo: Repo, rows: Rows, ms: seq<Member>, bottom: Sha)
    requires GoodRows(repo, rows) && KeyedRows(rows) && SeriesRows(rows, ms, bottom)
    ensures NoDup(IdList(ms)) && forall k :: k in IdList(ms) ==> k in OpenForest(rows).nodes
  {
    var path := IdList(ms);
    forall k | k in path ensures k in OpenForest(rows).nodes {
      var i :| 0 <= i < |path| && path[i] == k;
      assert IsOpen(rows, ms[i].id);
      OpenNodes(rows, k);
    }
    assert forall i, j :: 0 <= i < j < |ms| ==> ms[i].id != ms[j].id;
  }

  lemma SeriesKid(repo: Repo, rows: Rows, ms: seq<Member>, bottom: Sha, i: nat, k: Key)
    requires GoodRows(repo, rows) && KeyedRows(rows) && SeriesRows(rows, ms, bottom) && Alone(rows, ms, bottom) && i < |ms|
    ensures k in Kids(OpenForest(rows), ms[i].id) <==> i + 1 < |ms| && k == ms[i + 1].id
  {
    ForestKids(repo, rows, k, ms[i].id);
    OnlyNextUp(repo, rows, ms, bottom, i, k);
  }

  lemma SeriesPath(repo: Repo, rows: Rows, ms: seq<Member>, bottom: Sha)
    requires GoodRows(repo, rows) && KeyedRows(rows) && |ms| > 0
    requires SeriesRows(rows, ms, bottom) && Alone(rows, ms, bottom)
    ensures BarePath(OpenForest(rows), IdList(ms))
  {
    var f, path := OpenForest(rows), IdList(ms);
    SeriesNodes(repo, rows, ms, bottom);
    forall i, k | 0 <= i < |path| ensures k in Kids(f, path[i]) <==> i + 1 < |path| && k == path[i + 1] {
      SeriesKid(repo, rows, ms, bottom, i, k);
    }
    if path[0] in f.parent { ForestParent(repo, rows, path[0], f.parent[path[0]]); }
  }

  /** A stack that is just the series has nothing else stacked on it, and is stacked on
      nothing. */
  lemma StackAlone(repo: Repo, rows: Rows, ms: seq<Member>, bottom: Sha, n: nat)
    requires GoodRows(repo, rows) && KeyedRows(rows) && n < |ms| && SeriesRows(rows, ms, bottom)
    requires forall m :: m in ms ==> m.sha != bottom
    requires ms[n].id in OpenForest(rows).nodes && Stack(OpenForest(rows), ms[n].id) == IdList(ms)
    ensures Alone(rows, ms, bottom)
  {
    forall k, m | IsOpen(rows, k) && k !in Ids(ms) && m in ms ensures rows[k].base != m.sha {
      NothingAbove(repo, rows, ms, bottom, n, k, m);
    }
    forall k | IsOpen(rows, k) ensures rows[k].head != bottom { NothingBelow(repo, rows, ms, bottom, n, k); }
  }

  lemma InIdList(ms: seq<Member>, k: Key)
    ensures k in IdList(ms) <==> k in Ids(ms)
  {
    if k in IdList(ms) {
      var i :| 0 <= i < |ms| && IdList(ms)[i] == k;
      assert ms[i] in ms;
    }
    if k in Ids(ms) {
      var m :| m in ms && m.id == k;
      var i :| 0 <= i < |ms| && ms[i] == m;
      assert IdList(ms)[i] == k;
    }
  }

  lemma NothingAbove(repo: Repo, rows: Rows, ms: seq<Member>, bottom: Sha, n: nat, k: Key, m: Member)
    requires GoodRows(repo, rows) && KeyedRows(rows) && n < |ms| && SeriesRows(rows, ms, bottom)
    requires ms[n].id in OpenForest(rows).nodes && Stack(OpenForest(rows), ms[n].id) == IdList(ms)
    requires IsOpen(rows, k) && k !in Ids(ms) && m in ms
    ensures rows[k].base != m.sha
  {
    var i :| 0 <= i < |ms| && ms[i] == m;
    InIdList(ms, k);
    InIdList(ms, m.id);
    ForestParent(repo, rows, k, m.id);
    assert StackedOn(rows, k, m.id) <==> rows[k].base == m.sha;
    if StackedOn(rows, k, m.id) { StackClosed(OpenForest(rows), ms[n].id, k, m.id); }
  }

  lemma NothingBelow(repo: Repo, rows: Rows, ms: seq<Member>, bottom: Sha, n: nat, k: Key)
    requires GoodRows(repo, rows) && KeyedRows(rows) && n < |ms| && SeriesRows(rows, ms, bottom)
    requires forall m :: m in ms ==> m.sha != bottom
    requires ms[n].id in OpenForest(rows).nodes && Stack(OpenForest(rows), ms[n].id) == IdList(ms)
    requires IsOpen(rows, k)
    ensures rows[k].head != bottom
  {
    assert IsOpen(rows, ms[0].id) && IdList(ms)[0] == ms[0].id;
    ForestParent(repo, rows, ms[0].id, k);
    assert StackedOn(rows, ms[0].id, k) <==> rows[k].head == bottom;
    if StackedOn(rows, ms[0].id, k) {
      LeaderParent(OpenForest(rows), ms[n].id, k);
    }
  }

  lemma SeriesOffTrunk(repo: Repo, trunk: seq<Sha>, rows: Rows, tip: Sha, m: Member)
    requires ValidRepo(repo) && 0 < tip < |repo| && tip !in trunk && m in Series(repo, trunk, rows, tip)
    ensures m.sha != MergeBase(repo, trunk, tip)
  {
    InReverse(TopDown(repo, rows, tip, RevList(repo, trunk, tip, STACK_WALK_LIMIT), {}), m);
  }

  /** Writer and readers of the base/head relation agree: after a clean push the stack
      derived for any member is the pushed series, bottom-up, as one path - exactly when no
      other open Change is stacked on the series or below it. */
  lemma SeriesIsStack(s: State, p: Push, n: nat)
    requires Wf(s) && Accepted(s, p)
    requires CleanSeries(Quarantined(s, p).repo, s.trunk, s.rows, p.tip)
    requires var q := Quarantined(s, p); n < |Series(q.repo, s.trunk, s.rows, p.tip)|
    ensures KeyedRows(ReceivePush(s, p).rows)
    ensures var q := Quarantined(s, p); var ms := Series(q.repo, s.trunk, s.rows, p.tip);
            var rows := ReceivePush(s, p).rows;
            && ms[n].id in OpenForest(rows).nodes
            && (Stack(OpenForest(rows), ms[n].id) == IdList(ms) <==>
                  Alone(rows, ms, MergeBase(q.repo, s.trunk, p.tip)))
  {
    var q := Quarantined(s, p);
    var ms, bottom := Series(q.repo, s.trunk, s.rows, p.tip), MergeBase(q.repo, s.trunk, p.tip);
    var r := ReceivePush(s, p);
    PushKeepsWf(s, p);
    GoodKeyed(r.repo, r.rows);
    SeriesDistinct(q.repo, s.trunk, s.rows, p.tip);
    assert SeriesRows(r.rows, ms, bottom) by {
      forall i | 0 <= i < |ms|
        ensures IsOpen(r.rows, ms[i].id) && r.rows[ms[i].id].head == ms[i].sha
          && r.rows[ms[i].id].base == ShaBelow(ms, i, bottom)
      {
        PushedRows(s, p, i);
      }
    }
    forall m | m in ms ensures m.sha != bottom { SeriesOffTrunk(q.repo, s.trunk, s.rows, p.tip, m); }
    StackOrNot(r.repo, r.rows, ms, bottom, n);
  }

  lemma StackOrNot(repo: Repo, rows: Rows, ms: seq<Member>, bottom: Sha, n: nat)
    requires GoodRows(repo, rows) && KeyedRows(rows) && n < |ms| && SeriesRows(rows, ms, bottom)
    requires forall m :: m in ms ==> m.sha != bottom
    ensures ms[n].id in OpenForest(rows).nodes
    ensures Stack(OpenForest(rows), ms[n].id) == IdList(ms) <==> Alone(rows, ms, bottom)
  {
    assert IsOpen(rows, ms[n].id);
    OpenNodes(rows, ms[n].id);
    if Alone(rows, ms, bottom) {
      SeriesPath(repo, rows, ms, bottom);
      StackOfPath(OpenForest(rows), IdList(ms), n);
    }
    if Stack(OpenForest(rows), ms[n].id) == IdList(ms) {
      StackAlone(repo, rows, ms, bottom, n);
    }
  }
}
