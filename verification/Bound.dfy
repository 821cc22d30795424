/** When a head keeps its base.  A commit determines a base: the nearest commit below that
    names another Change, or trunk.  A push records that base for a member exactly when it
    knows the Change named there; syncs and lands never break the rule. */
module Bound {
  import opened Changes
  import opened Git
  import opened Store
  import opened Receive
  import opened Pushes
  import opened WellFormed
  import opened SeriesStack
  import opened Sync
  import opened SyncStack
  import opened Landing
  import opened Trails
  import opened Runs
  import opened Approvals

  /** The nearest commit of the walk that names a Change other than `id`. */
  function NextOther(repo: Repo, walk: seq<Sha>, id: Key): (r: Option<Sha>)
    requires InRepo(repo, walk)
    ensures r.Some? ==> r.value in walk
  {
    if walk == [] then None
    else
      assert walk[0] in walk && forall x :: x in walk[1..] ==> x in walk;
      var key := repo[walk[0]].trailer;
      if key != NONE && key != id then Some(walk[0]) else NextOther(repo, walk[1..], id)
  }

  function WalkBelow(repo: Repo, trunk: seq<Sha>, sha: Sha): (walk: seq<Sha>)
    requires ValidRepo(repo) && 0 < sha < |repo|
    ensures InRepo(repo, walk) && forall x :: x in walk ==> x !in trunk
  {
    RevList(repo, trunk, repo[sha].parent, STACK_WALK_LIMIT)
  }

  /** The base a commit determines, whatever the store knows. */
  function DeterminedBase(repo: Repo, trunk: seq<Sha>, sha: Sha, id: Key): Sha
    requires ValidRepo(repo) && 0 < sha < |repo|
  {
    var next := NextOther(repo, WalkBelow(repo, trunk, sha), id);
    if next.Some? then next.value else MergeBase(repo, trunk, sha)
  }

  ghost predicate OwnBase(repo: Repo, trunk: seq<Sha>, key: Key, v: Version) {
    && ValidRepo(repo) && 0 < v.head < |repo|
    && v.base == DeterminedBase(repo, trunk, v.head, key)
  }

  /** Every version recorded for `key` has the base its head determines. */
  ghost predicate OwnBases(repo: Repo, trunk: seq<Sha>, versions: set<(Key, Version)>, key: Key) {
    forall v :: (key, v) in versions ==> OwnBase(repo, trunk, key, v)
  }

  lemma OwnBasesBind(repo: Repo, trunk: seq<Sha>, versions: set<(Key, Version)>, key: Key)
    requires OwnBases(repo, trunk, versions, key)
    ensures HeadsBound(versions, key)
  {
    forall v, w | (key, v) in versions && (key, w) in versions && v.head == w.head ensures v == w {
      assert OwnBase(repo, trunk, key, v) && OwnBase(repo, trunk, key, w);
    }
  }

  // ----- The guard of a push

  /** The nearest commit below that names another Change names a known one. */
  predicate NamedKnown(repo: Repo, trunk: seq<Sha>, known: set<Key>, sha: Sha, id: Key)
    requires ValidRepo(repo) && 0 < sha < |repo|
  {
    var next := NextOther(repo, WalkBelow(repo, trunk, sha), id);
    next.None? || repo[next.value].trailer in known
  }

  lemma {:induction false} NearestIsOther(repo: Repo, known: set<Key>, walk: seq<Sha>, id: Key)
    requires InRepo(repo, walk)
    ensures var near, next := Nearest(repo, known, walk, id), NextOther(repo, walk, id);
            && (near == next <==> next.None? || repo[next.value].trailer in known)
            && (near.Some? ==> repo[near.value].trailer in known)
  {
    if walk != [] {
      assert walk[0] in walk && forall x :: x in walk[1..] ==> x in walk;
      NearestIsOther(repo, known, walk[1..], id);
    }
  }

  /** The recorded base is the determined one exactly when the guard holds. */
  lemma BaseIsOwn(repo: Repo, trunk: seq<Sha>, known: set<Key>, sha: Sha, id: Key)
    requires ValidRepo(repo) && 0 < sha < |repo|
    ensures ComputeBase(repo, trunk, known, sha, id) == DeterminedBase(repo, trunk, sha, id)
       <==> NamedKnown(repo, trunk, known, sha, id)
  {
    var walk := WalkBelow(repo, trunk, sha);
    NearestIsOther(repo, known, walk, id);
    var next := NextOther(repo, walk, id);
    assert next.Some? ==> 0 < next.value && next.value !in trunk;
  }

  // ----- Later commits do not matter

  lemma {:induction false} WalkStable(repo: Repo, repo': Repo, trunk: seq<Sha>, more: seq<Sha>, s: Sha, limit: nat)
    requires ValidRepo(repo) && ValidRepo(repo') && repo <= repo' && s < |repo|
    requires forall t :: t in more ==> t >= |repo|
    ensures RevList(repo', trunk + more, s, limit) == RevList(repo, trunk, s, limit)
    ensures MergeBase(repo', trunk + more, s) == MergeBase(repo, trunk, s)
    decreases s, limit
  {
    if s != NONE && s !in trunk {
      MergeStable(repo, repo', trunk, more, s);
      if limit > 0 { WalkStable(repo, repo', trunk, more, repo[s].parent, limit - 1); }
    }
  }

  lemma {:induction false} MergeStable(repo: Repo, repo': Repo, trunk: seq<Sha>, more: seq<Sha>, s: Sha)
    requires ValidRepo(repo) && ValidRepo(repo') && repo <= repo' && s < |repo|
    requires forall t :: t in more ==> t >= |repo|
    ensures MergeBase(repo', trunk + more, s) == MergeBase(repo, trunk, s)
    decreases s
  {
    if s != NONE && s !in trunk { MergeStable(repo, repo', trunk, more, repo[s].parent); }
  }

  lemma {:induction false} NextStable(repo: Repo, repo': Repo, walk: seq<Sha>, id: Key)
    requires repo <= repo' && InRepo(repo, walk) && InRepo(repo', walk)
    ensures NextOther(repo', walk, id) == NextOther(repo, walk, id)
  {
    if walk != [] {
      assert walk[0] in walk && forall x :: x in walk[1..] ==> x in walk;
      NextStable(repo, repo', walk[1..], id);
    }
  }

  lemma OwnBaseStable(repo: Repo, repo': Repo, trunk: seq<Sha>, more: seq<Sha>, key: Key, v: Version)
    requires ValidRepo(repo) && ValidRepo(repo') && repo <= repo' && v.head < |repo|
    requires forall t :: t in more ==> t >= |repo|
    ensures OwnBase(repo', trunk + more, key, v) <==> OwnBase(repo, trunk, key, v)
  {
    if v.head != NONE {
      WalkStable(repo, repo', trunk, more, repo[v.head].parent, STACK_WALK_LIMIT);
      MergeStable(repo, repo', trunk, more, v.head);
      NextStable(repo, repo', WalkBelow(repo, trunk, v.head), key);
    }
  }

  lemma OwnBasesStable(repo: Repo, repo': Repo, trunk: seq<Sha>, more: seq<Sha>, versions: set<(Key, Version)>, key: Key)
    requires ValidRepo(repo) && ValidRepo(repo') && repo <= repo' && Readable(repo, versions)
    requires forall t :: t in more ==> t >= |repo|
    ensures OwnBases(repo', trunk + more, versions, key) <==> OwnBases(repo, trunk, versions, key)
  {
    forall v | (key, v) in versions ensures OwnBase(repo', trunk + more, key, v) <==> OwnBase(repo, trunk, key, v) {
      assert KnownVersion(repo, (key, v).1);
      OwnBaseStable(repo, repo', trunk, more, key, v);
    }
  }

  // ----- Pushes

  lemma OnlyMemberLogged(s: State, p: Push, m: Member, x: (Key, Version))
    requires ValidRepo(s.repo) && 0 < m.sha < |s.repo|
    requires x in RecordMember(s, p, m).log.versions && x !in s.log.versions
    ensures x == (m.id, Version(ComputeBase(s.repo, s.trunk, s.rows.Keys, m.sha, m.id), m.sha))
  {
  }

  lemma {:induction false} RecordVersions(s: State, p: Push, ms: seq<Member>, x: (Key, Version)) returns (i: nat)
    requires ValidRepo(s.repo) && InRepoMembers(s.repo, ms) && DistinctIds(ms)
    requires x in Record(s, p, ms).log.versions && x !in s.log.versions
    ensures i < |ms| && x == (ms[i].id, Version(BaseOf(s, ms, i), ms[i].sha))
    decreases |ms|
  {
    var n := |ms| - 1;
    RecordLast(s, p, ms);
    if x in Record(s, p, ms[..n]).log.versions {
      IdsLast(ms);
      i := RecordVersions(s, p, ms[..n], x);
      BasePrefix(s, ms, i);
    } else {
      OnlyMemberLogged(Record(s, p, ms[..n]), p, ms[n], x);
      LastBase(s, p, ms);
      i := n;
    }
  }

  /** The last turn logs its own version and keeps the others. */
  lemma LastLogged(s: State, p: Push, ms: seq<Member>)
    requires ValidRepo(s.repo) && InRepoMembers(s.repo, ms) && DistinctIds(ms) && ms != []
    ensures InRepoMembers(s.repo, ms[..|ms| - 1])
    ensures var n, after := |ms| - 1, Record(s, p, ms).log.versions;
            && Record(s, p, ms[..n]).log.versions <= after
            && (ms[n].id, Version(BaseOf(s, ms, n), ms[n].sha)) in after
  {
    RecordLast(s, p, ms);
    MemberLogged(Record(s, p, ms[..|ms| - 1]), p, ms[|ms| - 1]);
    LastBase(s, p, ms);
  }

  lemma {:induction false} RecordLogs(s: State, p: Push, ms: seq<Member>, i: nat)
    requires ValidRepo(s.repo) && InRepoMembers(s.repo, ms) && DistinctIds(ms) && i < |ms|
    ensures (ms[i].id, Version(BaseOf(s, ms, i), ms[i].sha)) in Record(s, p, ms).log.versions
    decreases |ms|
  {
    LastLogged(s, p, ms);
    if i < |ms| - 1 {
      IdsLast(ms);
      BasePrefix(s, ms, i);
      RecordLogs(s, p, ms[..|ms| - 1], i);
    }
  }

  lemma BasePrefix(s: State, ms: seq<Member>, i: nat)
    requires ValidRepo(s.repo) && InRepoMembers(s.repo, ms) && i < |ms| - 1
    ensures InRepoMembers(s.repo, ms[..|ms| - 1])
    ensures ms[..|ms| - 1][i] == ms[i] && BaseOf(s, ms[..|ms| - 1], i) == BaseOf(s, ms, i)
  {
    SplitLast(ms);
    assert ms[..|ms| - 1][..i] == ms[..i];
  }

  lemma MemberLogged(s: State, p: Push, m: Member)
    requires ValidRepo(s.repo) && 0 < m.sha < |s.repo|
    ensures var versions := RecordMember(s, p, m).log.versions;
            && s.log.versions <= versions
            && (m.id, Version(ComputeBase(s.repo, s.trunk, s.rows.Keys, m.sha, m.id), m.sha)) in versions
  {
  }

  /** The last member's base is computed knowing the rows and the members below. */
  lemma LastBase(s: State, p: Push, ms: seq<Member>)
    requires ValidRepo(s.repo) && InRepoMembers(s.repo, ms) && DistinctIds(ms) && ms != []
    ensures var n := |ms| - 1;
            && InRepoMembers(s.repo, ms[..n]) && 0 < ms[n].sha < |s.repo|
            && BaseOf(s, ms, n) == ComputeBase(s.repo, s.trunk, Record(s, p, ms[..n]).rows.Keys, ms[n].sha, ms[n].id)
  {
    RecordLast(s, p, ms);
    IdsLast(ms);
    RecordDomain(s, p, ms[..|ms| - 1]);
  }

  lemma {:induction false} RecordGrows(s: State, p: Push, ms: seq<Member>)
    requires ValidRepo(s.repo) && InRepoMembers(s.repo, ms)
    ensures s.log.versions <= Record(s, p, ms).log.versions
    decreases |ms|
  {
    if ms != [] {
      SplitLast(ms);
      RecordGrows(s, p, ms[..|ms| - 1]);
    }
  }

  /** The guard, for the member of `key` in the pushed series: what it can be checked against
      is the store's rows and the members below it. */
  ghost predicate KnownFor(repo: Repo, trunk: seq<Sha>, rows: Rows, ms: seq<Member>, key: Key)
    requires ValidRepo(repo)
  {
    forall n :: 0 <= n < |ms| && ms[n].id == key ==>
      0 < ms[n].sha < |repo| && NamedKnown(repo, trunk, rows.Keys + Ids(ms[..n]), ms[n].sha, key)
  }

  ghost predicate CleanPush(s: State, p: Push, key: Key) {
    Accepted(s, p) ==>
      var q := Quarantined(s, p);
      KnownFor(q.repo, s.trunk, s.rows, Series(q.repo, s.trunk, s.rows, p.tip), key)
  }

  lemma MemberOwn(s: State, ms: seq<Member>, n: nat)
    requires ValidRepo(s.repo) && InRepoMembers(s.repo, ms) && n < |ms|
    ensures 0 < ms[n].sha < |s.repo|
    ensures OwnBase(s.repo, s.trunk, ms[n].id, Version(BaseOf(s, ms, n), ms[n].sha)) <==>
              NamedKnown(s.repo, s.trunk, s.rows.Keys + Ids(ms[..n]), ms[n].sha, ms[n].id)
  {
    assert ms[n] in ms;
    BaseIsOwn(s.repo, s.trunk, s.rows.Keys + Ids(ms[..n]), ms[n].sha, ms[n].id);
  }

  /** Recording a series keeps the rule for `key` exactly when the guard holds. */
  lemma RecordOwnIff(s: State, p: Push, ms: seq<Member>, key: Key)
    requires ValidRepo(s.repo) && InRepoMembers(s.repo, ms) && DistinctIds(ms)
    ensures OwnBases(s.repo, s.trunk, Record(s, p, ms).log.versions, key) <==>
              OwnBases(s.repo, s.trunk, s.log.versions, key) && KnownFor(s.repo, s.trunk, s.rows, ms, key)
  {
    var after := Record(s, p, ms).log.versions;
    RecordGrows(s, p, ms);
    if OwnBases(s.repo, s.trunk, s.log.versions, key) && KnownFor(s.repo, s.trunk, s.rows, ms, key) {
      forall v | (key, v) in after ensures OwnBase(s.repo, s.trunk, key, v) {
        if (key, v) !in s.log.versions {
          var i := RecordVersions(s, p, ms, (key, v));
          MemberOwn(s, ms, i);
        }
      }
    }
    if OwnBases(s.repo, s.trunk, after, key) {
      forall n | 0 <= n < |ms| && ms[n].id == key
        ensures 0 < ms[n].sha < |s.repo| && NamedKnown(s.repo, s.trunk, s.rows.Keys + Ids(ms[..n]), ms[n].sha, key)
      {
        MemberOwn(s, ms, n);
        RecordLogs(s, p, ms, n);
      }
    }
  }

  /** A push keeps every head of `key` at the base it determines exactly when its guard
      holds. */
  lemma PushOwnIff(s: State, p: Push, key: Key)
    requires Wf(s) && Readable(s.repo, s.log.versions)
    ensures var r := ReceivePush(s, p);
            OwnBases(r.repo, r.trunk, r.log.versions, key) <==>
              OwnBases(s.repo, s.trunk, s.log.versions, key) && CleanPush(s, p, key)
  {
    if Accepted(s, p) {
      var q := Quarantined(s, p);
      var ms := Series(q.repo, q.trunk, q.rows, p.tip);
      SeriesInRepo(q.repo, q.trunk, q.rows, p.tip);
      SeriesDistinct(q.repo, q.trunk, q.rows, p.tip);
      var t := q.(log := q.log.(tips := q.log.tips[(p.workspace, BranchOf(p)) := p.tip]));
      assert s.trunk + [] == s.trunk;
      OwnBasesStable(s.repo, q.repo, s.trunk, [], s.log.versions, key);
      RecordOwnIff(t, p, ms, key);
    }
  }

  /** Every commit named on the walk. */
  function AllIds(repo: Repo): set<Key> {
    set s | 0 <= s < |repo| :: repo[s].trailer
  }

  /** A series in contiguous blocks, within the limit and with nothing landed, always
      satisfies it. */
  lemma CleanSeriesKnown(s: State, p: Push, key: Key)
    requires Wf(s) && (Accepted(s, p) ==> CleanSeries(Quarantined(s, p).repo, s.trunk, s.rows, p.tip))
    ensures CleanPush(s, p, key)
  {
    if Accepted(s, p) {
      var q := Quarantined(s, p);
      var ms := Series(q.repo, q.trunk, q.rows, p.tip);
      SeriesInRepo(q.repo, q.trunk, q.rows, p.tip);
      forall n | 0 <= n < |ms| && ms[n].id == key
        ensures 0 < ms[n].sha < |q.repo| && NamedKnown(q.repo, s.trunk, s.rows.Keys + Ids(ms[..n]), ms[n].sha, key)
      {
        CleanMemberKnown(q, ms, p.tip, n);
      }
    }
  }

  lemma CleanMemberKnown(s: State, ms: seq<Member>, tip: Sha, n: nat)
    requires CleanSeries(s.repo, s.trunk, s.rows, tip)
    requires ms == Series(s.repo, s.trunk, s.rows, tip) && n < |ms|
    ensures 0 < ms[n].sha < |s.repo|
    ensures NamedKnown(s.repo, s.trunk, s.rows.Keys + Ids(ms[..n]), ms[n].sha, ms[n].id)
  {
    var known := AllIds(s.repo) + Ids(ms[..n]);
    if n > 0 { assert ms[..n][n - 1] == ms[n - 1] && ms[n - 1].id in Ids(ms[..n]); }
    SeriesNearest(s.repo, s.trunk, s.rows, ms, tip, n, known);
    NearestIsOther(s.repo, known, WalkBelow(s.repo, s.trunk, ms[n].sha), ms[n].id);
    if n > 0 { LowerTrailer(s.repo, s.trunk, s.rows, ms, tip, n); }
  }

  /** Members below the tip are labelled by their own commit. */
  lemma LowerTrailer(repo: Repo, trunk: seq<Sha>, rows: Rows, ms: seq<Member>, tip: Sha, n: nat)
    requires CleanSeries(repo, trunk, rows, tip) && ms == Series(repo, trunk, rows, tip) && 0 < n < |ms|
    ensures ms[n - 1].sha < |repo| && ms[n - 1].id == repo[ms[n - 1].sha].trailer
  {
    SeriesInRepo(repo, trunk, rows, tip);
    var walk := Walked(repo, trunk, tip);
    var top := TopDown(repo, rows, tip, walk, {});
    assert ms == Reverse(top) && ms[n - 1] == top[|top| - n] && ms[n - 1] in ms;
    assert walk[0] == tip;
    assert top[0] == Member(tip, IdOf(repo, tip));
    assert top[|top| - n].id != top[0].id;
    assert top[|top| - n] in top;
  }

  // ----- Syncs

  /** A minted head determines the base it was minted on. */
  lemma MintedOwnBase(repo: Repo, trunk: seq<Sha>, grown: Repo, key: Key, v: Version)
    requires ValidRepo(grown) && GoodTrunk(repo, trunk) && repo <= grown
    requires |repo| <= v.head < |grown| && 0 < v.base && grown[v.head].parent == v.base
    requires v.base in trunk || (grown[v.base].trailer != NONE && grown[v.base].trailer != key)
    ensures OwnBase(grown, trunk, key, v)
  {
    assert v.head !in trunk;
    var walk := WalkBelow(grown, trunk, v.head);
    if v.base in trunk {
      assert walk == [];
      assert MergeBase(grown, trunk, v.base) == v.base;
    } else {
      assert walk[0] == v.base;
    }
  }

  /** Where in the stack a write belongs. */
  lemma WriteAt(repo: Repo, rows: Rows, tip: Sha, ks: seq<Key>, plan: Plan, w: Write) returns (i: nat)
    requires Listed(rows, ks) && PlanInv(repo, rows, tip, ks, plan) && w in plan.writes
    ensures i < |ks| && ks[i] == w.key && PlacedAt(rows, ks, plan, tip, i)
    ensures w == Write(ks[i], NewBase(rows, ks, plan.moved, tip, i), NewHead(rows, ks, plan.moved, i))
  {
    assert w.key in ks;
    i :| 0 <= i < |ks| && ks[i] == w.key;
    assert PlacedAt(rows, ks, plan, tip, i);
    var n :| 0 <= n < |plan.writes| && plan.writes[n] == w;
    var other := Write(ks[i], NewBase(rows, ks, plan.moved, tip, i), NewHead(rows, ks, plan.moved, i));
    assert other in plan.writes;
    var m :| 0 <= m < |plan.writes| && plan.writes[m] == other;
    assert m == n;
  }

  /** A written member's base is the trunk tip or a commit minted for another member. */
  lemma WrittenBase(s: State, ks: seq<Key>, plan: Plan, w: Write)
    requires Wf(s) && s.trunk != [] && Listed(s.rows, ks)
    requires plan == PlanFor(s.repo, s.rows, Tip(s.trunk), ks) && plan.Planned?
    requires PlanInv(s.repo, s.rows, Tip(s.trunk), ks, plan) && w in plan.writes
    ensures w.base in s.trunk ||
              (w.base < |plan.repo| && plan.repo[w.base].trailer != NONE && plan.repo[w.base].trailer != w.key)
  {
    var tip := Tip(s.trunk);
    var i := WriteAt(s.repo, s.rows, tip, ks, plan, w);
    if BaseBelow(s.rows, ks, i) && s.rows[ks[i]].base in plan.moved {
      var j :| 0 <= j < i && s.rows[ks[j]].head == s.rows[ks[i]].base;
      assert PlacedAt(s.rows, ks, plan, tip, j);
      assert NewHead(s.rows, ks, plan.moved, j) == w.base != s.rows[w.key].base;
      MintedHead(s, ks, plan, j);
    }
  }

  lemma MintedHead(s: State, ks: seq<Key>, plan: Plan, j: nat)
    requires Wf(s) && s.trunk != [] && Listed(s.rows, ks) && j < |ks|
    requires plan == PlanFor(s.repo, s.rows, Tip(s.trunk), ks) && plan.Planned?
    requires PlacedAt(s.rows, ks, plan, Tip(s.trunk), j)
    requires NewHead(s.rows, ks, plan.moved, j) != s.rows[ks[j]].head
    ensures var h := NewHead(s.rows, ks, plan.moved, j);
            h < |plan.repo| && plan.repo[h].trailer == ks[j] && ks[j] != NONE
  {
    assert ks[j] in ks && GoodRow(s.repo, ks[j], s.rows[ks[j]]);
    var b := NewBase(s.rows, ks, plan.moved, Tip(s.trunk), j);
    PlanMinted(s.repo, s.rows, Tip(s.trunk), ks, Write(ks[j], b, NewHead(s.rows, ks, plan.moved, j)));
  }

  lemma {:induction false} ApplyVersions(s: State, ws: seq<Write>, carry: bool, x: (Key, Version)) returns (w: Write)
    requires WritesIn(s.rows, ws) && x in Apply(s, ws, carry).log.versions && x !in s.log.versions
    ensures w in ws && x == (w.key, Version(w.base, w.head))
    decreases |ws|
  {
    var n := |ws| - 1;
    SplitLast(ws);
    if x in Apply(s, ws[..n], carry).log.versions {
      w := ApplyVersions(s, ws[..n], carry, x);
    } else {
      w := ws[n];
    }
  }

  lemma {:induction false} ApplyGrows(s: State, ws: seq<Write>, carry: bool)
    requires WritesIn(s.rows, ws)
    ensures s.log.versions <= Apply(s, ws, carry).log.versions
    decreases |ws|
  {
    if ws != [] {
      SplitLast(ws);
      ApplyGrows(s, ws[..|ws| - 1], carry);
    }
  }

  /** A sync neither breaks nor mends the rule. */
  lemma SyncOwnIff(s: State, ks: seq<Key>, carry: bool, key: Key)
    requires Wf(s) && s.trunk != [] && Listed(s.rows, ks) && forall k :: k in ks ==> IsOpen(s.rows, k)
    requires Readable(s.repo, s.log.versions)
    ensures var r := SyncMembers(s, ks, carry);
            OwnBases(r.repo, r.trunk, r.log.versions, key) <==> OwnBases(s.repo, s.trunk, s.log.versions, key)
  {
    var plan, r := PlanFor(s.repo, s.rows, Tip(s.trunk), ks), SyncMembers(s, ks, carry);
    assert s.trunk + [] == s.trunk;
    OwnBasesStable(s.repo, plan.repo, s.trunk, [], s.log.versions, key);
    if plan.Planned? {
      PlanWrites(s.repo, s.rows, Tip(s.trunk), ks);
      PlanShape(s.repo, s.rows, Tip(s.trunk), ks);
      ApplyGrows(s.(repo := plan.repo), plan.writes, carry);
      forall v | (key, v) in r.log.versions && (key, v) !in s.log.versions ensures OwnBase(plan.repo, s.trunk, key, v) {
        var w := ApplyVersions(s.(repo := plan.repo), plan.writes, carry, (key, v));
        PlanMinted(s.repo, s.rows, Tip(s.trunk), ks, w);
        WrittenBase(s, ks, plan, w);
        MintedOwnBase(s.repo, s.trunk, plan.repo, w.key, v);
      }
    }
  }

  // ----- Runs

  ghost predicate Own(s: State, key: Key) {
    OwnBases(s.repo, s.trunk, s.log.versions, key)
  }

  lemma LandOwnIff(s: State, r: LandRequest, key: Key)
    requires Wf(s) && KnownTips(s) && Readable(s.repo, s.log.versions)
    ensures Own(LandChange(s, r), key) <==> Own(s, key)
  {
    var t := LandChange(s, r);
    LandWf(s, r);
    if t.repo != s.repo { OwnBasesStable(s.repo, t.repo, s.trunk, [|s.repo|], s.log.versions, key); }
  }

  lemma StepOwnIff(s: State, e: Event, key: Key)
    requires Wf(s) && Readable(s.repo, s.log.versions)
    ensures Own(Step(s, e), key) <==> Own(s, key) && (e.PushEvent? ==> CleanPush(s, e.push, key))
  {
    match e
    case PushEvent(p) => PushOwnIff(s, p, key);
    case SyncEvent(k, carry) =>
      if IsOpen(s.rows, k) && s.trunk != [] {
        var ks := SyncOnMembers(s, k, carry);
        SyncOwnIff(s, ks, carry, key);
      }
    case LandEvent(r) => WfKnown(s); LandOwnIff(s, r, key);
    case _ => OtherOwn(s, e);
  }

  lemma OtherOwn(s: State, e: Event)
    requires Wf(s) && !e.PushEvent? && !e.SyncEvent? && !e.LandEvent?
    ensures var r := Step(s, e); r.repo == s.repo && r.trunk == s.trunk && r.log.versions == s.log.versions
  {
  }

  /** Every push of the run satisfies the guard for `key` where it happens. */
  ghost predicate CleanRun(s: State, es: seq<Event>, key: Key)
    requires Wf(s)
    decreases |es|
  {
    es == [] ||
    var n := |es| - 1;
    CleanRun(s, es[..n], key) && (es[n].PushEvent? ==> CleanPush(After(s, es[..n]), es[n].push, key))
  }

  lemma OwnLast(s: State, es: seq<Event>, t: State, key: Key)
    requires Wf(s) && es != [] && t == After(s, es[..|es| - 1]) && Readable(t.repo, t.log.versions)
    ensures Own(After(s, es), key) <==> Own(t, key) && (es[|es| - 1].PushEvent? ==> CleanPush(t, es[|es| - 1].push, key))
  {
    StepOwnIff(t, es[|es| - 1], key);
  }

  /** In every run each head recorded for `key` has the base it determines if and only if
      every push satisfied the guard for it. */
  lemma {:induction false} AlwaysOwnIff(s: State, es: seq<Event>, key: Key)
    requires Fresh(s)
    ensures Own(After(s, es), key) <==> CleanRun(s, es, key)
    decreases |es|
  {
    if es != [] {
      var n := |es| - 1;
      AlwaysOwnIff(s, es[..n], key);
      AlwaysReviewed(s, es[..n]);
      OwnLast(s, es, After(s, es[..n]), key);
    }
  }

  /** In such a run a counted approval covers exactly what was approved: everything the
      current version changes, the approved version changed likewise. */
  lemma CleanApprovalsCover(s: State, es: seq<Event>, key: Key, owner: Name)
    requires Fresh(s) && CleanRun(s, es, key)
    requires key in After(s, es).rows && Approved(After(s, es), key, owner, After(s, es).rows[key].head)
    ensures var t := After(s, es);
            exists v :: (key, owner, t.review.approvals[key][owner].approver, v) in t.log.approved
              && KnownVersion(t.repo, v) && KnownVersion(t.repo, Version(t.rows[key].base, t.rows[key].head))
              && CoveredBy(t.repo, Version(t.rows[key].base, t.rows[key].head), v)
  {
    var t := After(s, es);
    AlwaysOwnIff(s, es, key);
    OwnBasesBind(t.repo, t.trunk, t.log.versions, key);
    AlwaysReviewed(s, es);
    BoundAgrees(t.repo, t.log.versions, key);
    CountedApprovals(s, es, key, owner);
  }
}
