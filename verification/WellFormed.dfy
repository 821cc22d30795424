/** The invariants every step of the daemon keeps, and what it means for stack derivation:
    a head carries its own Change's id, so no two rows share a head. */
module WellFormed {
  import opened Changes
  import opened Forest
  import opened Stacks
  import opened Git
  import opened Store
  import opened Receive
  import opened Pushes

  ghost predicate GoodRow(repo: Repo, k: Key, c: Change) {
    && c.key == k
    && 0 < c.head < |repo| && IdOf(repo, c.head) == k
    && c.base <= c.head && c.landed < |repo|
  }

  ghost predicate GoodRows(repo: Repo, rows: Rows) {
    forall k :: k in rows ==> GoodRow(repo, k, rows[k])
  }

  ghost predicate GoodTrunk(repo: Repo, trunk: seq<Sha>) {
    forall i :: 0 <= i < |trunk| ==> 0 < trunk[i] < |repo|
  }

  ghost predicate Wf(s: State) {
    ValidRepo(s.repo) && GoodRows(s.repo, s.rows) && GoodTrunk(s.repo, s.trunk)
  }

  lemma GoodKeyed(repo: Repo, rows: Rows)
    requires GoodRows(repo, rows)
    ensures KeyedRows(rows)
  {
  }

  lemma GrownRepo(repo: Repo, more: seq<Commit>, rows: Rows, trunk: seq<Sha>)
    requires GoodRows(repo, rows) && GoodTrunk(repo, trunk)
    ensures GoodRows(repo + more, rows) && GoodTrunk(repo + more, trunk)
  {
    forall k | k in rows ensures GoodRow(repo + more, k, rows[k]) {
      assert GoodRow(repo, k, rows[k]);
      assert (repo + more)[rows[k].head] == repo[rows[k].head];
    }
  }

  /** Two rows never share a head. */
  lemma HeadsDistinct(repo: Repo, rows: Rows, j: Key, k: Key)
    requires GoodRows(repo, rows) && j in rows && k in rows && rows[j].head == rows[k].head
    ensures j == k
  {
    assert GoodRow(repo, j, rows[j]) && GoodRow(repo, k, rows[k]);
  }

  lemma AllHeadsDistinct(repo: Repo, rows: Rows)
    requires GoodRows(repo, rows)
    ensures forall j, k :: j in rows && k in rows && rows[j].head == rows[k].head ==> j == k
  {
    forall j, k | j in rows && k in rows && rows[j].head == rows[k].head ensures j == k {
      HeadsDistinct(repo, rows, j, k);
    }
  }

  // ----- Pushes keep it

  lemma PushKeepsWf(s: State, p: Push)
    requires Wf(s)
    ensures Wf(ReceivePush(s, p))
    ensures RefsFollow(s) ==> RefsFollow(ReceivePush(s, p))
  {
    if Accepted(s, p) {
      GrownRepo(s.repo, p.objects, s.rows, s.trunk);
      var q := Quarantined(s, p);
      var ms := Series(q.repo, q.trunk, q.rows, p.tip);
      SeriesInRepo(q.repo, q.trunk, q.rows, p.tip);
      SeriesDistinct(q.repo, q.trunk, q.rows, p.tip);
      var t := q.(log := q.log.(tips := q.log.tips[(p.workspace, BranchOf(p)) := p.tip]));
      RecordKeepsRows(t, p, ms);
      if RefsFollow(s) { RecordRefs(t, p, ms); }
    }
  }

  lemma RecordKeepsRows(s: State, p: Push, ms: seq<Member>)
    requires ValidRepo(s.repo) && GoodRows(s.repo, s.rows)
    requires InRepoMembers(s.repo, ms) && DistinctIds(ms)
    requires forall m :: m in ms ==> 0 < m.sha < |s.repo| && m.id == IdOf(s.repo, m.sha)
    ensures GoodRows(s.repo, Record(s, p, ms).rows)
  {
    var r := Record(s, p, ms);
    RecordDomain(s, p, ms);
    forall k | k in r.rows ensures GoodRow(s.repo, k, r.rows[k]) {
      if k in Ids(ms) {
        var m :| m in ms && m.id == k;
        var i :| 0 <= i < |ms| && ms[i] == m;
        RecordRow(s, p, ms, i);
        UpsertHead(s.rows, k, BaseOf(s, ms, i), m.sha, p.author, p.workspace, BranchOf(p));
        assert k in s.rows ==> GoodRow(s.repo, k, s.rows[k]);
        assert k !in s.rows ==> r.rows[k].landed == NONE;
      } else {
        assert k in s.rows && r.rows[k] == s.rows[k];
      }
    }
  }

  // ----- The forest of the open rows

  ghost predicate IsOpen(rows: Rows, k: Key) {
    k in rows && rows[k].status == Open
  }

  ghost function OpenForest(rows: Rows): (f: Forest)
    requires KeyedRows(rows)
    ensures Valid(f)
  {
    OpenDistinct(rows);
    ForestOf(OpenRows(rows))
  }

  lemma OpenDistinct(rows: Rows)
    requires KeyedRows(rows)
    ensures DistinctKeys(OpenRows(rows)) && KeysIdentify(OpenRows(rows))
  {
    var q := OpenRows(rows);
    assert forall i :: 0 <= i < |q| ==> q[i].key == OpenKeys(rows)[i];
  }

  /** `k` is stacked on `p`: both open, and k's base is p's head. */
  ghost predicate StackedOn(rows: Rows, k: Key, p: Key) {
    IsOpen(rows, k) && IsOpen(rows, p) && rows[k].base == rows[p].head
  }

  lemma OpenNodes(rows: Rows, k: Key)
    requires KeyedRows(rows)
    ensures k in OpenForest(rows).nodes <==> IsOpen(rows, k)
  {
    OpenDistinct(rows);
    var q := OpenRows(rows);
    if IsOpen(rows, k) { InOpenRows(rows, rows[k]); }
    if k in OpenForest(rows).nodes {
      var c :| c in q && c.key == k;
      InOpenRows(rows, c);
    }
  }

  /** The derived parent relation is exactly base-is-head. */
  lemma ForestParent(repo: Repo, rows: Rows, k: Key, p: Key)
    requires GoodRows(repo, rows) && KeyedRows(rows)
    ensures k in OpenForest(rows).parent && OpenForest(rows).parent[k] == p <==> StackedOn(rows, k, p)
  {
    var f, q := OpenForest(rows), OpenRows(rows);
    OpenDistinct(rows);
    if StackedOn(rows, k, p) {
      InOpenRows(rows, rows[k]);
      InOpenRows(rows, rows[p]);
      assert GoodRow(repo, p, rows[p]);
    }
    if k in f.parent {
      var c :| c in q && OwnerOf(q, c.base).Some? && c.key == k;
      var d := OwnerOf(q, c.base).value;
      InOpenRows(rows, c);
      InOpenRows(rows, d);
      assert f.parent[k] == d.key && StackedOn(rows, k, d.key);
      if StackedOn(rows, k, p) { HeadsDistinct(repo, rows, d.key, p); }
    }
  }

  lemma ForestKids(repo: Repo, rows: Rows, k: Key, p: Key)
    requires GoodRows(repo, rows) && KeyedRows(rows)
    ensures k in Kids(OpenForest(rows), p) <==> StackedOn(rows, k, p) && k != p
  {
    ForestParent(repo, rows, k, p);
  }

  /** `f` is the forest of the open rows. */
  ghost predicate Mirrors(f: Forest, rows: Rows) {
    && Valid(f)
    && (forall k :: k in f.nodes <==> IsOpen(rows, k))
    && (forall k, p :: Child(f, k, p) <==> StackedOn(rows, k, p))
  }

  lemma OpenMirrors(repo: Repo, rows: Rows)
    requires GoodRows(repo, rows) && KeyedRows(rows)
    ensures Mirrors(OpenForest(rows), rows)
  {
    forall k ensures k in OpenForest(rows).nodes <==> IsOpen(rows, k) { OpenNodes(rows, k); }
    forall k, p ensures Child(OpenForest(rows), k, p) <==> StackedOn(rows, k, p) {
      ForestParent(repo, rows, k, p);
    }
  }
}
