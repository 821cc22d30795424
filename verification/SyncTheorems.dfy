/** The two promises of a stack sync: the stack stays a stack, on top of trunk, and a second
    sync of an unmoved trunk finds nothing to do. */
module SyncTheorems {
  import opened Changes
  import opened Forest
  import opened Git
  import opened Store
  import opened WellFormed
  import opened Sync
  import opened SyncStack

  /** `ks` is a derived stack, as far as the rows are concerned: every member but the first
      is stacked on an earlier one, and whatever is stacked on a member is a member. */
  ghost predicate StackShape(rows: Rows, ks: seq<Key>) {
    && Listed(rows, ks) && |ks| > 0
    && (forall k :: k in ks ==> IsOpen(rows, k))
    && (forall i :: 0 < i < |ks| ==> ParentBefore(rows, ks, i))
    && (forall k, p :: p in ks && StackedOn(rows, k, p) ==> k in ks)
  }

  ghost predicate ParentBefore(rows: Rows, ks: seq<Key>, i: nat)
    requires i < |ks|
  {
    exists j :: 0 <= j < i && StackedOn(rows, ks[i], ks[j])
  }

  lemma DerivedParent(repo: Repo, rows: Rows, key: Key, ks: seq<Key>, i: nat)
    requires GoodRows(repo, rows) && KeyedRows(rows) && key in OpenForest(rows).nodes
    requires ks == Stack(OpenForest(rows), key) && 0 < i < |ks|
    ensures ParentBefore(rows, ks, i)
  {
    var f := OpenForest(rows);
    StackExact(f, key);
    var j := InPrefix(ks, i, f.parent[ks[i]]);
    ForestParent(repo, rows, ks[i], ks[j]);
  }

  lemma InPrefix(ks: seq<Key>, i: nat, x: Key) returns (j: nat)
    requires i <= |ks| && x in ks[..i]
    ensures j < i && ks[j] == x
  {
    j :| 0 <= j < |ks[..i]| && ks[..i][j] == x;
  }

  lemma DerivedClosed(repo: Repo, rows: Rows, key: Key, ks: seq<Key>, k: Key, p: Key)
    requires GoodRows(repo, rows) && KeyedRows(rows) && key in OpenForest(rows).nodes
    requires ks == Stack(OpenForest(rows), key) && p in ks && StackedOn(rows, k, p)
    ensures k in ks
  {
    ForestParent(repo, rows, k, p);
    if k != p { StackClosed(OpenForest(rows), key, k, p); }
  }

  lemma ShapeOf(repo: Repo, rows: Rows, key: Key, ks: seq<Key>)
    requires GoodRows(repo, rows) && KeyedRows(rows) && key in OpenForest(rows).nodes
    requires ks == Stack(OpenForest(rows), key) && Listed(rows, ks) && |ks| > 0 && forall k :: k in ks ==> IsOpen(rows, k)
    ensures StackShape(rows, ks)
  {
    forall i | 0 < i < |ks| ensures ParentBefore(rows, ks, i) {
      DerivedParent(repo, rows, key, ks, i);
    }
    forall k, p | p in ks && StackedOn(rows, k, p) ensures k in ks {
      DerivedClosed(repo, rows, key, ks, k, p);
    }
  }

  lemma KeysOfStack(s: State, key: Key)
    requires Wf(s) && IsOpen(s.rows, key)
    ensures KeyedRows(s.rows) && key in OpenForest(s.rows).nodes
    ensures StackKeys(s, key) == Stack(OpenForest(s.rows), key) && Listed(s.rows, StackKeys(s, key))
  {
    GoodKeyed(s.repo, s.rows);
    OpenNodes(s.rows, key);
  }

  lemma DerivedShape(s: State, key: Key, ks: seq<Key>)
    requires Wf(s) && IsOpen(s.rows, key) && ks == StackKeys(s, key)
    ensures StackShape(s.rows, ks)
  {
    KeysOfStack(s, key);
    ShapeOf(s.repo, s.rows, key, ks);
  }

  /** The tip is no open Change's head. */
  ghost predicate TipFree(rows: Rows, tip: Sha) {
    forall k :: IsOpen(rows, k) ==> rows[k].head != tip
  }

  // ----- The relation after a sync

  lemma MemberMoves(repo: Repo, rows: Rows, tip: Sha, ks: seq<Key>, plan: Plan, after: Rows, i: nat, j: nat)
    requires GoodRows(repo, rows) && StackShape(rows, ks) && i < |ks| && j < |ks|
    requires PlanInv(repo, rows, tip, ks, plan) && Synced(rows, tip, ks, plan.moved, after)
    ensures i == 0 ==> after[ks[i]].base == tip
    ensures i > 0 && StackedOn(rows, ks[i], ks[j]) ==> StackedOn(after, ks[i], ks[j])
  {
    assert PlacedAt(rows, ks, plan, tip, i) && PlacedAt(rows, ks, plan, tip, j);
    if i > 0 {
      assert ParentBefore(rows, ks, i);
      assert BaseBelow(rows, ks, i);
      assert IsOpen(rows, ks[i]) && IsOpen(rows, ks[j]);
    }
  }

  /** The first member sits on `tip`, every other one on its own parent's new head, and
      every row outside `ks` is as it was. */
  ghost predicate StillStacked(rows: Rows, tip: Sha, ks: seq<Key>, after: Rows) {
    && after.Keys == rows.Keys
    && (forall k :: k in ks ==> k in rows)
    && |ks| > 0 && ks[0] in ks && after[ks[0]].base == tip
    && (forall i :: 0 < i < |ks| ==>
          exists j :: 0 <= j < i && StackedOn(rows, ks[i], ks[j]) && StackedOn(after, ks[i], ks[j]))
    && (forall k :: k in rows && k !in ks ==> after[k] == rows[k])
  }

  lemma MembersStillStacked(repo: Repo, rows: Rows, tip: Sha, ks: seq<Key>, plan: Plan, after: Rows)
    requires GoodRows(repo, rows) && StackShape(rows, ks)
    requires PlanInv(repo, rows, tip, ks, plan) && Synced(rows, tip, ks, plan.moved, after)
    ensures StillStacked(rows, tip, ks, after)
  {
    MemberMoves(repo, rows, tip, ks, plan, after, 0, 0);
    forall i | 0 < i < |ks|
      ensures exists j :: 0 <= j < i && StackedOn(rows, ks[i], ks[j]) && StackedOn(after, ks[i], ks[j])
    {
      assert ParentBefore(rows, ks, i);
      var j :| 0 <= j < i && StackedOn(rows, ks[i], ks[j]);
      MemberMoves(repo, rows, tip, ks, plan, after, i, j);
    }
  }

  /** A clean sync keeps the stack relation, on top of trunk. */
  lemma SyncKeepsStack(s: State, key: Key, ks: seq<Key>, carryChecks: bool)
    requires Wf(s) && IsOpen(s.rows, key) && s.trunk != [] && ks == StackKeys(s, key) && CleanSync(s, ks)
    ensures StillStacked(s.rows, Tip(s.trunk), ks, SyncChange(s, key, carryChecks).rows)
  {
    DerivedShape(s, key, ks);
    SyncedRows(s, ks, carryChecks);
    MembersStillStacked(s.repo, s.rows, Tip(s.trunk), ks, PlanFor(s.repo, s.rows, Tip(s.trunk), ks),
                        SyncMembers(s, ks, carryChecks).rows);
  }

  /** Each rewritten member is a trivial rebase of what it was, provided its head carries
      the Change-Id trailer: the carry-forward detector agrees with the sync. */
  lemma SyncIsTrivialRebase(s: State, ks: seq<Key>, w: Write)
    requires CleanSync(s, ks) && w in PlanFor(s.repo, s.rows, Tip(s.trunk), ks).writes
    ensures w.key in s.rows
    ensures var c := s.rows[w.key];
            c.head < |s.repo| &&
            (s.repo[c.head].trailer == w.key <==>
               TrivialRebase(PlanFor(s.repo, s.rows, Tip(s.trunk), ks).repo,
                             Version(c.base, c.head), Version(w.base, w.head)))
  {
    PlanMinted(s.repo, s.rows, Tip(s.trunk), ks, w);
    var plan := PlanFor(s.repo, s.rows, Tip(s.trunk), ks);
    assert GoodWrite(s.repo, s.rows, plan.repo, w);
    var c := s.rows[w.key];
    assert plan.repo[c.head] == s.repo[c.head];
  }

  // ----- A second sync

  ghost predicate SyncOf(repo: Repo, rows: Rows, tip: Sha, ks: seq<Key>, plan: Plan, after: Rows) {
    && GoodRows(repo, rows) && StackShape(rows, ks)
    && PlanInv(repo, rows, tip, ks, plan) && Synced(rows, tip, ks, plan.moved, after)
    && GoodRows(plan.repo, after) && TipFree(after, tip) && tip < |repo|
  }

  /** A head is the old one, or newer than every old commit. */
  lemma HeadAfter(repo: Repo, rows: Rows, tip: Sha, ks: seq<Key>, plan: Plan, after: Rows, p: Key)
    requires SyncOf(repo, rows, tip, ks, plan, after) && IsOpen(rows, p)
    ensures after[p].head == rows[p].head || (p in ks && after[p].head >= |repo|)
    ensures after[p].status == rows[p].status && after[p].head != tip
  {
    if p in ks {
      var m :| 0 <= m < |ks| && ks[m] == p;
      assert PlacedAt(rows, ks, plan, tip, m);
    }
  }

  lemma OutsideRelation(repo: Repo, rows: Rows, tip: Sha, ks: seq<Key>, plan: Plan, after: Rows, k: Key, p: Key)
    requires SyncOf(repo, rows, tip, ks, plan, after) && IsOpen(rows, k) && IsOpen(rows, p) && k !in ks
    ensures StackedOn(after, k, p) <==> StackedOn(rows, k, p)
  {
    HeadAfter(repo, rows, tip, ks, plan, after, p);
    assert GoodRow(repo, k, rows[k]);
  }

  lemma InsideRelation(repo: Repo, rows: Rows, tip: Sha, ks: seq<Key>, plan: Plan, after: Rows, i: nat, p: Key)
    requires SyncOf(repo, rows, tip, ks, plan, after) && i < |ks| && IsOpen(rows, ks[i]) && IsOpen(rows, p)
    ensures StackedOn(after, ks[i], p) <==> StackedOn(rows, ks[i], p) && i != 0
  {
    HeadAfter(repo, rows, tip, ks, plan, after, p);
    if i == 0 {
      MemberMoves(repo, rows, tip, ks, plan, after, 0, 0);
    } else {
      assert ParentBefore(rows, ks, i);
      var j :| 0 <= j < i && StackedOn(rows, ks[i], ks[j]);
      MemberMoves(repo, rows, tip, ks, plan, after, i, j);
      if StackedOn(rows, ks[i], p) { HeadsDistinct(repo, rows, p, ks[j]); }
      if StackedOn(after, ks[i], p) { HeadsDistinct(plan.repo, after, p, ks[j]); }
    }
  }

  /** The stacked-on relation after a sync is the old one without the root's parent. */
  lemma SyncedRelation(repo: Repo, rows: Rows, tip: Sha, ks: seq<Key>, plan: Plan, after: Rows, k: Key, p: Key)
    requires SyncOf(repo, rows, tip, ks, plan, after)
    ensures StackedOn(after, k, p) <==> StackedOn(rows, k, p) && k != ks[0]
  {
    assert forall x :: IsOpen(after, x) ==> x in rows;
    if x :| x in {k, p} && x in rows && !IsOpen(rows, x) {
      assert x !in ks;
    } else if k in rows && p in rows {
      if k in ks {
        var i :| 0 <= i < |ks| && ks[i] == k;
        InsideRelation(repo, rows, tip, ks, plan, after, i, p);
        assert i != 0 ==> ks[i] != ks[0];
      } else {
        OutsideRelation(repo, rows, tip, ks, plan, after, k, p);
        assert ks[0] in ks;
      }
    }
  }

  /** Heads only get newer up a stack, so a root is nobody's child within it. */
  lemma {:induction false} HeadsRise(repo: Repo, rows: Rows, f: Forest, r: Key, k: Key, n: nat)
    requires GoodRows(repo, rows) && Mirrors(f, rows) && Below(f, r, k, n) && IsOpen(rows, r)
    ensures IsOpen(rows, k) && rows[r].head <= rows[k].head
    decreases n
  {
    if n > 0 {
      var p := f.parent[k];
      HeadsRise(repo, rows, f, r, p, n - 1);
      assert Child(f, k, p) && StackedOn(rows, k, p) && GoodRow(repo, k, rows[k]);
    }
  }

  lemma RootIsNoChild(repo: Repo, rows: Rows, f: Forest, key: Key, p: Key)
    requires GoodRows(repo, rows) && Mirrors(f, rows) && key in f.nodes
    requires p in Stack(f, key) && p != Stack(f, key)[0]
    ensures !Child(f, Stack(f, key)[0], p)
  {
    StackExact(f, key);
    var r := Stack(f, key)[0];
    var n: nat :| Below(f, r, p, n);
    assert r in f.nodes && IsOpen(rows, r);
    HeadsRise(repo, rows, f, r, p, n);
    assert GoodRow(repo, r, rows[r]);
    if rows[p].head == rows[r].head { HeadsDistinct(repo, rows, p, r); }
  }

  /** The stack derived after a sync is the stack that was synced, in the same order. */
  lemma SameStackAfter(repo: Repo, rows: Rows, f: Forest, tip: Sha, ks: seq<Key>, plan: Plan, after: Rows, g: Forest, key: Key)
    requires SyncOf(repo, rows, tip, ks, plan, after) && Mirrors(f, rows) && Mirrors(g, after)
    requires key in f.nodes && ks == Stack(f, key)
    ensures key in g.nodes && Stack(g, key) == ks
  {
    forall k, p ensures Child(g, k, p) <==> Child(f, k, p) && k != ks[0] {
      SyncedRelation(repo, rows, tip, ks, plan, after, k, p);
    }
    SameOpen(rows, tip, ks, plan, after);
    assert f.nodes == g.nodes;
    forall p | p in ks && p != ks[0] ensures !Child(f, ks[0], p) { RootIsNoChild(repo, rows, f, key, p); }
    StackCut(f, g, key);
  }

  lemma SameOpen(rows: Rows, tip: Sha, ks: seq<Key>, plan: Plan, after: Rows)
    requires StackShape(rows, ks) && plan.Planned? && Synced(rows, tip, ks, plan.moved, after)
    ensures forall k :: IsOpen(rows, k) <==> IsOpen(after, k)
  {
    forall k ensures IsOpen(rows, k) <==> IsOpen(after, k) {
      if k in ks { var m :| 0 <= m < |ks| && ks[m] == k; }
    }
  }

  /** A stack that sits where sync would put it. */
  ghost predicate Settled(rows: Rows, tip: Sha, ks: seq<Key>) {
    && Listed(rows, ks) && |ks| > 0
    && rows[ks[0]].base == tip
    && (forall i :: 0 < i < |ks| ==> SettledAt(rows, ks, i))
  }

  ghost predicate SettledAt(rows: Rows, ks: seq<Key>, i: nat)
    requires Listed(rows, ks) && i < |ks|
  {
    BaseBelow(rows, ks, i) && rows[ks[i]].base != NONE
  }

  /** Nothing planned yet: the maps only send the heads of the first n members to themselves. */
  ghost predicate PlansNothing(repo: Repo, rows: Rows, ks: seq<Key>, plan: Plan, n: nat)
    requires Listed(rows, ks) && n <= |ks|
  {
    && plan.Planned? && plan.repo == repo && plan.writes == []
    && (forall h :: h in plan.moved ==> plan.moved[h] == h)
    && (forall j :: 0 <= j < n ==> rows[ks[j]].head in plan.moved)
  }

  lemma SettledBase(repo: Repo, rows: Rows, tip: Sha, ks: seq<Key>, acc: Plan, n: nat)
    requires Settled(rows, tip, ks) && n < |ks|
    requires PlansNothing(repo, rows, ks, acc, n) && (n == 0 ==> acc.moved == map[])
    ensures var base := rows[ks[n]].base;
            (n > 0 ==> base != NONE) && base == if base in acc.moved then acc.moved[base] else tip
  {
    if n > 0 {
      assert SettledAt(rows, ks, n);
      var j :| 0 <= j < n && rows[ks[j]].head == rows[ks[n]].base;
      assert rows[ks[j]].head in acc.moved;
    }
  }

  lemma StaysPut(acc: Plan, m: Change, tip: Sha)
    requires acc.Planned? && ValidRepo(acc.repo) && m.base != NONE
    requires m.head < |acc.repo| && m.base < |acc.repo| && tip < |acc.repo|
    requires forall h :: h in acc.moved ==> acc.moved[h] < |acc.repo|
    requires m.base == if m.base in acc.moved then acc.moved[m.base] else tip
    ensures PlanMember(acc, m, tip) == acc.(moved := acc.moved[m.head := m.head])
  {
  }

  lemma SettledTurn(repo: Repo, rows: Rows, tip: Sha, ks: seq<Key>, acc: Plan, n: nat, m: Change)
    requires ValidRepo(repo) && 0 < tip < |repo| && Settled(rows, tip, ks) && n < |ks| && m == rows[ks[n]]
    requires PlansNothing(repo, rows, ks, acc, n) && (n == 0 ==> acc.moved == map[])
    requires m.head < |repo| && m.base < |repo| && forall h :: h in acc.moved ==> acc.moved[h] < |repo|
    ensures PlansNothing(repo, rows, ks, PlanMember(acc, m, tip), n + 1)
  {
    SettledBase(repo, rows, tip, ks, acc, n);
    StaysPut(acc, m, tip);
  }

  lemma SettledNext(repo: Repo, rows: Rows, tip: Sha, ks: seq<Key>, n: nat, acc: Plan)
    requires ValidRepo(repo) && GoodRows(repo, rows) && 0 < tip < |repo| && Settled(rows, tip, ks) && n < |ks|
    requires PlansNothing(repo, rows, ks, acc, n) && GoodPlan(repo, tip, acc) && (n == 0 ==> acc.moved == map[])
    ensures ks[n] in rows && GoodRow(repo, ks[n], rows[ks[n]])
    ensures PlansNothing(repo, rows, ks, PlanMember(acc, rows[ks[n]], tip), n + 1)
  {
    assert ks[n] in ks && GoodRow(repo, ks[n], rows[ks[n]]);
    assert forall h :: h in acc.moved ==> acc.moved[h] < |repo|;
    SettledTurn(repo, rows, tip, ks, acc, n, rows[ks[n]]);
  }

  /** Nothing is planned for a settled stack. */
  lemma {:induction false} SettledPlan(repo: Repo, rows: Rows, tip: Sha, ks: seq<Key>, n: nat)
    requires ValidRepo(repo) && GoodRows(repo, rows) && 0 < tip < |repo|
    requires Settled(rows, tip, ks) && n <= |ks| && forall k :: k in ks[..n] ==> k in rows
    ensures PlansNothing(repo, rows, ks, PlanFor(repo, rows, tip, ks[..n]), n)
    decreases n
  {
    if n > 0 {
      PlanPrefix(repo, rows, tip, ks[..n]);
      Prefix(ks, n);
      SettledPlan(repo, rows, tip, ks, n - 1);
      assert PlanFor(repo, rows, tip, []) == Planned(repo, [], map[]);
      SettledNext(repo, rows, tip, ks, n - 1, PlanFor(repo, rows, tip, ks[..n - 1]));
    }
  }

  lemma AgainSettled(s: State, f: Forest, key: Key, ks: seq<Key>, carryChecks: bool, g: Forest)
    requires CleanSync(s, ks) && StackShape(s.rows, ks)
    requires TipFree(SyncMembers(s, ks, carryChecks).rows, Tip(s.trunk))
    requires Mirrors(f, s.rows) && key in f.nodes && ks == Stack(f, key)
    requires Mirrors(g, SyncMembers(s, ks, carryChecks).rows)
    ensures key in g.nodes && Stack(g, key) == ks
    ensures Settled(SyncMembers(s, ks, carryChecks).rows, Tip(s.trunk), ks)
  {
    var tip, plan, r := Tip(s.trunk), PlanFor(s.repo, s.rows, Tip(s.trunk), ks), SyncMembers(s, ks, carryChecks);
    SyncedRows(s, ks, carryChecks);
    SyncKeepsWf(s, ks, carryChecks);
    SameStackAfter(s.repo, s.rows, f, tip, ks, plan, r.rows, g, key);
    MembersStillStacked(s.repo, s.rows, tip, ks, plan, r.rows);
    SettledAfter(r.repo, s.rows, tip, ks, r.rows);
  }

  lemma SettledStays(s: State, ks: seq<Key>, carryChecks: bool)
    requires Wf(s) && s.trunk != [] && Settled(s.rows, Tip(s.trunk), ks)
    ensures SyncMembers(s, ks, carryChecks) == s
  {
    assert ks[..|ks|] == ks;
    SettledPlan(s.repo, s.rows, Tip(s.trunk), ks, |ks|);
  }

  // ----- When the second stack is the first

  /** No open Change outside the stack has the trunk tip as its head. */
  ghost predicate TipFreeOutside(rows: Rows, tip: Sha, ks: seq<Key>) {
    forall k :: IsOpen(rows, k) && k !in ks ==> rows[k].head != tip
  }

  /** A stack whose root is not on the tip is rewritten whole. */
  lemma {:induction false} AllMove(s: State, ks: seq<Key>, i: nat)
    requires CleanSync(s, ks) && StackShape(s.rows, ks) && s.rows[ks[0]].base != Tip(s.trunk) && i < |ks|
    ensures NewHead(s.rows, ks, PlanFor(s.repo, s.rows, Tip(s.trunk), ks).moved, i) >= |s.repo|
  {
    var tip, plan := Tip(s.trunk), PlanFor(s.repo, s.rows, Tip(s.trunk), ks);
    PlanShape(s.repo, s.rows, tip, ks);
    assert PlacedAt(s.rows, ks, plan, tip, i);
    assert ks[i] in ks && GoodRow(s.repo, ks[i], s.rows[ks[i]]);
    var b := NewBase(s.rows, ks, plan.moved, tip, i);
    if i > 0 {
      assert ParentBefore(s.rows, ks, i);
      var j :| 0 <= j < i && StackedOn(s.rows, ks[i], ks[j]);
      AllMove(s, ks, j);
      assert PlacedAt(s.rows, ks, plan, tip, j) && BaseBelow(s.rows, ks, i);
      assert b == NewHead(s.rows, ks, plan.moved, j);
    }
    assert b != s.rows[ks[i]].base;
    PlanMinted(s.repo, s.rows, tip, ks, Write(ks[i], b, NewHead(s.rows, ks, plan.moved, i)));
  }

  lemma TipFreeAfter(s: State, ks: seq<Key>, carryChecks: bool)
    requires CleanSync(s, ks) && StackShape(s.rows, ks) && s.rows[ks[0]].base != Tip(s.trunk)
    requires TipFreeOutside(s.rows, Tip(s.trunk), ks)
    ensures TipFree(SyncMembers(s, ks, carryChecks).rows, Tip(s.trunk))
  {
    var r := SyncMembers(s, ks, carryChecks);
    SyncedRows(s, ks, carryChecks);
    forall k | IsOpen(r.rows, k) ensures r.rows[k].head != Tip(s.trunk) {
      if k in ks {
        var i :| 0 <= i < |ks| && ks[i] == k;
        AllMove(s, ks, i);
      }
    }
  }

  /** A derived stack whose root is on the tip already is settled. */
  lemma SettledShape(s: State, ks: seq<Key>)
    requires Wf(s) && s.trunk != [] && StackShape(s.rows, ks) && s.rows[ks[0]].base == Tip(s.trunk)
    ensures Settled(s.rows, Tip(s.trunk), ks)
  {
    forall i | 0 < i < |ks| ensures SettledAt(s.rows, ks, i) {
      assert ParentBefore(s.rows, ks, i);
      var j :| 0 <= j < i && StackedOn(s.rows, ks[i], ks[j]);
      assert GoodRow(s.repo, ks[j], s.rows[ks[j]]);
    }
  }

  lemma SyncIdempotent(s: State, key: Key, ks: seq<Key>, carryChecks: bool, again: bool)
    requires Wf(s) && IsOpen(s.rows, key) && s.trunk != [] && ks == StackKeys(s, key) && CleanSync(s, ks)
    requires TipFreeOutside(s.rows, Tip(s.trunk), ks)
    ensures var r := SyncMembers(s, ks, carryChecks);
            && Wf(r) && IsOpen(r.rows, key)
            && StackKeys(r, key) == ks
            && SyncMembers(r, ks, again) == r
  {
    var r := SyncMembers(s, ks, carryChecks);
    DerivedShape(s, key, ks);
    if s.rows[ks[0]].base == Tip(s.trunk) {
      SettledShape(s, ks);
      SettledStays(s, ks, carryChecks);
      SettledStays(s, ks, again);
    } else {
      SyncKeepsWf(s, ks, carryChecks);
      TipFreeAfter(s, ks, carryChecks);
      MovedAgain(s, key, ks, carryChecks, r);
      SettledStays(r, ks, again);
    }
  }

  lemma MovedAgain(s: State, key: Key, ks: seq<Key>, carryChecks: bool, r: State)
    requires Wf(s) && IsOpen(s.rows, key) && ks == StackKeys(s, key) && CleanSync(s, ks) && StackShape(s.rows, ks)
    requires r == SyncMembers(s, ks, carryChecks) && Wf(r) && TipFree(r.rows, Tip(s.trunk))
    ensures IsOpen(r.rows, key) && StackKeys(r, key) == ks && r.trunk == s.trunk && Settled(r.rows, Tip(s.trunk), ks)
  {
    GoodKeyed(s.repo, s.rows);
    GoodKeyed(r.repo, r.rows);
    OpenMirrors(s.repo, s.rows);
    OpenMirrors(r.repo, r.rows);
    AgainSettled(s, OpenForest(s.rows), key, ks, carryChecks, OpenForest(r.rows));
    SyncedRows(s, ks, carryChecks);
  }

  /** An open Change outside the stack at the tip becomes the parent of its root. */
  lemma TipJoins(s: State, key: Key, ks: seq<Key>, carryChecks: bool, k: Key)
    requires Wf(s) && IsOpen(s.rows, key) && ks == StackKeys(s, key) && CleanSync(s, ks)
    requires IsOpen(s.rows, k) && k !in ks && s.rows[k].head == Tip(s.trunk)
    ensures var r := SyncMembers(s, ks, carryChecks); Wf(r) && IsOpen(r.rows, key) && StackKeys(r, key) != ks
  {
    var r := SyncMembers(s, ks, carryChecks);
    DerivedShape(s, key, ks);
    SyncKeepsWf(s, ks, carryChecks);
    SyncedRows(s, ks, carryChecks);
    MembersStillStacked(s.repo, s.rows, Tip(s.trunk), ks, PlanFor(s.repo, s.rows, Tip(s.trunk), ks), r.rows);
    SameOpen(s.rows, Tip(s.trunk), ks, PlanFor(s.repo, s.rows, Tip(s.trunk), ks), r.rows);
    assert ks[0] in ks && StackedOn(r.rows, ks[0], k);
    NotTheStack(r, key, ks, k);
  }

  lemma NotTheStack(r: State, key: Key, ks: seq<Key>, k: Key)
    requires Wf(r) && IsOpen(r.rows, key) && ks != [] && k !in ks && StackedOn(r.rows, ks[0], k)
    ensures StackKeys(r, key) != ks
  {
    GoodKeyed(r.repo, r.rows);
    OpenNodes(r.rows, key);
    ForestParent(r.repo, r.rows, ks[0], k);
    if StackKeys(r, key)[0] == ks[0] { LeaderParent(OpenForest(r.rows), key, k); }
  }

  /** Sync is idempotent: with trunk unmoved, a second sync derives the same members in the
      same order if and only if no open Change outside the stack has the trunk tip as its
      head; and then it changes nothing. */
  lemma SyncTwice(s: State, key: Key, carryChecks: bool, again: bool)
    requires Wf(s) && IsOpen(s.rows, key) && s.trunk != [] && CleanSync(s, StackKeys(s, key))
    ensures var r := SyncChange(s, key, carryChecks);
            && Wf(r) && IsOpen(r.rows, key)
            && (StackKeys(r, key) == StackKeys(s, key) <==> TipFreeOutside(s.rows, Tip(s.trunk), StackKeys(s, key)))
            && (TipFreeOutside(s.rows, Tip(s.trunk), StackKeys(s, key)) ==> SyncChange(r, key, again) == r)
  {
    var ks := SyncOnMembers(s, key, carryChecks);
    if TipFreeOutside(s.rows, Tip(s.trunk), ks) {
      SyncIdempotent(s, key, ks, carryChecks, again);
      SecondSync(SyncMembers(s, ks, carryChecks), key, ks, again);
    } else {
      var k :| IsOpen(s.rows, k) && k !in ks && s.rows[k].head == Tip(s.trunk);
      TipJoins(s, key, ks, carryChecks, k);
    }
  }

  lemma SecondSync(r: State, key: Key, ks: seq<Key>, again: bool)
    requires Wf(r) && IsOpen(r.rows, key) && r.trunk != [] && StackKeys(r, key) == ks && SyncMembers(r, ks, again) == r
    ensures SyncChange(r, key, again) == r
  {
    var ks' := SyncOnMembers(r, key, again);
  }

  lemma SettledAfter(repo: Repo, rows: Rows, tip: Sha, ks: seq<Key>, after: Rows)
    requires StackShape(rows, ks) && GoodRows(repo, after) && StillStacked(rows, tip, ks, after)
    ensures Settled(after, tip, ks)
  {
    assert Listed(after, ks);
    forall i | 0 < i < |ks| ensures BaseBelow(after, ks, i) && after[ks[i]].base != NONE {
      var j :| 0 <= j < i && StackedOn(rows, ks[i], ks[j]) && StackedOn(after, ks[i], ks[j]);
      assert GoodRow(repo, ks[j], after[ks[j]]);
      assert after[ks[j]].head == after[ks[i]].base;
    }
  }
}
