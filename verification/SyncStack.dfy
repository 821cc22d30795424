/** What a stack sync does to the stack relation. */
module SyncStack {
  import opened Changes
  import opened Git
  import opened Store
  import opened WellFormed
  import opened Sync

  // ----- What the compute phase plans

  ghost predicate Listed(rows: Rows, ks: seq<Key>) {
    NoDup(ks) && forall k :: k in ks ==> k in rows
  }

  /** The base of the i-th member is the head of a member before it. */
  ghost predicate BaseBelow(rows: Rows, ks: seq<Key>, i: nat)
    requires Listed(rows, ks) && i < |ks|
  {
    exists j :: 0 <= j < i && rows[ks[j]].head == rows[ks[i]].base
  }

  ghost function NewBase(rows: Rows, ks: seq<Key>, moved: map<Sha, Sha>, tip: Sha, i: nat): Sha
    requires Listed(rows, ks) && i < |ks|
  {
    var base := rows[ks[i]].base;
    if BaseBelow(rows, ks, i) && base in moved then moved[base] else tip
  }

  ghost function NewHead(rows: Rows, ks: seq<Key>, moved: map<Sha, Sha>, i: nat): Sha
    requires Listed(rows, ks) && i < |ks|
  {
    var head := rows[ks[i]].head;
    if head in moved then moved[head] else NONE
  }

  /** The i-th member is written with its new version, or left because it is there already. */
  ghost predicate PlacedAt(rows: Rows, ks: seq<Key>, plan: Plan, tip: Sha, i: nat)
    requires Listed(rows, ks) && i < |ks| && plan.Planned?
  {
    var c, b, h := rows[ks[i]], NewBase(rows, ks, plan.moved, tip, i), NewHead(rows, ks, plan.moved, i);
    && c.head in plan.moved && c.base != NONE
    && if c.base == b then h == c.head && (forall w :: w in plan.writes ==> w.key != ks[i])
       else Write(ks[i], b, h) in plan.writes
  }

  ghost predicate FromHeads(rows: Rows, ks: seq<Key>, moved: map<Sha, Sha>)
    requires Listed(rows, ks)
  {
    forall h :: h in moved ==> exists j :: 0 <= j < |ks| && rows[ks[j]].head == h
  }

  ghost predicate DistinctWrites(ws: seq<Write>) {
    forall i, j :: 0 <= i < j < |ws| ==> ws[i].key != ws[j].key
  }

  /** New heads are old ones or freshly minted, and no two are the same. */
  ghost predicate FreshHeads(repo: Repo, plan: Plan)
    requires plan.Planned?
  {
    && (forall h :: h in plan.moved ==> plan.moved[h] == h || |repo| <= plan.moved[h] < |plan.repo|)
    && (forall g, h :: g in plan.moved && h in plan.moved && plan.moved[g] == plan.moved[h] ==> g == h)
  }

  ghost predicate PlanInv(repo: Repo, rows: Rows, tip: Sha, ks: seq<Key>, plan: Plan)
    requires Listed(rows, ks)
  {
    && plan.Planned? && |repo| <= |plan.repo|
    && FromHeads(rows, ks, plan.moved)
    && (forall i :: 0 <= i < |ks| ==> PlacedAt(rows, ks, plan, tip, i))
    && (forall w :: w in plan.writes ==> w.key in ks && w.base != rows[w.key].base)
    && DistinctWrites(plan.writes)
    && FreshHeads(repo, plan)
  }

  lemma ListedPrefix(rows: Rows, ks: seq<Key>)
    requires Listed(rows, ks) && ks != []
    ensures var n := |ks| - 1;
            && Listed(rows, ks[..n]) && ks[n] !in ks[..n] && ks[n] in ks
            && (forall j :: 0 <= j < n ==> ks[j] == ks[..n][j] && ks[j] in ks[..n])
            && (forall k :: k in ks[..n] ==> k in ks)
  {
    var n := |ks| - 1;
    assert ks == ks[..n] + [ks[n]];
  }

  /** One turn of the compute loop places `m` at (b, h). */
  ghost predicate Turn(acc: Plan, plan: Plan, m: Change, tip: Sha, b: Sha, h: Sha) {
    && acc.Planned? && plan.Planned?
    && m.base != NONE
    && b == (if m.base in acc.moved then acc.moved[m.base] else tip)
    && plan.moved == acc.moved[m.head := h]
    && if m.base == b then h == m.head && plan.writes == acc.writes && |plan.repo| == |acc.repo|
       else h == |acc.repo| && plan.writes == acc.writes + [Write(m.key, b, h)] && |plan.repo| == |acc.repo| + 1
  }

  lemma MemberTurn(acc: Plan, m: Change, tip: Sha) returns (b: Sha, h: Sha)
    requires acc.Planned? && ValidRepo(acc.repo)
    requires m.head < |acc.repo| && m.base < |acc.repo| && tip < |acc.repo|
    requires forall h :: h in acc.moved ==> acc.moved[h] < |acc.repo|
    requires PlanMember(acc, m, tip).Planned?
    ensures Turn(acc, PlanMember(acc, m, tip), m, tip, b, h)
  {
    b := if m.base in acc.moved then acc.moved[m.base] else tip;
    h := if m.base == b then m.head else |acc.repo|;
  }

  lemma TurnHeads(rows: Rows, ks: seq<Key>, acc: Plan, plan: Plan, tip: Sha, b: Sha, h: Sha)
    requires Listed(rows, ks) && ks != [] && Listed(rows, ks[..|ks| - 1])
    requires Turn(acc, plan, rows[ks[|ks| - 1]], tip, b, h) && FromHeads(rows, ks[..|ks| - 1], acc.moved)
    ensures FromHeads(rows, ks, plan.moved)
  {
    ListedPrefix(rows, ks);
    var n := |ks| - 1;
    forall x | x in plan.moved ensures exists j :: 0 <= j < |ks| && rows[ks[j]].head == x {
      if x in acc.moved {
        var j :| 0 <= j < |ks[..n]| && rows[ks[..n][j]].head == x;
        assert rows[ks[j]].head == x;
      } else {
        assert rows[ks[n]].head == x;
      }
    }
  }

  lemma TurnFresh(repo: Repo, acc: Plan, plan: Plan, m: Change, tip: Sha, b: Sha, h: Sha)
    requires Turn(acc, plan, m, tip, b, h) && FreshHeads(repo, acc) && m.head !in acc.moved
    requires |repo| <= |acc.repo| && m.head < |repo| && forall x :: x in acc.moved ==> x < |repo|
    ensures FreshHeads(repo, plan)
  {
  }

  lemma TurnNewest(rows: Rows, ks: seq<Key>, acc: Plan, plan: Plan, tip: Sha, b: Sha, h: Sha)
    requires Listed(rows, ks) && ks != [] && Listed(rows, ks[..|ks| - 1])
    requires var m := rows[ks[|ks| - 1]]; m.key == ks[|ks| - 1] && Turn(acc, plan, m, tip, b, h) && m.head !in acc.moved
    requires FromHeads(rows, ks[..|ks| - 1], acc.moved)
    requires forall j :: 0 <= j < |ks| - 1 ==> rows[ks[j]].head in acc.moved
    requires forall w :: w in acc.writes ==> w.key in ks[..|ks| - 1]
    ensures PlacedAt(rows, ks, plan, tip, |ks| - 1)
  {
    ListedPrefix(rows, ks);
    var n := |ks| - 1;
    var base := rows[ks[n]].base;
    assert BaseBelow(rows, ks, n) <==> base in acc.moved by {
      if base in acc.moved {
        var j :| 0 <= j < |ks[..n]| && rows[ks[..n][j]].head == base;
        assert rows[ks[j]].head == base;
      }
    }
    assert NewBase(rows, ks, plan.moved, tip, n) == b;
  }

  lemma TurnWrites(rows: Rows, ks: seq<Key>, acc: Plan, plan: Plan, tip: Sha, b: Sha, h: Sha)
    requires Listed(rows, ks) && ks != [] && Listed(rows, ks[..|ks| - 1])
    requires var m := rows[ks[|ks| - 1]]; m.key == ks[|ks| - 1] && Turn(acc, plan, m, tip, b, h)
    requires DistinctWrites(acc.writes) && forall w :: w in acc.writes ==> w.key in ks[..|ks| - 1] && w.base != rows[w.key].base
    ensures DistinctWrites(plan.writes) && forall w :: w in plan.writes ==> w.key in ks && w.base != rows[w.key].base
  {
    ListedPrefix(rows, ks);
  }

  /** A later turn leaves an earlier member's placement alone. */
  lemma TurnKeeps(rows: Rows, ks: seq<Key>, acc: Plan, plan: Plan, tip: Sha, b: Sha, h: Sha, i: nat)
    requires Listed(rows, ks) && i < |ks| - 1 && Listed(rows, ks[..|ks| - 1])
    requires var m := rows[ks[|ks| - 1]]; m.key == ks[|ks| - 1] && Turn(acc, plan, m, tip, b, h) && m.head !in acc.moved
    requires PlacedAt(rows, ks[..|ks| - 1], acc, tip, i)
    requires forall j :: 0 <= j < |ks| - 1 ==> rows[ks[j]].head in acc.moved
    ensures PlacedAt(rows, ks, plan, tip, i)
  {
    ListedPrefix(rows, ks);
    var n := |ks| - 1;
    var lower := ks[..n];
    assert BaseBelow(rows, ks, i) <==> BaseBelow(rows, lower, i);
    assert NewBase(rows, ks, plan.moved, tip, i) == NewBase(rows, lower, acc.moved, tip, i);
    assert NewHead(rows, ks, plan.moved, i) == NewHead(rows, lower, acc.moved, i);
  }

  /** Below the newest member every head has moved, and no other commit has. */
  lemma MovedHeads(repo: Repo, rows: Rows, tip: Sha, ks: seq<Key>, acc: Plan)
    requires GoodRows(repo, rows) && Listed(rows, ks) && ks != [] && Listed(rows, ks[..|ks| - 1])
    requires PlanInv(repo, rows, tip, ks[..|ks| - 1], acc)
    ensures forall j :: 0 <= j < |ks| - 1 ==> rows[ks[j]].head in acc.moved
    ensures forall x :: x in acc.moved ==> x < |repo| && x != rows[ks[|ks| - 1]].head
  {
    var n := |ks| - 1;
    ListedPrefix(rows, ks);
    AllHeadsDistinct(repo, rows);
    forall j | 0 <= j < n ensures rows[ks[j]].head in acc.moved {
      assert PlacedAt(rows, ks[..n], acc, tip, j);
    }
    forall x | x in acc.moved ensures x < |repo| && x != rows[ks[n]].head {
      var j :| 0 <= j < |ks[..n]| && rows[ks[..n][j]].head == x;
      assert GoodRow(repo, ks[j], rows[ks[j]]);
    }
  }

  lemma PlanTurn(repo: Repo, rows: Rows, tip: Sha, ks: seq<Key>, acc: Plan, plan: Plan, b: Sha, h: Sha)
    requires GoodRows(repo, rows) && Listed(rows, ks) && ks != [] && Listed(rows, ks[..|ks| - 1])
    requires PlanInv(repo, rows, tip, ks[..|ks| - 1], acc)
    requires Turn(acc, plan, rows[ks[|ks| - 1]], tip, b, h)
    ensures PlanInv(repo, rows, tip, ks, plan)
  {
    var n := |ks| - 1;
    var m := rows[ks[n]];
    ListedPrefix(rows, ks);
    assert GoodRow(repo, ks[n], m);
    MovedHeads(repo, rows, tip, ks, acc);
    TurnHeads(rows, ks, acc, plan, tip, b, h);
    TurnFresh(repo, acc, plan, m, tip, b, h);
    TurnNewest(rows, ks, acc, plan, tip, b, h);
    TurnWrites(rows, ks, acc, plan, tip, b, h);
    forall i | 0 <= i < |ks| ensures PlacedAt(rows, ks, plan, tip, i) {
      if i < n { TurnKeeps(rows, ks, acc, plan, tip, b, h, i); }
    }
  }

  /** What the compute phase plans for a clean stack. */
  lemma {:induction false} PlanShape(repo: Repo, rows: Rows, tip: Sha, ks: seq<Key>)
    requires ValidRepo(repo) && GoodRows(repo, rows) && 0 < tip < |repo| && Listed(rows, ks)
    requires PlanFor(repo, rows, tip, ks).Planned?
    ensures PlanInv(repo, rows, tip, ks, PlanFor(repo, rows, tip, ks))
    decreases |ks|
  {
    if ks != [] {
      var n := |ks| - 1;
      ListedPrefix(rows, ks);
      PlanPrefix(repo, rows, tip, ks);
      PlanShape(repo, rows, tip, ks[..n]);
      var acc := PlanFor(repo, rows, tip, ks[..n]);
      var b, h := MemberTurn(acc, rows[ks[n]], tip);
      PlanTurn(repo, rows, tip, ks, acc, PlanFor(repo, rows, tip, ks), b, h);
    }
  }

  // ----- What the minted commits are

  /** The commit minted for a write: the Change's own delta replayed on its new base, under
      its own Change-Id. */
  ghost predicate GoodWrite(repo: Repo, rows: Rows, grown: Repo, w: Write) {
    && w.key in rows && rows[w.key].head < |repo| && rows[w.key].base < |repo| && rows[w.key].base != NONE
    && 0 < w.base < w.head && |repo| <= w.head < |grown| && repo <= grown
    && grown[w.head].parent == w.base
    && SaysTheSame(repo[rows[w.key].head], w.key, grown[w.head])
    && MergeTree(grown[rows[w.key].base].tree, grown[w.base].tree, grown[rows[w.key].head].tree)
       == Some(grown[w.head].tree)
  }

  lemma WriteStays(repo: Repo, rows: Rows, grown: Repo, more: Repo, w: Write)
    requires GoodWrite(repo, rows, grown, w) && grown <= more
    ensures GoodWrite(repo, rows, more, w)
  {
  }

  lemma {:induction false} PlanMinted(repo: Repo, rows: Rows, tip: Sha, ks: seq<Key>, w: Write)
    requires ValidRepo(repo) && GoodRows(repo, rows) && 0 < tip < |repo|
    requires forall k :: k in ks ==> k in rows
    requires PlanFor(repo, rows, tip, ks).Planned? && w in PlanFor(repo, rows, tip, ks).writes
    ensures GoodWrite(repo, rows, PlanFor(repo, rows, tip, ks).repo, w)
    decreases |ks|
  {
    if ks != [] {
      var n := |ks| - 1;
      PlanPrefix(repo, rows, tip, ks);
      var m := rows[ks[n]];
      var acc := PlanFor(repo, rows, tip, ks[..n]);
      if w in acc.writes {
        PlanMinted(repo, rows, tip, ks[..n], w);
        RepoGrows(acc, m, tip);
        WriteStays(repo, rows, acc.repo, PlanMember(acc, m, tip).repo, w);
      } else {
        MintedNow(repo, rows, tip, acc, m, w);
      }
    }
  }

  lemma RepoGrows(acc: Plan, m: Change, tip: Sha)
    requires acc.Planned? && ValidRepo(acc.repo)
    requires m.head < |acc.repo| && m.base < |acc.repo| && tip < |acc.repo|
    requires forall h :: h in acc.moved ==> acc.moved[h] < |acc.repo|
    ensures acc.repo <= PlanMember(acc, m, tip).repo
  {
  }

  lemma MintedNow(repo: Repo, rows: Rows, tip: Sha, acc: Plan, m: Change, w: Write)
    requires acc.Planned? && GoodPlan(repo, tip, acc) && 0 < tip < |repo|
    requires m.key in rows && rows[m.key] == m && m.head < |repo| && m.base < |repo|
    requires PlanMember(acc, m, tip).Planned? && w in PlanMember(acc, m, tip).writes && w !in acc.writes
    ensures GoodWrite(repo, rows, PlanMember(acc, m, tip).repo, w)
  {
    var b := if m.base in acc.moved then acc.moved[m.base] else tip;
    var grown := PlanMember(acc, m, tip).repo;
    assert m.base != b && w == Write(m.key, b, |acc.repo|);
    assert forall x :: 0 <= x < |acc.repo| ==> grown[x] == acc.repo[x];
  }

  // ----- The write phase

  /** `after` is `rows` with the planned writes made. */
  ghost predicate Written(rows: Rows, ws: seq<Write>, after: Rows) {
    && after.Keys == rows.Keys
    && (forall w :: w in ws && w.key in rows ==> after[w.key] == rows[w.key].(base := w.base, head := w.head))
    && (forall k :: k in rows && (forall w :: w in ws ==> w.key != k) ==> after[k] == rows[k])
  }

  ghost predicate AllOpen(rows: Rows, ws: seq<Write>) {
    forall w :: w in ws ==> IsOpen(rows, w.key)
  }

  lemma ApplyLast(s: State, ws: seq<Write>, carryChecks: bool)
    requires WritesIn(s.rows, ws) && ws != [] && IsOpen(s.rows, ws[|ws| - 1].key)
    ensures WritesIn(s.rows, ws[..|ws| - 1])
    ensures var w, before := ws[|ws| - 1], Apply(s, ws[..|ws| - 1], carryChecks).rows;
            before[w.key] == s.rows[w.key] ==>
              Apply(s, ws, carryChecks).rows == before[w.key := s.rows[w.key].(base := w.base, head := w.head)]
  {
    assert ws[|ws| - 1] in ws && forall w :: w in ws[..|ws| - 1] ==> w in ws;
  }

  lemma {:induction false} ApplyRows(s: State, ws: seq<Write>, carryChecks: bool)
    requires DistinctWrites(ws) && AllOpen(s.rows, ws) && WritesIn(s.rows, ws)
    ensures Written(s.rows, ws, Apply(s, ws, carryChecks).rows)
    decreases |ws|
  {
    if ws != [] {
      var n := |ws| - 1;
      var lower := ws[..n];
      assert ws[n] in ws && forall w :: w in lower ==> w in ws && w.key != ws[n].key;
      ApplyLast(s, ws, carryChecks);
      ApplyRows(s, lower, carryChecks);
      WrittenNext(s.rows, ws, Apply(s, lower, carryChecks).rows, Apply(s, ws, carryChecks).rows);
    }
  }

  lemma WrittenNext(rows: Rows, ws: seq<Write>, before: Rows, after: Rows)
    requires DistinctWrites(ws) && WritesIn(rows, ws) && ws != []
    requires Written(rows, ws[..|ws| - 1], before) && ws[|ws| - 1].key in rows
    requires var w := ws[|ws| - 1]; after == before[w.key := rows[w.key].(base := w.base, head := w.head)]
    ensures Written(rows, ws, after)
  {
    assert ws == ws[..|ws| - 1] + [ws[|ws| - 1]];
  }

  lemma {:induction false} ApplyRefs(s: State, ws: seq<Write>, carryChecks: bool)
    requires RefsFollow(s) && WritesIn(s.rows, ws)
    ensures RefsFollow(Apply(s, ws, carryChecks))
    decreases |ws|
  {
    if ws != [] {
      var n := |ws| - 1;
      SplitLast(ws);
      ApplyRefs(s, ws[..n], carryChecks);
    }
  }

  /** A sync of `ks` that finds every member clean. */
  ghost predicate CleanSync(s: State, ks: seq<Key>) {
    && Wf(s) && s.trunk != [] && NoDup(ks) && Listed(s.rows, ks) && (forall k :: k in ks ==> IsOpen(s.rows, k))
    && PlanFor(s.repo, s.rows, Tip(s.trunk), ks).Planned?
  }

  /** Row by row: the members of `ks` sit at their new version, nothing else changed. */
  ghost predicate Synced(rows: Rows, tip: Sha, ks: seq<Key>, moved: map<Sha, Sha>, after: Rows)
    requires Listed(rows, ks)
  {
    && after.Keys == rows.Keys
    && (forall i :: 0 <= i < |ks| ==> after[ks[i]] == rows[ks[i]].(
          base := NewBase(rows, ks, moved, tip, i), head := NewHead(rows, ks, moved, i)))
    && (forall k :: k in rows && k !in ks ==> after[k] == rows[k])
  }

  lemma WrittenSynced(repo: Repo, rows: Rows, tip: Sha, ks: seq<Key>, plan: Plan, after: Rows)
    requires Listed(rows, ks) && PlanInv(repo, rows, tip, ks, plan) && Written(rows, plan.writes, after)
    ensures Synced(rows, tip, ks, plan.moved, after)
  {
    forall i | 0 <= i < |ks| ensures after[ks[i]] == rows[ks[i]].(
      base := NewBase(rows, ks, plan.moved, tip, i), head := NewHead(rows, ks, plan.moved, i))
    {
      assert PlacedAt(rows, ks, plan, tip, i) && ks[i] in ks;
    }
  }

  /** A clean sync moves the members to their planned versions and touches nothing else. */
  lemma SyncedRows(s: State, ks: seq<Key>, carryChecks: bool)
    requires CleanSync(s, ks)
    ensures var plan, r := PlanFor(s.repo, s.rows, Tip(s.trunk), ks), SyncMembers(s, ks, carryChecks);
            && PlanInv(s.repo, s.rows, Tip(s.trunk), ks, plan)
            && WritesIn(s.rows, plan.writes)
            && Written(s.rows, plan.writes, r.rows)
            && Synced(s.rows, Tip(s.trunk), ks, plan.moved, r.rows)
            && r.repo == plan.repo && r.trunk == s.trunk
            && (RefsFollow(s) ==> RefsFollow(r))
  {
    var plan := PlanFor(s.repo, s.rows, Tip(s.trunk), ks);
    PlanShape(s.repo, s.rows, Tip(s.trunk), ks);
    PlanWrites(s.repo, s.rows, Tip(s.trunk), ks);
    var t := s.(repo := plan.repo);
    ApplyRows(t, plan.writes, carryChecks);
    if RefsFollow(s) { ApplyRefs(t, plan.writes, carryChecks); }
    WrittenSynced(s.repo, s.rows, Tip(s.trunk), ks, plan, Apply(t, plan.writes, carryChecks).rows);
  }

  lemma WrittenGood(repo: Repo, rows: Rows, grown: Repo, ws: seq<Write>, after: Rows)
    requires GoodRows(repo, rows) && repo <= grown && Written(rows, ws, after)
    requires forall w :: w in ws ==> GoodWrite(repo, rows, grown, w)
    ensures GoodRows(grown, after)
  {
    forall k | k in after ensures GoodRow(grown, k, after[k]) {
      assert GoodRow(repo, k, rows[k]) && grown[rows[k].head] == repo[rows[k].head];
      if w :| w in ws && w.key == k {
        assert GoodWrite(repo, rows, grown, w);
      }
    }
  }

  lemma GrownTo(repo: Repo, grown: Repo, rows: Rows, trunk: seq<Sha>)
    requires GoodRows(repo, rows) && GoodTrunk(repo, trunk) && repo <= grown
    ensures GoodRows(grown, rows) && GoodTrunk(grown, trunk)
  {
    assert grown == repo + grown[|repo|..];
    GrownRepo(repo, grown[|repo|..], rows, trunk);
  }

  lemma SyncKeepsWf(s: State, ks: seq<Key>, carryChecks: bool)
    requires Wf(s) && s.trunk != [] && Listed(s.rows, ks) && forall k :: k in ks ==> IsOpen(s.rows, k)
    ensures Wf(SyncMembers(s, ks, carryChecks))
    ensures RefsFollow(s) ==> RefsFollow(SyncMembers(s, ks, carryChecks))
  {
    var plan := PlanFor(s.repo, s.rows, Tip(s.trunk), ks);
    GrownTo(s.repo, plan.repo, s.rows, s.trunk);
    if plan.Planned? {
      SyncedRows(s, ks, carryChecks);
      forall w | w in plan.writes ensures GoodWrite(s.repo, s.rows, plan.repo, w) {
        PlanMinted(s.repo, s.rows, Tip(s.trunk), ks, w);
      }
      WrittenGood(s.repo, s.rows, plan.repo, plan.writes, SyncMembers(s, ks, carryChecks).rows);
    }
  }

  /** syncChangeCore runs both phases over the derived stack. */
  lemma SyncOnMembers(s: State, key: Key, carryChecks: bool) returns (ks: seq<Key>)
    requires Wf(s) && IsOpen(s.rows, key) && s.trunk != []
    ensures ks == StackKeys(s, key) && Listed(s.rows, ks) && key in ks && forall k :: k in ks ==> IsOpen(s.rows, k)
    ensures SyncChange(s, key, carryChecks) == SyncMembers(s, ks, carryChecks)
  {
    ks := StackKeys(s, key);
  }
}
