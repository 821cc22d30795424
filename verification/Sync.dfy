/** Server-side stack sync (runkod/sync.go): every member of a stack is rebased onto the
    trunk tip in memory first, and refs and rows move only when the whole stack is clean. */
module Sync {
  import opened Changes
  import opened Forest
  import opened Git
  import opened Store
  import opened Carry
  import opened WellFormed

  datatype Write = Write(key: Key, base: Sha, head: Sha)

  /** The compute phase: minted commits grow `repo`, `moved` maps old heads to new ones. */
  datatype Plan =
    | Planned(repo: Repo, writes: seq<Write>, moved: map<Sha, Sha>)
    | NoBase(repo: Repo, key: Key)
    | Conflict(repo: Repo, key: Key, cells: set<Cell>)

  /** A message that does not name the Change gets its trailer appended. */
  function WithTrailer(repo: Repo, head: Sha, key: Key): Message
    requires head < |repo|
  {
    if repo[head].trailer == key then repo[head].message else WithId(repo[head].message, key)
  }

  ghost predicate GoodPlan(repo: Repo, tip: Sha, plan: Plan) {
    && repo <= plan.repo && ValidRepo(plan.repo)
    && (plan.Planned? ==> forall h :: h in plan.moved ==> h < |repo| && 0 < plan.moved[h] < |plan.repo|)
  }

  /** One turn of the compute loop. */
  function PlanMember(acc: Plan, m: Change, tip: Sha): Plan
    requires acc.Planned? && ValidRepo(acc.repo)
    requires m.head < |acc.repo| && m.base < |acc.repo| && tip < |acc.repo|
    requires forall h :: h in acc.moved ==> acc.moved[h] < |acc.repo|
  {
    if m.base == NONE then NoBase(acc.repo, m.key)
    else
      var newBase := if m.base in acc.moved then acc.moved[m.base] else tip;
      if m.base == newBase then acc.(moved := acc.moved[m.head := m.head])
      else
        var merged := MergeTree(acc.repo[m.base].tree, acc.repo[newBase].tree, acc.repo[m.head].tree);
        if merged.None? then
          Conflict(acc.repo, m.key,
                   ConflictCells(acc.repo[m.base].tree, acc.repo[newBase].tree, acc.repo[m.head].tree))
        else
          var minted := Commit(newBase, m.key, WithTrailer(acc.repo, m.head, m.key), merged.value);
          Planned(acc.repo + [minted],
                  acc.writes + [Write(m.key, newBase, |acc.repo|)],
                  acc.moved[m.head := |acc.repo|])
  }

  lemma GoodTurn(repo: Repo, tip: Sha, acc: Plan, m: Change)
    requires GoodPlan(repo, tip, acc) && 0 < tip < |repo| && 0 < m.head < |repo| && m.base < |repo|
    ensures acc.Planned? ==> GoodPlan(repo, tip, PlanMember(acc, m, tip))
  {
  }

  ghost function PlanFor(repo: Repo, rows: Rows, tip: Sha, ks: seq<Key>): (plan: Plan)
    requires ValidRepo(repo) && GoodRows(repo, rows) && 0 < tip < |repo|
    requires forall k :: k in ks ==> k in rows
    ensures GoodPlan(repo, tip, plan)
    decreases |ks|
  {
    if ks == [] then Planned(repo, [], map[])
    else
      var n := |ks| - 1;
      SplitLast(ks);
      var acc := PlanFor(repo, rows, tip, ks[..n]);
      assert GoodRow(repo, ks[n], rows[ks[n]]);
      GoodTurn(repo, tip, acc, rows[ks[n]]);
      if acc.Planned? then PlanMember(acc, rows[ks[n]], tip) else acc
  }

  /** One more member of a plan. */
  lemma PlanNext(repo: Repo, rows: Rows, tip: Sha, ks: seq<Key>, i: nat)
    requires ValidRepo(repo) && GoodRows(repo, rows) && 0 < tip < |repo| && i < |ks|
    requires (forall k :: k in ks[..i] ==> k in rows) && ks[i] in rows
    requires PlanFor(repo, rows, tip, ks[..i]).Planned?
    ensures (forall k :: k in ks[..i + 1] ==> k in rows)
    ensures GoodRow(repo, ks[i], rows[ks[i]]) && GoodPlan(repo, tip, PlanFor(repo, rows, tip, ks[..i]))
    ensures PlanFor(repo, rows, tip, ks[..i + 1]) == PlanMember(PlanFor(repo, rows, tip, ks[..i]), rows[ks[i]], tip)
  {
    assert ks[..i + 1] == ks[..i] + [ks[i]] && ks[..i + 1][..i] == ks[..i];
  }

  /** A plan is its prefix's plan and one turn. */
  lemma PlanPrefix(repo: Repo, rows: Rows, tip: Sha, ks: seq<Key>)
    requires ValidRepo(repo) && GoodRows(repo, rows) && 0 < tip < |repo| && ks != []
    requires forall k :: k in ks ==> k in rows
    ensures (forall k :: k in ks[..|ks| - 1] ==> k in rows && k in ks) && ks[|ks| - 1] in ks
    ensures GoodRow(repo, ks[|ks| - 1], rows[ks[|ks| - 1]])
    ensures var acc := PlanFor(repo, rows, tip, ks[..|ks| - 1]);
            && GoodPlan(repo, tip, acc)
            && PlanFor(repo, rows, tip, ks) == if acc.Planned? then PlanMember(acc, rows[ks[|ks| - 1]], tip) else acc
  {
    var n := |ks| - 1;
    SplitLast(ks);
    assert GoodRow(repo, ks[n], rows[ks[n]]);
  }

  // ----- The write phase

  /** Moves one member: ref and row together, then the review results if the detector
      agrees that the move is a trivial rebase. */
  function ApplyWrite(s: State, w: Write, carryChecks: bool): State
    requires w.key in s.rows
  {
    var was := s.rows[w.key];
    s.(rows := s.rows[w.key := Upserted(s.rows, w.key, w.base, w.head, was.author, NONE, NONE)],
       refs := s.refs[w.key := w.head],
       review := if CarriesFrom(s.repo, was, w.base, w.head)
                 then CarryForward(s.review, w.key, was.head, w.head, carryChecks) else s.review,
       log := s.log.(versions := s.log.versions + {(w.key, Version(w.base, w.head))}))
  }

  predicate WritesIn(rows: Rows, ws: seq<Write>) {
    forall w :: w in ws ==> w.key in rows
  }

  function Apply(s: State, ws: seq<Write>, carryChecks: bool): (r: State)
    requires WritesIn(s.rows, ws)
    ensures r.rows.Keys == s.rows.Keys
    ensures r.repo == s.repo && r.trunk == s.trunk && r.spaces == s.spaces
    decreases |ws|
  {
    if ws == [] then s
    else
      var n := |ws| - 1;
      SplitLast(ws);
      ApplyWrite(Apply(s, ws[..n], carryChecks), ws[n], carryChecks)
  }

  function Tip(trunk: seq<Sha>): Sha {
    if trunk == [] then NONE else trunk[|trunk| - 1]
  }

  ghost function StackKeys(s: State, key: Key): (ks: seq<Key>)
    requires Wf(s) && IsOpen(s.rows, key)
    ensures |ks| > 0 && NoDup(ks) && key in ks
    ensures forall k :: k in ks ==> IsOpen(s.rows, k)
  {
    GoodKeyed(s.repo, s.rows);
    OpenNodes(s.rows, key);
    var f := OpenForest(s.rows);
    StackExact(f, key);
    assert forall k :: k in Stack(f, key) ==> IsOpen(s.rows, k) by {
      forall k | k in Stack(f, key) ensures IsOpen(s.rows, k) { OpenNodes(s.rows, k); }
    }
    Stack(f, key)
  }

  /** Both phases over the members `ks` of a stack. */
  ghost function SyncMembers(s: State, ks: seq<Key>, carryChecks: bool): State
    requires Wf(s) && s.trunk != [] && forall k :: k in ks ==> k in s.rows
  {
    var plan := PlanFor(s.repo, s.rows, Tip(s.trunk), ks);
    var t := s.(repo := plan.repo);
    if plan.Planned? then
      PlanWrites(s.repo, s.rows, Tip(s.trunk), ks);
      Apply(t, plan.writes, carryChecks)
    else t
  }

  /** syncChangeCore. */
  ghost function SyncChange(s: State, key: Key, carryChecks: bool): State
    requires Wf(s)
  {
    if !IsOpen(s.rows, key) || s.trunk == [] then s
    else SyncMembers(s, StackKeys(s, key), carryChecks)
  }

  /** Only members are written. */
  lemma {:induction false} PlanWrites(repo: Repo, rows: Rows, tip: Sha, ks: seq<Key>)
    requires ValidRepo(repo) && GoodRows(repo, rows) && 0 < tip < |repo|
    requires forall k :: k in ks ==> k in rows
    ensures var plan := PlanFor(repo, rows, tip, ks);
            plan.Planned? ==> WritesIn(rows, plan.writes) && forall w :: w in plan.writes ==> w.key in ks
    decreases |ks|
  {
    if ks != [] {
      var n := |ks| - 1;
      PlanPrefix(repo, rows, tip, ks);
      PlanWrites(repo, rows, tip, ks[..n]);
      var acc := PlanFor(repo, rows, tip, ks[..n]);
      if acc.Planned? { OneMoreWrite(rows, ks, acc, rows[ks[n]], tip); }
    }
  }

  lemma OneMoreWrite(rows: Rows, ks: seq<Key>, acc: Plan, m: Change, tip: Sha)
    requires acc.Planned? && ValidRepo(acc.repo) && m.head < |acc.repo| && m.base < |acc.repo| && tip < |acc.repo|
    requires forall h :: h in acc.moved ==> acc.moved[h] < |acc.repo|
    requires forall w :: w in acc.writes ==> w.key in rows && w.key in ks
    requires m.key in rows && m.key in ks
    ensures var plan := PlanMember(acc, m, tip);
            plan.Planned? ==> forall w :: w in plan.writes ==> w.key in rows && w.key in ks
  {
  }
}
