/** When the compute phase of a stack sync is clean, said of the trees alone, and where it
    stops otherwise (runkod/sync.go). */
module SyncClean {
  import opened Changes
  import opened Git
  import opened Store
  import opened WellFormed
  import opened Sync
  import opened SyncStack

  // ----- Replaying a stack on trees

  /** What cell `x` holds where member i comes to sit: on the member whose head its base is, or
      on the tip. */
  ghost function Under(repo: Repo, rows: Rows, tip: Sha, ks: seq<Key>, i: nat, x: Cell): Option<Content>
    requires GoodRows(repo, rows) && Listed(rows, ks) && i < |ks| && tip < |repo|
    decreases i, 0
  {
    if j: nat :| j < i && rows[ks[j]].head == rows[ks[i]].base then Replayed(repo, rows, tip, ks, j, x)
    else At(repo[tip].tree, x)
  }

  /** What it holds in member i once replayed there: its own content where it changes the cell,
      what lies under it elsewhere. */
  ghost function Replayed(repo: Repo, rows: Rows, tip: Sha, ks: seq<Key>, i: nat, x: Cell): Option<Content>
    requires GoodRows(repo, rows) && Listed(rows, ks) && i < |ks| && tip < |repo|
    decreases i, 1
  {
    var c := Row(repo, rows, ks, i);
    var base, head := At(repo[c.base].tree, x), At(repo[c.head].tree, x);
    if head != base then head else Under(repo, rows, tip, ks, i, x)
  }

  ghost function Row(repo: Repo, rows: Rows, ks: seq<Key>, i: nat): (c: Change)
    requires GoodRows(repo, rows) && Listed(rows, ks) && i < |ks|
    ensures c == rows[ks[i]] && c.key == ks[i] && 0 < c.head < |repo| && c.base < |repo|
  {
    assert ks[i] in rows && GoodRow(repo, ks[i], rows[ks[i]]);
    rows[ks[i]]
  }

  /** The member and what lies under it change cell `x` to different contents. */
  ghost predicate Clash(repo: Repo, rows: Rows, tip: Sha, ks: seq<Key>, i: nat, x: Cell)
    requires GoodRows(repo, rows) && Listed(rows, ks) && i < |ks| && tip < |repo|
  {
    var c := Row(repo, rows, ks, i);
    var base, head, under := At(repo[c.base].tree, x), At(repo[c.head].tree, x), Under(repo, rows, tip, ks, i, x);
    head != base && under != base && head != under
  }

  ghost predicate CleanAt(repo: Repo, rows: Rows, tip: Sha, ks: seq<Key>, i: nat)
    requires GoodRows(repo, rows) && Listed(rows, ks) && i < |ks| && tip < |repo|
  {
    rows[ks[i]].base != NONE && forall x :: !Clash(repo, rows, tip, ks, i, x)
  }

  ghost predicate StackClean(repo: Repo, rows: Rows, tip: Sha, ks: seq<Key>)
    requires GoodRows(repo, rows) && Listed(rows, ks) && tip < |repo|
  {
    forall i :: 0 <= i < |ks| ==> CleanAt(repo, rows, tip, ks, i)
  }

  /** Member i is the first that is not clean, and the plan says so: it has no base, or these
      are the cells it clashes in. */
  ghost predicate StopsAtMember(repo: Repo, rows: Rows, tip: Sha, ks: seq<Key>, plan: Plan, i: nat)
    requires GoodRows(repo, rows) && Listed(rows, ks) && i < |ks| && tip < |repo|
  {
    && (forall j :: 0 <= j < i ==> CleanAt(repo, rows, tip, ks, j)) && !CleanAt(repo, rows, tip, ks, i)
    && match plan
       case Planned(_, _, _) => false
       case NoBase(_, key) => key == ks[i] && rows[ks[i]].base == NONE
       case Conflict(_, key, cells) =>
         key == ks[i] && rows[ks[i]].base != NONE && forall x :: x in cells <==> Clash(repo, rows, tip, ks, i, x)
  }

  /** The plan is clean exactly when the stack is, and stops at the first member that is not. */
  ghost predicate PlansExactly(repo: Repo, rows: Rows, tip: Sha, ks: seq<Key>, plan: Plan)
    requires GoodRows(repo, rows) && Listed(rows, ks) && tip < |repo|
  {
    if plan.Planned? then StackClean(repo, rows, tip, ks)
    else exists i: nat :: i < |ks| && StopsAtMember(repo, rows, tip, ks, plan, i)
  }

  // ----- A prefix of the stack

  lemma {:induction false} SamePrefix(repo: Repo, rows: Rows, tip: Sha, ks: seq<Key>, i: nat, x: Cell)
    requires GoodRows(repo, rows) && Listed(rows, ks) && i < |ks| - 1 && tip < |repo| && Listed(rows, ks[..|ks| - 1])
    ensures Under(repo, rows, tip, ks[..|ks| - 1], i, x) == Under(repo, rows, tip, ks, i, x)
    ensures Replayed(repo, rows, tip, ks[..|ks| - 1], i, x) == Replayed(repo, rows, tip, ks, i, x)
    decreases i
  {
    var lower := ks[..|ks| - 1];
    assert forall j :: 0 <= j <= i ==> lower[j] == ks[j];
    if j: nat :| j < i && rows[ks[j]].head == rows[ks[i]].base {
      OneParent(repo, rows, ks, i);
      OneParent(repo, rows, lower, i);
      SamePrefix(repo, rows, tip, ks, j, x);
    }
  }

  /** Heads are distinct, so a base is the head of one member at most. */
  lemma OneParent(repo: Repo, rows: Rows, ks: seq<Key>, i: nat)
    requires GoodRows(repo, rows) && Listed(rows, ks) && i < |ks|
    ensures forall j: nat, k: nat ::
              (j < i && k < i && rows[ks[j]].head == rows[ks[i]].base && rows[ks[k]].head == rows[ks[i]].base) ==> j == k
  {
    AllHeadsDistinct(repo, rows);
  }

  // ----- The plan follows the trees

  /** Every member has moved, to a commit with its replayed tree, and nothing else has. */
  ghost predicate TreesMoved(repo: Repo, rows: Rows, tip: Sha, ks: seq<Key>, plan: Plan)
    requires GoodRows(repo, rows) && Listed(rows, ks) && tip < |repo|
  {
    && plan.Planned? && repo <= plan.repo && FromHeads(rows, ks, plan.moved)
    && forall j :: 0 <= j < |ks| ==> MovedTo(repo, rows, tip, ks, plan, j)
  }

  ghost predicate MovedTo(repo: Repo, rows: Rows, tip: Sha, ks: seq<Key>, plan: Plan, j: nat)
    requires GoodRows(repo, rows) && Listed(rows, ks) && j < |ks| && tip < |repo| && plan.Planned?
  {
    && rows[ks[j]].head in plan.moved && plan.moved[rows[ks[j]].head] < |plan.repo|
    && forall x :: At(plan.repo[plan.moved[rows[ks[j]].head]].tree, x) == Replayed(repo, rows, tip, ks, j, x)
  }

  /** What the last member is rebased onto has the tree that lies under it. */
  lemma OntoUnder(repo: Repo, rows: Rows, tip: Sha, ks: seq<Key>, acc: Plan, nb: Sha)
    requires GoodRows(repo, rows) && Listed(rows, ks) && tip < |repo| && ks != [] && Listed(rows, ks[..|ks| - 1])
    requires TreesMoved(repo, rows, tip, ks[..|ks| - 1], acc)
    requires var base := rows[ks[|ks| - 1]].base; nb == (if base in acc.moved then acc.moved[base] else tip)
    ensures nb < |acc.repo| && forall x :: At(acc.repo[nb].tree, x) == Under(repo, rows, tip, ks, |ks| - 1, x)
  {
    var n := |ks| - 1;
    var base, lower := rows[ks[n]].base, ks[..n];
    OneParent(repo, rows, ks, n);
    assert forall j :: 0 <= j < n ==> lower[j] == ks[j] && MovedTo(repo, rows, tip, lower, acc, j);
    if base in acc.moved {
      var j :| 0 <= j < |lower| && rows[lower[j]].head == base;
      forall x ensures At(acc.repo[nb].tree, x) == Under(repo, rows, tip, ks, n, x) {
        SamePrefix(repo, rows, tip, ks, j, x);
      }
    }
  }

  /** The cells of a merge conflict are those where the member clashes. */
  lemma ClashIff(repo: Repo, rows: Rows, tip: Sha, ks: seq<Key>, acc: Plan, nb: Sha)
    requires GoodRows(repo, rows) && Listed(rows, ks) && tip < |repo| && ks != [] && acc.Planned? && repo <= acc.repo
    requires nb < |acc.repo| && forall x :: At(acc.repo[nb].tree, x) == Under(repo, rows, tip, ks, |ks| - 1, x)
    ensures var c := Row(repo, rows, ks, |ks| - 1);
            var base, under, head := acc.repo[c.base].tree, acc.repo[nb].tree, acc.repo[c.head].tree;
            && (forall x :: ConflictAt(base, under, head, x) <==> Clash(repo, rows, tip, ks, |ks| - 1, x))
            && (forall x :: x in ConflictCells(base, under, head) <==> Clash(repo, rows, tip, ks, |ks| - 1, x))
            && (forall x :: MergedAt(base, under, head, x) == Replayed(repo, rows, tip, ks, |ks| - 1, x))
  {
    var c := Row(repo, rows, ks, |ks| - 1);
    assert acc.repo[c.base] == repo[c.base] && acc.repo[c.head] == repo[c.head];
  }

  /** One turn, on a clean prefix. */
  lemma TurnExactly(repo: Repo, rows: Rows, tip: Sha, ks: seq<Key>, acc: Plan)
    requires ValidRepo(repo) && GoodRows(repo, rows) && Listed(rows, ks) && 0 < tip < |repo| && ks != []
    requires Listed(rows, ks[..|ks| - 1]) && GoodPlan(repo, tip, acc) && TreesMoved(repo, rows, tip, ks[..|ks| - 1], acc)
    ensures GoodRow(repo, ks[|ks| - 1], rows[ks[|ks| - 1]])
    ensures var n := |ks| - 1; var c, plan := rows[ks[n]], PlanMember(acc, rows[ks[n]], tip);
            && (plan.Planned? <==> CleanAt(repo, rows, tip, ks, n))
            && (plan.NoBase? ==> plan.key == ks[n] && c.base == NONE)
            && (plan.Conflict? ==> plan.key == ks[n] && c.base != NONE)
            && (plan.Conflict? ==> forall x :: x in plan.cells <==> Clash(repo, rows, tip, ks, n, x))
            && (plan.Planned? ==> plan.moved.Keys == acc.moved.Keys + {c.head} && MovedTo(repo, rows, tip, ks, plan, n))
            && (plan.Planned? ==> acc.repo <= plan.repo && forall h :: h in acc.moved && h != c.head ==> plan.moved[h] == acc.moved[h])
  {
    var n := |ks| - 1;
    var c := Row(repo, rows, ks, n);
    var nb := if c.base in acc.moved then acc.moved[c.base] else tip;
    OntoUnder(repo, rows, tip, ks, acc, nb);
    ClashIff(repo, rows, tip, ks, acc, nb);
    var plan := PlanMember(acc, c, tip);
    if c.base == NONE {
    } else if c.base == nb {
      assert acc.repo[c.base] == repo[c.base] && acc.repo[c.head] == repo[c.head];
      assert forall x :: !Clash(repo, rows, tip, ks, n, x);
    } else {
      var merged := MergeTree(acc.repo[c.base].tree, acc.repo[nb].tree, acc.repo[c.head].tree);
      if merged.Some? {
        forall x ensures !Clash(repo, rows, tip, ks, n, x) {
          assert !ConflictAt(acc.repo[c.base].tree, acc.repo[nb].tree, acc.repo[c.head].tree, x);
        }
        assert plan.repo[|acc.repo|].tree == merged.value;
        assert forall x :: At(merged.value, x) == MergedAt(acc.repo[c.base].tree, acc.repo[nb].tree, acc.repo[c.head].tree, x);
      } else {
        var x :| ConflictAt(acc.repo[c.base].tree, acc.repo[nb].tree, acc.repo[c.head].tree, x);
        assert Clash(repo, rows, tip, ks, n, x);
      }
    }
  }

  lemma TreeStays(repo: Repo, rows: Rows, tip: Sha, ks: seq<Key>, acc: Plan, plan: Plan, j: nat)
    requires GoodRows(repo, rows) && Listed(rows, ks) && tip < |repo| && j < |ks| - 1 && Listed(rows, ks[..|ks| - 1])
    requires acc.Planned? && plan.Planned? && acc.repo <= plan.repo && MovedTo(repo, rows, tip, ks[..|ks| - 1], acc, j)
    requires forall h :: h in acc.moved && h != rows[ks[|ks| - 1]].head ==> h in plan.moved && plan.moved[h] == acc.moved[h]
    ensures MovedTo(repo, rows, tip, ks, plan, j)
  {
    assert ks[..|ks| - 1][j] == ks[j];
    assert ks[j] != ks[|ks| - 1];
    AllHeadsDistinct(repo, rows);
    forall x ensures Replayed(repo, rows, tip, ks[..|ks| - 1], j, x) == Replayed(repo, rows, tip, ks, j, x) {
      SamePrefix(repo, rows, tip, ks, j, x);
    }
  }

  /** A clean turn keeps the trees of the members before it. */
  lemma TreesStay(repo: Repo, rows: Rows, tip: Sha, ks: seq<Key>, acc: Plan, plan: Plan)
    requires GoodRows(repo, rows) && Listed(rows, ks) && tip < |repo| && ks != [] && Listed(rows, ks[..|ks| - 1])
    requires TreesMoved(repo, rows, tip, ks[..|ks| - 1], acc) && plan.Planned? && acc.repo <= plan.repo
    requires var c := rows[ks[|ks| - 1]];
             && plan.moved.Keys == acc.moved.Keys + {c.head} && MovedTo(repo, rows, tip, ks, plan, |ks| - 1)
             && forall h :: h in acc.moved && h != c.head ==> plan.moved[h] == acc.moved[h]
    ensures TreesMoved(repo, rows, tip, ks, plan)
  {
    var n := |ks| - 1;
    var lower := ks[..n];
    forall j | 0 <= j < |ks| ensures MovedTo(repo, rows, tip, ks, plan, j) {
      if j < n { TreeStays(repo, rows, tip, ks, acc, plan, j); }
    }
    forall h | h in plan.moved ensures exists j :: 0 <= j < |ks| && rows[ks[j]].head == h {
      if h in acc.moved {
        var j :| 0 <= j < |lower| && rows[lower[j]].head == h;
        assert rows[ks[j]].head == h;
      } else {
        assert rows[ks[n]].head == h;
      }
    }
  }

  lemma CleanPrefix(repo: Repo, rows: Rows, tip: Sha, ks: seq<Key>, lower: seq<Key>, i: nat)
    requires GoodRows(repo, rows) && Listed(rows, ks) && i < |ks| - 1 && tip < |repo|
    requires lower == ks[..|ks| - 1] && Listed(rows, lower)
    ensures lower[i] == ks[i]
    ensures forall x :: Clash(repo, rows, tip, lower, i, x) <==> Clash(repo, rows, tip, ks, i, x)
    ensures CleanAt(repo, rows, tip, lower, i) <==> CleanAt(repo, rows, tip, ks, i)
  {
    assert lower[i] == ks[i];
    forall x ensures Clash(repo, rows, tip, lower, i, x) <==> Clash(repo, rows, tip, ks, i, x) {
      SamePrefix(repo, rows, tip, ks, i, x);
    }
    if rows[ks[i]].base != NONE && !CleanAt(repo, rows, tip, lower, i) {
      var x :| Clash(repo, rows, tip, lower, i, x);
      assert Clash(repo, rows, tip, ks, i, x);
    }
    if rows[ks[i]].base != NONE && !CleanAt(repo, rows, tip, ks, i) {
      var x :| Clash(repo, rows, tip, ks, i, x);
      assert Clash(repo, rows, tip, lower, i, x);
    }
  }

  lemma StopStays(repo: Repo, rows: Rows, tip: Sha, ks: seq<Key>, plan: Plan, i: nat)
    requires GoodRows(repo, rows) && Listed(rows, ks) && i < |ks| - 1 && tip < |repo| && Listed(rows, ks[..|ks| - 1])
    requires StopsAtMember(repo, rows, tip, ks[..|ks| - 1], plan, i)
    ensures StopsAtMember(repo, rows, tip, ks, plan, i)
  {
    forall j | 0 <= j <= i ensures CleanAt(repo, rows, tip, ks[..|ks| - 1], j) <==> CleanAt(repo, rows, tip, ks, j) {
      CleanPrefix(repo, rows, tip, ks, ks[..|ks| - 1], j);
    }
    CleanPrefix(repo, rows, tip, ks, ks[..|ks| - 1], i);
  }

  /** A stack is clean exactly when every member has a base and clashes nowhere with what lies
      under it; otherwise the plan stops at the first member that is not, with the cells in
      which it clashes. */
  lemma {:induction false} PlanIsExact(repo: Repo, rows: Rows, tip: Sha, ks: seq<Key>)
    requires ValidRepo(repo) && GoodRows(repo, rows) && Listed(rows, ks) && 0 < tip < |repo|
    ensures var plan := PlanFor(repo, rows, tip, ks);
            PlansExactly(repo, rows, tip, ks, plan) && (plan.Planned? ==> TreesMoved(repo, rows, tip, ks, plan))
    decreases |ks|
  {
    if ks != [] {
      var n := |ks| - 1;
      ListedPrefix(rows, ks);
      PlanPrefix(repo, rows, tip, ks);
      PlanIsExact(repo, rows, tip, ks[..n]);
      OneMoreExact(repo, rows, tip, ks, PlanFor(repo, rows, tip, ks[..n]), PlanFor(repo, rows, tip, ks));
    }
  }

  lemma OneMoreExact(repo: Repo, rows: Rows, tip: Sha, ks: seq<Key>, acc: Plan, plan: Plan)
    requires ValidRepo(repo) && GoodRows(repo, rows) && Listed(rows, ks) && 0 < tip < |repo| && ks != []
    requires Listed(rows, ks[..|ks| - 1]) && GoodPlan(repo, tip, acc) && PlansExactly(repo, rows, tip, ks[..|ks| - 1], acc)
    requires acc.Planned? ==> TreesMoved(repo, rows, tip, ks[..|ks| - 1], acc)
    requires GoodRow(repo, ks[|ks| - 1], rows[ks[|ks| - 1]])
    requires plan == if acc.Planned? then PlanMember(acc, rows[ks[|ks| - 1]], tip) else acc
    ensures PlansExactly(repo, rows, tip, ks, plan) && (plan.Planned? ==> TreesMoved(repo, rows, tip, ks, plan))
  {
    var n := |ks| - 1;
    if acc.Planned? {
      TurnExactly(repo, rows, tip, ks, acc);
      forall j | 0 <= j < n ensures CleanAt(repo, rows, tip, ks, j) { CleanPrefix(repo, rows, tip, ks, ks[..|ks| - 1], j); }
      if plan.Planned? {
        TreesStay(repo, rows, tip, ks, acc, plan);
      } else {
        assert StopsAtMember(repo, rows, tip, ks, plan, n);
      }
    } else {
      var i: nat :| i < n && StopsAtMember(repo, rows, tip, ks[..n], acc, i);
      StopStays(repo, rows, tip, ks, acc, i);
    }
  }

  // ----- What a sync answers

  datatype SyncOutcome = NotOpen | AlreadyInSync | NoRecordedBase(key: Key) | Conflicted(key: Key, cells: set<Cell>) | Synced

  /** One minted commit for each write. */
  lemma {:induction false} MintsPerWrite(repo: Repo, rows: Rows, tip: Sha, ks: seq<Key>)
    requires ValidRepo(repo) && GoodRows(repo, rows) && 0 < tip < |repo| && forall k :: k in ks ==> k in rows
    ensures var plan := PlanFor(repo, rows, tip, ks); plan.Planned? ==> |plan.repo| == |repo| + |plan.writes|
    decreases |ks|
  {
    if ks != [] {
      PlanPrefix(repo, rows, tip, ks);
      MintsPerWrite(repo, rows, tip, ks[..|ks| - 1]);
    }
  }

  /** The answer for the stack `ks`, when the sync has left `t`: in sync already and nothing
      moved, synced and something did, or the first member in the way, for its reason. */
  ghost predicate Answers(s: State, ks: seq<Key>, outcome: SyncOutcome, t: State)
    requires Wf(s) && s.trunk != [] && Listed(s.rows, ks)
  {
    var tip := Tip(s.trunk);
    match outcome
    case NotOpen => false
    case AlreadyInSync => StackClean(s.repo, s.rows, tip, ks) && t == s
    case Synced => StackClean(s.repo, s.rows, tip, ks) && t.rows != s.rows
    case NoRecordedBase(key) =>
      && t == s.(repo := t.repo)
      && exists i: nat :: i < |ks| && StopsAtMember(s.repo, s.rows, tip, ks, NoBase(s.repo, key), i)
    case Conflicted(key, cells) =>
      && t == s.(repo := t.repo)
      && exists i: nat :: i < |ks| && StopsAtMember(s.repo, s.rows, tip, ks, Conflict(s.repo, key, cells), i)
  }

  /** How a plan is answered. */
  function AnswerOf(plan: Plan): SyncOutcome {
    match plan
    case Planned(_, writes, _) => if writes == [] then AlreadyInSync else Synced
    case NoBase(_, key) => NoRecordedBase(key)
    case Conflict(_, key, cells) => Conflicted(key, cells)
  }

  lemma MovesSomething(s: State, ks: seq<Key>, carryChecks: bool)
    requires CleanSync(s, ks) && PlanFor(s.repo, s.rows, Tip(s.trunk), ks).writes != []
    ensures SyncMembers(s, ks, carryChecks).rows != s.rows
  {
    var plan, t := PlanFor(s.repo, s.rows, Tip(s.trunk), ks), SyncMembers(s, ks, carryChecks);
    SyncedRows(s, ks, carryChecks);
    var w := plan.writes[0];
    assert w in plan.writes && w.base != s.rows[w.key].base && t.rows[w.key].base == w.base;
  }

  lemma MovesNothing(s: State, ks: seq<Key>, carryChecks: bool)
    requires CleanSync(s, ks) && PlanFor(s.repo, s.rows, Tip(s.trunk), ks).writes == []
    ensures SyncMembers(s, ks, carryChecks) == s
  {
    MintsPerWrite(s.repo, s.rows, Tip(s.trunk), ks);
    var plan := PlanFor(s.repo, s.rows, Tip(s.trunk), ks);
    assert plan.repo == s.repo;
  }

  /** Every sync of open members answers so. */
  lemma SyncAnswers(s: State, ks: seq<Key>, carryChecks: bool)
    requires Wf(s) && s.trunk != [] && Listed(s.rows, ks) && forall k :: k in ks ==> IsOpen(s.rows, k)
    ensures Answers(s, ks, AnswerOf(PlanFor(s.repo, s.rows, Tip(s.trunk), ks)), SyncMembers(s, ks, carryChecks))
  {
    var tip := Tip(s.trunk);
    var plan := PlanFor(s.repo, s.rows, tip, ks);
    PlanIsExact(s.repo, s.rows, tip, ks);
    if plan.Planned? {
      if plan.writes == [] { MovesNothing(s, ks, carryChecks); } else { MovesSomething(s, ks, carryChecks); }
    } else {
      var i: nat :| i < |ks| && StopsAtMember(s.repo, s.rows, tip, ks, plan, i);
      StopByName(s.repo, s.rows, tip, ks, plan, i);
    }
  }

  /** Where a plan stops does not depend on what it minted before. */
  lemma StopByName(repo: Repo, rows: Rows, tip: Sha, ks: seq<Key>, plan: Plan, i: nat)
    requires GoodRows(repo, rows) && Listed(rows, ks) && i < |ks| && tip < |repo|
    requires StopsAtMember(repo, rows, tip, ks, plan, i)
    ensures plan.NoBase? ==> StopsAtMember(repo, rows, tip, ks, NoBase(repo, plan.key), i)
    ensures plan.Conflict? ==> StopsAtMember(repo, rows, tip, ks, Conflict(repo, plan.key, plan.cells), i)
  {
  }
}
