/** The trunk tip and the heads of open Changes: once anything has landed they never meet, so
    from then on every clean sync is idempotent; before that they can. */
module Tips {
  import opened Changes
  import opened Forest
  import opened Git
  import opened Store
  import opened Receive
  import opened WellFormed
  import opened Sync
  import opened SyncStack
  import opened SyncTheorems
  import opened Landing
  import opened Runs
  import opened RunTheorems
  import opened LandTheorems

  /** The tip names a landed Change. */
  ghost predicate TipLanded(s: State) {
    s.trunk != [] && Tip(s.trunk) < |s.repo| && IsLanded(s.rows, s.repo[Tip(s.trunk)].trailer)
      && s.repo[Tip(s.trunk)].trailer != NONE
  }

  /** Then no open Change has it as its head: that Change would bear the same name. */
  lemma LandedTipFree(s: State)
    requires Wf(s) && TipLanded(s)
    ensures TipFree(s.rows, Tip(s.trunk))
  {
    forall k | IsOpen(s.rows, k) ensures s.rows[k].head != Tip(s.trunk) {
      assert GoodRow(s.repo, k, s.rows[k]);
    }
  }

  /** Only lands move trunk. */
  lemma TrunkStays(s: State, e: Event)
    requires Wf(s) && !e.LandEvent?
    ensures Step(s, e).trunk == s.trunk
  {
    match e
    case PushEvent(p) => if Accepted(s, p) { var ids := PushSummary(s, p); }
    case SyncEvent(key, carry) => SyncSummary(s, key, carry);
    case AbandonEvent(_, _) =>
    case _ => RowsUntouched(s, e);
  }

  lemma TipStaysLanded(a: State, b: State)
    requires Frozen(a, b) && a.trunk == b.trunk && TipLanded(a)
    ensures TipLanded(b)
  {
  }

  lemma StepTip(s: State, e: Event)
    requires Wf(s)
    ensures Step(s, e).trunk == s.trunk || TipLanded(Step(s, e))
    ensures TipLanded(s) ==> TipLanded(Step(s, e))
  {
    var t := Step(s, e);
    if e.LandEvent? {
      LandTip(s, e.request);
    } else {
      StepFrozen(s, e);
      TrunkStays(s, e);
      if TipLanded(s) { TipStaysLanded(s, t); }
    }
  }

  lemma LandTip(s: State, r: LandRequest)
    requires Wf(s)
    ensures KnownTips(s) && (LandChange(s, r) == s || TipLanded(LandChange(s, r)))
  {
    WfKnown(s);
    LandReplaysDelta(s, r);
    if LandChange(s, r) != s { assert GoodRow(s.repo, r.key, s.rows[r.key]); }
  }

  /** In every run, once something has landed, the tip names a landed Change and is no open
      Change's head. */
  lemma {:induction false} TipFreeOnceLanded(s: State, es: seq<Event>)
    requires Fresh(s) && After(s, es).trunk != s.trunk
    ensures TipLanded(After(s, es)) && TipFree(After(s, es).rows, Tip(After(s, es).trunk))
    decreases |es|
  {
    var t := After(s, es[..|es| - 1]);
    StepTip(t, es[|es| - 1]);
    if t.trunk != s.trunk { TipFreeOnceLanded(s, es[..|es| - 1]); }
    LandedTipFree(After(s, es));
  }

  /** So from the first land on, every clean sync is idempotent. */
  lemma SyncTwiceOnceLanded(s: State, es: seq<Event>, t: State, key: Key, carryChecks: bool, again: bool)
    requires Fresh(s) && t == After(s, es) && t.trunk != s.trunk
    requires IsOpen(t.rows, key) && CleanSync(t, StackKeys(t, key))
    ensures var r := SyncChange(t, key, carryChecks);
            && Wf(r) && IsOpen(r.rows, key)
            && StackKeys(r, key) == StackKeys(t, key)
            && SyncChange(r, key, again) == r
  {
    TipFreeOnceLanded(s, es);
    SyncTwiceLanded(t, key, carryChecks, again);
  }

  lemma SyncTwiceLanded(t: State, key: Key, carryChecks: bool, again: bool)
    requires Wf(t) && TipLanded(t) && IsOpen(t.rows, key) && CleanSync(t, StackKeys(t, key))
    ensures var r := SyncChange(t, key, carryChecks);
            && Wf(r) && IsOpen(r.rows, key)
            && StackKeys(r, key) == StackKeys(t, key)
            && SyncChange(r, key, again) == r
  {
    LandedTipFree(t);
    SyncTwice(t, key, carryChecks, again);
  }

  // ----- Before the first land

  const Z: Key := 10

  /** An imported trunk of two commits; its tip has been pushed and is open under a generated
      Change-Id X, and Z is open on the commit below. */
  function Imported(x: Key): State {
    State(
      [Commit(NONE, NONE, Text(0), map[]), Commit(NONE, NONE, Text(1), map[]), Commit(1, NONE, Text(2), map[]), Commit(1, Z, Text(3), map[0 := 1])],
      [1, 2],
      map[x := Change(x, Open, 2, 2, NONE, false, NONE, NONE, NONE), Z := Change(Z, Open, 1, 3, NONE, false, NONE, NONE, NONE)],
      map[x := 2, Z := 3], Review(map[], map[]), map[], Log({}, {}, {}, {}, map[]))
  }

  /** Syncing Z puts it on X's head: the second sync derives another stack. */
  lemma ImportedTipJoins(x: Key, carryChecks: bool)
    requires x == GenerateChangeID(2) && x != Z
    ensures var s := Imported(x);
            && Wf(s) && CleanSync(s, StackKeys(s, Z)) && StackKeys(s, Z) == [Z]
            && var r := SyncChange(s, Z, carryChecks); Wf(r) && IsOpen(r.rows, Z) && StackKeys(r, Z) != [Z]
  {
    var s := Imported(x);
    ImportedWf(x);
    ImportedStack(x);
    ImportedClean(x);
    SyncTwice(s, Z, carryChecks, carryChecks);
    assert IsOpen(s.rows, x) && x !in [Z] && s.rows[x].head == Tip(s.trunk);
  }

  lemma ImportedWf(x: Key)
    requires x == GenerateChangeID(2) && x != Z
    ensures Wf(Imported(x)) && IsOpen(Imported(x).rows, Z)
  {
  }

  lemma ImportedStack(x: Key)
    requires x != Z && Wf(Imported(x)) && IsOpen(Imported(x).rows, Z)
    ensures StackKeys(Imported(x), Z) == [Z]
  {
    var s := Imported(x);
    forall p ensures !StackedOn(s.rows, p, Z) && !StackedOn(s.rows, Z, p) {}
    LoneStack(s, Z);
  }

  /** A Change on no other and with none on it is its own stack. */
  lemma LoneStack(s: State, k: Key)
    requires Wf(s) && IsOpen(s.rows, k) && forall p :: !StackedOn(s.rows, p, k) && !StackedOn(s.rows, k, p)
    ensures StackKeys(s, k) == [k]
  {
    GoodKeyed(s.repo, s.rows);
    OpenNodes(s.rows, k);
    var f := OpenForest(s.rows);
    forall p ensures p !in Kids(f, k) { ForestParent(s.repo, s.rows, p, k); }
    if k in f.parent { ForestParent(s.repo, s.rows, k, f.parent[k]); }
    assert Kids(f, k) == [];
  }

  lemma ImportedClean(x: Key)
    requires x != Z && Wf(Imported(x)) && IsOpen(Imported(x).rows, Z) && StackKeys(Imported(x), Z) == [Z]
    ensures CleanSync(Imported(x), [Z])
  {
    var s := Imported(x);
    PlanPrefix(s.repo, s.rows, 2, [Z]);
    assert [Z][..0] == [];
    assert PlanFor(s.repo, s.rows, 2, []) == Planned(s.repo, [], map[]);
    assert forall c :: !ConflictAt(s.repo[1].tree, s.repo[2].tree, s.repo[3].tree, c);
  }
}
