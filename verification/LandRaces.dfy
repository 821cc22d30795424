/** A land that overlaps with other requests (runkod/land.go, actions.go, store.go).  It reads
    a row, then its gate; its retries read trunk again each time; its swap puts a commit on
    trunk; and what it marks landed in the end is the row as it is by then. */
module LandRaces {
  import opened Changes
  import opened Git
  import opened Store
  import opened Receive
  import opened WellFormed
  import opened Sync
  import opened Landing
  import opened Runs
  import opened RunTheorems
  import opened LandStack
  import opened LandTheorems

  // ----- The retries

  datatype Raced = Raced(state: State, commit: Option<Commit>)

  /** The retry loop: the events of env[i] happen between the i-th read of trunk and its
      compare-and-swap, which fails when they moved trunk. */
  ghost function Attempts(u: State, c: Change, revalidate: bool, env: seq<seq<Event>>): (r: Raced)
    requires Wf(u) && c.head < |u.repo| && c.base < |u.repo|
    ensures Wf(r.state)
    decreases |env|
  {
    if env == [] then Raced(u, None)
    else
      WfKnown(u);
      var o := Attempt(u.repo, u.trunk, c, revalidate);
      if !o.Lands? then Raced(u, None)
      else
        LandedForever(u, env[0]);
        var v := After(u, env[0]);
        if v.trunk != u.trunk then Attempts(v, c, revalidate, env[1..]) else Raced(v, Some(o.commit))
  }

  ghost predicate OnTip(v: State, c: Change, commit: Commit) {
    && Tip(v.trunk) < |v.repo| && c.base < |v.repo| && c.head < |v.repo|
    && commit.parent == Tip(v.trunk) && SaysTheSame(v.repo[c.head], c.key, commit)
    && forall x :: CarriesDelta(v.repo[c.base].tree, v.repo[Tip(v.trunk)].tree, v.repo[c.head].tree, commit.tree, x)
  }

  /** Whatever happens during the retries, what they land sits on the tip of that moment and
      carries the delta of the version the gate saw; and nothing that had landed moved. */
  lemma {:induction false} RacedLandOnTip(u: State, c: Change, revalidate: bool, env: seq<seq<Event>>)
    requires Wf(u) && c.head < |u.repo| && c.base < |u.repo|
    ensures var r := Attempts(u, c, revalidate, env);
            Frozen(u, r.state) && (r.commit.Some? ==> OnTip(r.state, c, r.commit.value))
    decreases |env|
  {
    if env != [] {
      WfKnown(u);
      var o := Attempt(u.repo, u.trunk, c, revalidate);
      if o.Lands? {
        LandedForever(u, env[0]);
        var v := After(u, env[0]);
        LandTree(u.repo, u.trunk, c, revalidate);
        if v.trunk != u.trunk {
          RacedLandOnTip(v, c, revalidate, env[1..]);
          FrozenTrans(u, v, Attempts(v, c, revalidate, env[1..]).state);
        } else {
          SameTip(u, v, c, o.commit);
        }
      }
    }
  }

  lemma SameTip(u: State, v: State, c: Change, commit: Commit)
    requires OnTip(u, c, commit) && u.repo <= v.repo && u.trunk == v.trunk
    ensures OnTip(v, c, commit)
  {
  }

  // ----- The swap and the mark

  /** The compare-and-swap that holds: trunk has the commit, and no row says so yet. */
  function Swapped(v: State, commit: Commit): State {
    v.(repo := v.repo + [commit], trunk := v.trunk + [|v.repo|])
  }

  lemma SwappedWf(v: State, commit: Commit)
    requires Wf(v) && commit.parent < |v.repo|
    ensures Wf(Swapped(v, commit)) && Frozen(v, Swapped(v, commit))
  {
    GrownRepo(v.repo, [commit], v.rows, v.trunk);
  }

  /** MarkChangeLanded, on the row as it is by then. */
  function MarkRow(u: State, key: Key, sha: Sha, forced: bool): State
    requires key in u.rows
  {
    u.(rows := u.rows[key := u.rows[key].(status := Landed, landed := sha, forced := forced)])
  }

  /** What the mark meets when `es` happen between the swap and it. */
  ghost function Overtaken(v: State, commit: Commit, es: seq<Event>): (u: State)
    requires Wf(v) && commit.parent < |v.repo|
    ensures Wf(u) && v.rows.Keys <= u.rows.Keys
  {
    SwappedWf(v, commit);
    LandedForever(Swapped(v, commit), es);
    After(Swapped(v, commit), es)
  }

  // ----- Later lands

  /** Whatever has come on trunk or landed since `a` is newer than every commit of `a`. */
  ghost predicate Newer(a: State, u: State) {
    && |a.repo| <= |u.repo| && a.trunk <= u.trunk
    && (forall i :: |a.trunk| <= i < |u.trunk| ==> u.trunk[i] >= |a.repo|)
    && (forall p :: IsLanded(u.rows, p) && !IsLanded(a.rows, p) ==> u.rows[p].landed >= |a.repo|)
  }

  lemma LandNewer(s: State, r: LandRequest)
    requires KnownTips(s)
    ensures Newer(s, LandChange(s, r))
  {
    LandReplaysDelta(s, r);
  }

  lemma TrunkStays(s: State, e: Event)
    requires Wf(s) && !e.LandEvent?
    ensures Step(s, e).trunk == s.trunk
  {
    match e
    case PushEvent(p) => if Accepted(s, p) { var ids := PushSummary(s, p); }
    case SyncEvent(key, carry) => SyncSummary(s, key, carry);
    case AbandonEvent(_, _) =>
    case _ => RowsUntouched(s, e);
  }

  lemma StepNewer(s: State, e: Event)
    requires Wf(s)
    ensures Newer(s, Step(s, e))
  {
    if e.LandEvent? {
      WfKnown(s);
      LandNewer(s, e.request);
    } else {
      StepFrozen(s, e);
      TrunkStays(s, e);
      forall p | IsLanded(Step(s, e).rows, p) ensures IsLanded(s.rows, p) { OnlyLandLands(s, e, p); }
    }
  }

  lemma NewerTrans(a: State, b: State, c: State)
    requires Newer(a, b) && Newer(b, c) && Frozen(b, c)
    ensures Newer(a, c)
  {
    forall i | |a.trunk| <= i < |c.trunk| ensures c.trunk[i] >= |a.repo| {
      if i < |b.trunk| { assert c.trunk[i] == b.trunk[i]; }
    }
  }

  lemma {:induction false} AlwaysNewer(s: State, es: seq<Event>)
    requires Wf(s)
    ensures Newer(s, After(s, es))
    decreases |es|
  {
    if es != [] {
      var t := After(s, es[..|es| - 1]);
      AlwaysNewer(s, es[..|es| - 1]);
      StepNewer(t, es[|es| - 1]);
      StepFrozen(t, es[|es| - 1]);
      NewerTrans(s, t, After(s, es));
    }
  }

  // ----- In order

  /** The base is on trunk, or another Change with that head landed there. */
  ghost predicate Reachable(v: State, key: Key, base: Sha) {
    BaseOnTrunk(v.trunk, base)
    || exists p :: p != key && IsLanded(v.rows, p) && v.rows[p].head == base && v.rows[p].landed in v.trunk
  }

  /** On a trunk that went on with newer commits, what lies before `sha` is what did then. */
  lemma BeforeSwap(v: State, u: State, commit: Commit, x: Sha)
    requires GoodTrunk(v.repo, v.trunk) && Newer(Swapped(v, commit), u)
    ensures Before(u.trunk, x, |v.repo|) <==> x in v.trunk
  {
    var n, sha := |v.trunk|, |v.repo|;
    assert u.trunk[n] == sha && forall i :: 0 <= i < n ==> u.trunk[i] == v.trunk[i] < sha;
    if x in v.trunk {
      var i :| 0 <= i < n && v.trunk[i] == x;
      assert u.trunk[i] == x;
    }
    if Before(u.trunk, x, sha) {
      var i, j :| 0 <= i < j < |u.trunk| && u.trunk[i] == x && u.trunk[j] == sha;
      assert j == n && v.trunk[i] == x;
    }
  }

  /** A Change whose landed commit was on trunk at the swap had landed by then. */
  lemma LandedBySwap(v: State, u: State, commit: Commit, p: Key)
    requires Wf(v) && Newer(Swapped(v, commit), u) && Frozen(v, u)
    ensures IsLanded(u.rows, p) && u.rows[p].landed in v.trunk <==> IsLanded(v.rows, p) && v.rows[p].landed in v.trunk
  {
    assert forall x :: x in v.trunk ==> x < |v.repo|;
  }

  lemma MarkInOrder(v: State, u: State, commit: Commit, key: Key)
    requires Wf(v) && Newer(Swapped(v, commit), u) && Frozen(v, u) && key in u.rows
    ensures InOrder(MarkRow(u, key, |v.repo|, false), key) <==> Reachable(v, key, u.rows[key].base)
  {
    var t, base, sha := MarkRow(u, key, |v.repo|, false), u.rows[key].base, |v.repo|;
    BeforeSwap(v, u, commit, base);
    BeforeSwap(v, u, commit, sha);
    assert sha !in v.trunk;
    forall p | p != key
      ensures IsLanded(t.rows, p) && t.rows[p].head == base && Before(t.trunk, t.rows[p].landed, sha)
         <==> IsLanded(v.rows, p) && v.rows[p].head == base && v.rows[p].landed in v.trunk
    {
      LandedBySwap(v, u, commit, p);
      if p in u.rows { BeforeSwap(v, u, commit, u.rows[p].landed); }
    }
  }

  /** Whatever happens between swap and mark: the row that is marked has landed in order if
      and only if the base it has by then was reachable at the swap. */
  lemma MarkedInOrderIff(v: State, commit: Commit, key: Key, es: seq<Event>)
    requires Wf(v) && commit.parent < |v.repo| && key in v.rows
    ensures var u := Overtaken(v, commit, es);
            InOrder(MarkRow(u, key, |v.repo|, false), key) <==> Reachable(v, key, u.rows[key].base)
  {
    OvertakenNewer(v, commit, es);
    MarkInOrder(v, Overtaken(v, commit, es), commit, key);
  }

  lemma OvertakenNewer(v: State, commit: Commit, es: seq<Event>)
    requires Wf(v) && commit.parent < |v.repo|
    ensures Newer(Swapped(v, commit), Overtaken(v, commit, es)) && Frozen(v, Overtaken(v, commit, es))
  {
    var a := Swapped(v, commit);
    SwappedWf(v, commit);
    AlwaysNewer(a, es);
    LandedForever(a, es);
    FrozenTrans(v, a, After(a, es));
  }

  /** The mark keeps what had landed as it is if and only if the Change itself had not landed
      by then. */
  lemma MarkKeepsLandedIff(v: State, commit: Commit, key: Key, forced: bool, es: seq<Event>)
    requires Wf(v) && commit.parent < |v.repo| && key in v.rows
    ensures var u := Overtaken(v, commit, es);
            Frozen(u, MarkRow(u, key, |v.repo|, forced)) <==> !IsLanded(u.rows, key)
  {
    OvertakenNewer(v, commit, es);
    assert GoodRow(v.repo, key, v.rows[key]);
  }

  // ----- From the row that was read to the row that is marked

  /** What happens between a land's steps: after it read the row, after the gate, around each
      attempt, and after the swap. */
  datatype Meantime = Meantime(
    gate: seq<Event>, start: seq<Event>, retries: seq<seq<Event>>, mark: seq<Event>)

  /** The gate's condition on the base, read in `g`. */
  ghost predicate GateBase(g: State, base: Sha) {
    BaseOnTrunk(g.trunk, base) || ParentLanded(g, base)
  }

  lemma GateStays(g: State, v: State, base: Sha)
    requires Frozen(g, v) && GateBase(g, base)
    ensures GateBase(v, base)
  {
    if !BaseOnTrunk(g.trunk, base) {
      var p :| p in g.rows && g.rows[p].head == base && g.rows[p].status == Landed
        && g.rows[p].landed != NONE && g.rows[p].landed in g.trunk;
      assert IsLanded(g.rows, p) && v.rows[p] == g.rows[p];
    }
  }

  /** The row holds the version that was read, and that the commit carries. */
  predicate SameVersion(v: State, c: Change) {
    c.key in v.rows && v.rows[c.key].base == c.base && v.rows[c.key].head == c.head
  }

  /** What is known of a commit that lands `c` at `v`, and of the row marked for it. */
  ghost predicate LandedExactly(v: State, c: Change, commit: Commit, es: seq<Event>)
    requires Wf(v) && c.key in v.rows && commit.parent < |v.repo|
  {
    var u := Overtaken(v, commit, es);
    var t := MarkRow(u, c.key, |v.repo|, false);
    && OnTip(v, c, commit) && GateBase(v, c.base)
    && (InOrder(t, c.key) <==> Reachable(v, c.key, u.rows[c.key].base))
    && (SameVersion(t, c) <==> SameVersion(u, c))
    && (SameVersion(u, c) && c.base != c.head ==> InOrder(t, c.key))
  }

  /** The parent that let `c` through is another Change, if the row still is `c` at the mark
      and `c` is no empty version of its own base. */
  lemma ParentIsOther(v: State, u: State, c: Change)
    requires Frozen(v, u) && GateBase(v, c.base) && SameVersion(u, c) && c.base != c.head
    ensures Reachable(v, c.key, c.base)
  {
    if !BaseOnTrunk(v.trunk, c.base) {
      var p :| p in v.rows && v.rows[p].head == c.base && v.rows[p].status == Landed
        && v.rows[p].landed != NONE && v.rows[p].landed in v.trunk;
      assert IsLanded(v.rows, p) && u.rows[p] == v.rows[p];
    }
  }

  lemma SwapExactly(v: State, c: Change, commit: Commit, es: seq<Event>)
    requires Wf(v) && c.key in v.rows && OnTip(v, c, commit) && GateBase(v, c.base)
    ensures LandedExactly(v, c, commit, es)
  {
    var u := Overtaken(v, commit, es);
    OvertakenNewer(v, commit, es);
    MarkedInOrderIff(v, commit, c.key, es);
    if SameVersion(u, c) && c.base != c.head { ParentIsOther(v, u, c); }
  }

  /** The attempts of a land that read the row `c` in `s`. */
  ghost function RacedLand(s: State, c: Change, revalidate: bool, env: Meantime): (r: Raced)
    requires Wf(s) && c.head < |s.repo| && c.base < |s.repo|
    ensures Wf(r.state)
  {
    var g := After(s, env.gate);
    LandedForever(s, env.gate);
    LandedForever(g, env.start);
    Attempts(After(g, env.start), c, revalidate, env.retries)
  }

  /** Whatever happens from the moment a land read its row: what lands is the version it read,
      on the tip of its swap, and its base is on trunk or landed there by then; the row that
      is marked has landed in order exactly when the base it has at the mark was reachable at
      the swap, and it holds what landed exactly when it still is that version. */
  lemma RacedLandExactly(s: State, c: Change, revalidate: bool, env: Meantime)
    requires Wf(s) && IsOpen(s.rows, c.key) && s.rows[c.key] == c && GateBase(After(s, env.gate), c.base)
    ensures c.head < |s.repo| && c.base < |s.repo|
    ensures var r := RacedLand(s, c, revalidate, env);
            r.commit.Some? ==>
              && c.key in r.state.rows && r.commit.value.parent < |r.state.repo|
              && LandedExactly(r.state, c, r.commit.value, env.mark)
  {
    assert GoodRow(s.repo, c.key, c);
    var g := After(s, env.gate);
    var w, r := After(g, env.start), RacedLand(s, c, revalidate, env);
    LandedForever(s, env.gate);
    LandedForever(g, env.start);
    RacedLandOnTip(w, c, revalidate, env.retries);
    FrozenTrans(g, w, r.state);
    if r.commit.Some? {
      GateStays(g, r.state, c.base);
      SwapExactly(r.state, c, r.commit.value, env.mark);
    }
  }
}
