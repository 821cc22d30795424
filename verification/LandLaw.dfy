/** Exactly when a land, an abandon or a workspace operation does what, said of the rows, the
    trees and the request (runkod/actions.go, land.go, workspace.go). */
module LandLaw {
  import opened Changes
  import opened Git
  import opened Store
  import opened Receive
  import opened Sync
  import opened Landing
  import opened WellFormed
  import opened Runs
  import opened RunTheorems
  import opened LandStack
  import opened LandTheorems

  // ----- Workspaces

  /** `ws` closes: its owner's policy applies, and none of its Changes is open any more. */
  ghost predicate Closes(rows: Rows, spaces: map<Name, Workspace>, ws: Name, closes: bool) {
    && closes && ws != NONE && ws in spaces
    && forall k :: k in rows && rows[k].workspace == ws ==> rows[k].status != Open
  }

  /** Nothing but `ws` may change, and it does exactly where it closes. */
  ghost predicate ClosedExactly(rows: Rows, before: map<Name, Workspace>, after: map<Name, Workspace>, ws: Name, closes: bool) {
    && after.Keys == before.Keys
    && (forall w :: w in before ==> after[w].owner == before[w].owner)
    && (forall w :: w in before ==>
          (after[w].closed <==> before[w].closed || (w == ws && Closes(rows, before, ws, closes))))
  }

  lemma MaybeClosesExactly(s: State, ws: Name, closes: bool)
    ensures var t := MaybeClose(s, ws, closes);
            t == s.(spaces := t.spaces) && ClosedExactly(s.rows, s.spaces, t.spaces, ws, closes)
  {
    if HasOpenFrom(s.rows, ws) {
      var k :| k in s.rows && s.rows[k].status == Open && s.rows[k].workspace == ws;
    }
  }

  /** Abandoning marks the row of any Change that has not landed, and may close its
      workspace. */
  lemma AbandonsExactly(s: State, key: Key, closes: bool)
    ensures var t := Abandon(s, key, closes);
            if key in s.rows && s.rows[key].status != Landed then
              && t == s.(rows := t.rows, spaces := t.spaces)
              && t.rows == s.rows[key := s.rows[key].(status := Abandoned)]
              && ClosedExactly(t.rows, s.spaces, t.spaces, s.rows[key].workspace, closes)
            else t == s
  {
    if key in s.rows && s.rows[key].status != Landed {
      MaybeClosesExactly(s.(rows := s.rows[key := s.rows[key].(status := Abandoned)]), s.rows[key].workspace, closes);
    }
  }

  /** A workspace is created once, with an owner, on a born trunk. */
  lemma CreatesExactly(s: State, id: Name, owner: Name)
    ensures var t := CreateWorkspace(s, id, owner);
            if s.trunk != [] && id != NONE && owner != NONE && id !in s.spaces
            then t == s.(spaces := t.spaces) && t.spaces == s.spaces[id := Workspace(owner, false)]
            else t == s
  {
  }

  /** It is deleted by who may, once none of its Changes is open. */
  lemma DeletesExactly(s: State, id: Name, allowed: bool)
    ensures var t := DeleteWorkspace(s, id, allowed);
            if id in s.spaces && allowed && (forall k :: k in s.rows && s.rows[k].workspace == id ==> s.rows[k].status != Open)
            then t == s.(spaces := t.spaces) && t.spaces == s.spaces - {id}
            else t == s
  {
    if HasOpenFrom(s.rows, id) {
      var k :| k in s.rows && s.rows[k].status == Open && s.rows[k].workspace == id;
    }
  }

  // ----- The gate of a land

  predicate Passed(s: State, c: Change, check: Name) {
    && (c.key, c.head) in s.review.runs && check in s.review.runs[(c.key, c.head)]
    && s.review.runs[(c.key, c.head)][check] == Passing
  }

  /** The base is on trunk, or some Change with that head landed there. */
  ghost predicate BaseLanded(s: State, base: Sha) {
    || base == NONE || base in s.trunk
    || exists p :: p in s.rows && s.rows[p].head == base && s.rows[p].status == Landed
         && s.rows[p].landed != NONE && s.rows[p].landed in s.trunk
  }

  /** Every required owner approved this head, is the human author or is waived; every check
      passed, the policy check where it has a run; the base has landed; nothing else blocks. */
  ghost predicate GateHolds(s: State, c: Change, g: Gate) {
    && (forall n :: n in g.owners ==>
          || (c.key in s.review.approvals && n in s.review.approvals[c.key] && s.review.approvals[c.key][n].head == c.head)
          || (n == c.author && n != NONE && g.humanAuthor)
          || n in g.waived)
    && (forall n :: n in g.checks ==> Passed(s, c, n))
    && ((c.key, c.head) in s.review.runs && AGENT_POLICY in s.review.runs[(c.key, c.head)] && !g.fullyAuto ==>
          Passed(s, c, AGENT_POLICY))
    && BaseLanded(s, c.base) && g.unblocked
  }

  lemma MergeableIff(s: State, c: Change, g: Gate)
    ensures Mergeable(s, c, g) <==> GateHolds(s, c, g)
  {
    assert forall n :: Green(s.review.runs, c.key, c.head, n) <==> Passed(s, c, n);
  }

  // ----- When a request lands

  /** The base is off trunk and an open Change's head. */
  ghost predicate OnOpenParent(s: State, base: Sha) {
    && base != NONE && base !in s.trunk
    && exists p :: p in s.rows && s.rows[p].status == Open && s.rows[p].head == base
  }

  /** The Change is open, force is asked for by who may, its parent does not wait, its gate holds
      or is forced, its land does not lose every race, and its delta goes on the tip. */
  ghost predicate Landable(s: State, r: LandRequest)
    requires KnownTips(s)
  {
    && r.key in s.rows && s.rows[r.key].status == Open
    && (r.force ==> r.authorized) && (r.force || GateHolds(s, s.rows[r.key], r.gate))
    && !OnOpenParent(s, s.rows[r.key].base) && r.lost < 5
    && Clean(s, s.rows[r.key], r.revalidate && !r.force)
  }

  /** What the land of `r` leaves: the commit `LandsOn` speaks of, marked forced exactly where
      the gate did not hold, and its workspace closed where it closes. */
  ghost predicate LandsAs(s: State, t: State, r: LandRequest)
    requires KnownTips(s)
  {
    && LandsOn(s, t, r.key)
    && (t.rows[r.key].forced <==> !GateHolds(s, s.rows[r.key], r.gate))
    && ClosedExactly(t.rows, s.spaces, t.spaces, s.rows[r.key].workspace, r.closes)
  }

  /** A request lands its Change so if it is landable, and otherwise changes nothing. */
  lemma LandsExactly(s: State, r: LandRequest)
    requires KnownTips(s)
    ensures var t := LandChange(s, r); if Landable(s, r) then t != s && LandsAs(s, t, r) else t == s
  {
    LandsIff(s, r);
    LandReplaysDelta(s, r);
    if r.key in s.rows {
      var c := s.rows[r.key];
      MergeableIff(s, c, r.gate);
      assert MayLand(s, c, r) <==>
        c.status == Open && (r.force ==> r.authorized) && (r.force || GateHolds(s, c, r.gate)) && !OnOpenParent(s, c.base) && r.lost < 5;
      if Landable(s, r) { LandedSo(s, r); }
    }
  }

  lemma LandedSo(s: State, r: LandRequest)
    requires KnownTips(s) && WouldLand(s, r)
    ensures var t := LandChange(s, r);
            && r.key in t.rows && (t.rows[r.key].forced <==> r.force && !Mergeable(s, s.rows[r.key], r.gate))
            && ClosedExactly(t.rows, s.spaces, t.spaces, s.rows[r.key].workspace, r.closes)
  {
    var c := s.rows[r.key];
    AttemptIff(s, c, r.revalidate && !r.force);
    var o := Attempt(s.repo, s.trunk, c, r.revalidate && !r.force);
    MaybeClosesExactly(LandAs(s, c, o.commit, r.force && !Mergeable(s, c, r.gate)), c.workspace, r.closes);
  }

  // ----- Why an attempt does not land

  /** Both sides change the cell, to different contents. */
  predicate BothChange(base: Tree, tip: Tree, head: Tree, x: Cell) {
    At(head, x) != At(base, x) && At(tip, x) != At(base, x) && At(head, x) != At(tip, x)
  }

  /** A tip that is the base takes anything.  Otherwise there must be a trunk, no revalidation
      due, a base, and no cell that both sides change differently, which are named. */
  lemma AttemptsExactly(s: State, c: Change, revalidate: bool)
    requires KnownTips(s) && c.base < |s.repo| && c.head < |s.repo|
    ensures var o, tip := Attempt(s.repo, s.trunk, c, revalidate), Tip(s.trunk);
            var base, onto, head := s.repo[c.base].tree, s.repo[tip].tree, s.repo[c.head].tree;
            && (o.Error? <==> tip != c.base && (s.trunk == [] || tip == NONE || (!revalidate && c.base == NONE)))
            && (o.Revalidate? <==> tip != c.base && tip != NONE && revalidate)
            && (o.Conflicts? <==> tip != c.base && tip != NONE && !revalidate && c.base != NONE && exists x :: BothChange(base, onto, head, x))
            && (o.Conflicts? ==> forall x :: x in o.cells <==> BothChange(base, onto, head, x))
  {
    var base, onto, head := s.repo[c.base].tree, s.repo[Tip(s.trunk)].tree, s.repo[c.head].tree;
    forall x ensures x in ConflictCells(base, onto, head) <==> BothChange(base, onto, head, x) {}
    assert forall x :: ConflictAt(base, onto, head, x) <==> BothChange(base, onto, head, x);
  }

  // ----- A stack sweep

  /** A member that stays unlanded on its turn could not land, unforced; one that lands there is
      not forced. */
  lemma TurnExactly(t: State, key: Key, r: LandRequest)
    requires Wf(t) && key in t.rows && t.rows[key].status != Landed
    ensures KnownTips(t)
    ensures var u := LandOne(t, key, r);
            if IsLanded(u.rows, key) then Landable(t, Unforced(r, key)) && LandsOn(t, u, key) && !u.rows[key].forced
            else u == t && !Landable(t, Unforced(r, key))
  {
    WfKnown(t);
    LandsExactly(t, Unforced(r, key));
  }

  /** What stopped the sweep could not land in the state it left. */
  ghost predicate StoppedRightly(r: Swept, request: (State, Key) -> LandRequest) {
    r.stopped.Some? ==>
      && KnownTips(r.state) && r.stopped.value in r.state.rows
      && !Landable(r.state, Unforced(request(r.state, r.stopped.value), r.stopped.value))
  }

  ghost predicate Fair(r: Swept, request: (State, Key) -> LandRequest) {
    StoppedRightly(r, request) && forall k :: k in r.landed ==> IsLanded(r.state.rows, k) && !r.state.rows[k].forced
  }

  lemma TookFairly(t: State, u: State, key: Key, rest: Swept, request: (State, Key) -> LandRequest)
    requires Fair(rest, request) && Frozen(u, rest.state)
    requires key in t.rows && t.rows[key].status != Landed ==> IsLanded(u.rows, key) && !u.rows[key].forced
    ensures Fair(Took(t, key, rest), request)
  {
  }

  /** Whatever happens between the members: a sweep stops only at a member whose own land is
      refused there, and none it landed is forced. */
  lemma {:induction false} SweepStopsRightly(s: State, chain: seq<Key>, request: (State, Key) -> LandRequest, env: seq<seq<Event>>)
    requires Wf(s) && |env| == |chain|
    ensures Fair(Sweep(s, chain, request, env), request)
    decreases |chain|, 1
  {
    if chain != [] { FromStopsRightly(After(s, env[0]), chain, request, env[1..]); }
  }

  lemma {:induction false} FromStopsRightly(t: State, chain: seq<Key>, request: (State, Key) -> LandRequest, later: seq<seq<Event>>)
    requires Wf(t) && chain != [] && |later| == |chain| - 1
    ensures Fair(SweepFrom(t, chain, request, later), request)
    decreases |chain|, 0
  {
    var key := chain[0];
    var u := LandOne(t, key, request(t, key));
    if key in t.rows && t.rows[key].status != Landed { TurnExactly(t, key, request(t, key)); }
    if !(key in u.rows && u.rows[key].status != Landed) {
      SweepStopsRightly(u, chain[1..], request, later);
      SweepBottomUp(u, chain[1..], request, later);
      TookFairly(t, u, key, Sweep(u, chain[1..], request, later), request);
    }
  }

  /** The members that have not landed, in order. */
  function Unlanded(rows: Rows, chain: seq<Key>): seq<Key> {
    if chain == [] then []
    else (if IsLanded(rows, chain[0]) then [] else [chain[0]]) + Unlanded(rows, chain[1..])
  }

  lemma {:induction false} UnlandedSame(a: Rows, b: Rows, chain: seq<Key>)
    requires forall k :: k in chain ==> (IsLanded(a, k) <==> IsLanded(b, k))
    ensures Unlanded(a, chain) == Unlanded(b, chain)
  {
    if chain != [] { UnlandedSame(a, b, chain[1..]); }
  }

  /** The sweep that nothing interrupts lands, in order, what had not landed below its stop. */
  ghost predicate LandsCalmly(s: State, chain: seq<Key>, r: Swept) {
    exists n: nat :: n <= |chain| && LandsUpTo(s, chain, r, n)
  }

  /** Left alone, a sweep lands, in order, every member below its stop that had not landed. */
  lemma {:induction false} CalmSweepLands(s: State, chain: seq<Key>, request: (State, Key) -> LandRequest, env: seq<seq<Event>>)
    requires Wf(s) && NoDup(chain) && forall k :: k in chain ==> k in s.rows
    requires |env| == |chain| && forall i :: 0 <= i < |env| ==> env[i] == []
    ensures LandsCalmly(s, chain, Sweep(s, chain, request, env))
    decreases |chain|
  {
    if chain == [] {
      assert LandsUpTo(s, chain, Sweep(s, chain, request, env), 0);
    } else {
      var key, tail := chain[0], chain[1..];
      var u := LandOne(s, key, request(s, key));
      LandOneFrozen(s, key, request(s, key));
      if key in u.rows && u.rows[key].status != Landed {
        assert LandsUpTo(s, chain, Swept(u, [], Some(key)), 0);
      } else {
        CalmSweepLands(u, tail, request, env[1..]);
        TurnLandsCalmly(s, u, chain, Sweep(u, tail, request, env[1..]), request);
      }
      FirstTurn(s, chain, request, env, env[1..], u);
    }
  }

  lemma TurnLandsCalmly(s: State, u: State, chain: seq<Key>, rest: Swept, request: (State, Key) -> LandRequest)
    requires Wf(s) && chain != [] && NoDup(chain) && chain[0] in s.rows && u == LandOne(s, chain[0], request(s, chain[0]))
    requires LandsCalmly(u, chain[1..], rest)
    ensures LandsCalmly(s, chain, Took(s, chain[0], rest))
  {
    var key := chain[0];
    if s.rows[key].status != Landed { TurnExactly(s, key, request(s, key)); }
    var n: nat :| n <= |chain[1..]| && LandsUpTo(u, chain[1..], rest, n);
    OneMoreLands(s, u, chain, rest, n);
  }

  lemma FirstTurn(s: State, chain: seq<Key>, request: (State, Key) -> LandRequest, env: seq<seq<Event>>, later: seq<seq<Event>>, u: State)
    requires Wf(s) && chain != [] && |env| == |chain| && env[0] == [] && later == env[1..]
    requires u == LandOne(s, chain[0], request(s, chain[0]))
    ensures Sweep(s, chain, request, env) ==
              if chain[0] in u.rows && u.rows[chain[0]].status != Landed then Swept(u, [], Some(chain[0]))
              else Took(s, chain[0], Sweep(u, chain[1..], request, later))
  {
    assert After(s, env[0]) == s;
  }

  /** The sweep stops at chain[n], or nowhere, having landed what below had not landed. */
  ghost predicate LandsUpTo(s: State, chain: seq<Key>, r: Swept, n: nat)
    requires n <= |chain|
  {
    r.landed == Unlanded(s.rows, chain[..n]) && r.stopped == if n < |chain| then Some(chain[n]) else None
  }

  lemma OneMoreLands(s: State, u: State, chain: seq<Key>, rest: Swept, n: nat)
    requires chain != [] && NoDup(chain) && n < |chain| && LandsUpTo(u, chain[1..], rest, n)
    requires forall k :: k in chain[1..] ==> (IsLanded(s.rows, k) <==> IsLanded(u.rows, k))
    requires chain[0] in s.rows
    ensures LandsUpTo(s, chain, Took(s, chain[0], rest), n + 1)
  {
    var below := chain[1..][..n];
    assert chain[..n + 1] == [chain[0]] + below && chain[..n + 1][1..] == below;
    assert forall k :: k in below ==> k in chain[1..];
    UnlandedSame(s.rows, u.rows, below);
    assert n + 1 < |chain| ==> chain[n + 1] == chain[1..][n];
  }
}
