/** Three runs in which a land is overtaken between its gate and its mark: a push stacks the
    Change on one that has not landed, or on one that lands after it, and a rival lands the
    Change first. */
module LandRaceRuns {
  import opened Changes
  import opened Git
  import opened Store
  import opened Receive
  import opened Pushes
  import opened WellFormed
  import opened Sync
  import opened Landing
  import opened Runs
  import opened RunTheorems
  import opened LandTheorems
  import opened LandRaces

  const P: Key := 9
  const Z: Key := 10
  const ALICE: Name := 2
  const WORK: Name := 1

  const OPEN_GATE := Gate({}, {}, false, {}, true, true)

  function Row(key: Key, head: Sha): Change {
    Change(key, Open, 1, head, NONE, false, ALICE, WORK, HEAD_BRANCH)
  }

  lemma AfterOne(s: State, e: Event)
    requires Wf(s)
    ensures After(s, [e]) == Effect(s, e)
  {
    AfterNext(s, [], e);
    assert [] + [e] == [e];
  }

  /** An attempt that nobody beats. */
  lemma Unbeaten(u: State, c: Change, env: seq<seq<Event>>)
    requires Wf(u) && c.head < |u.repo| && c.base < |u.repo| && env != []
    requires Tip(u.trunk) < |u.repo| && Attempt(u.repo, u.trunk, c, false).Lands?
    ensures After(u, env[0]).trunk == u.trunk ==>
              Attempts(u, c, false, env) == Raced(After(u, env[0]), Some(Attempt(u.repo, u.trunk, c, false).commit))
    ensures Frozen(u, After(u, env[0]))
    ensures After(u, env[0]).trunk != u.trunk ==>
              Attempts(u, c, false, env) == Attempts(After(u, env[0]), c, false, env[1..])
  {
    LandedForever(u, env[0]);
  }

  // ----- Stacked meanwhile

  /** P and Z are both open on the tip. */
  function SideBySide(): State {
    State(
      [Commit(NONE, NONE, Text(0), map[]), Commit(NONE, NONE, Text(1), map[]), Commit(1, P, Text(2), map[1 := 7]), Commit(1, Z, Text(3), map[0 := 1])],
      [1],
      map[P := Row(P, 2), Z := Row(Z, 3)], map[P := 2, Z := 3], Review(map[], map[]),
      map[WORK := Workspace(ALICE, false)], Log({}, {}, {}, {}, map[]))
  }

  /** A new version of Z, on top of P. */
  function Restack(): Push {
    Push([Commit(2, Z, Text(5), map[0 := 2, 1 := 7])], 4, ALICE, WORK, NONE, true, {}, true, {})
  }

  const PAIR := [Member(2, P), Member(4, Z)]

  lemma RestackSeries(q: State)
    requires q == Quarantined(SideBySide(), Restack())
    ensures ValidRepo(q.repo) && |q.repo| == 5 && Series(q.repo, q.trunk, q.rows, 4) == PAIR
    ensures RevList(q.repo, q.trunk, 2, STACK_WALK_LIMIT) == [2]
  {
    assert RevList(q.repo, q.trunk, 1, 98) == [] && RevList(q.repo, q.trunk, 1, 99) == [];
    assert RevList(q.repo, q.trunk, 2, 99) == [2];
    assert RevList(q.repo, q.trunk, 4, STACK_WALK_LIMIT) == [4, 2];
    assert [4, 2][1..] == [2] && [2][1..] == [];
    assert TopDown(q.repo, q.rows, 4, [2], {} + {Z}) == [Member(2, P)];
    assert TopDown(q.repo, q.rows, 4, [4, 2], {}) == [Member(4, Z), Member(2, P)];
  }

  lemma Restacked(s: State)
    requires s == SideBySide()
    ensures var r := ReceivePush(s, Restack());
            && Z in r.rows && r.rows[Z].base == 2 && r.rows[Z].head == 4 && r.rows.Keys == {P, Z}
            && P in r.rows && r.rows[P].status == Open && r.trunk == [1]
  {
    var p := Restack();
    var q := Quarantined(s, p);
    RestackSeries(q);
    assert PAIR[0] in PAIR && PAIR[1] in PAIR && PAIR[0].id == P && PAIR[1].id == Z;
    assert Accepted(s, p);
    var t := q.(log := q.log.(tips := q.log.tips[(WORK, HEAD_BRANCH) := 4]));
    RestackRows(t, p);
  }

  lemma RestackRows(t: State, p: Push)
    requires p == Restack() && t.(log := SideBySide().log) == Quarantined(SideBySide(), p)
    requires RevList(t.repo, t.trunk, 2, STACK_WALK_LIMIT) == [2]
    ensures InRepoMembers(t.repo, PAIR) && ValidRepo(t.repo)
    ensures var r := Record(t, p, PAIR);
            && Z in r.rows && r.rows[Z].base == 2 && r.rows[Z].head == 4 && r.rows.Keys == {P, Z}
            && P in r.rows && r.rows[P].status == Open && r.trunk == [1]
  {
    assert DistinctIds(PAIR) && PAIR[0] in PAIR && PAIR[1] in PAIR;
    RecordDomain(t, p, PAIR);
    assert Ids(PAIR) == {P, Z};
    RestackBase(t);
    RecordRow(t, p, PAIR, 0);
    RecordRow(t, p, PAIR, 1);
  }

  lemma RestackBase(t: State)
    requires t.(log := SideBySide().log) == Quarantined(SideBySide(), Restack())
    requires ValidRepo(t.repo) && RevList(t.repo, t.trunk, 2, STACK_WALK_LIMIT) == [2]
    ensures InRepoMembers(t.repo, PAIR) && BaseOf(t, PAIR, 1) == 2
  {
    assert t.repo[4].parent == 2 && t.repo[2].trailer == P && P in t.rows;
  }

  const RETRIES: seq<seq<Event>> := [[PushEvent(Restack())], [], [], [], []]

  /** Z is marked landed, unforced, at a version that never landed, stacked on a Change that
      has not landed: out of order. */
  lemma LandsOutOfOrder()
    ensures var s := SideBySide(); var c := s.rows[Z];
            && Wf(s) && IsOpen(s.rows, Z) && BaseOnTrunk(s.trunk, c.base)
            && var r := Attempts(s, c, false, RETRIES);
               && r.commit.Some? && Z in r.state.rows && !SameVersion(r.state, c)
               && r.commit.value.parent < |r.state.repo|
               && var t := MarkRow(Overtaken(r.state, r.commit.value, []), Z, |r.state.repo|, false);
                  IsLanded(t.rows, Z) && t.rows[Z].head == 4 && t.rows[Z].base == 2 && !InOrder(t, Z)
  {
    var s := SideBySide();
    var c := s.rows[Z];
    RestackWins(s, c);
    var r := Attempts(s, c, false, RETRIES);
    MarksOutOfOrder(r.state, r.commit.value);
  }

  /** Z, stacked on P, is marked before P lands. */
  lemma MarksOutOfOrder(v: State, commit: Commit)
    requires Wf(v) && commit.parent < |v.repo| && v.trunk == [1] && v.rows.Keys == {P, Z} && !IsLanded(v.rows, P)
    requires v.rows[Z].base == 2 && v.rows[Z].head == 4
    ensures var t := MarkRow(Overtaken(v, commit, []), Z, |v.repo|, false);
            IsLanded(t.rows, Z) && t.rows[Z].head == 4 && t.rows[Z].base == 2 && !InOrder(t, Z)
  {
    SwappedWf(v, commit);
    MarkedInOrderIff(v, commit, Z, []);
  }

  /** The attempt holds while the push is taken. */
  lemma RestackWins(s: State, c: Change)
    requires s == SideBySide() && Wf(s) && c == s.rows[Z]
    ensures c.head < |s.repo| && c.base < |s.repo|
    ensures var r := Attempts(s, c, false, RETRIES);
            && r.commit.Some? && r.commit.value.parent == 1 && |r.state.repo| > 1 && r.state.trunk == [1]
            && Z in r.state.rows && r.state.rows[Z].base == 2 && r.state.rows[Z].head == 4
            && !IsLanded(r.state.rows, P) && r.state.rows.Keys == {P, Z}
  {
    AfterOne(s, PushEvent(Restack()));
    Restacked(s);
    Unbeaten(s, c, RETRIES);
  }

  // ----- Stacked after the swap

  function LandOf(key: Key): LandRequest {
    LandRequest(key, OPEN_GATE, false, false, 0, false, false)
  }

  /** Z's land has swapped trunk and not marked its row yet. */
  function HalfLanded(commit: Commit): State {
    Swapped(SideBySide(), commit)
  }

  lemma SwapsFirst() returns (commit: Commit)
    ensures var s := SideBySide();
            && Wf(s) && Attempts(s, s.rows[Z], false, [[]]) == Raced(s, Some(commit))
            && commit.parent == 1 && commit.trailer == Z && commit.tree == map[0 := 1]
  {
    var s := SideBySide();
    var c := s.rows[Z];
    Unbeaten(s, c, [[]]);
    commit := Attempt(s.repo, s.trunk, c, false).commit;
  }

  /** P lands on top of Z's commit. */
  lemma ParentLandsSecond(commit: Commit)
    requires commit.parent == 1 && commit.trailer == Z && commit.tree == map[0 := 1]
    ensures var a := HalfLanded(commit);
            Wf(a) && KnownTips(a) && var b := LandChange(a, LandOf(P)); Wf(b) && LandsOn(a, b, P) && b.spaces == a.spaces
  {
    var a := HalfLanded(commit);
    SwappedWf(SideBySide(), commit);
    WfKnown(a);
    assert MayLand(a, a.rows[P], LandOf(P));
    assert Tip(a.trunk) == 4 && a.repo[4] == commit;
    assert Clean(a, a.rows[P], false);
    LandsIff(a, LandOf(P));
    LandReplaysDelta(a, LandOf(P));
    LandWf(a, LandOf(P));
  }

  /** A new version of Z, on top of P's head. */
  function Late(): Push {
    Push([Commit(2, Z, Text(5), map[0 := 2, 1 := 7])], 6, ALICE, WORK, NONE, true, {}, true, {})
  }

  /** P has landed, as commit 5, and Z has not been marked. */
  ghost predicate ParentLanded5(b: State) {
    && Wf(b) && |b.repo| == 6 && b.trunk == [1, 4, 5]
    && b.repo[1].parent == NONE && b.repo[2].parent == 1 && b.repo[2].trailer == P
    && b.rows.Keys == {P, Z} && b.rows[Z] == Row(Z, 3) && IsLanded(b.rows, P) && b.rows[P].head == 2 && b.rows[P].landed == 5
    && WORK in b.spaces && b.spaces[WORK] == Workspace(ALICE, false)
  }

  lemma LateSeries(b: State, q: State)
    requires ParentLanded5(b) && q == Quarantined(b, Late())
    ensures ValidRepo(q.repo) && |q.repo| == 7 && q.repo[6].parent == 2 && q.repo[2].trailer == P
    ensures Series(q.repo, q.trunk, q.rows, 6) == [Member(6, Z)]
    ensures RevList(q.repo, q.trunk, 2, STACK_WALK_LIMIT) == [2]
  {
    assert q.repo == b.repo + [Late().objects[0]];
    assert RevList(q.repo, q.trunk, 1, 98) == [] && RevList(q.repo, q.trunk, 1, 99) == [];
    assert RevList(q.repo, q.trunk, 2, 99) == [2];
    assert RevList(q.repo, q.trunk, 6, STACK_WALK_LIMIT) == [6, 2];
    assert [6, 2][1..] == [2] && [2][1..] == [];
    assert TopDown(q.repo, q.rows, 6, [2], {} + {Z}) == [];
    assert TopDown(q.repo, q.rows, 6, [6, 2], {}) == [Member(6, Z)];
  }

  lemma LateTaken(b: State)
    requires ParentLanded5(b)
    ensures var u := ReceivePush(b, Late());
            Accepted(b, Late()) && Z in u.rows && u.rows[Z].base == 2 && u.rows[Z].head == 6 && IsOpen(u.rows, Z)
  {
    var p := Late();
    var q := Quarantined(b, p);
    LateSeries(b, q);
    var m := Member(6, Z);
    assert m in [m];
    assert Accepted(b, p);
    var t := q.(log := q.log.(tips := q.log.tips[(WORK, HEAD_BRANCH) := 6]));
    assert [m][..0] == [];
    assert Record(t, p, [m]) == RecordMember(t, p, m);
  }

  const MEANWHILE: seq<Event> := [LandEvent(LandOf(P)), PushEvent(Late())]

  /** P lands and the push is taken, one after the other. */
  lemma AfterTwo(a: State, b: State)
    requires Wf(a) && KnownTips(a) && b == LandChange(a, LandOf(P)) && Wf(b)
    ensures After(a, MEANWHILE) == ReceivePush(b, Late())
  {
    var e := LandEvent(LandOf(P));
    AfterOne(a, e);
    AfterNext(a, [e], PushEvent(Late()));
    assert MEANWHILE == [e] + [PushEvent(Late())];
  }

  /** At the mark Z's base is the head of a landed Change, and Z is not what was read. */
  ghost predicate StackedLate(u: State) {
    Z in u.rows && u.rows[Z].base == 2 && u.rows[Z].head == 6 && Reachable(u, Z, 2)
  }

  lemma OnParent(b: State, u: State)
    requires ParentLanded5(b) && u == ReceivePush(b, Late())
    ensures StackedLate(u)
  {
    LateTaken(b);
    PushFrozen(b, Late());
    assert IsLanded(b.rows, P);
    assert u.trunk[2] == 5;
  }

  lemma LandsFifth(commit: Commit, a: State, b: State)
    requires a == HalfLanded(commit) && KnownTips(a) && Wf(b) && LandsOn(a, b, P) && b.spaces == a.spaces
    ensures ParentLanded5(b)
  {
    var s := SideBySide();
    assert |a.repo| == 5 && a.repo[1] == s.repo[1] && a.repo[2] == s.repo[2];
    assert b.repo[1] == a.repo[1] && b.repo[2] == a.repo[2];
  }

  lemma LateMark(s: State, commit: Commit)
    requires s == SideBySide() && Wf(s) && commit.parent == 1 && commit.trailer == Z && commit.tree == map[0 := 1]
    ensures StackedLate(Overtaken(s, commit, MEANWHILE))
  {
    ParentLandsSecond(commit);
    var a := HalfLanded(commit);
    var b := LandChange(a, LandOf(P));
    AfterTwo(a, b);
    LandsFifth(commit, a, b);
    OnParent(b, ReceivePush(b, Late()));
  }

  /** Between Z's swap and its mark P lands and a push stacks Z on it: at the mark Z's new
      base is the head of a landed Change, which landed after Z. */
  lemma StacksTooLate()
    ensures var s := SideBySide(); var c := s.rows[Z];
            && Wf(s) && IsOpen(s.rows, Z) && BaseOnTrunk(s.trunk, c.base)
            && var r := Attempts(s, c, false, [[]]);
               && r.state == s && r.commit.Some? && r.commit.value.parent < |s.repo|
               && var u := Overtaken(s, r.commit.value, MEANWHILE);
                  StackedLate(u) && !InOrder(MarkRow(u, Z, |s.repo|, false), Z)
  {
    var s := SideBySide();
    var commit := SwapsFirst();
    LateMark(s, commit);
    MarkedInOrderIff(s, commit, Z, MEANWHILE);
    assert !Reachable(s, Z, 2);
  }

  // ----- Landed twice

  function Behind(): State {
    State(
      [Commit(NONE, NONE, Text(0), map[]), Commit(NONE, NONE, Text(1), map[]), Commit(1, NONE, Text(2), map[]), Commit(1, Z, Text(3), map[0 := 1])],
      [1, 2],
      map[Z := Row(Z, 3)], map[Z := 3], Review(map[], map[]), map[WORK := Workspace(ALICE, false)], Log({}, {}, {}, {}, map[]))
  }

  const RIVAL: seq<seq<Event>> := [[LandEvent(LandOf(Z))], [], [], [], []]

  lemma RivalLands(s: State, v: State)
    requires s == Behind() && KnownTips(s) && v == LandChange(s, LandOf(Z))
    ensures LandsOn(s, v, Z) && v.trunk != s.trunk && Attempt(s.repo, s.trunk, s.rows[Z], false).Lands?
  {
    assert MayLand(s, s.rows[Z], LandOf(Z));
    assert Clean(s, s.rows[Z], false);
    LandsIff(s, LandOf(Z));
    LandReplaysDelta(s, LandOf(Z));
    AttemptIff(s, s.rows[Z], false);
  }

  /** The same delta lands cleanly on the tip that carries it already. */
  lemma LandsAgain(s: State, v: State, c: Change)
    requires s == Behind() && KnownTips(s) && LandsOn(s, v, Z) && c == s.rows[Z] && KnownTips(v)
    ensures Attempt(v.repo, v.trunk, c, false).Lands?
  {
    assert Tip(s.trunk) == 2 && |s.repo| == 4 && Tip(v.trunk) == 4;
    assert v.repo[1] == s.repo[1] && v.repo[3] == s.repo[3];
    var base, tip, head, landed := s.repo[1].tree, s.repo[2].tree, s.repo[3].tree, v.repo[4].tree;
    forall x | At(head, x) != At(base, x) ensures At(head, x) == At(landed, x) {
      assert CarriesDelta(base, tip, head, landed, x);
    }
    AttemptIff(v, c, false);
  }

  /** A rival lands the Change between this land's gate and its swap; the retry lands it
      again, and recording that moves a landed row. */
  lemma LandsTwice()
    ensures var s := Behind(); var c := s.rows[Z];
            && Wf(s) && IsOpen(s.rows, Z) && BaseOnTrunk(s.trunk, c.base)
            && var r := Attempts(s, c, false, RIVAL);
               && r.commit.Some? && IsLanded(r.state.rows, Z) && r.commit.value.parent < |r.state.repo|
               && var u := Overtaken(r.state, r.commit.value, []);
                  Z in u.rows && !Frozen(u, MarkRow(u, Z, |r.state.repo|, false))
  {
    var s := Behind();
    var c := s.rows[Z];
    WfKnown(s);
    var v := After(s, RIVAL[0]);
    AfterOne(s, LandEvent(LandOf(Z)));
    RivalLands(s, v);
    Unbeaten(s, c, RIVAL);
    WfKnown(v);
    LandsAgain(s, v, c);
    Unbeaten(v, c, RIVAL[1..]);
    assert RIVAL[1..][0] == [] && After(v, []) == v;
    MarksTwice(v, Attempts(s, c, false, RIVAL).commit.value);
  }

  lemma MarksTwice(v: State, commit: Commit)
    requires Wf(v) && commit.parent < |v.repo| && IsLanded(v.rows, Z)
    ensures var u := Overtaken(v, commit, []); Z in u.rows && !Frozen(u, MarkRow(u, Z, |v.repo|, false))
  {
    SwappedWf(v, commit);
    MarkKeepsLandedIff(v, commit, Z, false, []);
  }
}
