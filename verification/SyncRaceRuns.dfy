/** Three runs in which something happens inside one write of a sync: a push is overwritten, a
    landed row moves, an abandoned Change comes back to a closed workspace. */
module SyncRaceRuns {
  import opened Changes
  import opened Git
  import opened Store
  import opened Receive
  import opened WellFormed
  import opened Sync
  import opened Landing
  import opened Runs
  import opened LandTheorems
  import opened Branches
  import opened SyncRaces
  import opened WritePhases

  const Z: Key := 10
  const ALICE: Name := 2
  const WORK: Name := 1

  const ROW := Change(Z, Open, 1, 3, NONE, false, ALICE, WORK, HEAD_BRANCH)

  const OPEN_GATE := Gate({}, {}, false, {}, true, true)

  /** Z is open at commit 3 on the commit below the tip; commit 4 is another version of it,
      not pushed yet; its rebase onto the tip is minted as 5 and about to be written. */
  function Midway(): State {
    State(
      [Commit(NONE, NONE, Text(0), map[]), Commit(NONE, NONE, Text(1), map[]), Commit(1, NONE, Text(2), map[]),
       Commit(1, Z, Text(3), map[0 := 1]), Commit(1, Z, Text(4), map[0 := 2]), Commit(2, Z, Text(3), map[0 := 1])],
      [1, 2],
      map[Z := ROW], map[Z := 3], Review(map[], map[]), map[WORK := Workspace(ALICE, false)], Log({}, {}, {}, {}, map[]))
  }

  const TO_TIP := Write(Z, 2, 5)

  lemma MidwaySound()
    ensures Wf(Midway()) && RefsFollow(Midway()) && LiveOrigins(Midway()) && KnownTips(Midway())
    ensures Writable(Midway(), [TO_TIP], Midway().rows) && MaySwap(Midway(), TO_TIP, ROW)
    ensures Mintable(Midway().repo, TO_TIP)
  {
  }

  /** The phase of one write, with `during` happening between its swap and its row write. */
  lemma OneWrite(s: State, w: Write, was: Rows, carryChecks: bool, during: seq<Event>)
    requires Wf(s) && Writable(s, [w], was) && w.key in was && w.key in s.rows && Mintable(s.repo, w)
    requires MaySwap(s, w, was[w.key])
    ensures var u := Meanwhile(MoveRef(s, w), during);
            var r := WritePhase(s, [w], was, carryChecks, [Between([], during, [])]);
            && w.key in u.rows && r.made == [Made(w, s, u, MoveRow(u, w, was[w.key]))]
            && r.state.rows == MoveRow(u, w, was[w.key]).rows && r.state.refs == u.refs && r.state.spaces == u.spaces
            && r.state.trunk == u.trunk
  {
    WriteAlone(s, w, was, carryChecks, during);
    MakeWriteGrows(s, w, was[w.key], carryChecks, Between([], during, []));
  }

  lemma WriteAlone(s: State, w: Write, was: Rows, carryChecks: bool, during: seq<Event>)
    requires Wf(s) && Writable(s, [w], was) && w.key in was && w.key in s.rows && Mintable(s.repo, w)
    requires MaySwap(s, w, was[w.key])
    ensures var one := MakeWrite(s, w, was[w.key], carryChecks, Between([], during, []));
            WritePhase(s, [w], was, carryChecks, [Between([], during, [])]) == Phase(one.1, [one.0])
  {
    var env := [Between([], during, [])];
    assert Meanwhile(s, env[0].ref) == s;
    assert WritePhase(s, [w], was, carryChecks, env) == WriteOn(s, [w], was, carryChecks, env);
    assert [w][1..] == [] && env[1..] == [];
  }

  // ----- A push is overwritten

  function PushFour(): Push {
    Push([], 4, ALICE, WORK, NONE, true, {}, true, {})
  }

  lemma FourIsTaken(a: State)
    requires a == MoveRef(Midway(), TO_TIP)
    ensures var r := ReceivePush(a, PushFour());
            Accepted(a, PushFour()) && Z in r.rows && r.rows[Z].head == 4 && r.refs == map[Z := 4]
  {
    var p := PushFour();
    FourAlone(a);
    FourAccepted(a);
    var q := Quarantined(a, p);
    var t := q.(log := q.log.(tips := q.log.tips[(WORK, HEAD_BRANCH) := 4]));
    var m := Member(4, Z);
    assert InRepoMembers(t.repo, [m]);
    assert [m][..0] == [];
    assert Record(t, p, [m]) == RecordMember(t, p, m);
  }

  lemma FourAccepted(a: State)
    requires a == MoveRef(Midway(), TO_TIP) && Series(a.repo, a.trunk, a.rows, 4) == [Member(4, Z)]
    ensures Quarantined(a, PushFour()) == a && Accepted(a, PushFour())
  {
    assert a.repo + PushFour().objects == a.repo;
  }

  lemma FourAlone(a: State)
    requires a == MoveRef(Midway(), TO_TIP)
    ensures Series(a.repo, a.trunk, a.rows, 4) == [Member(4, Z)]
  {
    var walk := RevList(a.repo, a.trunk, 4, STACK_WALK_LIMIT);
    assert RevList(a.repo, a.trunk, 1, 99) == [];
    assert walk == [4];
    assert [4][1..] == [];
    assert TopDown(a.repo, a.rows, 4, [], {} + {Z}) == [];
    assert TopDown(a.repo, a.rows, 4, [4], {}) == [Member(4, Z)];
  }

  /** A push taken between a write's swap and its row write: the swap held, the push was
      accepted at 4, and the row ends at the rebase of the version before, its ref at 4. */
  lemma PushOverwritten(carryChecks: bool)
    ensures var s, env := Midway(), [Between([], [PushEvent(PushFour())], [])];
            && Wf(s) && RefsFollow(s) && Writable(s, [TO_TIP], s.rows)
            && var r := WritePhase(s, [TO_TIP], s.rows, carryChecks, env);
               && |r.made| == 1 && Z in r.made[0].row.rows && r.made[0].row.rows[Z].head == 4
               && Z in r.state.rows && r.state.rows[Z].head == 5
               && Z in r.state.refs && r.state.refs[Z] == 4
  {
    var s := Midway();
    MidwaySound();
    OneWrite(s, TO_TIP, s.rows, carryChecks, [PushEvent(PushFour())]);
    MeanwhileOne(MoveRef(s, TO_TIP), PushEvent(PushFour()));
    FourIsTaken(MoveRef(s, TO_TIP));
  }

  // ----- A landed row moves

  function LandZ(): LandRequest {
    LandRequest(Z, OPEN_GATE, false, false, 0, false, false)
  }

  lemma ZLands(a: State)
    requires a == MoveRef(Midway(), TO_TIP) && KnownTips(a)
    ensures var t := LandChange(a, LandZ()); IsLanded(t.rows, Z) && t.rows[Z].head == 3
  {
    assert MayLand(a, a.rows[Z], LandZ());
    assert Clean(a, a.rows[Z], false);
    LandsIff(a, LandZ());
    LandReplaysDelta(a, LandZ());
  }

  /** A Change that lands inside a sync's write: its landed row moves to a head that is not
      what landed. */
  lemma SyncMovesLanded(carryChecks: bool)
    ensures var s, env := Midway(), [Between([], [LandEvent(LandZ())], [])];
            && Wf(s) && RefsFollow(s) && Writable(s, [TO_TIP], s.rows)
            && var r := WritePhase(s, [TO_TIP], s.rows, carryChecks, env);
               && |r.made| == 1 && IsLanded(r.made[0].row.rows, Z) && r.made[0].row.rows[Z].head == 3
               && IsLanded(r.state.rows, Z) && r.state.rows[Z].head == 5
  {
    var s := Midway();
    MidwaySound();
    var a := MoveRef(s, TO_TIP);
    OneWrite(s, TO_TIP, s.rows, carryChecks, [LandEvent(LandZ())]);
    MeanwhileOne(a, LandEvent(LandZ()));
    WfKnown(a);
    ZLands(a);
  }

  // ----- An abandoned Change comes back

  lemma ZAbandoned(a: State)
    requires a == MoveRef(Midway(), TO_TIP)
    ensures var t := Abandon(a, Z, true);
            t.rows == map[Z := ROW.(status := Abandoned)] && t.spaces == map[WORK := Workspace(ALICE, true)]
  {
  }

  /** A Change abandoned inside a sync's write, closing its workspace: the row write reopens
      it, and its origin is closed. */
  lemma SyncReopensAbandoned(carryChecks: bool)
    ensures var s, env := Midway(), [Between([], [AbandonEvent(Z, true)], [])];
            && Wf(s) && RefsFollow(s) && LiveOrigins(s) && Writable(s, [TO_TIP], s.rows)
            && var r := WritePhase(s, [TO_TIP], s.rows, carryChecks, env);
               IsOpen(r.state.rows, Z) && !LiveOrigins(r.state)
  {
    var s := Midway();
    MidwaySound();
    var a := MoveRef(s, TO_TIP);
    OneWrite(s, TO_TIP, s.rows, carryChecks, [AbandonEvent(Z, true)]);
    MeanwhileOne(a, AbandonEvent(Z, true));
    ZAbandoned(a);
    var r := WritePhase(s, [TO_TIP], s.rows, carryChecks, [Between([], [AbandonEvent(Z, true)], [])]).state;
    assert IsOpen(r.rows, Z) && r.rows[Z].workspace == WORK && r.spaces == map[WORK := Workspace(ALICE, true)];
  }
}
