/** Why covering needs heads to keep their bases: pushing the series A, B, A twice records
    B's head on trunk first and on the lower A the second time, so an approval of B then
    counts for a cell the approved version never changed. */
module Rebinding {
  import opened Changes
  import opened Git
  import opened Store
  import opened Receive
  import opened Landing
  import opened WellFormed
  import opened Runs

  const ALICE: Name := 2
  const OWNER: Name := 7
  const BOB: Name := 8
  const WORK: Name := 1
  const A: Key := 10
  const B: Key := 11

  const TRUNK_COMMIT := Commit(NONE, NONE, Text(1), map[0 := 1])
  const LOWER_A := Commit(1, A, Text(1), map[0 := 2])
  const THE_B := Commit(2, B, Text(2), map[0 := 1, 1 := 5])
  const UPPER_A := Commit(3, A, Text(3), map[0 := 1, 1 := 5])

  function Start(): State {
    State([Commit(NONE, NONE, Text(0), map[]), TRUNK_COMMIT], [1], map[], map[], Review(map[], map[]), map[],
          Log({}, {}, {}, {}, map[]))
  }

  function Series3(objects: seq<Commit>): Push {
    Push(objects, 4, ALICE, WORK, NONE, true, {}, true, {})
  }

  function FirstPart(): seq<Event> {
    [CreateWorkspaceEvent(WORK, ALICE)]
    + [PushEvent(Series3([LOWER_A, THE_B, UPPER_A]))]
    + [ApproveEvent(B, OWNER, BOB, false, {OWNER})]
  }

  /** Push A, B, A; approve B; push the same series again. */
  function Story(): seq<Event> {
    FirstPart() + [PushEvent(Series3([]))]
  }

  function Full(): Repo {
    [Commit(NONE, NONE, Text(0), map[]), TRUNK_COMMIT, LOWER_A, THE_B, UPPER_A]
  }

  lemma Walks()
    ensures ValidRepo(Full())
    ensures RevList(Full(), [1], 4, STACK_WALK_LIMIT) == [4, 3, 2]
    ensures RevList(Full(), [1], 3, STACK_WALK_LIMIT) == [3, 2]
    ensures RevList(Full(), [1], 2, STACK_WALK_LIMIT) == [2]
    ensures MergeBase(Full(), [1], 3) == 1
  {
    assert RevList(Full(), [1], 1, 97) == [] && RevList(Full(), [1], 1, 98) == [] && RevList(Full(), [1], 1, 99) == [];
    assert RevList(Full(), [1], 2, 98) == [2] && RevList(Full(), [1], 2, 99) == [2];
    assert RevList(Full(), [1], 3, 99) == [3, 2];
    assert MergeBase(Full(), [1], 2) == 1;
  }

  lemma Members(rows: Rows)
    requires !IsLanded(rows, A) && !IsLanded(rows, B)
    ensures ValidRepo(Full()) && Series(Full(), [1], rows, 4) == [Member(3, B), Member(4, A)]
  {
    Walks();
    var repo := Full();
    assert TopDown(repo, rows, 4, [2], {A, B}) == [];
    assert [3, 2][1..] == [2] && [4, 3, 2][1..] == [3, 2];
    assert {A} + {B} == {A, B};
    assert TopDown(repo, rows, 4, [3, 2], {A}) == [Member(3, B)];
    assert {} + {A} == {A};
    assert TopDown(repo, rows, 4, [4, 3, 2], {}) == [Member(4, A), Member(3, B)];
  }

  /** B's base is trunk while A is unknown and the lower A once it is known. */
  lemma Bases(known: set<Key>)
    requires B in known
    ensures ValidRepo(Full())
    ensures A !in known ==> ComputeBase(Full(), [1], known, 3, B) == 1
    ensures A in known ==> ComputeBase(Full(), [1], known, 3, B) == 2
    ensures ComputeBase(Full(), [1], known, 4, A) == 3
  {
    Walks();
  }

  /** Recording the series when nothing is carried: rows move, reviews stay. */
  lemma Recorded(s: State, p: Push)
    requires s.repo == Full() && s.trunk == [1] && p == Series3(p.objects)
    requires A in s.rows <==> B in s.rows
    requires B in s.rows ==> s.rows[B].head == 3 && s.rows[A].head == 4
    ensures ValidRepo(s.repo) && InRepoMembers(s.repo, [Member(3, B), Member(4, A)])
    ensures var r := Record(s, p, [Member(3, B), Member(4, A)]);
            && r.review == s.review && r.log.approved == s.log.approved
            && A in r.rows && r.rows[A].head == 4
            && B in r.rows && r.rows[B].head == 3 && r.rows[B].base == (if A in s.rows then 2 else 1)
            && (forall k :: k in {A, B} ==> (r.rows[k].status == Landed <==> IsLanded(s.rows, k)) && r.rows[k].status != Abandoned)
            && r.rows[A].author == ALICE && r.rows[B].author == ALICE
            && r.rows.Keys == s.rows.Keys + {A, B}
  {
    Walks();
    var ms := [Member(3, B), Member(4, A)];
    assert InRepoMembers(s.repo, ms);
    assert ms[..1] == [Member(3, B)] && ms[..1][..0] == [];
    assert InRepoMembers(s.repo, [Member(3, B)]);
    var one := RecordMember(s, p, Member(3, B));
    assert Record(s, p, [Member(3, B)]) == one by { assert [Member(3, B)][..0] == []; }
    Bases(s.rows.Keys + {B});
    NearestKnown(s.rows.Keys);
    assert ComputeBase(Full(), [1], s.rows.Keys, 3, B) == if A in s.rows then 2 else 1;
    assert one.rows.Keys == s.rows.Keys + {B} && one.review == s.review;
    var two := RecordMember(one, p, Member(4, A));
    assert Record(s, p, ms) == two;
  }

  lemma NearestKnown(known: set<Key>)
    ensures ValidRepo(Full())
    ensures ComputeBase(Full(), [1], known, 3, B) == if A in known then 2 else 1
  {
    Walks();
  }

  /** The state just before the second push. */
  ghost predicate Halfway(s: State) {
    && s.repo == Full() && s.trunk == [1] && s.rows.Keys == {A, B}
    && s.rows[B].head == 3 && s.rows[A].head == 4
    && s.rows[A].status == Open && s.rows[B].status == Open
    && s.spaces == map[WORK := Workspace(ALICE, false)]
    && Approved(s, B, OWNER, 3) && s.log.approved == {(B, OWNER, BOB, Version(1, 3))}
    && Touches(s.repo, Version(1, 3), 1, Some(5))
  }

  ghost predicate Pushed(r: State) {
    && r.repo == Full() && r.trunk == [1] && r.rows.Keys == {A, B}
    && r.rows[B].head == 3 && r.rows[A].head == 4 && r.rows[B].base == 1 && r.rows[B].author == ALICE
    && r.rows[A].status == Open && r.rows[B].status == Open
    && r.spaces == map[WORK := Workspace(ALICE, false)]
    && r.review.approvals == map[] && r.log.approved == {}
  }

  /** The push is taken, and records the two members on the grown repository. */
  lemma Taken(s: State, p: Push)
    requires s == Start().(spaces := map[WORK := Workspace(ALICE, false)])
    requires p == Series3([LOWER_A, THE_B, UPPER_A])
    ensures ValidRepo(Full()) && InRepoMembers(Full(), [Member(3, B), Member(4, A)])
    ensures ReceivePush(s, p) ==
              Record(s.(repo := Full(), log := s.log.(tips := map[(WORK, HEAD_BRANCH) := 4])), p, [Member(3, B), Member(4, A)])
  {
    assert s.repo + p.objects == Full();
    Members(s.rows);
    assert Accepted(s, p);
  }

  lemma FirstPush(s: State, p: Push)
    requires s == Start().(spaces := map[WORK := Workspace(ALICE, false)])
    requires p == Series3([LOWER_A, THE_B, UPPER_A])
    ensures Pushed(ReceivePush(s, p))
  {
    Taken(s, p);
    Recorded(s.(repo := Full(), log := s.log.(tips := map[(WORK, HEAD_BRANCH) := 4])), p);
    assert ReceivePush(s, p).rows.Keys == {A, B};
  }

  lemma Approving(s: State)
    requires Pushed(s)
    ensures Halfway(Approve(s, B, OWNER, BOB, false, {OWNER}))
  {
  }

  lemma ThreeEvents(s: State, a: Event, b: Event, c: Event)
    requires Wf(s)
    ensures After(s, [a] + [b] + [c]) == Effect(After(s, [a] + [b]), c)
    ensures After(s, [a] + [b]) == Effect(After(s, [a]), b)
    ensures After(s, [a]) == Effect(s, a)
  {
    AfterNext(s, [], a);
    assert [] + [a] == [a];
    AfterNext(s, [a], b);
    AfterNext(s, [a] + [b], c);
  }

  lemma StartFresh()
    ensures Fresh(Start()) && Wf(Start())
  {
  }

  lemma Created(s: State, p: Push, a: Event, b: Event)
    requires s == Start() && Wf(s) && a == CreateWorkspaceEvent(WORK, ALICE) && b == PushEvent(p)
    requires p == Series3([LOWER_A, THE_B, UPPER_A])
    ensures Pushed(Effect(Step(s, a), b))
  {
    FirstPush(Step(s, a), p);
  }

  lemma ApprovedHalf(t: State, e: Event)
    requires Wf(t) && Pushed(t) && e == ApproveEvent(B, OWNER, BOB, false, {OWNER})
    ensures Halfway(Effect(t, e))
  {
    Approving(t);
  }

  lemma FirstHalf()
    ensures Fresh(Start()) && Halfway(After(Start(), FirstPart()))
  {
    StartFresh();
    FirstHalfOf(Start(), CreateWorkspaceEvent(WORK, ALICE), PushEvent(Series3([LOWER_A, THE_B, UPPER_A])),
                ApproveEvent(B, OWNER, BOB, false, {OWNER}));
  }

  lemma FirstHalfOf(s: State, a: Event, b: Event, c: Event)
    requires s == Start() && Wf(s) && a == CreateWorkspaceEvent(WORK, ALICE)
    requires b == PushEvent(Series3([LOWER_A, THE_B, UPPER_A])) && c == ApproveEvent(B, OWNER, BOB, false, {OWNER})
    ensures Halfway(After(s, [a] + [b] + [c]))
  {
    ThreeEvents(s, a, b, c);
    Created(s, b.push, a, b);
    ApprovedHalf(After(s, [a] + [b]), c);
  }

  /** B is open, its approval counts, and its version changes cell 0 to 1 while no approved
      version of B does: what was approved changes cell 1. */
  ghost predicate Uncovered(t: State) {
    && B in t.rows && t.rows[B].status == Open
    && Approved(t, B, OWNER, t.rows[B].head)
    && KnownVersion(t.repo, Version(t.rows[B].base, t.rows[B].head))
    && Touches(t.repo, Version(t.rows[B].base, t.rows[B].head), 0, Some(1))
    && (forall o, a, v :: (B, o, a, v) in t.log.approved ==>
          KnownVersion(t.repo, v) && Touches(t.repo, v, 1, Some(5)) && !Touches(t.repo, v, 0, Some(1)))
  }

  lemma SecondPush(s: State, p: Push)
    requires Halfway(s) && p == Series3([])
    ensures Uncovered(ReceivePush(s, p))
  {
    TakenAgain(s, p);
    var t := s.(log := s.log.(tips := s.log.tips[(WORK, HEAD_BRANCH) := 4]));
    Recorded(t, p);
    StillUncovered(s, t, Record(t, p, [Member(3, B), Member(4, A)]));
  }

  lemma TakenAgain(s: State, p: Push)
    requires Halfway(s) && p == Series3([])
    ensures ValidRepo(s.repo) && InRepoMembers(s.repo, [Member(3, B), Member(4, A)])
    ensures ReceivePush(s, p) ==
              Record(s.(log := s.log.(tips := s.log.tips[(WORK, HEAD_BRANCH) := 4])), p, [Member(3, B), Member(4, A)])
  {
    assert s.repo + p.objects == Full();
    Members(s.rows);
    assert Accepted(s, p);
    assert Quarantined(s, p) == s;
  }

  lemma StillUncovered(s: State, t: State, r: State)
    requires Halfway(s) && t.review == s.review && t.log.approved == s.log.approved
    requires r.repo == Full() && r.review == t.review && r.log.approved == t.log.approved
    requires B in r.rows && r.rows[B].head == 3 && r.rows[B].base == 2 && r.rows[B].status == Open
    ensures Uncovered(r)
  {
  }

  /** An approval of a real diff that now also counts for a change it never covered: where a
      head is recorded with a second base, the covering promise fails. */
  lemma RebindingUncovers()
    ensures Fresh(Start()) && Uncovered(After(Start(), Story()))
  {
    FirstHalf();
    AfterNext(Start(), FirstPart(), PushEvent(Series3([])));
    SecondPush(After(Start(), FirstPart()), Series3([]));
  }
}
