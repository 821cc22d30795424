/** The outbound mirror (runkod/mirror.go): one worker pushes trunk under a lease, while
    lands, foreign writers and admin unfreezes go on around it.  Every read and every write
    is a step of its own. */
module Mirror {
  import opened Changes

  type Sha = nat

  datatype Cursor = Cursor(sha: Sha, frozen: bool)

  /** Where the worker is in syncTrunk, with what it has read so far. */
  datatype Worker =
    | Idle
    | GotTip(tip: Sha)
    | GotCursor(tip: Sha, expected: Sha)
    | Leased(tip: Sha, seen: Sha)
    | Freezing
    | Recording(tip: Sha)

  /** trunk: our own tips, newest last; remote: the mirror's trunk, NONE when absent;
      observed: unfreezes between their ls-remote and their cursor write.  The rest is
      history: values the mirror had, values unfreezes adopted, values leased pushes
      replaced. */
  datatype State = State(
    trunk: seq<Sha>,
    remote: Sha,
    cursor: Option<Cursor>,
    worker: Worker,
    observed: multiset<Sha>,
    had: set<Sha>,
    adopted: multiset<Sha>,
    replaced: multiset<Sha>)

  /** How the push ends: as it should, applied but reported failed, or not applied. */
  datatype Reply = Done | DoneButFailed | Failed

  /** Abort: the worker gives up where it is - a failed read or write, or a crash. */
  datatype Action =
    | Land(sha: Sha)
    | Foreign(sha: Sha)
    | Observe
    | Adopt(sha: Sha)
    | Forget(sha: Sha)
    | Unfreeze
    | ReadTip
    | ReadCursor
    | ReadRemote
    | Push(reply: Reply)
    | WriteFreeze
    | WriteCursor
    | Abort

  function Expected(cursor: Option<Cursor>): Sha {
    if cursor.Some? then cursor.value.sha else NONE
  }

  /** The worker has read the cursor: a frozen or current trunk ends the sync. */
  function AfterCursor(tip: Sha, cursor: Option<Cursor>): Worker {
    if cursor.Some? && (cursor.value.frozen || cursor.value.sha == tip) then Idle
    else GotCursor(tip, Expected(cursor))
  }

  /** The worker has read the mirror: divergence freezes, a stale mirror is pushed to, a
      current one is only recorded. */
  function AfterRemote(tip: Sha, expected: Sha, remote: Sha): Worker {
    if remote != expected && remote != tip then Freezing
    else if remote != tip then Leased(tip, remote)
    else Recording(tip)
  }

  function Written(s: State, v: Sha): State {
    s.(remote := v, had := s.had + {v})
  }

  /** UpsertMirrorCursor on behalf of an unfreeze. */
  function Adopted(s: State, v: Sha): State {
    s.(cursor := Some(Cursor(v, false)), adopted := s.adopted + multiset{v})
  }

  /** PushWithLease: the lease holds when the mirror is still at `seen`; a mirror already at
      the pushed commit is up to date. */
  function Pushed(s: State, tip: Sha, seen: Sha, reply: Reply): State {
    var next := if reply == Done then Recording(tip) else Freezing;
    if s.remote == tip then s.(worker := next)
    else if s.remote != seen || reply == Failed then s.(worker := Freezing)
    else Written(s, tip).(worker := next, replaced := s.replaced + multiset{seen})
  }

  /** One step; a step that is not enabled changes nothing. */
  function Step(s: State, a: Action): State {
    match a
    case Land(v) => if v == NONE then s else s.(trunk := s.trunk + [v])
    case Foreign(v) => Written(s, v)
    case Observe => s.(observed := s.observed + multiset{s.remote})
    case Adopt(v) => if v in s.observed then Adopted(s.(observed := s.observed - multiset{v}), v) else s
    case Forget(v) => s.(observed := s.observed - multiset{v})
    case Unfreeze => Adopted(s, s.remote)
    case ReadTip => if s.worker.Idle? && s.trunk != [] then s.(worker := GotTip(s.trunk[|s.trunk| - 1])) else s
    case ReadCursor => if s.worker.GotTip? then s.(worker := AfterCursor(s.worker.tip, s.cursor)) else s
    case ReadRemote =>
      if s.worker.GotCursor? then s.(worker := AfterRemote(s.worker.tip, s.worker.expected, s.remote)) else s
    case Push(reply) => if s.worker.Leased? then Pushed(s, s.worker.tip, s.worker.seen, reply) else s
    case WriteFreeze =>
      if s.worker.Freezing? then s.(cursor := Some(Cursor(Expected(s.cursor), true)), worker := Idle) else s
    case WriteCursor =>
      if s.worker.Recording? then s.(cursor := Some(Cursor(s.worker.tip, false)), worker := Idle) else s
    case Abort => s.(worker := Idle)
  }

  ghost function After(s: State, acts: seq<Action>): State
    decreases |acts|
  {
    if acts == [] then s else Step(After(s, acts[..|acts| - 1]), acts[|acts| - 1])
  }

  lemma AfterNext(s: State, acts: seq<Action>, a: Action)
    ensures After(s, acts + [a]) == Step(After(s, acts), a)
  {
    assert (acts + [a])[..|acts|] == acts;
  }

  lemma {:induction false} AfterThen(s: State, acts: seq<Action>, more: seq<Action>)
    ensures After(s, acts + more) == After(After(s, acts), more)
    decreases |more|
  {
    if more == [] {
      assert acts + more == acts;
    } else {
      var m, a := more[..|more| - 1], more[|more| - 1];
      assert acts + more == (acts + m) + [a] && more == m + [a];
      AfterThen(s, acts, m);
      AfterNext(s, acts + m, a);
      AfterNext(After(s, acts), m, a);
    }
  }

  /** A trunk never mirrored before, over any mirror. */
  ghost predicate Start(s: State) {
    && s.cursor.None? && s.worker.Idle? && s.observed == multiset{} && s.remote in s.had
    && s.adopted == multiset{} && s.replaced == multiset{} && NONE !in s.trunk
  }

  // ----- What each step is for

  /** Said by effect.  The mirror moves by a foreign write, or by a push whose lease holds.  The
      worker comes to freeze where the mirror, when it looked, was neither where the cursor said
      nor at the tip, or where its push did not end well; and to record where the mirror is at
      the tip, or has been pushed there. */
  lemma MovesExactly(s: State, a: Action)
    ensures var r := Step(s, a);
            && r.remote == (match a
                            case Foreign(v) => v
                            case Push(reply) => if LeaseHolds(s) && reply != Failed then s.worker.tip else s.remote
                            case _ => s.remote)
            && (!s.worker.Freezing? ==>
                  (r.worker.Freezing? <==>
                     || (a.ReadRemote? && s.worker.GotCursor? && s.remote !in {s.worker.expected, s.worker.tip})
                     || (a.Push? && s.worker.Leased? && (a.reply != Done || s.remote !in {s.worker.seen, s.worker.tip}))))
            && (!s.worker.Recording? ==>
                  (r.worker.Recording? <==>
                     || (a.ReadRemote? && s.worker.GotCursor? && s.remote == s.worker.tip)
                     || (a == Push(Done) && s.worker.Leased? && s.remote in {s.worker.seen, s.worker.tip})))
            && (!s.worker.Recording? && r.worker.Recording? ==> r.worker.tip == s.worker.tip == r.remote)
            && r.trunk == (if a.Land? && a.sha != NONE then s.trunk + [a.sha] else s.trunk)
  {
  }

  /** The push would replace what the worker saw. */
  predicate LeaseHolds(s: State) {
    s.worker.Leased? && s.remote == s.worker.seen && s.remote != s.worker.tip
  }

  /** The cursor is written by an unfreeze, which adopts what it observed, and by the worker's
      last step, which keeps the commit and freezes, or records the tip.  The worker looks
      further exactly where the cursor it read is neither frozen nor at the tip. */
  lemma CursorsExactly(s: State, a: Action)
    ensures var r := Step(s, a);
            && r.cursor == (match a
                            case Adopt(v) => if v in s.observed then Some(Cursor(v, false)) else s.cursor
                            case Unfreeze => Some(Cursor(s.remote, false))
                            case WriteFreeze =>
                              if !s.worker.Freezing? then s.cursor
                              else if s.cursor.None? then Some(Cursor(NONE, true)) else Some(s.cursor.value.(frozen := true))
                            case WriteCursor => if s.worker.Recording? then Some(Cursor(s.worker.tip, false)) else s.cursor
                            case _ => s.cursor)
            && (a.ReadCursor? && s.worker.GotTip? ==>
                  if s.cursor.Some? && (s.cursor.value.frozen || s.cursor.value.sha == s.worker.tip) then r.worker.Idle?
                  else r.worker == GotCursor(s.worker.tip, if s.cursor.Some? then s.cursor.value.sha else NONE))
            && (a.ReadTip? && s.worker.Idle? && s.trunk != [] ==> r.worker == GotTip(s.trunk[|s.trunk| - 1]))
            && (a.WriteFreeze? || a.WriteCursor? ==> r.worker == if s.worker.Freezing? == a.WriteFreeze? &&
                  (s.worker.Freezing? || s.worker.Recording?) then Idle else s.worker)
  {
  }

  /** The history keeps every value the mirror had and each one a leased push replaced. */
  lemma HistoryExactly(s: State, a: Action)
    requires s.remote in s.had
    ensures var r := Step(s, a);
            && r.had == s.had + {r.remote}
            && r.replaced == if a.Push? && a.reply != Failed && LeaseHolds(s) then s.replaced + multiset{s.remote} else s.replaced
  {
    if a.Foreign? || a.Push? {
      assert s.had == s.had + {s.remote};
    } else {
      assert Step(s, a).had == s.had && Step(s, a).remote == s.remote;
    }
  }

  /** An unfreeze adopts what it observed, each observation once. */
  lemma AdoptsExactly(s: State, a: Action)
    ensures Step(s, a).adopted ==
              match a
              case Adopt(v) => if v in s.observed then s.adopted + multiset{v} else s.adopted
              case Unfreeze => s.adopted + multiset{s.remote}
              case _ => s.adopted
    ensures Step(s, a).observed ==
              match a
              case Observe => s.observed + multiset{s.remote}
              case Adopt(v) => if v in s.observed then s.observed - multiset{v} else s.observed
              case Forget(v) => s.observed - multiset{v}
              case _ => s.observed
  {
  }

  // ----- A foreign write is never overwritten

  /** Empty, once our own tip, or sanctioned by an unfreeze. */
  ghost predicate Ours(s: State, v: Sha) {
    v == NONE || v in s.trunk || v in s.adopted
  }

  /** Empty, or a value the mirror really had. */
  ghost predicate Seen(s: State, v: Sha) {
    v == NONE || v in s.had
  }

  ghost predicate WorkerSafe(s: State) {
    match s.worker
    case GotTip(t) => t in s.trunk
    case GotCursor(t, e) => t in s.trunk && Ours(s, e)
    case Leased(t, v) => t in s.trunk && Ours(s, v)
    case Recording(t) => t in s.trunk && t in s.had
    case _ => true
  }

  ghost predicate Safe(s: State) {
    && s.remote in s.had
    && (forall v :: v in s.observed ==> v in s.had)
    && (s.cursor.Some? ==> Ours(s, s.cursor.value.sha) && Seen(s, s.cursor.value.sha))
    && (s.cursor.Some? && s.cursor.value.frozen ==> s.worker.Idle? || s.worker.GotTip?)
    && (forall v :: v in s.replaced ==> Ours(s, v))
    && WorkerSafe(s)
  }

  lemma OursGrows(s: State, r: State)
    requires s.trunk <= r.trunk && s.adopted <= r.adopted
    ensures forall v :: Ours(s, v) ==> Ours(r, v)
  {
    forall v | Ours(s, v) ensures Ours(r, v) {
      if v != NONE && v in s.adopted { assert r.adopted[v] > 0; }
    }
  }

  predicate ByWorker(a: Action) {
    a.ReadTip? || a.ReadCursor? || a.ReadRemote? || a.WriteFreeze? || a.WriteCursor? || a.Abort?
  }

  lemma SafeAround(s: State, a: Action)
    requires Safe(s) && !ByWorker(a) && !a.Push?
    ensures Safe(Step(s, a))
  {
    var r := Step(s, a);
    OursGrows(s, r);
    assert r.worker == s.worker && r.replaced == s.replaced && s.had <= r.had;
    assert s.trunk <= r.trunk;
  }

  lemma SafeWorker(s: State, a: Action)
    requires Safe(s) && ByWorker(a)
    ensures Safe(Step(s, a))
  {
    var r := Step(s, a);
    assert r.replaced == s.replaced && r.adopted == s.adopted && r.trunk == s.trunk && r.had == s.had;
  }

  lemma SafePush(s: State, reply: Reply)
    requires Safe(s)
    ensures Safe(Step(s, Push(reply)))
  {
    var r := Step(s, Push(reply));
    OursGrows(s, r);
    assert s.cursor == r.cursor && s.had <= r.had && s.observed == r.observed;
    forall v | v in r.replaced ensures Ours(r, v) {
      if v !in s.replaced { assert s.worker == Leased(s.worker.tip, v); }
    }
  }

  lemma SafeStep(s: State, a: Action)
    requires Safe(s)
    ensures Safe(Step(s, a))
  {
    if a.Push? {
      SafePush(s, a.reply);
    } else if ByWorker(a) {
      SafeWorker(s, a);
    } else {
      SafeAround(s, a);
    }
  }

  /** In every run: whatever a leased push replaced was empty, once our own tip, or adopted
      by an unfreeze; a known cursor holds nothing the mirror never had. */
  lemma {:induction false} NeverOverwritesForeign(s: State, acts: seq<Action>)
    requires Start(s)
    ensures var r := After(s, acts);
            && Safe(r)
            && (forall v :: v in r.replaced ==> v == NONE || v in r.trunk || v in r.adopted)
            && (r.cursor.Some? ==> r.cursor.value.sha == NONE || r.cursor.value.sha in r.had)
    decreases |acts|
  {
    if acts != [] {
      NeverOverwritesForeign(s, acts[..|acts| - 1]);
      SafeStep(After(s, acts[..|acts| - 1]), acts[|acts| - 1]);
    }
  }

  predicate Unfreezes(a: Action) {
    a.Adopt? || a.Unfreeze?
  }

  /** Frozen, with no sync past its cursor read. */
  ghost predicate Held(s: State) {
    && s.cursor.Some? && s.cursor.value.frozen
    && (s.worker.Idle? || s.worker.GotTip?)
  }

  /** From a freeze to the next unfreeze the cursor stays frozen and nothing is pushed:
      only foreign writers move the mirror. */
  lemma FrozenMeansNoPush(s: State, before: seq<Action>, after: seq<Action>)
    requires After(s, before).worker.Freezing? && forall a :: a in after ==> !Unfreezes(a)
    ensures var t, r := After(s, before), After(s, before + [WriteFreeze] + after);
            && Held(r) && r.replaced == t.replaced
            && ((forall a :: a in after ==> !a.Foreign?) ==> r.remote == t.remote)
  {
    AfterThen(s, before + [WriteFreeze], after);
    AfterNext(s, before, WriteFreeze);
    FreezeHolds(After(s, before));
    HeldRun(After(s, before + [WriteFreeze]), after);
  }

  lemma {:induction false} HeldRun(s: State, acts: seq<Action>)
    requires Held(s) && forall a :: a in acts ==> !Unfreezes(a)
    ensures var r := After(s, acts);
            && Held(r) && r.replaced == s.replaced
            && ((forall a :: a in acts ==> !a.Foreign?) ==> r.remote == s.remote)
    decreases |acts|
  {
    if acts != [] {
      var n := |acts| - 1;
      SplitLast(acts);
      HeldRun(s, acts[..n]);
      HeldStep(After(s, acts[..n]), acts[n]);
    }
  }

  lemma FreezeHolds(s: State)
    requires s.worker.Freezing?
    ensures var r := Step(s, WriteFreeze); Held(r) && r.replaced == s.replaced && r.remote == s.remote
  {
  }

  lemma HeldStep(s: State, a: Action)
    requires Held(s) && !Unfreezes(a)
    ensures Held(Step(s, a)) && Step(s, a).replaced == s.replaced
    ensures !a.Foreign? ==> Step(s, a).remote == s.remote
  {
  }

  // ----- A sanctioned overwrite happens once

  /** A last write that got lost: the worker gave up with `v` still in an unfrozen cursor. */
  predicate LosesWrite(s: State, a: Action, v: Sha) {
    a.Abort? && (s.worker.Recording? || s.worker.Freezing?) && s.cursor == Some(Cursor(v, false))
  }

  /** How many last writes a run lost over `v`. */
  ghost function LostWrites(s: State, acts: seq<Action>, v: Sha): nat
    decreases |acts|
  {
    if acts == [] then 0
    else
      var n := |acts| - 1;
      LostWrites(s, acts[..n], v) + if LosesWrite(After(s, acts[..n]), acts[n], v) then 1 else 0
  }

  /** The permissions to replace `v` still out: held by the worker, or by a cursor that no
      write is about to replace. */
  ghost function Permits(s: State, v: Sha): nat {
    if (s.worker.GotCursor? && s.worker.expected == v) || (s.worker.Leased? && s.worker.seen == v) then 1
    else if s.cursor == Some(Cursor(v, false)) && !s.worker.Recording? && !s.worker.Freezing? then 1
    else 0
  }

  ghost predicate Accounted(s: State, v: Sha, lost: nat) {
    s.replaced[v] + Permits(s, v) <= s.adopted[v] + lost
  }

  lemma PermitsAround(s: State, a: Action, v: Sha, lost: nat)
    requires Accounted(s, v, lost) && !ByWorker(a) && !a.Push?
    ensures Accounted(Step(s, a), v, lost)
  {
    var r := Step(s, a);
    assert r.worker == s.worker && r.replaced == s.replaced;
    if a.Adopt? || a.Unfreeze? {
      assert r.adopted == s.adopted || (r.cursor.Some? && r.adopted == s.adopted + multiset{r.cursor.value.sha});
      assert r.cursor != Some(Cursor(v, false)) ==> Permits(r, v) <= Permits(s, v);
    }
  }

  lemma PermitsWorker(s: State, a: Action, v: Sha)
    requires Safe(s) && ByWorker(a) && v != NONE && v !in s.trunk
    ensures Permits(Step(s, a), v) <= Permits(s, v) + if LosesWrite(s, a, v) then 1 else 0
  {
  }

  lemma PermitsPush(s: State, reply: Reply, v: Sha, lost: nat)
    requires Accounted(s, v, lost)
    ensures Accounted(Step(s, Push(reply)), v, lost)
  {
    var r := Step(s, Push(reply));
    assert r.adopted == s.adopted && r.cursor == s.cursor;
    if s.worker.Leased? {
      assert Permits(r, v) == 0;
      assert r.replaced == s.replaced || r.replaced == s.replaced + multiset{s.worker.seen};
    }
  }

  lemma PermitsStep(s: State, a: Action, v: Sha, lost: nat)
    requires Safe(s) && v != NONE && v !in s.trunk && Accounted(s, v, lost)
    ensures Accounted(Step(s, a), v, lost + if LosesWrite(s, a, v) then 1 else 0)
  {
    if a.Push? {
      PermitsPush(s, a.reply, v, lost);
    } else if ByWorker(a) {
      PermitsWorker(s, a, v);
      assert Step(s, a).replaced == s.replaced && Step(s, a).adopted == s.adopted;
    } else {
      PermitsAround(s, a, v, lost);
    }
  }

  lemma TrunkGrows(s: State, a: Action)
    ensures s.trunk <= Step(s, a).trunk
  {
  }

  /** Each unfreeze sanctions one overwrite, and each lost last write at most one more: a
      value that was never ours is replaced no more often than it was adopted, lost writes
      apart. */
  lemma {:induction false} OverwritesOnce(s: State, acts: seq<Action>, v: Sha)
    requires Start(s) && v != NONE && v !in After(s, acts).trunk
    ensures Accounted(After(s, acts), v, LostWrites(s, acts, v))
    ensures After(s, acts).replaced[v] <= After(s, acts).adopted[v] + LostWrites(s, acts, v)
    decreases |acts|
  {
    if acts != [] {
      var n := |acts| - 1;
      var t := After(s, acts[..n]);
      NeverOverwritesForeign(s, acts[..n]);
      TrunkGrows(t, acts[n]);
      OverwritesOnce(s, acts[..n], v);
      PermitsStep(t, acts[n], v, LostWrites(s, acts[..n], v));
    }
  }

  /** A cursor write that fails after the push leaves the permission behind: a foreigner who
      writes the same value back is overwritten again. */
  lemma StuckOverwritesTwice(ours: Sha, foreign: Sha)
    requires NONE != ours && ours != foreign && foreign != NONE
    ensures var s := Fresh(ours, foreign);
            var r := After(s, [Unfreeze] + Pushing(Done) + [Abort, Foreign(foreign)] + Pushing(Done));
            Start(s) && r.adopted[foreign] == 1 && r.replaced[foreign] == 2
  {
    var s := Fresh(ours, foreign);
    var t := s.(cursor := Some(Cursor(foreign, false)), adopted := multiset{foreign});
    var u := t.(remote := ours, had := {foreign, ours}, worker := Recording(ours), replaced := multiset{foreign});
    One(s, Unfreeze);
    LeasedPush(t, Done);
    Link(s, [Unfreeze], t, Pushing(Done), u);
    var w := Step(Step(u, Abort), Foreign(foreign));
    Two(u, Abort, Foreign(foreign));
    Link(s, [Unfreeze] + Pushing(Done), u, [Abort, Foreign(foreign)], w);
    TwiceEnds(s, [Unfreeze] + Pushing(Done) + [Abort, Foreign(foreign)], u, w, ours, foreign);
  }

  lemma TwiceEnds(s: State, before: seq<Action>, u: State, w: State, ours: Sha, foreign: Sha)
    requires NONE != ours && ours != foreign && foreign != NONE && After(s, before) == w
    requires u.trunk == [ours] && u.cursor == Some(Cursor(foreign, false))
    requires u.replaced == multiset{foreign} && u.adopted == multiset{foreign}
    requires w == Step(Step(u, Abort), Foreign(foreign))
    ensures var r := After(s, before + Pushing(Done)); r.adopted[foreign] == 1 && r.replaced[foreign] == 2
  {
    assert w == u.(worker := Idle, remote := foreign, had := u.had + {foreign});
    LeasedPush(w, Done);
    AfterThen(s, before, Pushing(Done));
  }

  // ----- Some short runs

  function Fresh(ours: Sha, remote: Sha): State {
    State([ours], remote, None, Idle, multiset{}, {remote}, multiset{}, multiset{})
  }

  function Pushing(reply: Reply): seq<Action> {
    [ReadTip, ReadCursor, ReadRemote, Push(reply)]
  }

  const DIVERGING: seq<Action> := [ReadTip, ReadCursor, ReadRemote, WriteFreeze]

  function TrunkTip(s: State): Sha
    requires s.trunk != []
  {
    s.trunk[|s.trunk| - 1]
  }

  lemma One(s: State, a: Action)
    ensures After(s, [a]) == Step(s, a)
  {
    AfterNext(s, [], a);
    assert [] + [a] == [a];
  }

  lemma Link(s: State, p: seq<Action>, t: State, q: seq<Action>, u: State)
    requires After(s, p) == t && After(t, q) == u
    ensures After(s, p + q) == u
  {
    AfterThen(s, p, q);
  }

  lemma Two(s: State, a: Action, b: Action)
    ensures After(s, [a, b]) == Step(Step(s, a), b)
  {
    AfterNext(s, [], a);
    AfterNext(s, [a], b);
    assert [] + [a] == [a] && [a] + [b] == [a, b];
  }

  lemma Four(s: State, a: Action, b: Action, c: Action, d: Action)
    ensures After(s, [a, b, c, d]) == Step(Step(Step(Step(s, a), b), c), d)
  {
    assert [a, b, c, d] == [a, b] + [c, d];
    AfterThen(s, [a, b], [c, d]);
    Two(s, a, b);
    Two(Step(Step(s, a), b), c, d);
  }

  lemma LeasedPush(s: State, reply: Reply)
    requires s.worker.Idle? && s.trunk != [] && (s.cursor.Some? ==> !s.cursor.value.frozen)
    requires s.remote == Expected(s.cursor) != TrunkTip(s) && reply != Failed
    ensures After(s, Pushing(reply)) ==
              Written(s, TrunkTip(s)).(
                worker := if reply == Done then Recording(TrunkTip(s)) else Freezing,
                replaced := s.replaced + multiset{s.remote})
  {
    Four(s, ReadTip, ReadCursor, ReadRemote, Push(reply));
    assert Step(Step(Step(s, ReadTip), ReadCursor), ReadRemote) == s.(worker := Leased(TrunkTip(s), s.remote));
  }

  lemma Diverges(s: State)
    requires s.worker.Idle? && s.trunk != [] && (s.cursor.Some? ==> !s.cursor.value.frozen && s.cursor.value.sha != TrunkTip(s))
    requires s.remote != Expected(s.cursor) && s.remote != TrunkTip(s)
    ensures After(s, DIVERGING) == s.(cursor := Some(Cursor(Expected(s.cursor), true)))
  {
    Four(s, ReadTip, ReadCursor, ReadRemote, WriteFreeze);
    assert Step(Step(Step(s, ReadTip), ReadCursor), ReadRemote) == s.(worker := Freezing);
  }

  // ----- The mirror never freezes on its own writes

  /** Nothing but lands, whole unfreezes and the worker, whose pushes fail only on a lost
      lease and whose cursor writes succeed. */
  ghost predicate Smooth(s: State, a: Action) {
    match a
    case Foreign(_) => false
    case Adopt(_) => false
    case Push(reply) => reply == Done
    case Abort => !s.worker.Recording?
    case _ => true
  }

  ghost predicate SmoothRun(s: State, acts: seq<Action>) {
    forall i :: 0 <= i < |acts| ==> Smooth(After(s, acts[..i]), acts[i])
  }

  /** The cursor says what the mirror holds, except between a push and its record. */
  ghost predicate InStep(s: State) {
    && (s.cursor.Some? ==> !s.cursor.value.frozen)
    && !s.worker.Freezing?
    && (if s.worker.Recording? then s.remote == s.worker.tip else s.remote == Expected(s.cursor))
    && (s.worker.GotCursor? ==> s.worker.expected == s.remote)
    && (s.worker.Leased? ==> s.worker.seen == s.remote)
  }

  lemma InStepStep(s: State, a: Action)
    requires InStep(s) && Smooth(s, a)
    ensures InStep(Step(s, a))
  {
  }

  /** However many lands interleave with a sync, trunk never freezes: the pushed commit and
      the recorded one are the same pinned tip. */
  lemma {:induction false} NeverFreezesItself(s: State, acts: seq<Action>)
    requires InStep(s) && SmoothRun(s, acts)
    ensures InStep(After(s, acts))
    decreases |acts|
  {
    if acts != [] {
      var n := |acts| - 1;
      assert forall i :: 0 <= i < n ==> acts[..n][..i] == acts[..i];
      assert Smooth(After(s, acts[..n]), acts[n]);
      NeverFreezesItself(s, acts[..n]);
      InStepStep(After(s, acts[..n]), acts[n]);
    }
  }

  predicate OnlyLands(acts: seq<Action>) {
    forall a :: a in acts ==> a.Land? && a.sha != NONE
  }

  lemma {:induction false} LandsOnlyGrowTrunk(s: State, acts: seq<Action>)
    requires OnlyLands(acts)
    ensures After(s, acts) == s.(trunk := After(s, acts).trunk) && s.trunk <= After(s, acts).trunk
    decreases |acts|
  {
    if acts != [] {
      var n := |acts| - 1;
      SplitLast(acts);
      LandsOnlyGrowTrunk(s, acts[..n]);
    }
  }

  /** One sync, with lands `between[i]` just after its i-th step. */
  function SyncAmid(between: seq<seq<Action>>): seq<Action>
    requires |between| == 4
  {
    ([ReadTip] + between[0]) + ([ReadCursor] + between[1]) + ([ReadRemote] + between[2]) + ([Push(Done)] + between[3])
    + [WriteCursor]
  }

  lemma AmidStep(s: State, a: Action, lands: seq<Action>) returns (t: State)
    requires OnlyLands(lands)
    ensures t == After(s, [a] + lands) && t == Step(s, a).(trunk := t.trunk) && Step(s, a).trunk <= t.trunk
  {
    AfterNext(s, [], a);
    assert [] + [a] == [a];
    AfterThen(s, [a], lands);
    LandsOnlyGrowTrunk(Step(s, a), lands);
    t := After(s, [a] + lands);
  }

  /** A smooth sync leaves the mirror and the cursor at the tip it started from, whatever
      landed meanwhile. */
  lemma SyncCatchesUp(s: State, between: seq<seq<Action>>)
    requires InStep(s) && s.worker.Idle? && s.trunk != []
    requires |between| == 4 && forall i :: 0 <= i < 4 ==> OnlyLands(between[i])
    ensures var r := After(s, SyncAmid(between));
            r.remote == TrunkTip(s) && r.cursor == Some(Cursor(TrunkTip(s), false)) && r.worker.Idle?
  {
    var t1 := AmidStep(s, ReadTip, between[0]);
    var t2 := AmidStep(t1, ReadCursor, between[1]);
    var t3 := AmidStep(t2, ReadRemote, between[2]);
    var t4 := AmidStep(t3, Push(Done), between[3]);
    Chained(s, [ReadTip] + between[0], [ReadCursor] + between[1], [ReadRemote] + between[2], [Push(Done)] + between[3], WriteCursor);
    EndsAtTip(s, t1, t2, t3, t4);
  }

  lemma EndsAtTip(s: State, t1: State, t2: State, t3: State, t4: State)
    requires InStep(s) && s.worker.Idle? && s.trunk != []
    requires t1 == Step(s, ReadTip).(trunk := t1.trunk) && t2 == Step(t1, ReadCursor).(trunk := t2.trunk)
    requires t3 == Step(t2, ReadRemote).(trunk := t3.trunk) && t4 == Step(t3, Push(Done)).(trunk := t4.trunk)
    ensures var r := Step(t4, WriteCursor);
            r.remote == TrunkTip(s) && r.cursor == Some(Cursor(TrunkTip(s), false)) && r.worker.Idle?
  {
    var tip := TrunkTip(s);
    assert t1 == s.(worker := GotTip(tip), trunk := t1.trunk);
    if s.cursor.Some? && s.cursor.value.sha == tip {
      assert t2 == s.(trunk := t2.trunk);
      assert t3 == s.(trunk := t3.trunk);
    } else {
      assert t2 == s.(worker := GotCursor(tip, s.remote), trunk := t2.trunk);
      assert t4.remote == tip && t4.worker == Recording(tip);
    }
  }

  lemma Chained(s: State, p: seq<Action>, q: seq<Action>, r: seq<Action>, t: seq<Action>, e: Action)
    ensures After(s, p + q + r + t + [e]) == Step(After(After(After(After(s, p), q), r), t), e)
  {
    AfterThen(s, p, q);
    AfterThen(s, p + q, r);
    AfterThen(s, p + q + r, t);
    AfterNext(s, p + q + r + t, e);
  }

  // ----- Each condition is needed

  /** Without a foreign writer, a cursor write that fails after its push freezes the next
      sync, if something landed in between. */
  lemma FailedRecordFreezes(x: Sha, y: Sha)
    requires x != NONE && y != NONE && x != y
    ensures var s := Fresh(x, NONE);
            InStep(s) && Held(After(s, Pushing(Done) + [Abort, Land(y)] + DIVERGING))
  {
    var s := Fresh(x, NONE);
    LeasedPush(s, Done);
    var t := After(s, Pushing(Done));
    var w := AbortThenLand(s, Pushing(Done), t, y);
    Diverges(w);
    AfterThen(s, Pushing(Done) + [Abort, Land(y)], DIVERGING);
  }

  lemma AbortThenLand(s: State, before: seq<Action>, t: State, y: Sha) returns (w: State)
    requires After(s, before) == t && y != NONE
    ensures w == After(s, before + [Abort, Land(y)]) && w == t.(worker := Idle, trunk := t.trunk + [y])
  {
    Two(t, Abort, Land(y));
    w := Step(Step(t, Abort), Land(y));
    Link(s, before, t, [Abort, Land(y)], w);
  }

  /** So does a push that was applied but reported failed. */
  lemma LostReplyFreezes(x: Sha)
    requires x != NONE
    ensures var s := Fresh(x, NONE);
            var r := After(s, Pushing(DoneButFailed) + [WriteFreeze]);
            InStep(s) && r.remote == x && Held(r)
  {
    LeasedPush(Fresh(x, NONE), DoneButFailed);
    AfterNext(Fresh(x, NONE), Pushing(DoneButFailed), WriteFreeze);
  }

  /** And an unfreeze that writes what it observed before a sync moved the mirror. */
  lemma StaleUnfreezeFreezes(x: Sha, y: Sha)
    requires x != NONE && y != NONE && x != y
    ensures var s := Fresh(x, NONE);
            InStep(s) && Held(After(s, [Observe] + Pushing(Done) + [WriteCursor, Adopt(NONE)] + ([Land(y)] + DIVERGING)))
  {
    var s := Fresh(x, NONE);
    var w := StaleMiddle(s, x);
    One(w, Land(y));
    Diverges(Step(w, Land(y)));
    Link(w, [Land(y)], Step(w, Land(y)), DIVERGING, After(Step(w, Land(y)), DIVERGING));
    AfterThen(s, [Observe] + Pushing(Done) + [WriteCursor, Adopt(NONE)], [Land(y)] + DIVERGING);
  }

  lemma StaleMiddle(s: State, x: Sha) returns (w: State)
    requires x != NONE && s == Fresh(x, NONE)
    ensures w == After(s, [Observe] + Pushing(Done) + [WriteCursor, Adopt(NONE)])
    ensures w.worker.Idle? && w.trunk == [x] && w.remote == x && w.cursor == Some(Cursor(NONE, false))
  {
    var t := s.(observed := multiset{NONE});
    var u := After(t, Pushing(Done));
    assert Step(s, Observe) == t;
    One(s, Observe);
    LeasedPush(t, Done);
    Link(s, [Observe], t, Pushing(Done), u);
    w := AdoptLate(s, [Observe] + Pushing(Done), u, x);
  }

  lemma AdoptLate(s: State, before: seq<Action>, u: State, x: Sha) returns (w: State)
    requires After(s, before) == u && u.worker == Recording(x) && NONE in u.observed
    ensures w == After(s, before + [WriteCursor, Adopt(NONE)])
    ensures w.worker.Idle? && w.trunk == u.trunk && w.remote == u.remote && w.cursor == Some(Cursor(NONE, false))
  {
    Two(u, WriteCursor, Adopt(NONE));
    w := Step(Step(u, WriteCursor), Adopt(NONE));
    Link(s, before, u, [WriteCursor, Adopt(NONE)], w);
  }
}
