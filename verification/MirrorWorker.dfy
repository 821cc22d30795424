/** The mirror worker's own code (runkod/mirror.go), with anything allowed to happen between
    two of its steps.  Its runs are runs of the machine in Mirror. */
module MirrorWorker {
  import opened Changes
  import opened Mirror

  /** What happens around the worker: lands, foreign writes and unfreezes. */
  predicate Outside(a: Action) {
    !ByWorker(a) && !a.Push?
  }

  predicate AllOutside(acts: seq<Action>) {
    forall a :: a in acts ==> Outside(a)
  }

  /** own[i] happens just after everything in env[i]. */
  ghost function Weave(own: seq<Action>, env: seq<seq<Action>>): seq<Action>
    requires |own| <= |env|
    decreases |own|
  {
    if own == [] then []
    else
      var n := |own| - 1;
      Weave(own[..n], env) + env[n] + [own[n]]
  }

  /** The failures a sync may meet: the cursor read, ls-remote, the push, the last write. */
  datatype Trouble = Trouble(cursor: bool, lsRemote: bool, reply: Reply, write: bool)

  /** What a worker does next that gives up only where something fails. */
  function Called(w: Worker, trouble: Trouble): Action {
    match w
    case Idle => ReadTip
    case GotTip(_) => if trouble.cursor then Abort else ReadCursor
    case GotCursor(_, _) => if trouble.lsRemote then Abort else ReadRemote
    case Leased(_, _) => Push(trouble.reply)
    case Freezing => if trouble.write then Abort else WriteFreeze
    case Recording(_) => if trouble.write then Abort else WriteCursor
  }

  /** The state that the worker's i-th step meets. */
  ghost function Met(s: State, own: seq<Action>, env: seq<seq<Action>>, i: nat): State
    requires i <= |own| && i < |env|
  {
    After(After(s, Weave(own[..i], env)), env[i])
  }

  /** The i-th step is the one called for. */
  ghost predicate Right(s: State, own: seq<Action>, env: seq<seq<Action>>, trouble: Trouble, i: nat)
    requires i < |own| && i < |env|
  {
    own[i] == Called(Met(s, own, env, i).worker, trouble)
  }

  /** Each step is. */
  ghost predicate Obeys(s: State, own: seq<Action>, env: seq<seq<Action>>, trouble: Trouble) {
    |own| <= |env| && forall i :: 0 <= i < |own| ==> Right(s, own, env, trouble, i)
  }

  /** Whether a step is does not depend on the steps after it. */
  lemma RightInPrefix(s: State, own: seq<Action>, env: seq<seq<Action>>, trouble: Trouble, n: nat, i: nat)
    requires i < n <= |own| && i < |env|
    ensures Right(s, own[..n], env, trouble, i) <==> Right(s, own, env, trouble, i)
  {
    assert own[..n][..i] == own[..i];
  }

  /** `own` are the steps called for, and woven into `env` they lead from s to t. */
  ghost predicate Ran(s: State, own: seq<Action>, env: seq<seq<Action>>, trouble: Trouble, t: State) {
    Obeys(s, own, env, trouble) && t == After(s, Weave(own, env))
  }

  ghost predicate Around(env: seq<seq<Action>>) {
    |env| == 5 && forall i :: 0 <= i < 5 ==> AllOutside(env[i])
  }

  lemma Turn(s: State, own: seq<Action>, env: seq<seq<Action>>, trouble: Trouble, t: State, u: State, a: Action, v: State)
    requires |own| < |env| && Ran(s, own, env, trouble, t) && After(t, env[|own|]) == u
    requires a == Called(u.worker, trouble) && v == Step(u, a)
    ensures Ran(s, own + [a], env, trouble, v)
  {
    var longer, n := own + [a], |own|;
    assert longer[..n] == own;
    forall i | 0 <= i < |longer| ensures Right(s, longer, env, trouble, i) {
      if i < n { RightInPrefix(s, longer, env, trouble, n, i); }
    }
    AfterThen(s, Weave(own, env), env[n]);
    AfterNext(s, Weave(own, env) + env[n], a);
  }

  datatype Outcome = Unborn | Broken | StillFrozen | Current | Froze | Recorded(tip: Sha)

  lemma WriteCursorStep(u: State, tip: Sha, trouble: Trouble)
    requires u.worker == Recording(tip) && !trouble.write
    ensures Called(u.worker, trouble) == WriteCursor
    ensures Step(u, WriteCursor) == u.(cursor := Some(Cursor(tip, false)), worker := Idle)
  {
  }

  lemma WriteFreezeStep(u: State, trouble: Trouble)
    requires u.worker.Freezing? && !trouble.write
    ensures Called(u.worker, trouble) == WriteFreeze
    ensures Step(u, WriteFreeze) == u.(cursor := Some(Cursor(Expected(u.cursor), true)), worker := Idle)
  {
  }

  // ----- A worker left alone

  const NO_TROUBLE := Trouble(false, false, Done, false)

  /** Around the worker there are only lands and whole unfreezes. */
  predicate Undisturbed(env: seq<seq<Action>>) {
    forall i :: 0 <= i < |env| ==> forall a :: a in env[i] ==> Outside(a) && !a.Foreign? && !a.Adopt?
  }

  lemma SmoothAround(s: State, acts: seq<Action>)
    requires InStep(s) && forall a :: a in acts ==> Outside(a) && !a.Foreign? && !a.Adopt?
    ensures InStep(After(s, acts))
  {
    forall i | 0 <= i < |acts| ensures Smooth(After(s, acts[..i]), acts[i]) { assert acts[i] in acts; }
    NeverFreezesItself(s, acts);
  }

  /** Called for without trouble, the worker's steps keep the cursor in step with the mirror. */
  lemma {:induction false} StaysInStep(s: State, own: seq<Action>, env: seq<seq<Action>>, k: nat)
    requires InStep(s) && Undisturbed(env) && Obeys(s, own, env, NO_TROUBLE) && k <= |own|
    ensures InStep(After(s, Weave(own[..k], env)))
    decreases k
  {
    if k > 0 {
      StaysInStep(s, own, env, k - 1);
      SmoothAround(After(s, Weave(own[..k - 1], env)), env[k - 1]);
      AfterStep(s, own, env, k - 1);
      StepInStep(s, own, env, k - 1, Met(s, own, env, k - 1));
    }
  }

  lemma StepInStep(s: State, own: seq<Action>, env: seq<seq<Action>>, i: nat, u: State)
    requires i < |own| && i < |env| && Right(s, own, env, NO_TROUBLE, i) && u == Met(s, own, env, i) && InStep(u)
    ensures InStep(Step(u, own[i]))
  {
    InStepStep(u, own[i]);
  }

  /** The cursor has been read, and the mirror is where it says and not at the tip. */
  predicate Behind(u: State) {
    u.worker.GotCursor? && u.remote == u.worker.expected != u.worker.tip
  }

  /** A worker whose ls-remote finds the mirror where the cursor says, and not at the tip,
      pushes. */
  lemma PushesWhenBehind(s: State, own: seq<Action>, env: seq<seq<Action>>, trouble: Trouble, t: State)
    requires Around(env) && Ran(s, own, env, trouble, t) && t.worker.Idle? && |own| > 2 && !trouble.lsRemote
    requires Behind(Met(s, own, env, 2))
    ensures |own| > 3 && own[3] == Push(trouble.reply)
  {
    LeasedThen(s, own, env, trouble);
    Whole(own);
    assert Right(s, own, env, trouble, 3);
    WorkerWaits(After(s, Weave(own[..3], env)), env[3]);
  }

  lemma LeasedThen(s: State, own: seq<Action>, env: seq<seq<Action>>, trouble: Trouble)
    requires Around(env) && Obeys(s, own, env, trouble) && |own| > 2 && !trouble.lsRemote && Behind(Met(s, own, env, 2))
    ensures After(s, Weave(own[..3], env)).worker.Leased?
  {
    assert Right(s, own, env, trouble, 2);
    AfterStep(s, own, env, 2);
    LeasedNext(Met(s, own, env, 2));
  }

  lemma LeasedNext(u: State)
    requires Behind(u)
    ensures Step(u, ReadRemote).worker.Leased?
  {
  }

  lemma AfterStep(s: State, own: seq<Action>, env: seq<seq<Action>>, i: nat)
    requires i < |own| <= |env|
    ensures After(s, Weave(own[..i + 1], env)) == Step(Met(s, own, env, i), own[i])
  {
    assert own[..i + 1][..i] == own[..i];
    AfterThen(s, Weave(own[..i], env), env[i]);
    AfterNext(s, Weave(own[..i], env) + env[i], own[i]);
  }

  lemma {:induction false} WorkerWaits(s: State, acts: seq<Action>)
    requires AllOutside(acts)
    ensures After(s, acts).worker == s.worker
    decreases |acts|
  {
    if acts != [] {
      assert acts[|acts| - 1] in acts;
      WorkerWaits(s, acts[..|acts| - 1]);
    }
  }

  class MirrorWorker {
    var trunk: seq<Sha>
    var remote: Sha
    var cursor: Option<Cursor>
    var observed: multiset<Sha>
    ghost var had: set<Sha>
    ghost var adopted: multiset<Sha>
    ghost var replaced: multiset<Sha>

    ghost function View(w: Worker): State
      reads this
    {
      State(trunk, remote, cursor, w, observed, had, adopted, replaced)
    }

    /** What goes on elsewhere while the worker waits. */
    method Elsewhere(acts: seq<Action>, ghost w: Worker)
      requires AllOutside(acts)
      modifies this
      ensures View(w) == After(old(View(w)), acts)
    {
      assert acts[..0] == [];
      for i := 0 to |acts|
        invariant View(w) == After(old(View(w)), acts[..i])
      {
        assert acts[i] in acts && acts[..i + 1][..i] == acts[..i];
        Apply(acts[i], w);
      }
      assert acts[..|acts|] == acts;
    }

    method Apply(a: Action, ghost w: Worker)
      requires Outside(a)
      modifies this
      ensures View(w) == Step(old(View(w)), a)
    {
      match a {
        case Land(v) => if v != NONE { trunk := trunk + [v]; }
        case Foreign(v) => remote, had := v, had + {v};
        case Observe => observed := observed + multiset{remote};
        case Adopt(v) => AdoptObserved(v, w);
        case Forget(v) => observed := observed - multiset{v};
        case Unfreeze => AdoptNow(w);
      }
    }

    /** The second half of handleMirrorUnfreeze: the tip it observed becomes the cursor. */
    method AdoptObserved(v: Sha, ghost w: Worker)
      modifies this
      ensures View(w) == Step(old(View(w)), Adopt(v))
    {
      if v in observed {
        observed := observed - multiset{v};
        UpsertMirrorCursor(v);
        adopted := adopted + multiset{v};
      }
    }

    method AdoptNow(ghost w: Worker)
      modifies this
      ensures View(w) == Step(old(View(w)), Unfreeze)
    {
      UpsertMirrorCursor(remote);
      adopted := adopted + multiset{remote};
    }

    method UpsertMirrorCursor(sha: Sha)
      modifies this`cursor
      ensures cursor == Some(Cursor(sha, false))
    {
      cursor := Some(Cursor(sha, false));
    }

    /** Freezing keeps the recorded commit; a row that was not there starts empty. */
    method FreezeMirrorCursor()
      modifies this`cursor
      ensures cursor == Some(Cursor(Expected(old(cursor)), true))
    {
      var was := if cursor.Some? then cursor.value else Cursor(NONE, false);
      cursor := Some(was.(frozen := true));
    }

    /** PushWithLease against the mirror as it is now. */
    method PushWithLease(expected: Sha, tip: Sha, reply: Reply) returns (ok: bool)
      modifies this`remote, this`had, this`replaced
      ensures var w := if ok then Recording(tip) else Freezing;
              View(w) == Pushed(old(View(Leased(tip, expected))), tip, expected, reply)
    {
      ok := reply == Done;
      if remote != tip {
        if remote != expected || reply == Failed { return false; }
        replaced := replaced + multiset{expected};
        remote, had := tip, had + {tip};
      }
    }

    /** syncTrunk: `env[i]` is what happens just before its i-th step.  It does what the machine
        calls for and gives up only where something fails; and where nothing fails and nobody
        else writes, the mirror ends at the tip it read. */
    method SyncTrunk(env: seq<seq<Action>>, trouble: Trouble) returns (outcome: Outcome, ghost own: seq<Action>)
      requires Around(env)
      modifies this
      ensures Ran(old(View(Idle)), own, env, trouble, View(Idle))
      ensures outcome.Unborn? <==> After(old(View(Idle)), env[0]).trunk == []
      ensures outcome.Broken? ==> trouble.cursor || trouble.lsRemote || trouble.write
      ensures outcome.StillFrozen? || outcome.Froze? ==> Held(View(Idle))
      ensures outcome.Recorded? ==> outcome.tip == TrunkTip(After(old(View(Idle)), env[0]))
      ensures outcome.Recorded? || outcome.Current? ==> cursor == Some(Cursor(TrunkTip(After(old(View(Idle)), env[0])), false))
      ensures |own| > 2 && !trouble.lsRemote && Behind(Met(old(View(Idle)), own, env, 2)) ==>
                |own| > 3 && own[3] == Push(trouble.reply)
      ensures InStep(old(View(Idle))) && Undisturbed(env) && trouble == NO_TROUBLE && !outcome.Unborn? ==>
                && (outcome.Recorded? || outcome.Current?)
                && remote == TrunkTip(After(old(View(Idle)), env[0]))
    {
      ghost var s := View(Idle);
      Elsewhere(env[0], Idle);
      Turn(s, [], env, trouble, s, View(Idle), ReadTip,
           if trunk == [] then View(Idle) else View(GotTip(trunk[|trunk| - 1])));
      own := [] + [ReadTip];
      if trunk == [] { return Unborn, own; }
      ghost var tip := trunk[|trunk| - 1];
      outcome, own := CheckCursor(s, own, env, trunk[|trunk| - 1], trouble);
      if |own| > 2 && !trouble.lsRemote && Behind(Met(s, own, env, 2)) {
        PushesWhenBehind(s, own, env, trouble, View(Idle));
      }
      if InStep(s) && Undisturbed(env) && trouble == NO_TROUBLE {
        Whole(own);
        StaysInStep(s, own, env, |own|);
      }
    }

    /** syncTrunk from its cursor read on. */
    method CheckCursor(ghost s: State, ghost start: seq<Action>, env: seq<seq<Action>>, tip: Sha, trouble: Trouble)
      returns (outcome: Outcome, ghost own: seq<Action>)
      requires Around(env) && |start| == 1 && Ran(s, start, env, trouble, View(GotTip(tip)))
      modifies this
      ensures Ran(s, own, env, trouble, View(Idle))
      ensures outcome.StillFrozen? || outcome.Froze? ==> Held(View(Idle))
      ensures outcome.Recorded? ==> outcome.tip == tip
      ensures outcome.Recorded? || outcome.Current? ==> cursor == Some(Cursor(tip, false))
      ensures outcome.Broken? ==> trouble.cursor || trouble.lsRemote || trouble.write
      ensures !outcome.Unborn?
    {
      ghost var t := View(GotTip(tip));
      Elsewhere(env[1], GotTip(tip));
      ghost var u := View(GotTip(tip));
      if trouble.cursor {
        Turn(s, start, env, trouble, t, u, Abort, View(Idle));
        return Broken, start + [Abort];
      }
      Turn(s, start, env, trouble, t, u, ReadCursor, View(AfterCursor(tip, cursor)));
      own := start + [ReadCursor];
      if cursor.Some? && cursor.value.frozen { return StillFrozen, own; }
      if cursor.Some? && cursor.value.sha == tip { return Current, own; }
      var expected := if cursor.Some? then cursor.value.sha else NONE;
      outcome, own := CheckRemote(s, own, env, tip, expected, trouble);
    }

    /** syncTrunk from its ls-remote on. */
    method CheckRemote(ghost s: State, ghost start: seq<Action>, env: seq<seq<Action>>, tip: Sha, expected: Sha, trouble: Trouble)
      returns (outcome: Outcome, ghost own: seq<Action>)
      requires Around(env) && |start| == 2 && Ran(s, start, env, trouble, View(GotCursor(tip, expected)))
      modifies this
      ensures Ran(s, own, env, trouble, View(Idle)) && !outcome.StillFrozen? && !outcome.Current? && !outcome.Unborn?
      ensures outcome.Froze? ==> Held(View(Idle))
      ensures outcome.Recorded? ==> outcome.tip == tip && cursor == Some(Cursor(tip, false))
      ensures outcome.Broken? ==> trouble.lsRemote || trouble.write
    {
      ghost var t := View(GotCursor(tip, expected));
      Elsewhere(env[2], GotCursor(tip, expected));
      ghost var u := View(GotCursor(tip, expected));
      if trouble.lsRemote {
        Turn(s, start, env, trouble, t, u, Abort, View(Idle));
        return Broken, start + [Abort];
      }
      var remoteSHA := remote;
      Turn(s, start, env, trouble, t, u, ReadRemote, View(AfterRemote(tip, expected, remote)));
      outcome, own := ActOnRemote(s, start + [ReadRemote], env, tip, expected, remoteSHA, trouble);
    }

    /** Diverged, current, or behind. */
    method ActOnRemote(ghost s: State, ghost start: seq<Action>, env: seq<seq<Action>>, tip: Sha, expected: Sha,
                       remoteSHA: Sha, trouble: Trouble)
      returns (outcome: Outcome, ghost own: seq<Action>)
      requires Around(env) && |start| == 3 && Ran(s, start, env, trouble, View(AfterRemote(tip, expected, remoteSHA)))
      modifies this
      ensures Ran(s, own, env, trouble, View(Idle)) && !outcome.StillFrozen? && !outcome.Current? && !outcome.Unborn?
      ensures outcome.Froze? ==> Held(View(Idle))
      ensures outcome.Recorded? ==> outcome.tip == tip && cursor == Some(Cursor(tip, false))
      ensures outcome.Broken? ==> trouble.write
    {
      own := start;
      if remoteSHA != expected && remoteSHA != tip {
        outcome, own := WriteFreezeRow(s, own, env, 3, trouble);
      } else if remoteSHA == tip {
        outcome, own := WriteTipRow(s, own, env, 3, tip, trouble);
      } else {
        outcome, own := PushTip(s, own, env, tip, remoteSHA, trouble);
      }
    }

    /** The leased push and what follows it. */
    method PushTip(ghost s: State, ghost start: seq<Action>, env: seq<seq<Action>>, tip: Sha, seen: Sha, trouble: Trouble)
      returns (outcome: Outcome, ghost own: seq<Action>)
      requires Around(env) && |start| == 3 && Ran(s, start, env, trouble, View(Leased(tip, seen)))
      modifies this
      ensures Ran(s, own, env, trouble, View(Idle)) && !outcome.StillFrozen? && !outcome.Current? && !outcome.Unborn?
      ensures outcome.Froze? ==> Held(View(Idle))
      ensures outcome.Recorded? ==> outcome.tip == tip && cursor == Some(Cursor(tip, false))
      ensures outcome.Broken? ==> trouble.write
    {
      ghost var t := View(Leased(tip, seen));
      Elsewhere(env[3], Leased(tip, seen));
      Turn(s, start, env, trouble, t, View(Leased(tip, seen)), Push(trouble.reply),
           Pushed(View(Leased(tip, seen)), tip, seen, trouble.reply));
      var pushed := PushWithLease(seen, tip, trouble.reply);
      own := start + [Push(trouble.reply)];
      if pushed {
        outcome, own := WriteTipRow(s, own, env, 4, tip, trouble);
      } else {
        outcome, own := WriteFreezeRow(s, own, env, 4, trouble);
      }
    }

    method WriteTipRow(ghost s: State, ghost start: seq<Action>, env: seq<seq<Action>>, slot: nat, tip: Sha, trouble: Trouble)
      returns (outcome: Outcome, ghost own: seq<Action>)
      requires Around(env) && slot == |start| <= 4 && Ran(s, start, env, trouble, View(Recording(tip)))
      modifies this
      ensures Ran(s, own, env, trouble, View(Idle))
      ensures outcome == if trouble.write then Broken else Recorded(tip)
      ensures outcome.Recorded? ==> cursor == Some(Cursor(tip, false))
    {
      ghost var t := View(Recording(tip));
      Elsewhere(env[slot], Recording(tip));
      outcome, own := RecordTip(s, start, env, t, tip, trouble);
    }

    /** The last write of a sync that went well. */
    method RecordTip(ghost s: State, ghost start: seq<Action>, ghost env: seq<seq<Action>>, ghost t: State, tip: Sha, trouble: Trouble)
      returns (outcome: Outcome, ghost own: seq<Action>)
      requires |start| < |env| && Ran(s, start, env, trouble, t) && After(t, env[|start|]) == View(Recording(tip))
      modifies this
      ensures Ran(s, own, env, trouble, View(Idle))
      ensures outcome == if trouble.write then Broken else Recorded(tip)
      ensures outcome.Recorded? ==> cursor == Some(Cursor(tip, false))
    {
      ghost var u := View(Recording(tip));
      if trouble.write {
        Turn(s, start, env, trouble, t, u, Abort, View(Idle));
        return Broken, start + [Abort];
      }
      WriteCursorStep(u, tip, trouble);
      Turn(s, start, env, trouble, t, u, WriteCursor, u.(cursor := Some(Cursor(tip, false)), worker := Idle));
      own := start + [WriteCursor];
      UpsertMirrorCursor(tip);
      outcome := Recorded(tip);
    }

    method WriteFreezeRow(ghost s: State, ghost start: seq<Action>, env: seq<seq<Action>>, slot: nat, trouble: Trouble)
      returns (outcome: Outcome, ghost own: seq<Action>)
      requires Around(env) && slot == |start| <= 4 && Ran(s, start, env, trouble, View(Freezing))
      modifies this
      ensures Ran(s, own, env, trouble, View(Idle))
      ensures outcome == if trouble.write then Broken else Froze
      ensures outcome.Froze? ==> Held(View(Idle))
    {
      ghost var t := View(Freezing);
      Elsewhere(env[slot], Freezing);
      outcome, own := FreezeRow(s, start, env, t, trouble);
    }

    method FreezeRow(ghost s: State, ghost start: seq<Action>, ghost env: seq<seq<Action>>, ghost t: State, trouble: Trouble)
      returns (outcome: Outcome, ghost own: seq<Action>)
      requires |start| < |env| && Ran(s, start, env, trouble, t) && After(t, env[|start|]) == View(Freezing)
      modifies this
      ensures Ran(s, own, env, trouble, View(Idle))
      ensures outcome == if trouble.write then Broken else Froze
      ensures outcome.Froze? ==> Held(View(Idle))
    {
      ghost var u := View(Freezing);
      if trouble.write {
        Turn(s, start, env, trouble, t, u, Abort, View(Idle));
        return Broken, start + [Abort];
      }
      WriteFreezeStep(u, trouble);
      Turn(s, start, env, trouble, t, u, WriteFreeze, u.(cursor := Some(Cursor(Expected(u.cursor), true)), worker := Idle));
      own := start + [WriteFreeze];
      FreezeMirrorCursor();
      outcome := Froze;
    }
  }
}
