/** A sync's write phase, step by step, with anything happening in between
    (runkod/sync.go).  The compare-and-swap guards the ref only; the row is written after it
    whatever it holds by then. */
module WritePhases {
  import opened Changes
  import opened Git
  import opened Store
  import opened Carry
  import opened Receive
  import opened WellFormed
  import opened Sync
  import opened SyncStack
  import opened Runs
  import opened RunTheorems
  import opened Branches
  import opened SyncRaces

  // ----- The three steps of a write

  /** The compare-and-swap: it expects the head the plan was computed from. */
  predicate MaySwap(t: State, w: Write, was: Change) {
    w.key in t.refs && t.refs[w.key] == was.head
  }

  function MoveRef(t: State, w: Write): State {
    t.(refs := t.refs[w.key := w.head])
  }

  /** CreateOrUpdateChange, with the planned version and the planned row's author. */
  function MoveRow(t: State, w: Write, was: Change): State {
    t.(rows := t.rows[w.key := Upserted(t.rows, w.key, w.base, w.head, was.author, NONE, NONE)],
       log := t.log.(versions := t.log.versions + {(w.key, Version(w.base, w.head))}))
  }

  /** trivialRebaseOf and carryForwardTrivialRebase, from the planned row. */
  function MoveResults(t: State, w: Write, was: Change, carryChecks: bool): State {
    if CarriesFrom(t.repo, was, w.base, w.head)
    then t.(review := CarryForward(t.review, w.key, was.head, w.head, carryChecks)) else t
  }

  /** A planned write whose commit exists and names its Change. */
  ghost predicate Mintable(repo: Repo, w: Write) {
    0 < w.base < w.head < |repo| && IdOf(repo, w.head) == w.key
  }

  lemma RowWf(t: State, w: Write, was: Change)
    requires Wf(t) && w.key in t.rows && Mintable(t.repo, w)
    ensures Wf(MoveRow(t, w, was))
  {
    forall k | k in t.rows ensures GoodRow(t.repo, k, t.rows[k]) {}
  }

  // ----- The phase

  /** What happens just before each step of one write. */
  datatype Between = Between(ref: seq<Event>, row: seq<Event>, results: seq<Event>)

  /** A write that was made: the states its swap and its row write met, and what the row write
      left. */
  datatype Made = Made(write: Write, swap: State, row: State, done: State)

  datatype Phase = Phase(state: State, made: seq<Made>)

  /** `ws` can be written to `s`: rows and commits are there. */
  ghost predicate Writable(s: State, ws: seq<Write>, was: Rows) {
    forall w :: w in ws ==> w.key in s.rows && w.key in was && Mintable(s.repo, w)
  }

  lemma StillWritable(s: State, t: State, ws: seq<Write>, was: Rows)
    requires Writable(s, ws, was) && s.rows.Keys <= t.rows.Keys && s.repo <= t.repo
    ensures Writable(t, ws, was)
  {
  }

  /** One write whose swap holds in `t`. */
  ghost function MakeWrite(t: State, w: Write, was: Change, carryChecks: bool, env: Between): (r: (Made, State))
    requires Wf(t) && w.key in t.rows && Mintable(t.repo, w)
    ensures Wf(r.0.row) && Wf(r.0.done) && Wf(r.1)
  {
    var u := Meanwhile(MoveRef(t, w), env.row);
    MeanwhileFrozen(MoveRef(t, w), env.row);
    RowWf(u, w, was);
    var v := MoveRow(u, w, was);
    (Made(w, t, u, v), MoveResults(Meanwhile(v, env.results), w, was, carryChecks))
  }

  lemma MakeWriteGrows(t: State, w: Write, was: Change, carryChecks: bool, env: Between)
    requires Wf(t) && w.key in t.rows && Mintable(t.repo, w)
    ensures var r := MakeWrite(t, w, was, carryChecks, env);
            && t.rows.Keys <= r.1.rows.Keys && t.repo <= r.1.repo
            && w.key in r.0.row.rows && r.0.done == MoveRow(r.0.row, w, was)
            && Frozen(MoveRef(t, w), r.0.row) && Frozen(r.0.done, r.1)
  {
    MeanwhileFrozen(MoveRef(t, w), env.row);
    var u := Meanwhile(MoveRef(t, w), env.row);
    RowWf(u, w, was);
    MeanwhileFrozen(MoveRow(u, w, was), env.results);
  }

  /** The write phase: the first swap that fails ends it, and what was written stays. */
  ghost function WritePhase(s: State, ws: seq<Write>, was: Rows, carryChecks: bool, env: seq<Between>): (r: Phase)
    requires Wf(s) && |env| == |ws| && Writable(s, ws, was)
    ensures Wf(r.state)
    decreases |ws|, 1
  {
    if ws == [] then Phase(s, [])
    else
      var t := Meanwhile(s, env[0].ref);
      MeanwhileFrozen(s, env[0].ref);
      StillWritable(s, t, ws, was);
      WriteOn(t, ws, was, carryChecks, env)
  }

  ghost function WriteOn(t: State, ws: seq<Write>, was: Rows, carryChecks: bool, env: seq<Between>): (r: Phase)
    requires Wf(t) && ws != [] && |env| == |ws| && Writable(t, ws, was)
    ensures Wf(r.state)
    decreases |ws|, 0
  {
    assert ws[0] in ws;
    var w := ws[0];
    if !MaySwap(t, w, was[w.key]) then Phase(t, [])
    else
      var one := MakeWrite(t, w, was[w.key], carryChecks, env[0]);
      MakeWriteGrows(t, w, was[w.key], carryChecks, env[0]);
      assert forall x :: x in ws[1..] ==> x in ws;
      StillWritable(t, one.1, ws[1..], was);
      var r := WritePhase(one.1, ws[1..], was, carryChecks, env[1..]);
      Phase(r.state, [one.0] + r.made)
  }

  // ----- What the row write overwrites

  /** Before the swap the ref and the row were together at the planned head; by the row write
      the head is another than the planned and the written one exactly when the ref is. */
  ghost predicate OverwritesIff(m: Made, was: Change) {
    var k := m.write.key;
    && Follows(m.swap, k) && m.swap.rows[k].head == was.head
    && k in m.row.rows && k in m.row.refs && k in m.done.rows && k in m.done.refs
    && (m.row.rows[k].head !in {was.head, m.write.head} <==> m.row.refs[k] !in {was.head, m.write.head})
    && m.done.rows[k].head == m.write.head && m.done.rows[k].base == m.write.base && m.done.rows[k].author == was.author
    && (Follows(m.done, k) <==> m.row.refs[k] == m.write.head)
  }

  /** One write, from a state in which its Change's ref and row agree. */
  lemma OneOverwritesIff(t: State, w: Write, was: Change, carryChecks: bool, env: Between)
    requires Wf(t) && w.key in t.rows && Mintable(t.repo, w) && Follows(t, w.key) && MaySwap(t, w, was)
    ensures OverwritesIff(MakeWrite(t, w, was, carryChecks, env).0, was)
  {
    MakeWriteGrows(t, w, was, carryChecks, env);
    MeanwhileMoves(MoveRef(t, w), env.row, w.key);
  }

  /** The others' refs and rows stay together. */
  lemma OthersFollow(t: State, w: Write, was: Change, carryChecks: bool, env: Between, k: Key)
    requires Wf(t) && w.key in t.rows && Mintable(t.repo, w) && k != w.key && Follows(t, k)
    ensures Follows(MakeWrite(t, w, was, carryChecks, env).1, k)
  {
    MakeWriteGrows(t, w, was, carryChecks, env);
    var u := Meanwhile(MoveRef(t, w), env.row);
    MeanwhileMoves(MoveRef(t, w), env.row, k);
    MeanwhileMoves(MoveRow(u, w, was), env.results, k);
  }

  /** The writes made are the first of those planned, each as `OverwritesIff` says. */
  ghost predicate MadeInOrder(made: seq<Made>, ws: seq<Write>, was: Rows) {
    && |made| <= |ws|
    && forall i :: 0 <= i < |made| ==> made[i].write == ws[i] && ws[i].key in was && OverwritesIff(made[i], was[ws[i].key])
  }

  lemma OneMoreInOrder(m: Made, made: seq<Made>, ws: seq<Write>, was: Rows)
    requires ws != [] && MadeInOrder(made, ws[1..], was)
    requires m.write == ws[0] && ws[0].key in was && OverwritesIff(m, was[ws[0].key])
    ensures MadeInOrder([m] + made, ws, was)
  {
    var all := [m] + made;
    forall i | 0 <= i < |all| ensures all[i].write == ws[i] && ws[i].key in was && OverwritesIff(all[i], was[ws[i].key]) {
      if i > 0 { assert all[i] == made[i - 1] && ws[1..][i - 1] == ws[i]; }
    }
  }

  lemma FirstApart(ws: seq<Write>)
    requires DistinctWrites(ws) && ws != []
    ensures DistinctWrites(ws[1..]) && forall w :: w in ws[1..] ==> w in ws && w.key != ws[0].key
  {
    forall w | w in ws[1..] ensures w in ws && w.key != ws[0].key {
      var i :| 0 <= i < |ws[1..]| && ws[1..][i] == w;
      assert ws[i + 1] == w;
    }
  }

  /** Whatever happens in between, every swap that held met the planned head in ref and row; a
      head pushed after the swap is overwritten, and exactly then the ref has left both the
      written and the planned head; and ref and row part exactly when the ref has left the
      written one. */
  lemma {:induction false} OverwritesExactly(s: State, ws: seq<Write>, was: Rows, carryChecks: bool, env: seq<Between>)
    requires Wf(s) && |env| == |ws| && Writable(s, ws, was) && DistinctWrites(ws)
    requires forall w :: w in ws ==> Follows(s, w.key)
    ensures MadeInOrder(WritePhase(s, ws, was, carryChecks, env).made, ws, was)
    decreases |ws|, 1
  {
    if ws != [] {
      var t := Meanwhile(s, env[0].ref);
      MeanwhileFrozen(s, env[0].ref);
      StillWritable(s, t, ws, was);
      forall w | w in ws ensures Follows(t, w.key) { MeanwhileMoves(s, env[0].ref, w.key); }
      OverwritesOn(t, ws, was, carryChecks, env);
    }
  }

  lemma {:induction false} OverwritesOn(t: State, ws: seq<Write>, was: Rows, carryChecks: bool, env: seq<Between>)
    requires Wf(t) && ws != [] && |env| == |ws| && Writable(t, ws, was) && DistinctWrites(ws)
    requires forall w :: w in ws ==> Follows(t, w.key)
    ensures MadeInOrder(WriteOn(t, ws, was, carryChecks, env).made, ws, was)
    decreases |ws|, 0
  {
    assert ws[0] in ws;
    var w := ws[0];
    if MaySwap(t, w, was[w.key]) {
      var one := MakeWrite(t, w, was[w.key], carryChecks, env[0]);
      MakeWriteGrows(t, w, was[w.key], carryChecks, env[0]);
      FirstApart(ws);
      StillWritable(t, one.1, ws[1..], was);
      forall x | x in ws[1..] ensures Follows(one.1, x.key) { OthersFollow(t, w, was[w.key], carryChecks, env[0], x.key); }
      OneOverwritesIff(t, w, was[w.key], carryChecks, env[0]);
      OverwritesExactly(one.1, ws[1..], was, carryChecks, env[1..]);
      OneMoreInOrder(one.0, WritePhase(one.1, ws[1..], was, carryChecks, env[1..]).made, ws, was);
    }
  }

  // ----- Landed Changes

  /** The row write changes a row that has landed. */
  predicate MovesLanded(m: Made) {
    IsLanded(m.row.rows, m.write.key) && m.write.key in m.done.rows && m.done.rows[m.write.key] != m.row.rows[m.write.key]
  }

  /** From each row write on, what had landed stays as it was. */
  ghost predicate KeepsLanded(r: Phase) {
    forall m :: m in r.made ==> Frozen(m.row, r.state)
  }

  /** From `s` on, with some of the writes to come, no row of another key that has landed
      moves. */
  ghost predicate LandedStays(s: State, r: State, keys: set<Key>) {
    && s.rows.Keys <= r.rows.Keys && s.trunk <= r.trunk && s.repo <= r.repo
    && forall k :: k !in keys && IsLanded(s.rows, k) ==> k in r.rows && r.rows[k] == s.rows[k]
  }

  function KeysOf(ws: seq<Write>): set<Key> {
    set w | w in ws :: w.key
  }

  lemma StaysTrans(a: State, b: State, c: State, ks: set<Key>, ls: set<Key>)
    requires LandedStays(a, b, ks) && LandedStays(b, c, ls)
    ensures LandedStays(a, c, ks + ls)
  {
  }

  lemma RowStays(m: Made, was: Change)
    requires m.write.key in m.row.rows && m.done == MoveRow(m.row, m.write, was)
    ensures LandedStays(m.row, m.done, {m.write.key})
    ensures LandedStays(m.row, m.done, {}) <==> !MovesLanded(m)
  {
  }

  ghost predicate NoneMoves(made: seq<Made>) {
    forall m :: m in made ==> !MovesLanded(m)
  }

  /** What a phase does to landed rows: only the rows it writes can move, none does if no row
      write met a landed one, and from each row write on everything landed stays exactly
      then. */
  ghost predicate LandedExactly(s: State, ws: seq<Write>, r: Phase) {
    && LandedStays(s, r.state, KeysOf(ws))
    && (NoneMoves(r.made) ==> LandedStays(s, r.state, {}))
    && (KeepsLanded(r) <==> NoneMoves(r.made))
  }

  /** The same after one more write at the front. */
  lemma OneMoreExactly(t: State, m: Made, was: Change, x: State, ws: seq<Write>, rest: Phase)
    requires ws != [] && m.write == ws[0] && m.write.key in m.row.rows && m.done == MoveRow(m.row, m.write, was)
    requires LandedStays(t, m.row, {}) && LandedStays(m.done, x, {})
    requires LandedExactly(x, ws[1..], rest) && forall w :: w in ws[1..] ==> w.key != m.write.key
    ensures LandedExactly(t, ws, Phase(rest.state, [m] + rest.made))
  {
    var k, final := m.write.key, rest.state;
    RowStays(m, was);
    StaysTrans(m.done, x, final, {}, KeysOf(ws[1..]));
    StaysTrans(m.row, m.done, final, {k}, KeysOf(ws[1..]));
    StaysTrans(t, m.row, final, {}, {k} + KeysOf(ws[1..]));
    assert KeysOf(ws) == {k} + KeysOf(ws[1..]) by { assert ws == [ws[0]] + ws[1..]; }
    MadeSplit(m, rest.made);
    if MovesLanded(m) {
      assert k !in KeysOf(ws[1..]) && final.rows[k] == m.done.rows[k];
      assert !Frozen(m.row, final);
    } else if NoneMoves(rest.made) {
      StaysTrans(m.done, x, final, {}, {});
      StaysTrans(m.row, m.done, final, {}, {});
      StaysTrans(t, m.row, final, {}, {});
    }
    FrontKeeps(m, rest);
  }

  lemma MadeSplit(m: Made, made: seq<Made>)
    ensures NoneMoves([m] + made) <==> !MovesLanded(m) && NoneMoves(made)
  {
    assert forall x :: x in [m] + made <==> x == m || x in made;
  }

  lemma FrontKeeps(m: Made, rest: Phase)
    ensures KeepsLanded(Phase(rest.state, [m] + rest.made)) <==> Frozen(m.row, rest.state) && KeepsLanded(rest)
  {
    assert forall x :: x in [m] + rest.made <==> x == m || x in rest.made;
  }

  /** Whatever happens in between: from each row write on, everything that had landed stays as
      it was if and only if no row write met a landed Change and changed it.  Landing moves no
      ref, so no swap guards against that. */
  lemma {:induction false} KeepsLandedExactly(s: State, ws: seq<Write>, was: Rows, carryChecks: bool, env: seq<Between>)
    requires Wf(s) && |env| == |ws| && Writable(s, ws, was) && DistinctWrites(ws)
    ensures LandedExactly(s, ws, WritePhase(s, ws, was, carryChecks, env))
    decreases |ws|, 1
  {
    if ws != [] {
      var t := Meanwhile(s, env[0].ref);
      MeanwhileFrozen(s, env[0].ref);
      StillWritable(s, t, ws, was);
      KeepsLandedOn(t, ws, was, carryChecks, env);
      ExactlyBefore(s, t, ws, WriteOn(t, ws, was, carryChecks, env));
    }
  }

  lemma ExactlyBefore(s: State, t: State, ws: seq<Write>, r: Phase)
    requires Frozen(s, t) && LandedExactly(t, ws, r)
    ensures LandedExactly(s, ws, r)
  {
    StaysTrans(s, t, r.state, {}, KeysOf(ws));
    if NoneMoves(r.made) { StaysTrans(s, t, r.state, {}, {}); }
  }

  lemma {:induction false} KeepsLandedOn(t: State, ws: seq<Write>, was: Rows, carryChecks: bool, env: seq<Between>)
    requires Wf(t) && ws != [] && |env| == |ws| && Writable(t, ws, was) && DistinctWrites(ws)
    ensures LandedExactly(t, ws, WriteOn(t, ws, was, carryChecks, env))
    decreases |ws|, 0
  {
    assert ws[0] in ws;
    var w := ws[0];
    if MaySwap(t, w, was[w.key]) {
      var one := MakeWrite(t, w, was[w.key], carryChecks, env[0]);
      MakeWriteGrows(t, w, was[w.key], carryChecks, env[0]);
      FirstApart(ws);
      StillWritable(t, one.1, ws[1..], was);
      KeepsLandedExactly(one.1, ws[1..], was, carryChecks, env[1..]);
      OneMoreExactly(t, one.0, was[w.key], one.1, ws, WritePhase(one.1, ws[1..], was, carryChecks, env[1..]));
    }
  }

  // ----- Abandoned Changes

  /** An open origin names a workspace that is registered and not closed. */
  lemma RowKeepsLiveIff(t: State, w: Write, was: Change)
    requires LiveOrigins(t) && w.key in t.rows
    ensures LiveOrigins(MoveRow(t, w, was)) <==>
              (t.rows[w.key].status == Abandoned && t.rows[w.key].workspace != NONE ==> Live(t.spaces, t.rows[w.key].workspace))
  {
    var c, r := t.rows[w.key], MoveRow(t, w, was);
    if c.status == Abandoned && c.workspace != NONE && !Live(t.spaces, c.workspace) {
      assert IsOpen(r.rows, w.key) && r.rows[w.key].workspace == c.workspace;
    }
  }

  // ----- Nothing in between

  const CALM := Between([], [], [])

  function Calmly(n: nat): seq<Between> {
    seq(n, _ => CALM)
  }

  lemma CalmlyTail(n: nat)
    requires n > 0
    ensures Calmly(n)[0] == CALM && Calmly(n)[1..] == Calmly(n - 1)
  {
  }

  lemma CalmWrite(t: State, w: Write, was: Change, carryChecks: bool)
    requires Wf(t) && w.key in t.rows && Mintable(t.repo, w) && t.rows[w.key] == was
    ensures MakeWrite(t, w, was, carryChecks, CALM).1 == ApplyWrite(t, w, carryChecks)
  {
  }

  lemma LastApplied(s: State, ws: seq<Write>, w: Write, carryChecks: bool)
    requires WritesIn(s.rows, ws + [w])
    ensures WritesIn(s.rows, ws) && w.key in s.rows
    ensures Apply(s, ws + [w], carryChecks) == ApplyWrite(Apply(s, ws, carryChecks), w, carryChecks)
  {
    assert w in ws + [w] && forall x :: x in ws ==> x in ws + [w];
    assert (ws + [w])[..|ws|] == ws;
  }

  lemma {:induction false} FirstApplied(s: State, w: Write, ws: seq<Write>, carryChecks: bool)
    requires WritesIn(s.rows, [w] + ws)
    ensures w.key in s.rows && WritesIn(ApplyWrite(s, w, carryChecks).rows, ws)
    ensures Apply(s, [w] + ws, carryChecks) == Apply(ApplyWrite(s, w, carryChecks), ws, carryChecks)
    decreases |ws|
  {
    assert w in [w] + ws && forall x :: x in ws ==> x in [w] + ws;
    if ws == [] {
      assert [w] + ws == [] + [w];
      LastApplied(s, [], w, carryChecks);
    } else {
      var lower, last := ws[..|ws| - 1], ws[|ws| - 1];
      SplitLast(ws);
      assert [w] + ws == ([w] + lower) + [last];
      LastApplied(s, [w] + lower, last, carryChecks);
      FirstApplied(s, w, lower, carryChecks);
      LastApplied(ApplyWrite(s, w, carryChecks), lower, last, carryChecks);
    }
  }

  /** What the writes still need: their rows as planned, ref and row together. */
  ghost predicate AsPlanned(s: State, ws: seq<Write>, was: Rows) {
    forall w :: w in ws ==> w.key in s.rows && w.key in was && s.rows[w.key] == was[w.key] && Follows(s, w.key)
  }

  lemma StillPlanned(s: State, w: Write, ws: seq<Write>, was: Rows, carryChecks: bool)
    requires w.key in s.rows && AsPlanned(s, ws, was) && forall x :: x in ws ==> x.key != w.key
    ensures AsPlanned(ApplyWrite(s, w, carryChecks), ws, was)
  {
  }

  /** What one write in a calm phase leaves for the rest. */
  ghost predicate CalmlyOn(s: State, ws: seq<Write>, was: Rows, carryChecks: bool, x: State)
    requires WritesIn(s.rows, ws) && ws != []
  {
    && Wf(x) && Writable(x, ws[1..], was) && DistinctWrites(ws[1..]) && AsPlanned(x, ws[1..], was) && WritesIn(x.rows, ws[1..])
    && Apply(s, ws, carryChecks) == Apply(x, ws[1..], carryChecks)
  }

  lemma CalmNext(s: State, ws: seq<Write>, was: Rows, carryChecks: bool) returns (x: State)
    requires Wf(s) && ws != [] && Writable(s, ws, was) && DistinctWrites(ws) && AsPlanned(s, ws, was)
    ensures WritesIn(s.rows, ws) && CalmlyOn(s, ws, was, carryChecks, x)
    ensures ws[0] in ws && x == MakeWrite(s, ws[0], was[ws[0].key], carryChecks, CALM).1
  {
    var w := ws[0];
    assert w in ws && ws == [w] + ws[1..];
    FirstApart(ws);
    FirstApplied(s, w, ws[1..], carryChecks);
    CalmWrite(s, w, was[w.key], carryChecks);
    MakeWriteGrows(s, w, was[w.key], carryChecks, CALM);
    StillWritable(s, ApplyWrite(s, w, carryChecks), ws[1..], was);
    StillPlanned(s, w, ws[1..], was, carryChecks);
    x := ApplyWrite(s, w, carryChecks);
  }

  /** The phase from `s` is one write longer than the one from `x`. */
  ghost predicate OneLonger(s: State, x: State, ws: seq<Write>, was: Rows, carryChecks: bool)
    requires Wf(s) && Wf(x) && ws != [] && Writable(s, ws, was) && Writable(x, ws[1..], was)
  {
    var p, r := WritePhase(s, ws, was, carryChecks, Calmly(|ws|)), WritePhase(x, ws[1..], was, carryChecks, Calmly(|ws[1..]|));
    p.state == r.state && |p.made| == 1 + |r.made|
  }

  lemma CalmTurn(s: State, x: State, ws: seq<Write>, was: Rows, carryChecks: bool)
    requires Wf(s) && ws != [] && Writable(s, ws, was) && ws[0] in ws && MaySwap(s, ws[0], was[ws[0].key])
    requires x == MakeWrite(s, ws[0], was[ws[0].key], carryChecks, CALM).1 && Writable(x, ws[1..], was)
    ensures OneLonger(s, x, ws, was, carryChecks)
  {
    CalmlyTail(|ws|);
    assert Meanwhile(s, Calmly(|ws|)[0].ref) == s;
    assert WritePhase(s, ws, was, carryChecks, Calmly(|ws|)) == WriteOn(s, ws, was, carryChecks, Calmly(|ws|));
  }

  /** The calm phase makes every write, and leaves what writing them at once leaves. */
  ghost predicate WritesAll(s: State, ws: seq<Write>, was: Rows, carryChecks: bool)
    requires Wf(s) && Writable(s, ws, was) && WritesIn(s.rows, ws)
  {
    var r := WritePhase(s, ws, was, carryChecks, Calmly(|ws|));
    r.state == Apply(s, ws, carryChecks) && |r.made| == |ws|
  }

  lemma CalmJoin(s: State, x: State, ws: seq<Write>, was: Rows, carryChecks: bool)
    requires Wf(s) && ws != [] && Writable(s, ws, was) && WritesIn(s.rows, ws)
    requires CalmlyOn(s, ws, was, carryChecks, x) && OneLonger(s, x, ws, was, carryChecks)
    requires WritesAll(x, ws[1..], was, carryChecks)
    ensures WritesAll(s, ws, was, carryChecks)
  {
  }

  /** With nothing in between, the phase makes every write and leaves what the plan says. */
  lemma {:induction false} CalmPhase(s: State, ws: seq<Write>, was: Rows, carryChecks: bool)
    requires Wf(s) && Writable(s, ws, was) && DistinctWrites(ws) && AsPlanned(s, ws, was)
    ensures WritesIn(s.rows, ws) && WritesAll(s, ws, was, carryChecks)
    decreases |ws|
  {
    if ws != [] {
      var x := CalmNext(s, ws, was, carryChecks);
      CalmTurn(s, x, ws, was, carryChecks);
      CalmPhase(x, ws[1..], was, carryChecks);
      CalmJoin(s, x, ws, was, carryChecks);
    }
  }
}
