/** Landing a whole stack bottom-up (runkod/landstack.go), with anything else happening to
    the daemon between two members. */
module LandStack {
  import opened Changes
  import opened Git
  import opened Stacks
  import opened Store
  import opened WellFormed
  import opened Receive
  import opened Landing
  import opened Runs
  import opened RunTheorems

  /** landed: the members this sweep landed, bottom-up; stopped: the member it gave up at. */
  datatype Swept = Swept(state: State, landed: seq<Key>, stopped: Option<Key>)

  /** A single land of `key`, never forced. */
  function Unforced(r: LandRequest, key: Key): LandRequest {
    r.(key := key, force := false)
  }

  /** One member: refetch it, skip it if it is already landed, otherwise try to land it. */
  ghost function LandOne(s: State, key: Key, r: LandRequest): (t: State)
    requires Wf(s)
    ensures Wf(t)
  {
    if key !in s.rows || s.rows[key].status == Landed then s
    else Step(s, LandEvent(Unforced(r, key)))
  }

  /** The sweep over `chain`; the events of `env[i]` happen just before member i. */
  ghost function Sweep(s: State, chain: seq<Key>, request: (State, Key) -> LandRequest, env: seq<seq<Event>>): (r: Swept)
    requires Wf(s) && |env| == |chain|
    ensures Wf(r.state)
    decreases |chain|, 1
  {
    if chain == [] then Swept(s, [], None) else SweepFrom(After(s, env[0]), chain, request, env[1..])
  }

  /** The first member, and the sweep of the others unless it will not land. */
  ghost function SweepFrom(t: State, chain: seq<Key>, request: (State, Key) -> LandRequest, later: seq<seq<Event>>): (r: Swept)
    requires Wf(t) && chain != [] && |later| == |chain| - 1
    ensures Wf(r.state)
    decreases |chain|, 0
  {
    var key := chain[0];
    var u := LandOne(t, key, request(t, key));
    if key in u.rows && u.rows[key].status != Landed then Swept(u, [], Some(key))
    else
      Took(t, key, Sweep(u, chain[1..], request, later))
  }

  /** The rest of a sweep, and the member that landed first unless it had landed before. */
  ghost function Took(t: State, key: Key, rest: Swept): Swept {
    if key in t.rows && t.rows[key].status != Landed then rest.(landed := [key] + rest.landed) else rest
  }

  /** Nothing else happens between the members. */
  ghost function Calm(n: nat): seq<seq<Event>> {
    seq(n, _ => [])
  }

  /** Everything below the stop is landed; what the sweep landed lies below it, in order. */
  ghost predicate BottomUp(s: State, chain: seq<Key>, r: Swept) {
    exists n: nat :: n <= |chain| && StopsAt(s, chain, r, n)
  }

  ghost predicate StopsAt(s: State, chain: seq<Key>, r: Swept, n: nat)
    requires n <= |chain|
  {
    && (r.stopped == if n < |chain| then Some(chain[n]) else None)
    && (n < |chain| ==> !IsLanded(r.state.rows, chain[n]))
    && (forall k :: k in chain[..n] && k in s.rows ==> IsLanded(r.state.rows, k))
    && (forall k :: k in r.landed ==> k in chain[..n] && IsLanded(r.state.rows, k) && !IsLanded(s.rows, k))
  }

  lemma LandOneFrozen(s: State, key: Key, r: LandRequest)
    requires Wf(s)
    ensures Frozen(s, LandOne(s, key, r))
  {
    if key in s.rows && s.rows[key].status != Landed { StepFrozen(s, LandEvent(Unforced(r, key))); }
  }

  lemma FrozenTrans(a: State, b: State, c: State)
    requires Frozen(a, b) && Frozen(b, c)
    ensures Frozen(a, c)
  {
  }

  /** However the daemon is used in between, a sweep that stops at a member has everything
      below it landed and has landed nothing from there up. */
  lemma {:induction false} SweepBottomUp(s: State, chain: seq<Key>, request: (State, Key) -> LandRequest, env: seq<seq<Event>>)
    requires Wf(s) && |env| == |chain|
    ensures var r := Sweep(s, chain, request, env); Frozen(s, r.state) && BottomUp(s, chain, r)
    decreases |chain|, 1
  {
    if chain == [] {
      assert StopsAt(s, chain, Sweep(s, chain, request, env), 0);
    } else {
      var t := After(s, env[0]);
      LandedForever(s, env[0]);
      FromBottomUp(t, chain, request, env[1..]);
      FrozenBefore(s, t, chain, SweepFrom(t, chain, request, env[1..]));
    }
  }

  lemma {:induction false} FromBottomUp(t: State, chain: seq<Key>, request: (State, Key) -> LandRequest, later: seq<seq<Event>>)
    requires Wf(t) && chain != [] && |later| == |chain| - 1
    ensures var r := SweepFrom(t, chain, request, later); Frozen(t, r.state) && BottomUp(t, chain, r)
    decreases |chain|, 0
  {
    var key := chain[0];
    var u := LandOne(t, key, request(t, key));
    LandOneFrozen(t, key, request(t, key));
    if key in u.rows && u.rows[key].status != Landed {
      assert StopsAt(t, chain, Swept(u, [], Some(key)), 0);
    } else {
      var rest := Sweep(u, chain[1..], request, later);
      SweepBottomUp(u, chain[1..], request, later);
      SweepOn(t, u, chain, rest);
    }
  }

  /** What happened before the sweep started takes nothing away from it. */
  lemma FrozenBefore(s: State, t: State, chain: seq<Key>, r: Swept)
    requires Frozen(s, t) && Frozen(t, r.state) && BottomUp(t, chain, r)
    ensures Frozen(s, r.state) && BottomUp(s, chain, r)
  {
    var n: nat :| n <= |chain| && StopsAt(t, chain, r, n);
    assert StopsAt(s, chain, r, n);
  }

  lemma SweepOn(t: State, u: State, chain: seq<Key>, rest: Swept)
    requires chain != [] && Frozen(t, u) && Frozen(u, rest.state) && BottomUp(u, chain[1..], rest)
    requires chain[0] in u.rows ==> u.rows[chain[0]].status == Landed
    ensures Frozen(t, Took(t, chain[0], rest).state) && BottomUp(t, chain, Took(t, chain[0], rest))
  {
    var n: nat :| n <= |chain[1..]| && StopsAt(u, chain[1..], rest, n);
    StopsOn(t, u, chain, rest, n);
  }

  lemma StopsOn(t: State, u: State, chain: seq<Key>, rest: Swept, n: nat)
    requires chain != [] && Frozen(t, u) && Frozen(u, rest.state)
    requires n <= |chain[1..]| && StopsAt(u, chain[1..], rest, n)
    requires chain[0] in u.rows ==> u.rows[chain[0]].status == Landed
    ensures StopsAt(t, chain, Took(t, chain[0], rest), n + 1)
  {
    var key := chain[0];
    assert chain[..n + 1] == [key] + chain[1..][..n];
    assert n + 1 < |chain| ==> chain[n + 1] == chain[1..][n];
    assert forall k :: k in t.rows ==> k in u.rows;
    assert key in u.rows ==> IsLanded(rest.state.rows, key);
  }

  // ----- The chain

  /** `chain` leads down from `key`: each member is the open Change whose head is the next
      one's base, none repeats, and the walk could not go on. */
  ghost predicate AncestorChain(rows: Rows, key: Key, chain: seq<Key>) {
    && LeadsDown(rows, key, chain)
    && (forall p :: IsOpen(rows, p) && rows[p].head == rows[chain[0]].base ==> p in chain)
  }

  ghost predicate LeadsDown(rows: Rows, key: Key, chain: seq<Key>) {
    && |chain| > 0 && chain[|chain| - 1] == key && NoDup(chain)
    && (forall k :: k in chain ==> k in rows)
    && (forall i :: 0 <= i < |chain| - 1 ==>
          IsOpen(rows, chain[i]) && rows[chain[i]].head == rows[chain[i + 1]].base)
  }

  lemma OneFurtherDown(rows: Rows, key: Key, chain: seq<Key>, parent: Key)
    requires LeadsDown(rows, key, chain) && parent !in chain
    requires IsOpen(rows, parent) && rows[parent].head == rows[chain[0]].base
    ensures LeadsDown(rows, key, [parent] + chain)
  {
  }

  /** landStackCore's chain walk over the open listing. */
  method WalkChain(repo: Repo, rows: Rows, open: seq<Change>, key: Key) returns (chain: seq<Key>)
    requires GoodRows(repo, rows) && KeyedRows(rows) && key in rows && open == OpenRows(rows)
    ensures AncestorChain(rows, key, chain)
  {
    var byHead := IndexHeads(open);
    forall s | s in byHead ensures IsOpen(rows, byHead[s].key) && rows[byHead[s].key] == byHead[s] && byHead[s].head == s {
      InOpenRows(rows, byHead[s]);
    }
    chain := [key];
    var seen := {key};
    while rows[chain[0]].base in byHead && byHead[rows[chain[0]].base].key !in seen
      invariant LeadsDown(rows, key, chain) && forall k :: k in seen <==> k in chain
      decreases rows.Keys - seen
    {
      var parent := byHead[rows[chain[0]].base].key;
      OneFurtherDown(rows, key, chain, parent);
      seen := seen + {parent};
      chain := [parent] + chain;
    }
    forall p | IsOpen(rows, p) && rows[p].head == rows[chain[0]].base ensures p in chain {
      Owned(repo, rows, open, byHead, p);
    }
  }

  /** An open Change is what its head maps to. */
  lemma Owned(repo: Repo, rows: Rows, open: seq<Change>, byHead: map<Sha, Change>, p: Key)
    requires GoodRows(repo, rows) && KeyedRows(rows) && open == OpenRows(rows) && IsOpen(rows, p)
    requires forall s :: s in byHead <==> OwnerOf(open, s).Some?
    requires forall s :: s in byHead ==> IsOpen(rows, byHead[s].key) && rows[byHead[s].key].head == s
    ensures rows[p].head in byHead && byHead[rows[p].head].key == p
  {
    InOpenRows(rows, rows[p]);
    assert GoodRow(repo, p, rows[p]);
    HeadsDistinct(repo, rows, p, byHead[rows[p].head].key);
  }
}
