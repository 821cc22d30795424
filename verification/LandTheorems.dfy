/** What a land puts on trunk. */
module LandTheorems {
  import opened Changes
  import opened Git
  import opened Store
  import opened Receive
  import opened WellFormed
  import opened Sync
  import opened Landing
  import opened Runs
  import opened RunTheorems
  import opened LandStack

  /** In cell `c` the landed tree has the Change's content where the Change touched it and
      trunk's where it did not; both touching it is only possible with the same content. */
  ghost predicate CarriesDelta(base: Tree, tip: Tree, head: Tree, landed: Tree, c: Cell) {
    && At(landed, c) == (if At(head, c) != At(base, c) then At(head, c) else At(tip, c))
    && (At(head, c) != At(base, c) && At(tip, c) != At(base, c) ==> At(head, c) == At(tip, c))
  }

  /** `t` is `s` with `key` landed: one fresh commit on top of trunk, carrying the Change's
      delta, message and Change-Id; nothing else moves but that row and, perhaps, its workspace. */
  ghost predicate LandsOn(s: State, t: State, key: Key)
    requires KnownTips(s)
  {
    && IsOpen(s.rows, key)
    && var c, tip, sha := s.rows[key], Tip(s.trunk), |s.repo|;
       && t.trunk == s.trunk + [sha] && |t.repo| == sha + 1 && s.repo <= t.repo
       && t.repo[sha].parent == tip && SaysTheSame(s.repo[c.head], key, t.repo[sha])
       && (forall x :: CarriesDelta(s.repo[c.base].tree, s.repo[tip].tree, s.repo[c.head].tree, t.repo[sha].tree, x))
       && key in t.rows && t.rows == s.rows[key := t.rows[key]]
       && t.rows[key] == c.(status := Landed, landed := sha, forced := t.rows[key].forced)
       && t.refs == s.refs && t.review == s.review && t.log == s.log
       && t.spaces.Keys == s.spaces.Keys && forall w :: w in s.spaces && w != c.workspace ==> t.spaces[w] == s.spaces[w]
  }

  lemma LandTree(repo: Repo, trunk: seq<Sha>, c: Change, revalidate: bool)
    requires c.head < |repo| && c.base < |repo| && Tip(trunk) < |repo|
    ensures var o := Attempt(repo, trunk, c, revalidate);
            o.Lands? ==>
              && o.commit.parent == Tip(trunk) && SaysTheSame(repo[c.head], c.key, o.commit)
              && forall x :: CarriesDelta(repo[c.base].tree, repo[Tip(trunk)].tree, repo[c.head].tree, o.commit.tree, x)
  {
    var o := Attempt(repo, trunk, c, revalidate);
    if o.Lands? && Tip(trunk) != c.base {
      var base, tip, head := repo[c.base].tree, repo[Tip(trunk)].tree, repo[c.head].tree;
      forall x ensures CarriesDelta(base, tip, head, o.commit.tree, x) {
        assert !ConflictAt(base, tip, head, x);
        assert At(o.commit.tree, x) == MergedAt(base, tip, head, x);
      }
    }
  }

  /** A land request either changes nothing or lands the Change's own delta on the tip. */
  lemma LandReplaysDelta(s: State, r: LandRequest)
    requires KnownTips(s)
    ensures var t := LandChange(s, r); t == s || LandsOn(s, t, r.key)
  {
    if r.key in s.rows && MayLand(s, s.rows[r.key], r) {
      LandTree(s.repo, s.trunk, s.rows[r.key], r.revalidate && !r.force);
    }
  }

  /** Nothing in the way of the commit itself: a moved trunk needs a base, no pending
      revalidation, and no cell that both sides changed differently. */
  ghost predicate Clean(s: State, c: Change, revalidate: bool)
    requires KnownTips(s) && c.base < |s.repo| && c.head < |s.repo|
  {
    var tip := Tip(s.trunk);
    c.base == tip ||
    (tip != NONE && c.base != NONE && !revalidate
     && forall x :: At(s.repo[c.head].tree, x) != At(s.repo[c.base].tree, x)
          && At(s.repo[tip].tree, x) != At(s.repo[c.base].tree, x)
          ==> At(s.repo[c.head].tree, x) == At(s.repo[tip].tree, x))
  }

  ghost predicate WouldLand(s: State, r: LandRequest)
    requires KnownTips(s)
  {
    r.key in s.rows && MayLand(s, s.rows[r.key], r) && Clean(s, s.rows[r.key], r.revalidate && !r.force)
  }

  /** Exactly when a request lands its Change. */
  lemma LandsIff(s: State, r: LandRequest)
    requires KnownTips(s)
    ensures LandChange(s, r) != s <==> WouldLand(s, r)
  {
    if r.key in s.rows {
      AttemptIff(s, s.rows[r.key], r.revalidate && !r.force);
      LandReplaysDelta(s, r);
      if MayLand(s, s.rows[r.key], r) { GrowsTrunk(s, r); }
    }
  }

  lemma GrowsTrunk(s: State, r: LandRequest)
    requires KnownTips(s) && r.key in s.rows && MayLand(s, s.rows[r.key], r)
    ensures Attempt(s.repo, s.trunk, s.rows[r.key], r.revalidate && !r.force).Lands? ==>
              |LandChange(s, r).trunk| == |s.trunk| + 1
  {
  }

  lemma AttemptIff(s: State, c: Change, revalidate: bool)
    requires KnownTips(s) && c.base < |s.repo| && c.head < |s.repo|
    ensures Attempt(s.repo, s.trunk, c, revalidate).Lands? <==> Clean(s, c, revalidate)
  {
    MergeIff(s.repo[c.base].tree, s.repo[Tip(s.trunk)].tree, s.repo[c.head].tree);
  }

  lemma MergeIff(base: Tree, tip: Tree, head: Tree)
    ensures MergeTree(base, tip, head).Some? <==>
              forall x :: At(head, x) != At(base, x) && At(tip, x) != At(base, x) ==> At(head, x) == At(tip, x)
  {
    forall x ensures ConflictAt(base, tip, head, x) <==>
      !(At(head, x) != At(base, x) && At(tip, x) != At(base, x) ==> At(head, x) == At(tip, x)) {}
  }

  // ----- A whole stack

  /** Open Changes, each based on the head of the one before. */
  ghost predicate Linked(rows: Rows, chain: seq<Key>) {
    && NoDup(chain) && (forall i :: 0 <= i < |chain| ==> IsOpen(rows, chain[i]))
    && forall i :: 0 < i < |chain| ==> LinkedAt(rows, chain, i)
  }

  ghost predicate LinkedAt(rows: Rows, chain: seq<Key>, i: nat)
    requires 0 < i < |chain|
  {
    chain[i] in rows && chain[i - 1] in rows && rows[chain[i]].base == rows[chain[i - 1]].head
  }

  lemma LinkedTail(rows: Rows, after: Rows, chain: seq<Key>)
    requires Linked(rows, chain) && chain != [] && rows.Keys == after.Keys
    requires forall k :: k in rows && k != chain[0] ==> after[k] == rows[k]
    ensures Linked(after, chain[1..])
    ensures forall i :: 0 <= i < |chain| - 1 ==> chain[1..][i] in rows && after[chain[1..][i]] == rows[chain[i + 1]]
  {
    var tail := chain[1..];
    forall i | 0 <= i < |tail| ensures IsOpen(after, tail[i]) && after[tail[i]] == rows[tail[i]] {
      assert tail[i] == chain[i + 1] && IsOpen(rows, chain[i + 1]) && chain[i + 1] != chain[0];
    }
    forall i | 0 < i < |tail| ensures LinkedAt(after, tail, i) {
      assert LinkedAt(rows, chain, i + 1);
    }
  }

  lemma OneLands(s: State, key: Key, r: LandRequest)
    requires Wf(s) && IsOpen(s.rows, key)
    ensures KnownTips(s) && key in LandOne(s, key, r).rows
    ensures IsLanded(LandOne(s, key, r).rows, key) ==> LandsOn(s, LandOne(s, key, r), key)
  {
    WfKnown(s);
    LandReplaysDelta(s, Unforced(r, key));
  }

  /** Landing a member where trunk agrees with its base leaves the member's content. */
  lemma LandedContent(s: State, u: State, key: Key, c: Cell)
    requires KnownTips(s) && LandsOn(s, u, key)
    requires At(s.repo[Tip(s.trunk)].tree, c) == At(s.repo[s.rows[key].base].tree, c)
    ensures u.trunk != [] && Tip(u.trunk) < |u.repo| && |u.trunk| == |s.trunk| + 1
    ensures s.rows[key].head < |s.repo| && s.repo[s.rows[key].head] == u.repo[s.rows[key].head]
    ensures At(u.repo[Tip(u.trunk)].tree, c) == At(s.repo[s.rows[key].head].tree, c)
  {
    assert CarriesDelta(s.repo[s.rows[key].base].tree, s.repo[Tip(s.trunk)].tree, s.repo[s.rows[key].head].tree,
                        u.repo[|s.repo|].tree, c);
  }

  ghost predicate TipAgrees(s: State, x: Sha, c: Cell) {
    Tip(s.trunk) < |s.repo| && x < |s.repo| && At(s.repo[Tip(s.trunk)].tree, c) == At(s.repo[x].tree, c)
  }

  /** What happens before each member leaves the members still to come as they are, and the
      cell as trunk has it.  Nothing else is asked of it. */
  ghost predicate Undisturbed(s: State, chain: seq<Key>, request: (State, Key) -> LandRequest, env: seq<seq<Event>>, c: Cell)
    requires Wf(s) && |env| == |chain|
    decreases |chain|
  {
    chain == [] ||
    var t := After(s, env[0]);
    && Keeps(s, t, chain) && SameAtTip(s, t, c)
    && Undisturbed(LandOne(t, chain[0], request(t, chain[0])), chain[1..], request, env[1..], c)
  }

  ghost predicate Keeps(s: State, t: State, chain: seq<Key>) {
    forall k :: k in chain && k in s.rows ==> k in t.rows && t.rows[k] == s.rows[k]
  }

  ghost predicate SameAtTip(s: State, t: State, c: Cell) {
    Tip(s.trunk) < |s.repo| && Tip(t.trunk) < |t.repo|
    && At(t.repo[Tip(t.trunk)].tree, c) == At(s.repo[Tip(s.trunk)].tree, c)
  }

  /** The calm case: nothing happens between members. */
  lemma {:induction false} CalmUndisturbed(s: State, chain: seq<Key>, request: (State, Key) -> LandRequest, c: Cell)
    requires Wf(s)
    ensures Undisturbed(s, chain, request, Calm(|chain|), c)
    decreases |chain|
  {
    if chain != [] {
      CalmTail(|chain|);
      WfKnown(s);
      assert After(s, Calm(|chain|)[0]) == s;
      CalmUndisturbed(LandOne(s, chain[0], request(s, chain[0])), chain[1..], request, c);
    }
  }

  lemma CalmTail(n: nat)
    requires n > 0
    ensures Calm(n)[1..] == Calm(n - 1) && Calm(n)[0] == []
  {
  }

  lemma KeptLinked(s: State, t: State, chain: seq<Key>)
    requires Linked(s.rows, chain) && Keeps(s, t, chain)
    ensures Linked(t.rows, chain)
  {
    forall i | 0 <= i < |chain| ensures IsOpen(t.rows, chain[i]) && t.rows[chain[i]] == s.rows[chain[i]] {
      assert chain[i] in chain && IsOpen(s.rows, chain[i]);
    }
    forall i | 0 < i < |chain| ensures LinkedAt(t.rows, chain, i) { assert LinkedAt(s.rows, chain, i); }
  }

  lemma KeptAgrees(s: State, t: State, x: Sha, c: Cell)
    requires s.repo <= t.repo && SameAtTip(s, t, c) && TipAgrees(s, x, c)
    ensures TipAgrees(t, x, c)
  {
  }

  /** One turn of a sweep that does not stop. */
  lemma SweepFirst(t: State, u: State, chain: seq<Key>, request: (State, Key) -> LandRequest, later: seq<seq<Event>>)
    requires Wf(t) && chain != [] && |later| == |chain| - 1 && IsOpen(t.rows, chain[0])
    requires u == LandOne(t, chain[0], request(t, chain[0]))
    requires SweepFrom(t, chain, request, later).stopped.None?
    ensures KnownTips(t) && LandsOn(t, u, chain[0])
    ensures var rest := Sweep(u, chain[1..], request, later);
            SweepFrom(t, chain, request, later) == rest.(landed := [chain[0]] + rest.landed)
  {
    OneLands(t, chain[0], request(t, chain[0]));
  }

  ghost predicate LeftContent(s: State, chain: seq<Key>, r: Swept, c: Cell)
    requires chain != [] && chain[|chain| - 1] in s.rows
  {
    && r.landed == chain && |r.state.trunk| >= |s.trunk| + |chain|
    && s.repo <= r.state.repo && TipAgrees(r.state, s.rows[chain[|chain| - 1]].head, c)
  }

  lemma ContentOnwards(s: State, t: State, u: State, chain: seq<Key>, rest: Swept, c: Cell)
    requires |chain| > 1 && s.repo <= t.repo && |s.trunk| <= |t.trunk| && KnownTips(t) && LandsOn(t, u, chain[0])
    requires chain[1..][|chain| - 2] in u.rows && LeftContent(u, chain[1..], rest, c)
    requires chain[|chain| - 1] in s.rows && u.rows[chain[|chain| - 1]].head == s.rows[chain[|chain| - 1]].head
    ensures LeftContent(s, chain, rest.(landed := [chain[0]] + rest.landed), c)
  {
    LastOfTail(chain);
  }

  lemma FirstOfTail(u: State, rows: Rows, chain: seq<Key>, c: Cell)
    requires |chain| > 1 && Linked(rows, chain) && TipAgrees(u, rows[chain[0]].head, c)
    requires chain[1] in u.rows && u.rows[chain[1]] == rows[chain[1]]
    ensures chain[1..][0] == chain[1] && TipAgrees(u, u.rows[chain[1..][0]].base, c)
  {
    assert LinkedAt(rows, chain, 1);
  }

  lemma LastOfTail<T>(q: seq<T>)
    requires |q| > 1
    ensures q == [q[0]] + q[1..] && q[1..][|q| - 2] == q[|q| - 1]
  {
  }

  lemma OneOnly(s: State, t: State, u: State, key: Key, rest: Swept, c: Cell)
    requires KnownTips(t) && LandsOn(t, u, key) && s.repo <= t.repo && |s.trunk| <= |t.trunk|
    requires key in s.rows && s.rows[key] == t.rows[key]
    requires TipAgrees(t, t.rows[key].base, c) && rest == Swept(u, [], None)
    ensures LeftContent(s, [key], rest.(landed := [key] + rest.landed), c)
  {
    LandedContent(t, u, key, c);
  }

  /** Whatever happens between the members, as long as it leaves them and the cell alone:
      where trunk has not touched a cell since the stack's base, a sweep that lands the whole
      stack leaves there exactly what the stack's top has. */
  lemma {:induction false} SweepLandsContent(s: State, chain: seq<Key>, request: (State, Key) -> LandRequest, env: seq<seq<Event>>, c: Cell)
    requires Wf(s) && chain != [] && |env| == |chain| && Linked(s.rows, chain)
    requires TipAgrees(s, s.rows[chain[0]].base, c) && Undisturbed(s, chain, request, env, c)
    requires Sweep(s, chain, request, env).stopped.None?
    ensures LeftContent(s, chain, Sweep(s, chain, request, env), c)
    decreases |chain|
  {
    var t := After(s, env[0]);
    var u := LandOne(t, chain[0], request(t, chain[0]));
    LandedForever(s, env[0]);
    KeptLinked(s, t, chain);
    assert chain[0] in chain && t.rows[chain[0]] == s.rows[chain[0]];
    KeptAgrees(s, t, s.rows[chain[0]].base, c);
    SweepFirst(t, u, chain, request, env[1..]);
    var rest := Sweep(u, chain[1..], request, env[1..]);
    if |chain| == 1 {
      assert chain[1..] == [] && chain == [chain[0]];
      OneOnly(s, t, u, chain[0], rest, c);
    } else {
      SweepNext(s, t, u, chain, c);
      SweepLandsContent(u, chain[1..], request, env[1..], c);
      ContentOnwards(s, t, u, chain, rest, c);
    }
  }

  /** What the rest of the sweep starts from. */
  lemma SweepNext(s: State, t: State, u: State, chain: seq<Key>, c: Cell)
    requires |chain| > 1 && Linked(s.rows, chain) && Linked(t.rows, chain) && Keeps(s, t, chain)
    requires KnownTips(t) && LandsOn(t, u, chain[0]) && TipAgrees(t, t.rows[chain[0]].base, c)
    ensures Linked(u.rows, chain[1..]) && chain[1..][0] in u.rows && TipAgrees(u, u.rows[chain[1..][0]].base, c)
    ensures chain[1..][|chain| - 2] in u.rows && chain[|chain| - 1] in s.rows
    ensures u.rows[chain[|chain| - 1]].head == s.rows[chain[|chain| - 1]].head
  {
    LinkedTail(t.rows, u.rows, chain);
    LastOfTail(chain);
    LandedContent(t, u, chain[0], c);
    FirstOfTail(u, t.rows, chain, c);
    assert chain[|chain| - 1] in chain && IsOpen(s.rows, chain[|chain| - 1]);
  }
}
