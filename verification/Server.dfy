/** The daemon's loops.  A server keeps the store in fields and updates them step by step;
    each method is proved to leave exactly the state its specification says. */
module Server {
  import opened Changes
  import opened Stacks
  import opened Git
  import opened Store
  import opened Carry
  import opened Receive
  import opened WellFormed
  import opened Sync
  import opened SyncStack
  import opened SyncClean
  import opened Landing
  import opened Owners
  import opened Policy
  import opened MergeGate
  import opened ReviewLaw
  import opened Cone
  import opened Runs
  import opened LandStack

  lemma AliveOpen(all: seq<Change>, key: Key)
    requires forall c :: c in all ==> c.status == Open
    ensures Alive(all, key) == all
  {
    if all != [] {
      var n := |all| - 1;
      SplitLast(all);
      AliveOpen(all[..n], key);
    }
  }

  lemma WalkTurn(repo: Repo, walk: seq<Sha>, i: nat)
    requires i < |walk| && InRepo(repo, walk[i..])
    ensures InRepo(repo, walk[i + 1..]) && 0 < walk[i] < |repo|
    ensures walk[i..][0] == walk[i] && walk[i..][1..] == walk[i + 1..]
  {
    assert walk[i..][0] in walk[i..];
    var t, u := walk[i..], walk[i + 1..];
    assert forall j :: 0 <= j < |u| ==> u[j] == t[j + 1] && u[j] in t;
  }

  /** A plan that stopped early stays stopped. */
  lemma {:induction false} PlanStops(repo: Repo, rows: Rows, tip: Sha, ks: seq<Key>, i: nat)
    requires ValidRepo(repo) && GoodRows(repo, rows) && 0 < tip < |repo|
    requires (forall k :: k in ks ==> k in rows) && i <= |ks| && (forall k :: k in ks[..i] ==> k in rows)
    requires !PlanFor(repo, rows, tip, ks[..i]).Planned?
    ensures PlanFor(repo, rows, tip, ks) == PlanFor(repo, rows, tip, ks[..i])
    decreases |ks|
  {
    if i < |ks| {
      PlanPrefix(repo, rows, tip, ks);
      SliceOfSlice(ks, i);
      PlanStops(repo, rows, tip, ks[..|ks| - 1], i);
    } else {
      WholeSlice(ks, i);
    }
  }

  lemma SliceOfSlice(ks: seq<Key>, i: nat)
    requires i < |ks|
    ensures ks[..|ks| - 1][..i] == ks[..i]
  {
  }

  lemma WholeSlice(ks: seq<Key>, n: nat)
    requires n == |ks|
    ensures ks[..n] == ks
  {
  }

  ghost predicate FromRows(rows: Rows, chain: seq<Change>) {
    forall c :: c in chain ==> c.key in rows && rows[c.key] == c
  }

  lemma FromRowsKeys(rows: Rows, chain: seq<Change>)
    requires FromRows(rows, chain)
    ensures forall k :: k in Stacks.Keys(chain) ==> k in rows
  {
    forall k | k in Stacks.Keys(chain) ensures k in rows {
      var i :| 0 <= i < |chain| && Stacks.Keys(chain)[i] == k;
      assert chain[i] in chain;
    }
  }

  /** A key-ordered list of exactly the open rows is the listing. */
  lemma ListingUnique(rows: Rows, q: seq<Change>)
    requires KeyedRows(rows) && Sorted(q)
    requires forall c :: c in q <==> c.key in rows && rows[c.key] == c && c.status == Open
    ensures q == OpenRows(rows)
  {
    var ks := OpenKeys(rows);
    forall k ensures k in Stacks.Keys(q) <==> k in ks {
      if k in Stacks.Keys(q) {
        var i :| 0 <= i < |q| && q[i].key == k;
        assert q[i] in q;
      }
      if k in ks {
        assert rows[k] in q;
        var i :| 0 <= i < |q| && q[i] == rows[k];
        assert Stacks.Keys(q)[i] == k;
      }
    }
    AscendingUnique(Stacks.Keys(q), ks);
    forall i | 0 <= i < |q| ensures q[i] == OpenRows(rows)[i] {
      assert q[i] in q && Stacks.Keys(q)[i] == q[i].key;
    }
  }

  // ----- Landing a stack

  /** What the sweep does from member i on. */
  ghost function Left(s: State, chain: seq<Key>, i: nat, request: (State, Key) -> LandRequest): Swept
    requires Wf(s) && i <= |chain|
  {
    Sweep(s, chain[i..], request, Calm(|chain| - i))
  }

  /** One member at a time. */
  lemma SweepTurn(s: State, chain: seq<Key>, i: nat, request: (State, Key) -> LandRequest)
    requires Wf(s) && i < |chain|
    ensures var u := LandOne(s, chain[i], request(s, chain[i]));
            Left(s, chain, i, request) ==
              if chain[i] in u.rows && u.rows[chain[i]].status != Landed then Swept(u, [], Some(chain[i]))
              else Took(s, chain[i], Left(u, chain, i + 1, request))
  {
    var env := Calm(|chain| - i);
    assert env[1..] == Calm(|chain| - (i + 1)) && env[0] == [];
    assert chain[i..][0] == chain[i] && chain[i..][1..] == chain[i + 1..];
    assert After(s, env[0]) == s;
    assert Left(s, chain, i, request) == SweepFrom(s, chain[i..], request, Calm(|chain| - (i + 1)));
  }

  /** What is left of a sweep, below the members it has landed already. */
  ghost predicate SweptSoFar(whole: Swept, rest: Swept, landed: seq<Key>) {
    whole == rest.(landed := landed + rest.landed)
  }

  lemma SweptOneMore(whole: Swept, rest: Swept, next: Swept, landed: seq<Key>, add: seq<Key>)
    requires SweptSoFar(whole, rest, landed) && rest == next.(landed := add + next.landed)
    ensures SweptSoFar(whole, next, landed + add)
  {
    assert landed + (add + next.landed) == (landed + add) + next.landed;
  }

  /** What one turn of attemptLand reads, and whether trunk moves before its
      compare-and-swap. */
  datatype TrunkView = TrunkView(repo: Repo, trunk: seq<Sha>, raced: bool)

  predicate Fits(v: TrunkView, c: Change) {
    c.head < |v.repo| && c.base < |v.repo| && Tip(v.trunk) < |v.repo|
  }

  ghost predicate LosesRace(v: TrunkView, c: Change, revalidate: bool) {
    Fits(v, c) && v.raced && Attempt(v.repo, v.trunk, c, revalidate).Lands?
  }

  class Server {
    var repo: Repo
    var trunk: seq<Sha>
    var rows: Rows
    var refs: map<Key, Sha>
    var review: Review
    var spaces: map<Name, Workspace>
    ghost var log: Log

    ghost function View(): State
      reads this
    {
      State(repo, trunk, rows, refs, review, spaces, log)
    }

    // ----- Receiving a push

    /** seriesMembers, over a repository `git` that includes the quarantined commits. */
    method SeriesMembers(git: Repo, tip: Sha) returns (members: seq<Member>)
      requires ValidRepo(git) && 0 < tip < |git|
      ensures members == Series(git, trunk, rows, tip)
    {
      var walk := RevList(git, trunk, tip, STACK_WALK_LIMIT);
      if walk == [] { return [Member(tip, IdOf(git, tip))]; }
      var seen: set<Key> := {};
      var topDown: seq<Member> := [];
      assert walk[0..] == walk;
      for i := 0 to |walk|
        invariant InRepo(git, walk[i..])
        invariant topDown + TopDown(git, rows, tip, walk[i..], seen) == TopDown(git, rows, tip, walk, {})
      {
        var sha := walk[i];
        WalkTurn(git, walk, i);
        ghost var before := topDown;
        var id := if sha == tip then IdOf(git, tip) else git[sha].trailer;
        if id != NONE && id !in seen {
          if sha == tip || !IsLanded(rows, id) {
            topDown := topDown + [Member(sha, id)];
          }
          seen := seen + {id};
        }
        TurnOrder(before, topDown, TopDown(git, rows, tip, walk[i + 1..], seen));
      }
      assert walk[|walk|..] == [];
      assert topDown + [] == topDown;
      members := BottomUp(topDown);
    }

    method BottomUp(topDown: seq<Member>) returns (members: seq<Member>)
      ensures members == Reverse(topDown)
    {
      members := [];
      var n := |topDown|;
      while n > 0
        invariant 0 <= n <= |topDown|
        invariant members == Reverse(topDown)[..|topDown| - n]
      {
        n := n - 1;
        members := members + [topDown[n]];
      }
    }

    /** nearestPendingChangeBase. */
    method NearestPendingChangeBase(git: Repo, sha: Sha, id: Key) returns (base: Option<Sha>)
      requires ValidRepo(git) && 0 < sha < |git|
      ensures base == Nearest(git, rows.Keys, RevList(git, trunk, git[sha].parent, STACK_WALK_LIMIT), id)
    {
      var walk := RevList(git, trunk, git[sha].parent, STACK_WALK_LIMIT);
      assert walk[0..] == walk;
      for i := 0 to |walk|
        invariant InRepo(git, walk[i..])
        invariant Nearest(git, rows.Keys, walk[i..], id) == Nearest(git, rows.Keys, walk, id)
      {
        WalkTurn(git, walk, i);
        var key := git[walk[i]].trailer;
        if key != NONE && key != id && key in rows { return Some(walk[i]); }
      }
      assert walk[|walk|..] == [];
      base := None;
    }

    method ComputeBaseSHA(git: Repo, sha: Sha, id: Key) returns (base: Sha)
      requires ValidRepo(git) && 0 < sha < |git|
      ensures base == ComputeBase(git, trunk, rows.Keys, sha, id)
    {
      var near := NearestPendingChangeBase(git, sha, id);
      base := if near.Some? then near.value else MergeBase(git, trunk, sha);
    }

    /** enforceOneStackPerBranch: every open Change of the branch must ride along. */
    method EnforceOneStackPerBranch(members: seq<Member>, ws: Name, branch: Name) returns (ok: bool)
      ensures ok <==> CarriesBranch(rows, members, ws, branch)
    {
      var inSeries: set<Key> := {};
      for i := 0 to |members|
        invariant forall k :: k in inSeries <==> exists m :: m in members[..i] && m.id == k
      {
        assert members[..i + 1] == members[..i] + [members[i]];
        inSeries := inSeries + {members[i].id};
      }
      assert members[..|members|] == members;
      var todo := rows.Keys;
      while todo != {}
        invariant todo <= rows.Keys
        invariant forall k :: k in rows && k !in todo && FromBranch(rows[k], ws, branch) ==> k in inSeries
      {
        var k :| k in todo;
        if FromBranch(rows[k], ws, branch) && k !in inSeries { return false; }
        todo := todo - {k};
      }
      ok := true;
    }

    /** carryForwardTrivialRebase. */
    method CarryForwardTrivialRebase(key: Key, from: Sha, to: Sha, carryChecks: bool, required: set<Name>)
      returns (covered: bool)
      modifies this`review
      ensures review == CarryForward(old(review), key, from, to, carryChecks)
      ensures covered == Covered(review, key, to, carryChecks, required)
    {
      if key in review.approvals {
        var approvals := review.approvals[key];
        var listed := approvals;
        var todo := approvals.Keys;
        while todo != {}
          invariant todo <= approvals.Keys == listed.Keys
          invariant forall o :: o in todo ==> approvals[o] == listed[o]
          invariant forall o :: o in approvals && o !in todo ==>
                      approvals[o] == if listed[o].head == from then Approval(listed[o].approver, to) else listed[o]
        {
          var o :| o in todo;
          if listed[o].head == from {
            approvals := approvals[o := Approval(listed[o].approver, to)];
          }
          todo := todo - {o};
        }
        assert approvals == MoveApprovals(listed, from, to);
        review := review.(approvals := review.approvals[key := approvals]);
      }
      if !carryChecks { return false; }
      CopyPassingCheckRuns(key, from, to);
      covered := true;
      var todo := required;
      while todo != {}
        invariant todo <= required
        invariant covered <==> forall n :: n in required && n !in todo ==> Green(review.runs, key, to, n)
      {
        var n :| n in todo;
        if !Green(review.runs, key, to, n) { covered := false; }
        todo := todo - {n};
      }
    }

    /** CopyPassingCheckRuns: green runs move along unless the new head has one already. */
    method CopyPassingCheckRuns(key: Key, from: Sha, to: Sha)
      modifies this`review
      ensures review == old(review).(runs := CopyPassing(old(review.runs), key, from, to))
    {
      var source := RunsAt(review.runs, key, from);
      var taken := RunsAt(review.runs, key, to);
      var target := taken;
      var todo := source.Keys;
      while todo != {}
        invariant todo <= source.Keys
        invariant forall n :: n in target <==> n in taken || (n in source && n !in todo && source[n] == Passing)
        invariant forall n :: n in target ==> target[n] == if n in taken then taken[n] else source[n]
      {
        var n :| n in todo;
        if source[n] == Passing && n !in target { target := target[n := source[n]]; }
        todo := todo - {n};
      }
      assert target == (map n | n in source && source[n] == Passing :: source[n]) + taken;
      review := review.(runs := review.runs[(key, to) := target]);
    }

    /** One turn of commit's loop. */
    method CommitMember(p: Push, m: Member)
      requires ValidRepo(repo) && 0 < m.sha < |repo|
      modifies this
      ensures View() == RecordMember(old(View()), p, m)
    {
      refs := refs[m.id := m.sha];
      var base := ComputeBaseSHA(repo, m.sha, m.id);
      var known := m.id in rows;
      var was := if known then rows[m.id] else Change(m.id, Open, NONE, NONE, NONE, false, NONE, NONE, NONE);
      var carried := known && CarriesFrom(repo, was, base, m.sha);
      rows := rows[m.id := Upserted(rows, m.id, base, m.sha, p.author, p.workspace, BranchOf(p))];
      var covered := false;
      if carried {
        covered := CarryForwardTrivialRebase(m.id, was.head, m.sha, p.carryChecks, RequiredOf(p.required, m.id));
      }
      if m.id in p.findings && !(covered && Green(review.runs, m.id, m.sha, AGENT_POLICY)) {
        review := review.(runs := PutRun(review.runs, m.id, m.sha, AGENT_POLICY, Failing));
      }
      log := log.(
        versions := log.versions + {(m.id, Version(base, m.sha))},
        found := if m.id in p.findings then log.found + {(m.id, m.sha)} else log.found);
    }

    /** commit: records the members bottom-up. */
    method CommitMembers(p: Push, members: seq<Member>)
      requires ValidRepo(repo) && InRepoMembers(repo, members)
      modifies this
      ensures View() == Record(old(View()), p, members)
    {
      assert members[..0] == [];
      for i := 0 to |members|
        invariant ValidRepo(repo) && repo == old(repo)
        invariant InRepoMembers(repo, members[..i])
        invariant View() == Record(old(View()), p, members[..i])
      {
        assert members[i] in members && members[..i + 1][..i] == members[..i];
        assert forall m :: m in members[..i + 1] ==> m in members;
        CommitMember(p, members[i]);
      }
      assert members[..|members|] == members;
    }

    /** ProcessBatch for one ref: evaluate, and record only what was accepted. */
    method ReceivePush(p: Push) returns (accepted: bool)
      modifies this
      ensures accepted == Accepted(old(View()), p)
      ensures View() == Receive.ReceivePush(old(View()), p)
    {
      var git := repo + p.objects;
      if !(ValidRepo(git) && 0 < p.tip < |git| && p.allowed) { return false; }
      if p.workspace == NONE {
        if trunk != [] { return false; }
      } else {
        if p.workspace !in spaces { return false; }
        var ws := spaces[p.workspace];
        if p.author != NONE && ws.owner != NONE && p.author != ws.owner { return false; }
        if ws.closed { return false; }
      }
      if IsLanded(rows, IdOf(git, p.tip)) { return false; }
      var members := SeriesMembers(git, p.tip);
      if p.workspace != NONE {
        var ok := EnforceOneStackPerBranch(members, p.workspace, BranchOf(p));
        if !ok { return false; }
      }
      SeriesInRepo(git, trunk, rows, p.tip);
      repo := git;
      log := log.(tips := log.tips[(p.workspace, BranchOf(p)) := p.tip]);
      CommitMembers(p, members);
      accepted := true;
    }

    // ----- Syncing a stack

    /** ListChanges("open"), in key order. */
    method ListOpen() returns (open: seq<Change>)
      requires KeyedRows(rows)
      ensures open == OpenRows(rows)
    {
      open := [];
      var todo := rows.Keys;
      while todo != {}
        invariant todo <= rows.Keys && Sorted(open)
        invariant forall c :: c in open <==> c.key in rows && c.key !in todo && rows[c.key] == c && c.status == Open
      {
        var k :| k in todo;
        if rows[k].status == Open { open := InsertByKey(open, rows[k]); }
        todo := todo - {k};
      }
      ListingUnique(rows, open);
    }

    /** The stack syncChangeCore works on. */
    method ListStack(key: Key) returns (chain: seq<Change>)
      requires Wf(View()) && IsOpen(rows, key)
      ensures Stacks.Keys(chain) == StackKeys(View(), key) && FromRows(rows, chain)
    {
      GoodKeyed(repo, rows);
      var open := ListOpen();
      OpenDistinct(rows);
      InOpenRows(rows, rows[key]);
      forall c | c in open ensures c.status == Open { InOpenRows(rows, c); }
      AliveOpen(open, key);
      var position: nat;
      chain, position := StackForChange(open, rows[key]);
      forall c | c in chain ensures c.key in rows && rows[c.key] == c { InOpenRows(rows, c); }
    }

    /** The compute phase: every member rebased in memory, parents before children, refs and
        rows left alone. */
    method ComputePlan(chain: seq<Change>, tip: Sha) returns (plan: Plan)
      requires ValidRepo(repo) && GoodRows(repo, rows) && 0 < tip < |repo| && FromRows(rows, chain)
      ensures forall k :: k in Stacks.Keys(chain) ==> k in rows
      ensures plan == PlanFor(repo, rows, tip, Stacks.Keys(chain))
    {
      ghost var ks := Stacks.Keys(chain);
      FromRowsKeys(rows, chain);
      var git, writes := repo, [];
      var newHeadByOldHead: map<Sha, Sha> := map[];
      assert ks[..0] == [];
      for i := 0 to |chain|
        invariant forall k :: k in ks[..i] ==> k in rows
        invariant PlanFor(repo, rows, tip, ks[..i]) == Planned(git, writes, newHeadByOldHead)
      {
        var m := chain[i];
        assert ks[i] in ks && m in chain && m == rows[ks[i]];
        PlanNext(repo, rows, tip, ks, i);
        if m.base == NONE {
          PlanStops(repo, rows, tip, ks, i + 1);
          return NoBase(git, m.key);
        }
        var newBase := if m.base in newHeadByOldHead then newHeadByOldHead[m.base] else tip;
        if m.base == newBase {
          newHeadByOldHead := newHeadByOldHead[m.head := m.head];
        } else {
          var rebased := MergeTree(git[m.base].tree, git[newBase].tree, git[m.head].tree);
          if rebased.None? {
            PlanStops(repo, rows, tip, ks, i + 1);
            return Conflict(git, m.key, ConflictCells(git[m.base].tree, git[newBase].tree, git[m.head].tree));
          }
          var newHead := |git|;
          var message := WithTrailer(git, m.head, m.key);
          git := git + [Commit(newBase, m.key, message, rebased.value)];
          newHeadByOldHead := newHeadByOldHead[m.head := newHead];
          writes := writes + [Write(m.key, newBase, newHead)];
        }
      }
      WholeSlice(ks, |chain|);
      plan := Planned(git, writes, newHeadByOldHead);
    }

    /** syncChangeCore: a compute phase that moves nothing, then a write phase. */
    method SyncChange(key: Key, carryChecks: bool) returns (outcome: SyncOutcome)
      requires Wf(View())
      modifies this
      ensures View() == Sync.SyncChange(old(View()), key, carryChecks)
      ensures outcome.NotOpen? <==> !IsOpen(old(rows), key)
      ensures outcome.NotOpen? || old(trunk) == [] ==> View() == old(View())
      ensures IsOpen(old(rows), key) && old(trunk) == [] ==> outcome.AlreadyInSync?
      ensures IsOpen(old(rows), key) && old(trunk) != [] ==>
                Answers(old(View()), StackKeys(old(View()), key), outcome, View())
    {
      if key !in rows || rows[key].status != Open { return NotOpen; }
      if trunk == [] { return AlreadyInSync; }
      var chain := ListStack(key);
      ghost var ks := SyncOnMembers(View(), key, carryChecks);
      SyncAnswers(View(), ks, carryChecks);
      outcome := SyncStackOf(chain, carryChecks, ks);
    }

    method SyncStackOf(chain: seq<Change>, carryChecks: bool, ghost ks: seq<Key>) returns (outcome: SyncOutcome)
      requires Wf(View()) && trunk != [] && FromRows(rows, chain) && ks == Stacks.Keys(chain)
      requires Listed(rows, ks) && forall k :: k in ks ==> IsOpen(rows, k)
      modifies this
      ensures View() == SyncMembers(old(View()), ks, carryChecks)
      ensures outcome == AnswerOf(PlanFor(old(repo), old(rows), Tip(old(trunk)), ks))
    {
      var plan := ComputePlan(chain, trunk[|trunk| - 1]);
      PlanWrites(repo, rows, Tip(trunk), ks);
      repo := plan.repo;
      match plan {
        case NoBase(_, stopped) => outcome := NoRecordedBase(stopped);
        case Conflict(_, stopped, cells) => outcome := Conflicted(stopped, cells);
        case Planned(_, writes, _) =>
          ApplyWrites(writes, carryChecks);
          outcome := if writes == [] then AlreadyInSync else Synced;
      }
    }

    /** The write phase: each ref moves with a compare-and-swap against the head the plan
        was computed from, and its row with it. */
    method ApplyWrites(writes: seq<Write>, carryChecks: bool)
      requires WritesIn(rows, writes)
      modifies this
      ensures View() == Apply(old(View()), writes, carryChecks)
    {
      ghost var start := View();
      assert writes[..0] == [];
      for i := 0 to |writes|
        invariant WritesIn(start.rows, writes[..i])
        invariant View() == Apply(start, writes[..i], carryChecks)
      {
        var w := writes[i];
        assert w in writes && writes[..i + 1] == writes[..i] + [w] && writes[..i + 1][..i] == writes[..i];
        MoveMember(w, carryChecks);
      }
      assert writes[..|writes|] == writes;
    }

    method MoveMember(w: Write, carryChecks: bool)
      requires w.key in rows
      modifies this
      ensures View() == ApplyWrite(old(View()), w, carryChecks)
    {
      var was := rows[w.key];
      refs := refs[w.key := w.head];
      rows := rows[w.key := Upserted(rows, w.key, w.base, w.head, was.author, NONE, NONE)];
      if CarriesFrom(repo, was, w.base, w.head) {
        var covered := CarryForwardTrivialRebase(w.key, was.head, w.head, carryChecks, {});
      }
      log := log.(versions := log.versions + {(w.key, Version(w.base, w.head))});
    }

    // ----- Landing

    /** computeAffected: the projects the head declares, and what the Change touches. */
    method ComputeAffected(o: Org, c: Change) returns (projects: seq<Manifest>, paths: seq<string>)
      ensures projects == o.scan(TreeOf(repo, c.head))
      ensures StrictlySorted(paths) && forall p :: p in paths <==> p in ChangedPaths(o, repo, Version(c.base, c.head))
    {
      projects := o.scan(TreeOf(repo, c.head));
      paths := SortPaths(ChangedPaths(o, repo, Version(c.base, c.head)));
    }

    /** autoApproveZones. */
    method AutoApproveZones(o: Org, vetoed: bool) returns (zones: seq<Manifest>)
      ensures zones == Zones(o, View(), vetoed)
    {
      if vetoed || trunk == [] { return []; }
      zones := o.scan(TreeOf(repo, Tip(trunk)));
    }

    /** The names of the checks that must be green: a policy run is one unless the whole change
        is in a zone. */
    method RequiredCheckNames(c: Change, x: Terms, fullyAuto: bool) returns (names: seq<Name>)
      ensures forall n :: n in names <==>
                n in ChecksOf(x) || (n == AGENT_POLICY && AGENT_POLICY in RunsAt(review.runs, c.key, c.head) && !fullyAuto)
    {
      names := Merged(x.declared, x.everywhere);
      if AGENT_POLICY in RunsAt(review.runs, c.key, c.head) && !fullyAuto {
        names := Merged(names, [AGENT_POLICY]);
      }
      if x.lane.Some? { names := Merged(names, x.lane.value); }
    }

    /** ComputeMergeRequirements' Mergeable bit. */
    method ComputeMergeRequirements(c: Change, owners: seq<Requirement>, names: seq<Name>) returns (mergeable: bool)
      ensures mergeable <==>
                && (forall i :: 0 <= i < |owners| ==> owners[i].satisfied)
                && forall n :: n in names ==> Green(review.runs, c.key, c.head, n)
    {
      mergeable := true;
      for i := 0 to |owners|
        invariant mergeable <==> forall j :: 0 <= j < i ==> owners[j].satisfied
      {
        mergeable := mergeable && owners[i].satisfied;
      }
      ghost var consented := mergeable;
      for i := 0 to |names|
        invariant mergeable <==> consented && forall j :: 0 <= j < i ==> Green(review.runs, c.key, c.head, names[j])
      {
        mergeable := mergeable && Green(review.runs, c.key, c.head, names[i]);
      }
    }

    /** What the tree asks: the owner requirements, whether the whole change is in a zone, and
        whether a zone stood in for an owner.  A lane is asked nothing. */
    method TreeRequirements(o: Org, c: Change, x: Terms) returns (owners: seq<Requirement>, fullyAuto: bool, waived: bool)
      ensures OwnersAsGate(View(), c, GateOf(o, View(), c, x), owners)
      ensures fullyAuto == GateOf(o, View(), c, x).fullyAuto
      ensures x.lane.Some? ==> !waived
      ensures x.lane.None? ==> (waived || fullyAuto <==> ZonesCount(o, View(), c, x))
    {
      owners, fullyAuto, waived := [], false, false;
      if x.lane.None? {
        var projects, paths := ComputeAffected(o, c);
        var zones := AutoApproveZones(o, x.vetoed);
        fullyAuto := AutoApprovedAll(zones, paths);
        owners, waived := OwnerRequirements(projects, zones, paths, ApprovalsOf(review, c.key), c.head, c.author, x.human);
        ListedAgrees(o, View(), c, x, paths, owners);
        WhollyListed(zones, paths, ChangedPaths(o, repo, Version(c.base, c.head)));
      }
    }

    /** mergeRequirements: whether the gate that tree, org and caller define holds, and whether
        a zone stood in for anyone. */
    method MergeRequirements(o: Org, c: Change, x: Terms) returns (mergeable: bool, autoApproved: bool)
      requires Known(View(), c)
      ensures mergeable <==> MayMerge(o, View(), c, x)
      ensures mergeable == Mergeable(View(), c, GateOf(o, View(), c, x))
      ensures autoApproved <==> ZoneStoodIn(o, View(), c, x)
    {
      mergeable, autoApproved := JudgeGate(o, c, x);
      MergesIff(o, View(), c, x);
      if x.lane.None? { StoodInIffZones(o, View(), c, x); }
    }

    /** Its loops: the requirements of the tree, the checks, the base, the last blockers. */
    method JudgeGate(o: Org, c: Change, x: Terms) returns (mergeable: bool, autoApproved: bool)
      ensures mergeable == Mergeable(View(), c, GateOf(o, View(), c, x))
      ensures autoApproved <==> x.lane.None? && ZonesCount(o, View(), c, x)
    {
      var owners, fullyAuto, waived := TreeRequirements(o, c, x);
      var names := RequiredCheckNames(c, x, fullyAuto);
      autoApproved := waived || fullyAuto;
      mergeable := ComputeMergeRequirements(c, owners, names);
      if !BaseOnTrunk(trunk, c.base) {
        var landed := ParentLandedOnTrunk(c.base);
        mergeable := mergeable && landed;
      }
      if x.lane.None? && !x.unpoliced && !fullyAuto && names == [] && owners == [] { mergeable := false; }
      if x.lane.None? && !(x.described && x.resolved) { mergeable := false; }
      MergeableParts(o, View(), c, x, owners, names);
    }

    method ParentLandedOnTrunk(base: Sha) returns (landed: bool)
      ensures landed == ParentLanded(View(), base)
    {
      if base == NONE { return false; }
      var todo := rows.Keys;
      while todo != {}
        invariant todo <= rows.Keys
        invariant forall p :: p in rows && p !in todo ==>
                    !(rows[p].head == base && rows[p].status == Landed && rows[p].landed != NONE && rows[p].landed in trunk)
      {
        var p :| p in todo;
        if rows[p].head == base && rows[p].status == Landed && rows[p].landed != NONE && rows[p].landed in trunk {
          return true;
        }
        todo := todo - {p};
      }
      landed := false;
    }

    /** refuseUnlandedParent. */
    method RefuseUnlandedParent(c: Change) returns (refused: bool)
      ensures refused == UnlandedParent(View(), c)
    {
      if BaseOnTrunk(trunk, c.base) { return false; }
      var todo := rows.Keys;
      while todo != {}
        invariant todo <= rows.Keys
        invariant forall p :: p in rows && p !in todo ==> !(rows[p].status == Open && rows[p].head == c.base)
      {
        var p :| p in todo;
        if rows[p].status == Open && rows[p].head == c.base { return true; }
        todo := todo - {p};
      }
      refused := false;
    }

    /** attemptLand: each turn reads the repository and trunk afresh, and only a land can lose
        its compare-and-swap.  The answer is that of the first turn that does not. */
    method AttemptLand(c: Change, revalidate: bool, views: seq<TrunkView>) returns (o: Option<Outcome>, turns: nat)
      requires |views| == MAX_LAND_RACE_RETRIES && forall i :: 0 <= i < |views| ==> Fits(views[i], c)
      ensures forall j :: 0 <= j < turns <= |views| ==> LosesRace(views[j], c, revalidate)
      ensures if turns < |views|
              then !LosesRace(views[turns], c, revalidate) && o == Some(Attempt(views[turns].repo, views[turns].trunk, c, revalidate))
              else o.None? && turns == |views|
    {
      turns := 0;
      while turns < MAX_LAND_RACE_RETRIES
        invariant 0 <= turns <= |views|
        invariant forall j :: 0 <= j < turns ==> LosesRace(views[j], c, revalidate)
      {
        var view := views[turns];
        var outcome := Attempt(view.repo, view.trunk, c, revalidate);
        if !outcome.Lands? || !view.raced { return Some(outcome), turns; }
        turns := turns + 1;
      }
      o := None;
    }

    /** landChangeCore. */
    method LandChange(o: Org, r: Ask) returns (landed: bool)
      requires KnownTips(View())
      modifies this
      ensures View() == Landing.LandChange(old(View()), Held(o, old(View()), r))
      ensures LandsAsAsked(o, old(View()), r, View())
      ensures landed <==> IsLanded(rows, r.key)
    {
      AskedExactly(o, View(), r);
      if r.key !in rows || (r.force && !r.authorized) { return IsLanded(rows, r.key); }
      var c := rows[r.key];
      if c.status == Landed { return true; }
      if c.status == Abandoned { return false; }
      var refused := RefuseUnlandedParent(c);
      if refused { return false; }
      var mergeable, _ := MergeRequirements(o, c, r.terms);
      if !mergeable && !r.force { return false; }
      landed := LandOpen(c, r, mergeable);
    }

    /** landChangeCore from the gate on: the attempts, and the mark. */
    method LandOpen(c: Change, r: Ask, mergeable: bool) returns (landed: bool)
      requires KnownTips(View()) && r.key in rows && c == rows[r.key] && c.status == Open
      modifies this
      ensures var o, s := Attempt(old(repo), old(trunk), c, r.revalidate && !r.force), old(View());
              View() == if r.lost < MAX_LAND_RACE_RETRIES && o.Lands?
                        then MaybeClose(LandAs(s, c, o.commit, r.force && !mergeable), c.workspace, r.closes) else s
      ensures landed <==> IsLanded(rows, r.key)
    {
      var lose, keep := TrunkView(repo, trunk, true), TrunkView(repo, trunk, false);
      var views := seq(MAX_LAND_RACE_RETRIES, i => if i < r.lost then lose else keep);
      var outcome, turns := AttemptLand(c, r.revalidate && !r.force, views);
      assert views[MAX_LAND_RACE_RETRIES - 1] == if MAX_LAND_RACE_RETRIES <= r.lost then lose else keep;
      if outcome.None? || !outcome.value.Lands? { return false; }
      MarkChangeLanded(c, outcome.value.commit, r.force && !mergeable, r.closes);
      landed := true;
    }

    method MarkChangeLanded(c: Change, commit: Commit, forced: bool, closes: bool)
      modifies this
      ensures View() == MaybeClose(LandAs(old(View()), c, commit, forced), c.workspace, closes)
      ensures IsLanded(rows, c.key)
    {
      repo, trunk := repo + [commit], trunk + [|repo|];
      rows := rows[c.key := c.(status := Landed, landed := |repo| - 1, forced := forced)];
      MaybeCloseAgentWorkspace(c.workspace, closes);
    }

    method MaybeCloseAgentWorkspace(ws: Name, closes: bool)
      modifies this`spaces
      ensures View() == MaybeClose(old(View()), ws, closes)
    {
      if !closes || ws == NONE || ws !in spaces { return; }
      var todo := rows.Keys;
      while todo != {}
        invariant todo <= rows.Keys
        invariant forall k :: k in rows && k !in todo ==> !(rows[k].status == Open && rows[k].workspace == ws)
      {
        var k :| k in todo;
        if rows[k].status == Open && rows[k].workspace == ws { return; }
        todo := todo - {k};
      }
      spaces := spaces[ws := spaces[ws].(closed := true)];
    }

    /** abandonChangeCore: a landed Change is terminal. */
    method AbandonChange(key: Key, closes: bool) returns (ok: bool)
      modifies this
      ensures View() == Abandon(old(View()), key, closes)
      ensures ok <==> key in rows && rows[key].status == Abandoned
    {
      if key !in rows || rows[key].status == Landed { return false; }
      var c := rows[key];
      rows := rows[key := c.(status := Abandoned)];
      MaybeCloseAgentWorkspace(c.workspace, closes);
      ok := true;
    }

    /** The owner list an approval is checked against: no zones, since a zone waives consent and
        not the requirement. */
    method IsRequired(o: Org, c: Change, owner: Name) returns (required: bool)
      ensures required <==> owner in RequiredOwners(o, repo, Version(c.base, c.head))
    {
      var projects, paths := ComputeAffected(o, c);
      var owners, _ := OwnerRequirements(projects, [], paths, ApprovalsOf(review, c.key), c.head, c.author, false);
      required := false;
      for i := 0 to |owners|
        invariant required <==> exists j :: 0 <= j < i && owners[j].owner == owner
      {
        if owners[i].owner == owner { required := true; }
      }
      RequiredListed(o, repo, Version(c.base, c.head), paths, owner);
    }

    /** approveChangeCore: the required owners are those of what the Change changes. */
    method ApproveChange(o: Org, key: Key, owner: Name, approver: Name, agent: bool) returns (ok: bool)
      requires KnownTips(View())
      modifies this`review, this`log
      ensures View() == Approve(old(View()), key, owner, approver, agent, Requires(o, old(View()), key))
      ensures ok <==>
                && IsOpen(rows, key) && !agent && owner != NONE && approver != NONE && approver != rows[key].author
                && OwnsPart(o, repo, Version(rows[key].base, rows[key].head), owner)
      ensures ok ==> OnlyApproval(old(review), review, key, owner, Approval(approver, rows[key].head))
      ensures !ok ==> review == old(review)
    {
      if key in rows { RequiredOwned(o, repo, Version(rows[key].base, rows[key].head), owner); }
      if key !in rows || rows[key].status != Open || agent || owner == NONE || approver == NONE { return false; }
      var c := rows[key];
      if approver == c.author { return false; }
      var required := IsRequired(o, c, owner);
      if !required { return false; }
      var m := if key in review.approvals then review.approvals[key] else map[];
      review := review.(approvals := review.approvals[key := m[owner := Approval(approver, c.head)]]);
      log := log.(approved := log.approved + {(key, owner, approver, Version(c.base, c.head))});
      ok := true;
    }

    /** ackPolicyCore: refused where there is nothing to acknowledge, and the second time. */
    method Acknowledge(key: Key, acker: Name, agent: bool) returns (ok: bool)
      modifies this`review, this`log
      ensures View() == AckPolicy(old(View()), key, acker, agent)
      ensures ok <==>
                && IsOpen(rows, key) && !agent && acker != NONE
                && AGENT_POLICY in RunsAt(old(review.runs), key, rows[key].head)
                && !Green(old(review.runs), key, rows[key].head, AGENT_POLICY)
      ensures ok ==> Green(review.runs, key, rows[key].head, AGENT_POLICY) && (key, rows[key].head) in log.acked
    {
      if key !in rows || rows[key].status != Open || agent || acker == NONE { return false; }
      var head := rows[key].head;
      if AGENT_POLICY !in RunsAt(review.runs, key, head) { return false; }
      if Green(review.runs, key, head, AGENT_POLICY) { return false; }
      review := review.(runs := PutRun(review.runs, key, head, AGENT_POLICY, Passing));
      log := log.(acked := log.acked + {(key, head)});
      ok := true;
    }

    /** One turn of landStackCore's sweep. */
    method LandMember(o: Org, key: Key, r: Ask) returns (ok: bool, landed: bool)
      requires Wf(View()) && r.key == key
      modifies this
      ensures Wf(View()) && View() == LandOne(old(View()), key, Held(o, old(View()), r))
      ensures ok <==> !(key in rows && rows[key].status != Landed)
      ensures landed <==> ok && key in old(rows) && old(rows[key]).status != Landed
    {
      if key !in rows || rows[key].status == Landed { return true, false; }
      WfKnown(View());
      LandWf(View(), Held(o, View(), r.(force := false)));
      ok := LandChange(o, r.(force := false));
      landed := ok;
    }

    /** landStackCore: the chain is walked once, then landed bottom-up until a member will
        not land.  An abandoned Change is refused outright. */
    method LandStack(o: Org, key: Key, ask: Key -> Ask)
      returns (landed: seq<Key>, stopped: Option<Key>, ghost chain: seq<Key>)
      requires Wf(View()) && key in rows
      modifies this
      ensures Wf(View())
      ensures old(rows[key].status) == Abandoned ==> View() == old(View()) && landed == [] && stopped.None?
      ensures old(rows[key].status) != Abandoned ==>
                && AncestorChain(old(rows), key, chain)
                && Sweep(old(View()), chain, Asking(o, ask), Calm(|chain|)) == Swept(View(), landed, stopped)
    {
      landed, stopped, chain := [], None, [];
      if rows[key].status == Abandoned { return; }
      GoodKeyed(repo, rows);
      var open := ListOpen();
      var members := WalkChain(repo, rows, open, key);
      chain := members;
      landed, stopped := SweepChain(o, members, ask);
    }

    method SweepChain(o: Org, chain: seq<Key>, ask: Key -> Ask) returns (landed: seq<Key>, stopped: Option<Key>)
      requires Wf(View())
      modifies this
      ensures Wf(View())
      ensures Sweep(old(View()), chain, Asking(o, ask), Calm(|chain|)) == Swept(View(), landed, stopped)
    {
      landed, stopped := [], None;
      ghost var request := Asking(o, ask);
      ghost var whole := Sweep(View(), chain, request, Calm(|chain|));
      assert chain[0..] == chain;
      for i := 0 to |chain|
        invariant Wf(View())
        invariant SweptSoFar(whole, Left(View(), chain, i, request), landed)
      {
        ghost var s := View();
        SweepTurn(s, chain, i, request);
        var ok, now := LandMember(o, chain[i], ask(chain[i]).(key := chain[i]));
        if !ok { return landed, Some(chain[i]); }
        var add := if now then [chain[i]] else [];
        SweptOneMore(whole, Left(s, chain, i, request), Left(View(), chain, i + 1, request), landed, add);
        landed := landed + add;
      }
      stopped := None;
    }
  }

  lemma TurnOrder(before: seq<Member>, after: seq<Member>, rest: seq<Member>)
    ensures forall m :: after == before + [m] ==> after + rest == before + ([m] + rest)
  {
  }
}
