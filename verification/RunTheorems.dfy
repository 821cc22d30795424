/** What holds at every point of every run. */
module RunTheorems {
  import opened Changes
  import opened Git
  import opened Store
  import opened Receive
  import opened Pushes
  import opened WellFormed
  import opened Sync
  import opened SyncStack
  import opened Landing
  import opened Runs

  // ----- What one push and one sync do to the rows

  ghost predicate PushedRow(s: State, p: Push, r: State, k: Key) {
    && k in r.rows && r.rows[k].status == Open && !IsLanded(s.rows, k) && r.rows[k].author == p.author
    && 0 < p.tip < |r.repo| && ValidRepo(r.repo) && OnLine(r.repo, p.tip, r.rows[k].head)
    && (p.workspace != NONE ==> r.rows[k].workspace == p.workspace && r.rows[k].branch == BranchOf(p))
    && (p.workspace == NONE ==> r.rows[k].workspace == if k in s.rows then s.rows[k].workspace else NONE)
  }

  /** An accepted push of which the Change is a member. */
  ghost predicate Records(s: State, p: Push, k: Key) {
    Accepted(s, p) && exists m :: m in Series(Quarantined(s, p).repo, s.trunk, s.rows, p.tip) && m.id == k
  }

  lemma PushSummary(s: State, p: Push) returns (ids: set<Key>)
    requires Wf(s) && Accepted(s, p)
    ensures forall k :: k in ids <==> Records(s, p, k)
    ensures var r := ReceivePush(s, p);
            && Untouched(s.rows, r.rows, ids)
            && (forall k :: k in ids ==> PushedRow(s, p, r, k))
            && (p.workspace != NONE ==> forall k :: k in s.rows && FromBranch(s.rows[k], p.workspace, BranchOf(p)) ==> k in ids)
            && s.repo <= r.repo && r.trunk == s.trunk && r.spaces == s.spaces
            && r.log.tips == s.log.tips[(p.workspace, BranchOf(p)) := p.tip]
  {
    var q := Quarantined(s, p);
    var ms := Series(q.repo, q.trunk, q.rows, p.tip);
    SeriesInRepo(q.repo, q.trunk, q.rows, p.tip);
    SeriesDistinct(q.repo, q.trunk, q.rows, p.tip);
    var t := q.(log := q.log.(tips := q.log.tips[(p.workspace, BranchOf(p)) := p.tip]));
    RecordDomain(t, p, ms);
    ids := Ids(ms);
    var r := ReceivePush(s, p);
    forall k | k in ids ensures PushedRow(s, p, r, k) {
      var m :| m in ms && m.id == k;
      MemberPushed(s, p, q, t, ms, m);
    }
  }

  lemma MemberPushed(s: State, p: Push, q: State, t: State, ms: seq<Member>, m: Member)
    requires Wf(s) && Accepted(s, p) && q == Quarantined(s, p) && ms == Series(q.repo, q.trunk, q.rows, p.tip)
    requires t == q.(log := q.log.(tips := q.log.tips[(p.workspace, BranchOf(p)) := p.tip]))
    requires InRepoMembers(q.repo, ms) && DistinctIds(ms) && m in ms
    ensures PushedRow(s, p, ReceivePush(s, p), m.id)
  {
    var i :| 0 <= i < |ms| && ms[i] == m;
    RecordRow(t, p, ms, i);
    SeriesMember(q.repo, q.trunk, q.rows, p.tip, m);
    UpsertHead(t.rows, m.id, BaseOf(t, ms, i), m.sha, p.author, p.workspace, BranchOf(p));
  }

  /** A sync moves versions of open rows and nothing else about any row. */
  ghost predicate OnlyVersionsMove(rows: Rows, after: Rows) {
    && after.Keys == rows.Keys
    && (forall k :: k in rows ==>
          after[k] == rows[k].(base := after[k].base, head := after[k].head)
          && (rows[k].status != Open ==> after[k] == rows[k]))
  }

  ghost predicate SyncEffect(s: State, r: State) {
    && OnlyVersionsMove(s.rows, r.rows)
    && s.repo <= r.repo && r.trunk == s.trunk && r.spaces == s.spaces && r.log.tips == s.log.tips
  }

  lemma SyncSummary(s: State, key: Key, carry: bool)
    requires Wf(s)
    ensures SyncEffect(s, SyncChange(s, key, carry))
  {
    if IsOpen(s.rows, key) && s.trunk != [] {
      var ks := SyncOnMembers(s, key, carry);
      MembersSummary(s, ks, carry);
    }
  }

  lemma MembersSummary(s: State, ks: seq<Key>, carry: bool)
    requires Wf(s) && s.trunk != [] && Listed(s.rows, ks) && forall k :: k in ks ==> IsOpen(s.rows, k)
    ensures SyncEffect(s, SyncMembers(s, ks, carry))
  {
    var plan := PlanFor(s.repo, s.rows, Tip(s.trunk), ks);
    if plan.Planned? {
      SyncedRows(s, ks, carry);
      PlanWrites(s.repo, s.rows, Tip(s.trunk), ks);
      ApplyTips(s.(repo := plan.repo), plan.writes, carry);
      var r := SyncMembers(s, ks, carry);
      forall k | k in s.rows
        ensures r.rows[k] == s.rows[k].(base := r.rows[k].base, head := r.rows[k].head)
          && (s.rows[k].status != Open ==> r.rows[k] == s.rows[k])
      {
        if w :| w in plan.writes && w.key == k {}
      }
    }
  }

  lemma {:induction false} ApplyTips(s: State, ws: seq<Write>, carry: bool)
    requires WritesIn(s.rows, ws)
    ensures Apply(s, ws, carry).log.tips == s.log.tips
    decreases |ws|
  {
    if ws != [] {
      var n := |ws| - 1;
      SplitLast(ws);
      ApplyTips(s, ws[..n], carry);
    }
  }

  // ----- Landed is terminal

  /** Landed rows stay as they are; rows, trunk and the repository only grow. */
  ghost predicate Frozen(s: State, r: State) {
    && (forall k :: IsLanded(s.rows, k) ==> k in r.rows && r.rows[k] == s.rows[k])
    && s.rows.Keys <= r.rows.Keys && s.trunk <= r.trunk && s.repo <= r.repo
  }

  lemma PushFrozen(s: State, p: Push)
    requires Wf(s)
    ensures Frozen(s, ReceivePush(s, p))
  {
    if Accepted(s, p) {
      var ids := PushSummary(s, p);
      var r := ReceivePush(s, p);
      forall k | k in s.rows ensures k in r.rows && (IsLanded(s.rows, k) ==> r.rows[k] == s.rows[k]) {
        if k in ids { assert PushedRow(s, p, r, k); }
      }
    }
  }

  lemma SyncFrozen(s: State, key: Key, carry: bool)
    requires Wf(s)
    ensures Frozen(s, SyncChange(s, key, carry))
  {
    SyncSummary(s, key, carry);
  }

  lemma StepFrozen(s: State, e: Event)
    requires Wf(s)
    ensures Frozen(s, Step(s, e))
  {
    match e
    case PushEvent(p) => PushFrozen(s, p);
    case SyncEvent(key, carry) => SyncFrozen(s, key, carry);
    case LandEvent(r) => WfKnown(s); LandFrozen(s, r);
    case AbandonEvent(key, closes) => AbandonFrozen(s, key, closes);
    case _ => RowsUntouched(s, e);
  }

  lemma LandFrozen(s: State, r: LandRequest)
    requires KnownTips(s)
    ensures Frozen(s, LandChange(s, r))
  {
  }

  lemma AbandonFrozen(s: State, key: Key, closes: bool)
    ensures Frozen(s, Abandon(s, key, closes))
  {
  }

  /** Reviews and workspace operations leave rows, trunk and repository alone. */
  lemma RowsUntouched(s: State, e: Event)
    requires Wf(s) && Reviews(e)
    ensures var r := Step(s, e); r.rows == s.rows && r.trunk == s.trunk && r.repo == s.repo && r.refs == s.refs
  {
    ReviewEffect(s, e);
  }

  // ----- Refs follow rows

  lemma LandRefs(s: State, r: LandRequest)
    requires KnownTips(s) && RefsFollow(s)
    ensures RefsFollow(LandChange(s, r))
  {
  }

  lemma StepRefs(s: State, e: Event)
    requires Wf(s) && RefsFollow(s)
    ensures RefsFollow(Step(s, e))
  {
    match e
    case PushEvent(p) => PushKeepsWf(s, p);
    case SyncEvent(key, carry) => SyncChangeWf(s, key, carry);
    case LandEvent(r) => WfKnown(s); LandRefs(s, r);
    case AbandonEvent(key, closes) =>
    case _ => RowsUntouched(s, e);
  }

  /** In every run each Change's stable ref points at its head. */
  lemma {:induction false} RefsAlwaysFollow(s: State, es: seq<Event>)
    requires Wf(s) && RefsFollow(s)
    ensures RefsFollow(After(s, es))
    decreases |es|
  {
    if es != [] {
      RefsAlwaysFollow(s, es[..|es| - 1]);
      StepRefs(After(s, es[..|es| - 1]), es[|es| - 1]);
    }
  }

  /** A landed Change's row - state, base, head and landed commit - never changes again. */
  lemma {:induction false} LandedForever(s: State, es: seq<Event>)
    requires Wf(s)
    ensures Frozen(s, After(s, es))
    decreases |es|
  {
    if es != [] {
      LandedForever(s, es[..|es| - 1]);
      StepFrozen(After(s, es[..|es| - 1]), es[|es| - 1]);
    }
  }

  // ----- Parents land first

  ghost predicate Before(trunk: seq<Sha>, x: Sha, y: Sha) {
    exists i, j :: 0 <= i < j < |trunk| && trunk[i] == x && trunk[j] == y
  }

  /** An unforced landed row was based on trunk, or on the head of a Change that landed
      before it. */
  ghost predicate InOrder(s: State, k: Key)
    requires k in s.rows
  {
    var c := s.rows[k];
    || c.base == NONE
    || Before(s.trunk, c.base, c.landed)
    || exists p :: IsLanded(s.rows, p) && s.rows[p].head == c.base && Before(s.trunk, s.rows[p].landed, c.landed)
  }

  ghost predicate ParentsFirst(s: State) {
    forall k :: IsLanded(s.rows, k) ==>
      s.rows[k].landed in s.trunk && (!s.rows[k].forced ==> InOrder(s, k))
  }

  lemma BeforeGrows(trunk: seq<Sha>, trunk': seq<Sha>, x: Sha, y: Sha)
    requires trunk <= trunk' && Before(trunk, x, y)
    ensures Before(trunk', x, y)
  {
    var i, j :| 0 <= i < j < |trunk| && trunk[i] == x && trunk[j] == y;
    assert trunk'[i] == x && trunk'[j] == y;
  }

  lemma InOrderGrows(s: State, r: State, k: Key)
    requires Frozen(s, r) && IsLanded(s.rows, k) && InOrder(s, k)
    ensures InOrder(r, k)
  {
    var c := s.rows[k];
    if Before(s.trunk, c.base, c.landed) {
      BeforeGrows(s.trunk, r.trunk, c.base, c.landed);
    } else if c.base != NONE {
      var p :| IsLanded(s.rows, p) && s.rows[p].head == c.base && Before(s.trunk, s.rows[p].landed, c.landed);
      BeforeGrows(s.trunk, r.trunk, s.rows[p].landed, c.landed);
      assert IsLanded(r.rows, p);
    }
  }

  lemma BeforeLast(trunk: seq<Sha>, x: Sha, y: Sha)
    requires x in trunk
    ensures Before(trunk + [y], x, y)
  {
    var i :| 0 <= i < |trunk| && trunk[i] == x;
    assert (trunk + [y])[i] == x && (trunk + [y])[|trunk|] == y;
  }

  lemma LandInOrder(s: State, r: LandRequest)
    requires Wf(s) && KnownTips(s) && ParentsFirst(s)
    ensures ParentsFirst(LandChange(s, r))
  {
    var t := LandChange(s, r);
    LandFrozen(s, r);
    forall k | IsLanded(t.rows, k)
      ensures t.rows[k].landed in t.trunk && (!t.rows[k].forced ==> InOrder(t, k))
    {
      if IsLanded(s.rows, k) {
        if !s.rows[k].forced { InOrderGrows(s, t, k); }
      } else {
        NewlyLanded(s, r, t, k);
      }
    }
  }

  lemma NewlyLanded(s: State, r: LandRequest, t: State, k: Key)
    requires KnownTips(s) && t == LandChange(s, r) && Frozen(s, t) && IsLanded(t.rows, k) && !IsLanded(s.rows, k)
    ensures t.rows[k].landed in t.trunk && (!t.rows[k].forced ==> InOrder(t, k))
  {
    var c, sha := s.rows[k], |s.repo|;
    assert k == r.key && t.trunk == s.trunk + [sha] && t.rows[k] == c.(status := Landed, landed := sha, forced := t.rows[k].forced);
    assert t.trunk[|s.trunk|] == sha;
    if !t.rows[k].forced {
      assert BaseOnTrunk(s.trunk, c.base) || ParentLanded(s, c.base);
      OrderedByBase(s, t, k, sha);
    }
  }

  lemma OrderedByBase(s: State, t: State, k: Key, sha: Sha)
    requires Frozen(s, t) && t.trunk == s.trunk + [sha] && k in s.rows && k in t.rows
    requires t.rows[k].landed == sha && t.rows[k].base == s.rows[k].base
    requires BaseOnTrunk(s.trunk, s.rows[k].base) || ParentLanded(s, s.rows[k].base)
    ensures InOrder(t, k)
  {
    var base := s.rows[k].base;
    if base == NONE {
    } else if base in s.trunk {
      BeforeLast(s.trunk, base, sha);
    } else {
      var p :| p in s.rows && s.rows[p].head == base && s.rows[p].status == Landed
        && s.rows[p].landed != NONE && s.rows[p].landed in s.trunk;
      BeforeLast(s.trunk, s.rows[p].landed, sha);
      assert IsLanded(t.rows, p);
    }
  }

  /** Only a land makes a row landed. */
  lemma OnlyLandLands(s: State, e: Event, k: Key)
    requires Wf(s) && !e.LandEvent? && IsLanded(Step(s, e).rows, k)
    ensures IsLanded(s.rows, k)
  {
    match e
    case PushEvent(p) => if Accepted(s, p) { var ids := PushSummary(s, p); }
    case SyncEvent(key, carry) => SyncSummary(s, key, carry);
    case AbandonEvent(key, closes) =>
    case _ => RowsUntouched(s, e);
  }

  lemma StepInOrder(s: State, e: Event)
    requires Wf(s) && ParentsFirst(s)
    ensures ParentsFirst(Step(s, e))
  {
    if e.LandEvent? {
      WfKnown(s);
      LandInOrder(s, e.request);
    } else {
      StepFrozen(s, e);
      InOrderStays(s, e);
    }
  }

  lemma InOrderStays(s: State, e: Event)
    requires Wf(s) && ParentsFirst(s) && !e.LandEvent? && Frozen(s, Step(s, e))
    ensures ParentsFirst(Step(s, e))
  {
    var r := Step(s, e);
    forall k | IsLanded(r.rows, k)
      ensures r.rows[k].landed in r.trunk && (!r.rows[k].forced ==> InOrder(r, k))
    {
      OnlyLandLands(s, e, k);
      if !r.rows[k].forced { InOrderGrows(s, r, k); }
    }
  }

  /** Ancestors land first, in every run. */
  lemma {:induction false} ParentsLandFirst(s: State, es: seq<Event>)
    requires Fresh(s)
    ensures ParentsFirst(After(s, es))
    decreases |es|
  {
    if es != [] {
      ParentsLandFirst(s, es[..|es| - 1]);
      StepInOrder(After(s, es[..|es| - 1]), es[|es| - 1]);
    }
  }
}
