/** Whole runs of the daemon: any sequence of pushes, syncs, lands, abandons, reviews and
    workspace operations, each accepted or refused as a whole. */
module Runs {
  import opened Changes
  import opened Git
  import opened Store
  import opened Receive
  import opened WellFormed
  import opened Sync
  import opened SyncStack
  import opened Landing

  datatype Event =
    | PushEvent(push: Push)
    | SyncEvent(key: Key, carryChecks: bool)
    | LandEvent(request: LandRequest)
    | AbandonEvent(key: Key, closes: bool)
    | ApproveEvent(key: Key, owner: Name, approver: Name, agent: bool, required: set<Name>)
    | AckEvent(key: Key, acker: Name, agent: bool)
    | ReportEvent(key: Key, name: Name, run: Run)
    | RerunEvent(key: Key, name: Name, required: set<Name>)
    | CreateWorkspaceEvent(id: Name, owner: Name)
    | DeleteWorkspaceEvent(id: Name, allowed: bool)

  lemma WfKnown(s: State)
    requires Wf(s)
    ensures KnownTips(s)
  {
    forall k | k in s.rows ensures s.rows[k].key == k && s.rows[k].head < |s.repo| && s.rows[k].base < |s.repo| {
      assert GoodRow(s.repo, k, s.rows[k]);
    }
  }

  ghost function Effect(s: State, e: Event): State
    requires Wf(s)
  {
    match e
    case PushEvent(p) => ReceivePush(s, p)
    case SyncEvent(key, carry) => SyncChange(s, key, carry)
    case LandEvent(r) => WfKnown(s); LandChange(s, r)
    case AbandonEvent(key, closes) => Abandon(s, key, closes)
    case ApproveEvent(key, owner, approver, agent, required) => Approve(s, key, owner, approver, agent, required)
    case AckEvent(key, acker, agent) => AckPolicy(s, key, acker, agent)
    case ReportEvent(key, name, run) => ReportCheck(s, key, name, run)
    case RerunEvent(key, name, required) => RerunCheck(s, key, name, required)
    case CreateWorkspaceEvent(id, owner) => CreateWorkspace(s, id, owner)
    case DeleteWorkspaceEvent(id, allowed) => DeleteWorkspace(s, id, allowed)
  }

  lemma SyncChangeWf(s: State, key: Key, carry: bool)
    requires Wf(s)
    ensures Wf(SyncChange(s, key, carry)) && (RefsFollow(s) ==> RefsFollow(SyncChange(s, key, carry)))
  {
    if IsOpen(s.rows, key) && s.trunk != [] {
      var ks := SyncOnMembers(s, key, carry);
      SyncKeepsWf(s, ks, carry);
    }
  }

  lemma LandWf(s: State, r: LandRequest)
    requires Wf(s) && KnownTips(s)
    ensures Wf(LandChange(s, r))
  {
    var t := LandChange(s, r);
    if t.repo != s.repo {
      var c := s.rows[r.key];
      var commit := t.repo[|s.repo|];
      assert t.repo == s.repo + [commit];
      GrownRepo(s.repo, [commit], s.rows, s.trunk);
      forall k | k in t.rows ensures GoodRow(t.repo, k, t.rows[k]) {
        assert GoodRow(t.repo, k, s.rows[k]);
      }
    }
  }

  lemma AbandonWf(s: State, key: Key, closes: bool)
    requires Wf(s)
    ensures Wf(Abandon(s, key, closes))
  {
    forall k | k in s.rows ensures GoodRow(s.repo, k, s.rows[k]) {}
  }

  predicate Reviews(e: Event) {
    !e.PushEvent? && !e.SyncEvent? && !e.LandEvent? && !e.AbandonEvent?
  }

  /** Reviews and workspace operations leave rows, refs, trunk and repository alone. */
  lemma ReviewEffect(s: State, e: Event)
    requires Wf(s) && Reviews(e)
    ensures var r := Effect(s, e); r.rows == s.rows && r.refs == s.refs && r.trunk == s.trunk && r.repo == s.repo
  {
  }

  lemma EffectWf(s: State, e: Event)
    requires Wf(s)
    ensures Wf(Effect(s, e))
  {
    match e
    case PushEvent(p) => PushKeepsWf(s, p);
    case SyncEvent(key, carry) => SyncChangeWf(s, key, carry);
    case LandEvent(r) => WfKnown(s); LandWf(s, r);
    case AbandonEvent(key, closes) => AbandonWf(s, key, closes);
    case _ => ReviewEffect(s, e);
  }

  /** One event, kept well-formed. */
  ghost function Step(s: State, e: Event): (r: State)
    requires Wf(s)
    ensures Wf(r)
  {
    EffectWf(s, e);
    Effect(s, e)
  }

  ghost function After(s: State, es: seq<Event>): (r: State)
    requires Wf(s)
    ensures Wf(r)
    decreases |es|
  {
    if es == [] then s else Step(After(s, es[..|es| - 1]), es[|es| - 1])
  }

  lemma AfterNext(s: State, es: seq<Event>, e: Event)
    requires Wf(s)
    ensures After(s, es + [e]) == Effect(After(s, es), e)
  {
    assert (es + [e])[..|es|] == es;
  }

  /** A store with nothing in it, over any repository and trunk. */
  ghost predicate Fresh(s: State) {
    && ValidRepo(s.repo) && GoodTrunk(s.repo, s.trunk)
    && s.rows == map[] && s.refs == map[] && s.review == Review(map[], map[]) && s.spaces == map[]
    && s.log == Log({}, {}, {}, {}, map[])
  }
}
