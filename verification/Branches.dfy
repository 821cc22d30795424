/** Workspaces and their branches over whole runs: every open Change names a live workspace,
    and one branch carries one stack. */
module Branches {
  import opened Changes
  import opened Git
  import opened Store
  import opened Receive
  import opened WellFormed
  import opened Landing
  import opened Runs
  import opened RunTheorems

  // ----- Every origin is a live workspace

  predicate Live(spaces: map<Name, Workspace>, ws: Name) {
    ws in spaces && !spaces[ws].closed
  }

  /** Open rows with an origin name a registered workspace that is not closed; before trunk
      is born there are neither workspaces nor origins. */
  ghost predicate LiveOrigins(s: State) {
    && (forall k :: IsOpen(s.rows, k) && s.rows[k].workspace != NONE ==> Live(s.spaces, s.rows[k].workspace))
    && (s.trunk == [] ==> s.spaces == map[] && forall k :: k in s.rows ==> s.rows[k].workspace == NONE)
  }

  lemma PushLive(s: State, p: Push)
    requires Wf(s) && LiveOrigins(s)
    ensures LiveOrigins(ReceivePush(s, p))
  {
    if Accepted(s, p) {
      var ids := PushSummary(s, p);
      var r := ReceivePush(s, p);
      forall k | k in r.rows
        ensures IsOpen(r.rows, k) && r.rows[k].workspace != NONE ==> Live(r.spaces, r.rows[k].workspace)
        ensures s.trunk == [] ==> r.rows[k].workspace == NONE
      {
        if k in ids { assert PushedRow(s, p, r, k); }
      }
    }
  }

  lemma MaybeCloseLive(s: State, ws: Name, closes: bool)
    requires LiveOrigins(s)
    ensures LiveOrigins(MaybeClose(s, ws, closes))
  {
    var r := MaybeClose(s, ws, closes);
    forall k | IsOpen(r.rows, k) && r.rows[k].workspace != NONE ensures Live(r.spaces, r.rows[k].workspace) {
      assert r.rows[k].workspace == ws ==> HasOpenFrom(s.rows, ws);
    }
  }

  lemma LandLive(s: State, r: LandRequest)
    requires Wf(s) && KnownTips(s) && LiveOrigins(s)
    ensures LiveOrigins(LandChange(s, r))
  {
    if r.key in s.rows && MayLand(s, s.rows[r.key], r) {
      var c := s.rows[r.key];
      var o := Attempt(s.repo, s.trunk, c, r.revalidate && !r.force);
      if o.Lands? {
        var t := LandAs(s, c, o.commit, r.force && !Mergeable(s, c, r.gate));
        assert LiveOrigins(t);
        MaybeCloseLive(t, c.workspace, r.closes);
      }
    }
  }

  lemma AbandonLive(s: State, key: Key, closes: bool)
    requires Wf(s) && LiveOrigins(s)
    ensures LiveOrigins(Abandon(s, key, closes))
  {
    if key in s.rows && s.rows[key].status != Landed {
      var t := s.(rows := s.rows[key := s.rows[key].(status := Abandoned)]);
      assert LiveOrigins(t);
      MaybeCloseLive(t, s.rows[key].workspace, closes);
    }
  }

  lemma StepLive(s: State, e: Event)
    requires Wf(s) && LiveOrigins(s)
    ensures LiveOrigins(Step(s, e))
  {
    match e
    case PushEvent(p) => PushLive(s, p);
    case SyncEvent(key, carry) => SyncSummary(s, key, carry);
    case LandEvent(r) => WfKnown(s); LandLive(s, r);
    case AbandonEvent(key, closes) => AbandonLive(s, key, closes);
    case DeleteWorkspaceEvent(id, allowed) => DeleteLive(s, id, allowed);
    case CreateWorkspaceEvent(id, owner) => CreateLive(s, id, owner);
    case _ =>
      RowsUntouched(s, e);
      assert Step(s, e).spaces == s.spaces;
  }

  lemma CreateLive(s: State, id: Name, owner: Name)
    requires LiveOrigins(s)
    ensures LiveOrigins(CreateWorkspace(s, id, owner))
  {
  }

  lemma DeleteLive(s: State, id: Name, allowed: bool)
    requires LiveOrigins(s)
    ensures LiveOrigins(DeleteWorkspace(s, id, allowed))
  {
    var r := DeleteWorkspace(s, id, allowed);
    forall k | IsOpen(r.rows, k) && r.rows[k].workspace != NONE ensures Live(r.spaces, r.rows[k].workspace) {
      assert s.rows[k].workspace == id ==> HasOpenFrom(s.rows, id);
    }
  }

  /** Workspace references stay intact in every run. */
  lemma {:induction false} OriginsAlwaysLive(s: State, es: seq<Event>)
    requires Fresh(s)
    ensures LiveOrigins(After(s, es))
    decreases |es|
  {
    if es != [] {
      OriginsAlwaysLive(s, es[..|es| - 1]);
      StepLive(After(s, es[..|es| - 1]), es[|es| - 1]);
    }
  }

  // ----- One branch, one stack

  /** The heads of all open Changes of one workspace branch lie on the first-parent line of
      one tip pushed for it. */
  ghost predicate OneStack(s: State) {
    forall k :: IsOpen(s.rows, k) && s.rows[k].workspace != NONE ==> OnPushedLine(s, s.rows[k])
  }

  ghost predicate OnPushedLine(s: State, c: Change) {
    && ValidRepo(s.repo)
    && (c.workspace, c.branch) in s.log.tips
    && s.log.tips[(c.workspace, c.branch)] < |s.repo|
    && OnLine(s.repo, s.log.tips[(c.workspace, c.branch)], c.head)
  }

  /** An open row keeps its tip while the repository grows. */
  lemma LineStays(s: State, r: State, c: Change)
    requires Wf(s) && Wf(r) && s.repo <= r.repo && OnPushedLine(s, c)
    requires (c.workspace, c.branch) in r.log.tips
    requires r.log.tips[(c.workspace, c.branch)] == s.log.tips[(c.workspace, c.branch)]
    ensures OnPushedLine(r, c)
  {
    OnLineStable(s.repo, r.repo, s.log.tips[(c.workspace, c.branch)], c.head);
  }

  lemma PushOneStack(s: State, p: Push)
    requires Wf(s) && LiveOrigins(s) && OneStack(s)
    ensures OneStack(ReceivePush(s, p))
  {
    var r := ReceivePush(s, p);
    PushKeepsWf(s, p);
    if Accepted(s, p) {
      var ids := PushSummary(s, p);
      forall k | IsOpen(r.rows, k) && r.rows[k].workspace != NONE ensures OnPushedLine(r, r.rows[k]) {
        if k in ids {
          assert PushedRow(s, p, r, k);
        } else {
          var c := s.rows[k];
          assert IsOpen(s.rows, k) && (p.workspace != NONE ==> !FromBranch(c, p.workspace, BranchOf(p)));
          LineStays(s, r, c);
        }
      }
    }
  }

  /** `r` follows `s` by a step that moves no head and records no tip. */
  ghost predicate Quiet(s: State, r: State) {
    && s.repo <= r.repo && r.log.tips == s.log.tips
    && (forall k :: IsOpen(r.rows, k) ==> k in s.rows && r.rows[k] == s.rows[k])
  }

  lemma LandQuiet(s: State, r: LandRequest)
    requires KnownTips(s)
    ensures Quiet(s, LandChange(s, r))
  {
  }

  lemma AbandonQuiet(s: State, key: Key, closes: bool)
    ensures Quiet(s, Abandon(s, key, closes))
  {
  }

  /** Steps other than pushes and syncs are quiet. */
  lemma ReviewKeepsTips(s: State, e: Event)
    requires Wf(s) && Reviews(e)
    ensures Step(s, e).log.tips == s.log.tips
  {
  }

  lemma QuietReview(s: State, e: Event)
    requires Wf(s) && Reviews(e)
    ensures Quiet(s, Step(s, e))
  {
    RowsUntouched(s, e);
    ReviewKeepsTips(s, e);
  }

  lemma QuietStep(s: State, e: Event)
    requires Wf(s) && !e.PushEvent? && !e.SyncEvent?
    ensures Quiet(s, Step(s, e))
  {
    match e
    case LandEvent(r) => WfKnown(s); LandQuiet(s, r);
    case AbandonEvent(key, closes) => AbandonQuiet(s, key, closes);
    case _ => QuietReview(s, e);
  }

  lemma QuietOneStack(s: State, r: State)
    requires Wf(s) && Wf(r) && OneStack(s) && Quiet(s, r)
    ensures OneStack(r)
  {
    forall k | IsOpen(r.rows, k) && r.rows[k].workspace != NONE ensures OnPushedLine(r, r.rows[k]) {
      assert IsOpen(s.rows, k);
      LineStays(s, r, s.rows[k]);
    }
  }

  lemma StepOneStack(s: State, e: Event)
    requires Wf(s) && LiveOrigins(s) && OneStack(s) && !e.SyncEvent?
    ensures OneStack(Step(s, e))
  {
    if e.PushEvent? {
      PushOneStack(s, e.push);
    } else {
      QuietStep(s, e);
      QuietOneStack(s, Step(s, e));
    }
  }

  /** One branch, one stack, in every run without sync steps - adoption of a branch's
      Changes by a push from another branch included. */
  lemma {:induction false} OneBranchOneStack(s: State, es: seq<Event>)
    requires Fresh(s) && forall e :: e in es ==> !e.SyncEvent?
    ensures OneStack(After(s, es))
    decreases |es|
  {
    if es != [] {
      var n := |es| - 1;
      SplitLast(es);
      OneBranchOneStack(s, es[..n]);
      OriginsAlwaysLive(s, es[..n]);
      StepOneStack(After(s, es[..n]), es[n]);
    }
  }
}
