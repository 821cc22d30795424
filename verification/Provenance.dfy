/** What the log says happened did happen: every entry goes back to the event that made it,
    in the state that event met. */
module Provenance {
  import opened Changes
  import opened Git
  import opened Store
  import opened Receive
  import opened WellFormed
  import opened Sync
  import opened SyncStack
  import opened Landing
  import opened Runs
  import opened RunTheorems
  import opened Authors

  type Grant = (Key, Name, Name, Version)

  /** A human other than the head's pusher approves an open Change, at its current version,
      for an owner the tree requires. */
  ghost predicate Grants(s: State, e: Event, g: Grant) {
    && e.ApproveEvent? && e.key == g.0 && e.owner == g.1 && e.approver == g.2
    && !e.agent && e.approver != NONE && e.owner in e.required
    && IsOpen(s.rows, g.0) && s.rows[g.0].author != e.approver
    && g.3 == Version(s.rows[g.0].base, s.rows[g.0].head)
  }

  /** A human acknowledges a policy run, present and not green, at an open Change's head. */
  ghost predicate Acks(s: State, e: Event, key: Key, head: Sha) {
    && e.AckEvent? && e.key == key && !e.agent && e.acker != NONE
    && IsOpen(s.rows, key) && s.rows[key].head == head
    && AGENT_POLICY in RunsAt(s.review.runs, key, head) && !Green(s.review.runs, key, head, AGENT_POLICY)
  }

  /** An accepted push records `head` for `key` with findings against it. */
  ghost predicate Finds(s: State, e: Event, key: Key, head: Sha) {
    && e.PushEvent? && Accepted(s, e.push) && key in e.push.findings
    && Member(head, key) in Series(Quarantined(s, e.push).repo, s.trunk, s.rows, e.push.tip)
  }

  // ----- Pushes and syncs

  lemma {:induction false} RecordLog(s: State, p: Push, ms: seq<Member>)
    requires ValidRepo(s.repo) && InRepoMembers(s.repo, ms)
    ensures var r := Record(s, p, ms);
            && r.log.approved == s.log.approved && r.log.acked == s.log.acked
            && forall x :: x in r.log.found ==> x in s.log.found || (x.0 in p.findings && Member(x.1, x.0) in ms)
    decreases |ms|
  {
    if ms != [] {
      SplitLast(ms);
      RecordLog(s, p, ms[..|ms| - 1]);
    }
  }

  lemma {:induction false} ApplyLog(s: State, ws: seq<Write>, carry: bool)
    requires WritesIn(s.rows, ws)
    ensures var r := Apply(s, ws, carry);
            r.log.approved == s.log.approved && r.log.acked == s.log.acked && r.log.found == s.log.found
    decreases |ws|
  {
    if ws != [] {
      SplitLast(ws);
      ApplyLog(s, ws[..|ws| - 1], carry);
    }
  }

  lemma SyncLog(s: State, key: Key, carry: bool)
    requires Wf(s)
    ensures var r := SyncChange(s, key, carry);
            r.log.approved == s.log.approved && r.log.acked == s.log.acked && r.log.found == s.log.found
  {
    if IsOpen(s.rows, key) && s.trunk != [] {
      var ks := SyncOnMembers(s, key, carry);
      var plan := PlanFor(s.repo, s.rows, Tip(s.trunk), ks);
      if plan.Planned? {
        PlanWrites(s.repo, s.rows, Tip(s.trunk), ks);
        ApplyLog(s.(repo := plan.repo), plan.writes, carry);
      }
    }
  }

  lemma PushLog(s: State, p: Push)
    requires Wf(s)
    ensures var r := ReceivePush(s, p);
            && r.log.approved == s.log.approved && r.log.acked == s.log.acked
            && forall x :: x in r.log.found ==> x in s.log.found || Finds(s, PushEvent(p), x.0, x.1)
  {
    if Accepted(s, p) {
      var q := Quarantined(s, p);
      var ms := Series(q.repo, q.trunk, q.rows, p.tip);
      SeriesInRepo(q.repo, q.trunk, q.rows, p.tip);
      RecordLog(q.(log := q.log.(tips := q.log.tips[(p.workspace, BranchOf(p)) := p.tip])), p, ms);
    }
  }

  // ----- One step

  ghost predicate Explained(s: State, e: Event, a: Log, b: Log) {
    && (forall g :: g in b.approved ==> g in a.approved || Grants(s, e, g))
    && (forall x :: x in b.acked ==> x in a.acked || Acks(s, e, x.0, x.1))
    && (forall x :: x in b.found ==> x in a.found || Finds(s, e, x.0, x.1))
  }

  lemma ApproveExplained(s: State, e: Event)
    requires e.ApproveEvent?
    ensures Explained(s, e, s.log, Approve(s, e.key, e.owner, e.approver, e.agent, e.required).log)
  {
  }

  lemma AckExplained(s: State, e: Event)
    requires e.AckEvent?
    ensures Explained(s, e, s.log, AckPolicy(s, e.key, e.acker, e.agent).log)
  {
  }

  lemma LandLog(s: State, r: LandRequest)
    requires KnownTips(s)
    ensures LandChange(s, r).log == s.log
  {
  }

  lemma StepExplained(s: State, e: Event)
    requires Wf(s)
    ensures Explained(s, e, s.log, Step(s, e).log)
  {
    match e
    case PushEvent(p) => PushLog(s, p);
    case SyncEvent(key, carry) => SyncLog(s, key, carry);
    case LandEvent(r) => WfKnown(s); LandLog(s, r);
    case ApproveEvent(_, _, _, _, _) => ApproveExplained(s, e);
    case AckEvent(_, _, _) => AckExplained(s, e);
    case _ => assert Step(s, e).log == s.log;
  }

  // ----- Whole runs

  /** Somebody else made the last accepted push of the Change. */
  ghost predicate NotPushedBy(s: State, es: seq<Event>, k: Key, who: Name)
    requires Wf(s)
  {
    LastPush(s, es, k).Some? && LastPush(s, es, k).value.author != who
  }

  ghost predicate GrantedIn(s: State, es: seq<Event>, g: Grant)
    requires Wf(s)
  {
    exists i :: 0 <= i < |es| && Grants(After(s, es[..i]), es[i], g) && NotPushedBy(s, es[..i], g.0, g.2)
  }

  ghost predicate AckedIn(s: State, es: seq<Event>, key: Key, head: Sha)
    requires Wf(s)
  {
    exists i :: 0 <= i < |es| && Acks(After(s, es[..i]), es[i], key, head)
  }

  ghost predicate FoundIn(s: State, es: seq<Event>, key: Key, head: Sha)
    requires Wf(s)
  {
    exists i :: 0 <= i < |es| && Finds(After(s, es[..i]), es[i], key, head)
  }

  /** Nothing explained by a run stops being so when the run goes on. */
  lemma Onwards(s: State, es: seq<Event>, g: Grant, key: Key, head: Sha)
    requires Wf(s) && es != []
    ensures GrantedIn(s, es[..|es| - 1], g) ==> GrantedIn(s, es, g)
    ensures AckedIn(s, es[..|es| - 1], key, head) ==> AckedIn(s, es, key, head)
    ensures FoundIn(s, es[..|es| - 1], key, head) ==> FoundIn(s, es, key, head)
  {
    var pre := es[..|es| - 1];
    assert forall i :: 0 <= i < |pre| ==> pre[..i] == es[..i] && pre[i] == es[i];
  }

  lemma LastEvent(s: State, es: seq<Event>, g: Grant, key: Key, head: Sha)
    requires Wf(s) && es != []
    ensures Grants(After(s, es[..|es| - 1]), es[|es| - 1], g) && NotPushedBy(s, es[..|es| - 1], g.0, g.2) ==>
              GrantedIn(s, es, g)
    ensures Acks(After(s, es[..|es| - 1]), es[|es| - 1], key, head) ==> AckedIn(s, es, key, head)
    ensures Finds(After(s, es[..|es| - 1]), es[|es| - 1], key, head) ==> FoundIn(s, es, key, head)
  {
  }

  /** In every run, each approval on record was given by a human who had not pushed the head,
      to an open Change, at the version on record; each acknowledgement by a human, of a run
      that was not green; each finding by an accepted push of that head. */
  lemma {:induction false} LogIsTrue(s: State, es: seq<Event>)
    requires Fresh(s)
    ensures var t := After(s, es);
            && (forall g :: g in t.log.approved ==> GrantedIn(s, es, g))
            && (forall x :: x in t.log.acked ==> AckedIn(s, es, x.0, x.1))
            && (forall x :: x in t.log.found ==> FoundIn(s, es, x.0, x.1))
    decreases |es|
  {
    if es != [] {
      var t := After(s, es[..|es| - 1]);
      LogIsTrue(s, es[..|es| - 1]);
      StepExplained(t, es[|es| - 1]);
      GrantsGoOn(s, es, t.log, After(s, es).log);
      AcksGoOn(s, es, t.log, After(s, es).log);
      FindsGoOn(s, es, t.log, After(s, es).log);
    }
  }

  lemma GrantsGoOn(s: State, es: seq<Event>, a: Log, b: Log)
    requires Fresh(s) && es != [] && Explained(After(s, es[..|es| - 1]), es[|es| - 1], a, b)
    requires forall g :: g in a.approved ==> GrantedIn(s, es[..|es| - 1], g)
    ensures forall g :: g in b.approved ==> GrantedIn(s, es, g)
  {
    forall g | g in b.approved ensures GrantedIn(s, es, g) {
      Onwards(s, es, g, 0, 0);
      LastEvent(s, es, g, 0, 0);
      if g !in a.approved { AuthorIsLastPusher(s, es[..|es| - 1], g.0); }
    }
  }

  const NO_GRANT: Grant := (NONE, NONE, NONE, Version(NONE, NONE))

  lemma AcksGoOn(s: State, es: seq<Event>, a: Log, b: Log)
    requires Wf(s) && es != [] && Explained(After(s, es[..|es| - 1]), es[|es| - 1], a, b)
    requires forall x :: x in a.acked ==> AckedIn(s, es[..|es| - 1], x.0, x.1)
    ensures forall x :: x in b.acked ==> AckedIn(s, es, x.0, x.1)
  {
    forall x | x in b.acked ensures AckedIn(s, es, x.0, x.1) {
      Onwards(s, es, NO_GRANT, x.0, x.1);
      LastEvent(s, es, NO_GRANT, x.0, x.1);
    }
  }

  lemma FindsGoOn(s: State, es: seq<Event>, a: Log, b: Log)
    requires Wf(s) && es != [] && Explained(After(s, es[..|es| - 1]), es[|es| - 1], a, b)
    requires forall x :: x in a.found ==> FoundIn(s, es[..|es| - 1], x.0, x.1)
    ensures forall x :: x in b.found ==> FoundIn(s, es, x.0, x.1)
  {
    forall x | x in b.found ensures FoundIn(s, es, x.0, x.1) {
      Onwards(s, es, NO_GRANT, x.0, x.1);
      LastEvent(s, es, NO_GRANT, x.0, x.1);
    }
  }

  // ----- Pushed tips and recorded versions

  ghost predicate PushesTip(s: State, e: Event, ws: Name, branch: Name, tip: Sha) {
    e.PushEvent? && Accepted(s, e.push) && e.push.workspace == ws && BranchOf(e.push) == branch && e.push.tip == tip
  }

  ghost predicate PushedIn(s: State, es: seq<Event>, ws: Name, branch: Name, tip: Sha)
    requires Wf(s)
  {
    exists i :: 0 <= i < |es| && PushesTip(After(s, es[..i]), es[i], ws, branch, tip)
  }

  lemma TipStep(s: State, e: Event, ws: Name, branch: Name)
    requires Wf(s) && (ws, branch) in Step(s, e).log.tips
    ensures var tip := Step(s, e).log.tips[(ws, branch)];
            PushesTip(s, e, ws, branch, tip) || ((ws, branch) in s.log.tips && s.log.tips[(ws, branch)] == tip)
  {
    match e
    case PushEvent(p) => if Accepted(s, p) { var ids := PushSummary(s, p); }
    case SyncEvent(key, carry) => SyncSummary(s, key, carry);
    case LandEvent(r) => WfKnown(s); LandLog(s, r);
    case AbandonEvent(_, _) => assert Step(s, e).log == s.log;
    case _ => ReviewTips(s, e);
  }

  lemma ReviewTips(s: State, e: Event)
    requires Wf(s) && Reviews(e)
    ensures Step(s, e).log.tips == s.log.tips
  {
  }

  /** The moments of a run are the same in a longer one. */
  lemma SameMoment(es: seq<Event>, i: nat)
    requires i < |es| - 1
    ensures es[..|es| - 1][..i] == es[..i] && es[..|es| - 1][i] == es[i]
  {
  }

  lemma PushedBefore(s: State, es: seq<Event>, ws: Name, branch: Name, tip: Sha)
    requires Wf(s) && es != [] && PushedIn(s, es[..|es| - 1], ws, branch, tip)
    ensures PushedIn(s, es, ws, branch, tip)
  {
    var pre := es[..|es| - 1];
    var i :| 0 <= i < |pre| && PushesTip(After(s, pre[..i]), pre[i], ws, branch, tip);
    SameMoment(es, i);
  }

  /** The tip a branch is held to was pushed there, by an accepted push. */
  lemma {:induction false} TipsWerePushed(s: State, es: seq<Event>, ws: Name, branch: Name)
    requires Fresh(s) && (ws, branch) in After(s, es).log.tips
    ensures PushedIn(s, es, ws, branch, After(s, es).log.tips[(ws, branch)])
    decreases |es|
  {
    if es != [] {
      var t, tip := After(s, es[..|es| - 1]), After(s, es).log.tips[(ws, branch)];
      TipStep(t, es[|es| - 1], ws, branch);
      if !PushesTip(t, es[|es| - 1], ws, branch, tip) {
        TipsWerePushed(s, es[..|es| - 1], ws, branch);
        PushedBefore(s, es, ws, branch, tip);
      }
    }
  }
}
