/** A sync that overlaps with other requests (runkod/sync.go).  It plans first and writes
    later, and each write moves the ref, then the row, then the review results; anything may
    happen before each of the three. */
module SyncRaces {
  import opened Changes
  import opened Git
  import opened Store
  import opened Receive
  import opened WellFormed
  import opened Sync
  import opened SyncStack
  import opened Landing
  import opened Runs
  import opened RunTheorems

  // ----- What may happen in between

  predicate Follows(s: State, key: Key) {
    key in s.rows && key in s.refs && s.refs[key] == s.rows[key].head
  }

  /** The writes before the first whose ref is not at its row's head. */
  function Leading(s: State, ws: seq<Write>): (r: seq<Write>)
    ensures r <= ws
  {
    if ws == [] || !Follows(s, ws[0].key) then [] else [ws[0]] + Leading(s, ws[1..])
  }

  /** The writes are made up to the first whose ref is not at its row's head. */
  lemma {:induction false} LeadsExactly(s: State, ws: seq<Write>)
    ensures var n := |Leading(s, ws)|;
            && Leading(s, ws) == ws[..n] && (forall i :: 0 <= i < n ==> Follows(s, ws[i].key))
            && (n < |ws| ==> !Follows(s, ws[n].key))
    decreases |ws|
  {
    if ws != [] && Follows(s, ws[0].key) {
      LeadsExactly(s, ws[1..]);
      var m := |Leading(s, ws[1..])|;
      assert ws[..m + 1] == [ws[0]] + ws[1..][..m];
      forall i | 0 <= i < m + 1 ensures Follows(s, ws[i].key) {
        if i > 0 { assert ws[i] == ws[1..][i - 1]; }
      }
    }
  }

  /** Another sync, which stops at the first ref that does not hold its row's head. */
  ghost function GuardedSync(s: State, key: Key, carryChecks: bool): State
    requires Wf(s)
  {
    if !IsOpen(s.rows, key) || s.trunk == [] then s
    else
      var plan := PlanFor(s.repo, s.rows, Tip(s.trunk), StackKeys(s, key));
      var t := s.(repo := plan.repo);
      if !plan.Planned? then t
      else
        PlanWrites(s.repo, s.rows, Tip(s.trunk), StackKeys(s, key));
        assert forall w :: w in Leading(s, plan.writes) ==> w in plan.writes;
        Apply(t, Leading(s, plan.writes), carryChecks)
  }

  lemma GuardedWf(s: State, key: Key, carryChecks: bool)
    requires Wf(s)
    ensures Wf(GuardedSync(s, key, carryChecks)) && Frozen(s, GuardedSync(s, key, carryChecks))
  {
    if IsOpen(s.rows, key) && s.trunk != [] {
      var ks := SyncOnMembers(s, key, carryChecks);
      var plan := PlanFor(s.repo, s.rows, Tip(s.trunk), ks);
      GrownTo(s.repo, plan.repo, s.rows, s.trunk);
      if plan.Planned? {
        PlanShape(s.repo, s.rows, Tip(s.trunk), ks);
        PlanWrites(s.repo, s.rows, Tip(s.trunk), ks);
        forall w | w in plan.writes ensures GoodWrite(s.repo, s.rows, plan.repo, w) && IsOpen(s.rows, w.key) {
          PlanMinted(s.repo, s.rows, Tip(s.trunk), ks, w);
        }
        PrefixWf(s, plan.repo, plan.writes, Leading(s, plan.writes), carryChecks);
      }
    }
  }

  lemma PrefixWf(s: State, grown: Repo, all: seq<Write>, ws: seq<Write>, carryChecks: bool)
    requires Wf(s) && ws <= all && DistinctWrites(all) && ValidRepo(grown) && s.repo <= grown
    requires GoodRows(grown, s.rows) && GoodTrunk(grown, s.trunk)
    requires forall w :: w in all ==> IsOpen(s.rows, w.key) && GoodWrite(s.repo, s.rows, grown, w)
    ensures WritesIn(s.rows, ws)
    ensures var r := Apply(s.(repo := grown), ws, carryChecks); Wf(r) && Frozen(s, r)
  {
    forall w | w in ws ensures w in all { var i :| 0 <= i < |ws| && ws[i] == w; assert all[i] == w; }
    assert forall i :: 0 <= i < |ws| ==> ws[i] == all[i];
    var t := s.(repo := grown);
    ApplyRows(t, ws, carryChecks);
    WrittenGood(s.repo, s.rows, grown, ws, Apply(t, ws, carryChecks).rows);
    WrittenFrozen(s, Apply(t, ws, carryChecks), ws);
  }

  lemma WrittenFrozen(s: State, r: State, ws: seq<Write>)
    requires Written(s.rows, ws, r.rows) && AllOpen(s.rows, ws) && s.repo <= r.repo && s.trunk == r.trunk
    ensures Frozen(s, r)
  {
    forall k | IsLanded(s.rows, k) ensures r.rows[k] == s.rows[k] {
      assert forall w :: w in ws ==> w.key != k;
    }
  }

  /** One event, next to a sync that is still writing. */
  ghost function Interfere(s: State, e: Event): (r: State)
    requires Wf(s)
    ensures Wf(r)
  {
    if e.SyncEvent? then
      GuardedWf(s, e.key, e.carryChecks);
      GuardedSync(s, e.key, e.carryChecks)
    else Step(s, e)
  }

  ghost function Meanwhile(s: State, es: seq<Event>): (r: State)
    requires Wf(s)
    ensures Wf(r)
    decreases |es|
  {
    if es == [] then s else Interfere(Meanwhile(s, es[..|es| - 1]), es[|es| - 1])
  }

  lemma MeanwhileOne(s: State, e: Event)
    requires Wf(s)
    ensures Meanwhile(s, [e]) == Interfere(s, e)
  {
    assert [e][..0] == [];
    assert Meanwhile(s, [e][..0]) == s;
  }

  // ----- While refs follow rows this is the ordinary run

  lemma {:induction false} AllLead(s: State, ws: seq<Write>)
    requires forall w :: w in ws ==> Follows(s, w.key)
    ensures Leading(s, ws) == ws
  {
    if ws != [] {
      assert ws[0] in ws && forall w :: w in ws[1..] ==> w in ws;
      AllLead(s, ws[1..]);
      assert ws == [ws[0]] + ws[1..];
    }
  }

  lemma GuardedIsSync(s: State, key: Key, carryChecks: bool)
    requires Wf(s) && RefsFollow(s)
    ensures GuardedSync(s, key, carryChecks) == SyncChange(s, key, carryChecks)
  {
    if IsOpen(s.rows, key) && s.trunk != [] {
      var ks := SyncOnMembers(s, key, carryChecks);
      var plan := PlanFor(s.repo, s.rows, Tip(s.trunk), ks);
      if plan.Planned? {
        PlanWrites(s.repo, s.rows, Tip(s.trunk), ks);
        AllLead(s, plan.writes);
      }
    }
  }

  lemma {:induction false} MeanwhileIsAfter(s: State, es: seq<Event>)
    requires Wf(s) && RefsFollow(s)
    ensures Meanwhile(s, es) == After(s, es)
    decreases |es|
  {
    if es != [] {
      var t, e := After(s, es[..|es| - 1]), es[|es| - 1];
      MeanwhileIsAfter(s, es[..|es| - 1]);
      RefsAlwaysFollow(s, es[..|es| - 1]);
      if e.SyncEvent? { GuardedIsSync(t, e.key, e.carryChecks); }
    }
  }

  lemma InterfereFrozen(s: State, e: Event)
    requires Wf(s)
    ensures Frozen(s, Interfere(s, e))
  {
    if e.SyncEvent? { GuardedWf(s, e.key, e.carryChecks); } else { StepFrozen(s, e); }
  }

  lemma {:induction false} MeanwhileFrozen(s: State, es: seq<Event>)
    requires Wf(s)
    ensures Frozen(s, Meanwhile(s, es))
    decreases |es|
  {
    if es != [] {
      MeanwhileFrozen(s, es[..|es| - 1]);
      InterfereFrozen(Meanwhile(s, es[..|es| - 1]), es[|es| - 1]);
    }
  }

  // ----- What an event does to one Change's ref and head

  /** Neither its ref nor its head moved. */
  predicate Still(s: State, r: State, key: Key) {
    && key in s.rows && key in r.rows && r.rows[key].head == s.rows[key].head
    && (key in r.refs <==> key in s.refs) && (key in s.refs ==> r.refs[key] == s.refs[key])
  }

  lemma {:induction false} RecordMoves(s: State, p: Push, ms: seq<Member>, key: Key)
    requires ValidRepo(s.repo) && InRepoMembers(s.repo, ms) && key in s.rows
    ensures Still(s, Record(s, p, ms), key) || Follows(Record(s, p, ms), key)
    decreases |ms|
  {
    if ms != [] {
      SplitLast(ms);
      RecordMoves(s, p, ms[..|ms| - 1], key);
      MemberMoves(Record(s, p, ms[..|ms| - 1]), p, ms[|ms| - 1], key);
    }
  }

  lemma MemberMoves(s: State, p: Push, m: Member, key: Key)
    requires ValidRepo(s.repo) && 0 < m.sha < |s.repo| && key in s.rows
    ensures var r := RecordMember(s, p, m); if key == m.id then Follows(r, key) else Still(s, r, key)
    ensures key != m.id && Follows(s, key) ==> Follows(RecordMember(s, p, m), key)
  {
  }

  lemma {:induction false} ApplyMoves(s: State, ws: seq<Write>, carryChecks: bool, key: Key)
    requires WritesIn(s.rows, ws) && key in s.rows
    ensures Still(s, Apply(s, ws, carryChecks), key) || Follows(Apply(s, ws, carryChecks), key)
    decreases |ws|
  {
    if ws != [] {
      SplitLast(ws);
      ApplyMoves(s, ws[..|ws| - 1], carryChecks, key);
      WriteMoves(Apply(s, ws[..|ws| - 1], carryChecks), ws[|ws| - 1], carryChecks, key);
    }
  }

  lemma WriteMoves(s: State, w: Write, carryChecks: bool, key: Key)
    requires w.key in s.rows && key in s.rows
    ensures var r := ApplyWrite(s, w, carryChecks); if key == w.key then Follows(r, key) else Still(s, r, key)
  {
  }

  lemma PushMoves(s: State, p: Push, key: Key)
    requires key in s.rows
    ensures Still(s, ReceivePush(s, p), key) || Follows(ReceivePush(s, p), key)
  {
    if Accepted(s, p) {
      var q := Quarantined(s, p);
      var ms := Series(q.repo, q.trunk, q.rows, p.tip);
      SeriesInRepo(q.repo, q.trunk, q.rows, p.tip);
      RecordMoves(q.(log := q.log.(tips := q.log.tips[(p.workspace, BranchOf(p)) := p.tip])), p, ms, key);
    }
  }

  lemma LeadMoves(s: State, t: State, ws: seq<Write>, carryChecks: bool, key: Key)
    requires t == s.(repo := t.repo) && WritesIn(s.rows, ws) && key in s.rows
    ensures WritesIn(s.rows, Leading(s, ws))
    ensures var r := Apply(t, Leading(s, ws), carryChecks); Still(s, r, key) || Follows(r, key)
  {
    assert forall w :: w in Leading(s, ws) ==> w in ws;
    ApplyMoves(t, Leading(s, ws), carryChecks, key);
  }

  lemma GuardedMoves(s: State, k: Key, carryChecks: bool, key: Key)
    requires Wf(s) && key in s.rows
    ensures Still(s, GuardedSync(s, k, carryChecks), key) || Follows(GuardedSync(s, k, carryChecks), key)
  {
    if IsOpen(s.rows, k) && s.trunk != [] {
      var plan := PlanFor(s.repo, s.rows, Tip(s.trunk), StackKeys(s, k));
      if plan.Planned? {
        PlanWrites(s.repo, s.rows, Tip(s.trunk), StackKeys(s, k));
        LeadMoves(s, s.(repo := plan.repo), plan.writes, carryChecks, key);
      }
    }
  }

  lemma LandMoves(s: State, r: LandRequest, key: Key)
    requires KnownTips(s) && key in s.rows
    ensures Still(s, LandChange(s, r), key)
  {
  }

  /** Every event leaves a Change's ref and head alone, or leaves them together. */
  lemma InterfereMoves(s: State, e: Event, key: Key)
    requires Wf(s) && key in s.rows
    ensures Still(s, Interfere(s, e), key) || Follows(Interfere(s, e), key)
  {
    match e
    case PushEvent(p) => PushMoves(s, p, key);
    case SyncEvent(k, carry) => GuardedMoves(s, k, carry, key);
    case LandEvent(r) => WfKnown(s); LandMoves(s, r, key);
    case AbandonEvent(_, _) =>
    case _ => RowsUntouched(s, e);
  }

  lemma {:induction false} MeanwhileMoves(s: State, es: seq<Event>, key: Key)
    requires Wf(s) && key in s.rows
    ensures Still(s, Meanwhile(s, es), key) || Follows(Meanwhile(s, es), key)
    decreases |es|
  {
    if es != [] {
      MeanwhileMoves(s, es[..|es| - 1], key);
      InterfereMoves(Meanwhile(s, es[..|es| - 1]), es[|es| - 1], key);
    }
  }
}
