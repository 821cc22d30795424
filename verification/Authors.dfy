/** Who pushed what: a row's author is the author of the last accepted push of its Change, in
    every run (runkod/store.go, CreateOrUpdateChange: the last pusher owns). */
module Authors {
  import opened Changes
  import opened Store
  import opened Receive
  import opened WellFormed
  import opened Landing
  import opened Runs
  import opened RunTheorems
  import opened LandTheorems

  /** The last push of the run that was accepted and had the Change among its members. */
  ghost function LastPush(s: State, es: seq<Event>, k: Key): Option<Push>
    requires Wf(s)
    decreases |es|
  {
    if es == [] then None
    else
      var n := |es| - 1;
      if es[n].PushEvent? && Records(After(s, es[..n]), es[n].push, k) then Some(es[n].push)
      else LastPush(s, es[..n], k)
  }

  /** A step that is no push of the Change leaves its author, and makes no row for it. */
  ghost predicate KeepsAuthor(s: State, t: State, k: Key) {
    k in t.rows ==> k in s.rows && t.rows[k].author == s.rows[k].author
  }

  lemma PushAuthor(s: State, p: Push, k: Key)
    requires Wf(s)
    ensures var t := ReceivePush(s, p);
            if Records(s, p, k) then k in t.rows && t.rows[k].author == p.author else KeepsAuthor(s, t, k)
  {
    if Accepted(s, p) {
      var ids := PushSummary(s, p);
      if k in ids { assert PushedRow(s, p, ReceivePush(s, p), k); }
    }
  }

  lemma LandAuthor(s: State, r: LandRequest, k: Key)
    requires KnownTips(s)
    ensures KeepsAuthor(s, LandChange(s, r), k)
  {
    LandReplaysDelta(s, r);
  }

  lemma OtherAuthor(s: State, e: Event, k: Key)
    requires Wf(s) && !e.PushEvent?
    ensures KeepsAuthor(s, Step(s, e), k)
  {
    match e
    case SyncEvent(key, carry) => SyncSummary(s, key, carry);
    case LandEvent(r) => WfKnown(s); LandAuthor(s, r, k);
    case AbandonEvent(_, _) =>
    case _ => RowsUntouched(s, e);
  }

  /** In every run: each Change on record was pushed, and its author is who pushed it last,
      however often it was synced since. */
  lemma {:induction false} AuthorIsLastPusher(s: State, es: seq<Event>, k: Key)
    requires Fresh(s) && k in After(s, es).rows
    ensures LastPush(s, es, k).Some? && After(s, es).rows[k].author == LastPush(s, es, k).value.author
    decreases |es|
  {
    if es != [] {
      var n := |es| - 1;
      var t := After(s, es[..n]);
      if es[n].PushEvent? { PushAuthor(t, es[n].push, k); } else { OtherAuthor(t, es[n], k); }
      if !(es[n].PushEvent? && Records(t, es[n].push, k)) { AuthorIsLastPusher(s, es[..n], k); }
    }
  }
}
