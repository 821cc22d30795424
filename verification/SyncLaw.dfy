/** What a clean sync leaves of refs and review results, Change by Change (runkod/sync.go,
    trivialrebase.go). */
module SyncLaw {
  import opened Changes
  import opened Git
  import opened Store
  import opened Carry
  import opened Sync
  import opened SyncStack
  import opened SyncReviews
  import opened ReviewLaw

  /** Nothing of `k` has moved. */
  ghost predicate Untouched(s: State, t: State, k: Key) {
    && s.log.versions <= t.log.versions
    && (k in t.rows <==> k in s.rows) && (k in s.rows ==> t.rows[k] == s.rows[k])
    && (k in t.refs <==> k in s.refs) && (k in s.refs ==> t.refs[k] == s.refs[k])
    && (forall h, n :: RunOf(t.review, k, h, n) == RunOf(s.review, k, h, n))
    && (forall n :: ApprovalOf(t.review, k, n) == ApprovalOf(s.review, k, n))
  }

  /** The Change is at its planned version, by its author as before; its results are carried if
      it rides there, and stay where they were otherwise. */
  ghost predicate Moved(s: State, t: State, w: Write, rides: bool, carry: bool)
    requires w.key in s.rows
  {
    var c := s.rows[w.key];
    && w.key in t.rows && t.rows[w.key].base == w.base && t.rows[w.key].head == w.head && t.rows[w.key].author == c.author
    && w.key in t.refs && t.refs[w.key] == w.head && (w.key, Version(w.base, w.head)) in t.log.versions
    && (forall n :: ApprovalOf(t.review, w.key, n) ==
          if rides then CarriedApproval(s.review, w.key, c.head, w.head, n) else ApprovalOf(s.review, w.key, n))
    && (forall h, n :: RunOf(t.review, w.key, h, n) ==
          if rides && h == w.head then CarriedRun(s.review, w.key, c.head, w.head, carry, n) else RunOf(s.review, w.key, h, n))
  }

  lemma WriteMoves(s: State, w: Write, carry: bool)
    requires w.key in s.rows
    ensures Moved(s, ApplyWrite(s, w, carry), w, CarriesFrom(s.repo, s.rows[w.key], w.base, w.head), carry)
    ensures forall k :: k != w.key ==> Untouched(s, ApplyWrite(s, w, carry), k)
  {
    if CarriesFrom(s.repo, s.rows[w.key], w.base, w.head) {
      CarriesExactly(s.review, w.key, s.rows[w.key].head, w.head, carry);
    }
  }

  lemma {:induction false} ApplyUntouched(s: State, ws: seq<Write>, carry: bool, k: Key)
    requires WritesIn(s.rows, ws) && forall w :: w in ws ==> w.key != k
    ensures Untouched(s, Apply(s, ws, carry), k)
    decreases |ws|
  {
    if ws != [] {
      var n := |ws| - 1;
      SplitLast(ws);
      ApplyUntouched(s, ws[..n], carry, k);
      WriteMoves(Apply(s, ws[..n], carry), ws[n], carry);
      UntouchedTrans(s, Apply(s, ws[..n], carry), Apply(s, ws, carry), k);
    }
  }

  lemma UntouchedTrans(a: State, b: State, c: State, k: Key)
    requires Untouched(a, b, k) && Untouched(b, c, k)
    ensures Untouched(a, c, k)
  {
  }

  lemma StaysMoved(s: State, u: State, t: State, w: Write, rides: bool, carry: bool)
    requires w.key in s.rows && Moved(s, u, w, rides, carry) && Untouched(u, t, w.key)
    ensures Moved(s, t, w, rides, carry)
  {
  }

  lemma {:induction false} ApplyMoves(s: State, ws: seq<Write>, carry: bool, w: Write)
    requires WritesIn(s.rows, ws) && DistinctWrites(ws) && w in ws && w.key in s.rows
    ensures Moved(s, Apply(s, ws, carry), w, CarriesFrom(s.repo, s.rows[w.key], w.base, w.head), carry)
    decreases |ws|
  {
    var n := |ws| - 1;
    SplitWrites(ws, w);
    var before := Apply(s, ws[..n], carry);
    if w == ws[n] {
      ApplyUntouched(s, ws[..n], carry, w.key);
      WriteMoves(before, w, carry);
      MovedFrom(s, before, Apply(s, ws, carry), w, carry);
    } else {
      ApplyMoves(s, ws[..n], carry, w);
      WriteMoves(before, ws[n], carry);
      StaysMoved(s, before, Apply(s, ws, carry), w, CarriesFrom(s.repo, s.rows[w.key], w.base, w.head), carry);
    }
  }

  lemma MovedFrom(s: State, u: State, t: State, w: Write, carry: bool)
    requires w.key in s.rows && w.key in u.rows && u.repo == s.repo && Untouched(s, u, w.key)
    requires Moved(u, t, w, CarriesFrom(u.repo, u.rows[w.key], w.base, w.head), carry)
    ensures Moved(s, t, w, CarriesFrom(s.repo, s.rows[w.key], w.base, w.head), carry)
  {
  }

  /** A clean sync: each rewritten member moves with what it carries, which it does exactly when
      its old head names it; nothing of any other Change moves. */
  lemma SyncMovesExactly(s: State, ks: seq<Key>, carry: bool, k: Key)
    requires CleanSync(s, ks)
    ensures var t, ws := SyncMembers(s, ks, carry), PlanFor(s.repo, s.rows, Tip(s.trunk), ks).writes;
            if w :| w in ws && w.key == k
            then k in s.rows && s.rows[k].head < |s.repo| && Moved(s, t, w, s.repo[s.rows[k].head].trailer == k, carry)
            else Untouched(s, t, k)
  {
    var plan := PlanFor(s.repo, s.rows, Tip(s.trunk), ks);
    var u := s.(repo := plan.repo);
    PlanWrites(s.repo, s.rows, Tip(s.trunk), ks);
    PlanShape(s.repo, s.rows, Tip(s.trunk), ks);
    assert SyncMembers(s, ks, carry) == Apply(u, plan.writes, carry);
    forall w | w in plan.writes && w.key == k
      ensures k in s.rows && s.rows[k].head < |s.repo|
        && Moved(s, SyncMembers(s, ks, carry), w, s.repo[s.rows[k].head].trailer == k, carry)
    {
      SyncWrite(s, ks, w);
      ApplyMoves(u, plan.writes, carry, w);
      MovedGrown(s, u, SyncMembers(s, ks, carry), w, CarriesFrom(u.repo, u.rows[w.key], w.base, w.head), carry);
    }
    if forall w :: w in plan.writes ==> w.key != k { ApplyUntouched(u, plan.writes, carry, k); }
  }

  lemma MovedGrown(s: State, u: State, t: State, w: Write, rides: bool, carry: bool)
    requires w.key in s.rows && u == s.(repo := u.repo) && Moved(u, t, w, rides, carry)
    ensures Moved(s, t, w, rides, carry)
  {
  }
}
