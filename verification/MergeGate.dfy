/** What it takes to merge, said of the trees, the reviews on record and the terms of the
    request (runkod/api.go, mergeRequirements). */
module MergeGate {
  import opened Changes
  import opened Git
  import opened Store
  import opened Sync
  import opened Landing
  import opened Receive
  import opened WellFormed
  import opened Runs
  import opened LandStack
  import opened LandTheorems
  import opened LandLaw
  import opened Owners
  import opened Policy

  // ----- Trees

  /** `owner` owns, at `v`, something that `v` changes. */
  ghost predicate OwnsPart(o: Org, repo: Repo, v: Version, owner: Name)
    requires KnownVersion(repo, v)
  {
    exists x :: At(repo[v.base].tree, x) != At(repo[v.head].tree, x) && OwnedBy(o.scan(repo[v.head].tree), o.path(x), owner)
  }

  lemma RequiredOwned(o: Org, repo: Repo, v: Version, owner: Name)
    requires KnownVersion(repo, v)
    ensures owner in RequiredOwners(o, repo, v) <==> OwnsPart(o, repo, v, owner)
  {
    var projects := o.scan(TreeOf(repo, v.head));
    if x :| At(TreeOf(repo, v.base), x) != At(TreeOf(repo, v.head), x) && OwnedBy(projects, o.path(x), owner) {
      ChangedPathsIff(o, repo, v, o.path(x));
      assert owner in OwnersAt(projects, o.path(x));
    }
    if owner in RequiredOwners(o, repo, v) {
      var p :| p in ChangedPaths(o, repo, v) && owner in OwnersAt(projects, p);
      ChangedPathsIff(o, repo, v, p);
    }
  }

  predicate Known(s: State, c: Change) {
    c.base < |s.repo| && c.head < |s.repo| && Tip(s.trunk) < |s.repo|
  }

  /** The projects whose declarations of zones count: trunk's, unless the org vetoed them. */
  ghost predicate ZonesOf(o: Org, s: State, vetoed: bool, zones: seq<Manifest>) {
    && !vetoed && s.trunk != [] && s.trunk[|s.trunk| - 1] < |s.repo|
    && zones == o.scan(s.repo[s.trunk[|s.trunk| - 1]].tree)
  }

  /** Trunk's zones cover all that `c` changes, and it changes something. */
  ghost predicate Zoned(o: Org, s: State, c: Change, vetoed: bool)
    requires Known(s, c)
  {
    var base, head := s.repo[c.base].tree, s.repo[c.head].tree;
    exists zones :: ZonesOf(o, s, vetoed, zones)
      && (exists x :: At(base, x) != At(head, x))
      && forall x :: At(base, x) != At(head, x) ==> InZone(zones, o.path(x))
  }

  /** Trunk's zones cover all that makes `owner` required. */
  ghost predicate ZoneSpares(o: Org, s: State, c: Change, vetoed: bool, owner: Name)
    requires Known(s, c)
  {
    var base, head := s.repo[c.base].tree, s.repo[c.head].tree;
    exists zones :: ZonesOf(o, s, vetoed, zones)
      && forall x :: At(base, x) != At(head, x) && OwnedBy(o.scan(head), o.path(x), owner) ==> InZone(zones, o.path(x))
  }

  // ----- Reviews

  predicate HasPolicyRun(s: State, c: Change) {
    (c.key, c.head) in s.review.runs && AGENT_POLICY in s.review.runs[(c.key, c.head)]
  }

  /** An approval at this very head, or the human author's own ownership. */
  predicate ConsentAt(s: State, c: Change, human: bool, owner: Name) {
    || (c.key in s.review.approvals && owner in s.review.approvals[c.key] && s.review.approvals[c.key][owner].head == c.head)
    || (human && c.author != NONE && owner == c.author)
  }

  /** Every name the terms require: the declared ones, and of the org's and the lane's those
      that are names at all. */
  ghost predicate RequiresCheck(x: Terms, n: Name) {
    n in x.declared || (n != NONE && (n in x.everywhere || (x.lane.Some? && n in x.lane.value)))
  }

  // ----- The gate

  ghost predicate ChecksGreen(o: Org, s: State, c: Change, x: Terms)
    requires Known(s, c)
  {
    && (forall n :: n in x.declared ==> Passed(s, c, n))
    && (forall n :: n in x.everywhere && n != NONE ==> Passed(s, c, n))
    && (x.lane.Some? ==> forall n :: n in x.lane.value && n != NONE ==> Passed(s, c, n))
    && (HasPolicyRun(s, c) && (x.lane.Some? || !Zoned(o, s, c, x.vetoed)) ==> Passed(s, c, AGENT_POLICY))
  }

  ghost predicate OwnersContent(o: Org, s: State, c: Change, x: Terms)
    requires Known(s, c)
  {
    forall owner :: OwnsPart(o, s.repo, Version(c.base, c.head), owner) ==>
      ConsentAt(s, c, x.human, owner) || ZoneSpares(o, s, c, x.vetoed, owner)
  }

  /** Some policy speaks of the Change: a check, an owner, a finding, a zone, or leave to land
      without any. */
  ghost predicate Policed(o: Org, s: State, c: Change, x: Terms)
    requires Known(s, c)
  {
    || x.unpoliced || Zoned(o, s, c, x.vetoed) || HasPolicyRun(s, c)
    || (exists n :: RequiresCheck(x, n))
    || exists owner :: OwnsPart(o, s.repo, Version(c.base, c.head), owner)
  }

  ghost predicate MayMerge(o: Org, s: State, c: Change, x: Terms)
    requires Known(s, c)
  {
    && ChecksGreen(o, s, c, x) && BaseLanded(s, c.base)
    && (x.lane.None? ==> OwnersContent(o, s, c, x) && Policed(o, s, c, x) && x.described && x.resolved)
  }

  lemma ZonesSame(o: Org, s: State, vetoed: bool, zones: seq<Manifest>)
    requires Tip(s.trunk) < |s.repo|
    ensures ZonesOf(o, s, vetoed, zones) <==> zones == Zones(o, s, vetoed) && !vetoed && s.trunk != []
  {
  }

  lemma NoZone(path: string)
    ensures !InZone([], path)
  {
    assert Declaring([]) == [];
  }

  lemma ZonedIff(o: Org, s: State, c: Change, vetoed: bool)
    requires Known(s, c)
    ensures WhollyIn(Zones(o, s, vetoed), ChangedPaths(o, s.repo, Version(c.base, c.head))) <==> Zoned(o, s, c, vetoed)
  {
    var base, head := s.repo[c.base].tree, s.repo[c.head].tree;
    var zones, paths := Zones(o, s, vetoed), ChangedPaths(o, s.repo, Version(c.base, c.head));
    ZonesSame(o, s, vetoed, zones);
    forall p ensures p in paths <==> exists x :: At(base, x) != At(head, x) && o.path(x) == p {
      ChangedPathsIff(o, s.repo, Version(c.base, c.head), p);
    }
    if WhollyIn(zones, paths) {
      var p :| p in paths;
      if vetoed || s.trunk == [] { NoZone(p); }
    }
    if Zoned(o, s, c, vetoed) {
      var zs :| ZonesOf(o, s, vetoed, zs) && forall x :: At(base, x) != At(head, x) ==> InZone(zs, o.path(x));
      ZonesSame(o, s, vetoed, zs);
      var x :| At(base, x) != At(head, x);
      assert o.path(x) in paths;
    }
  }

  lemma SparesIff(o: Org, s: State, c: Change, vetoed: bool, owner: Name)
    requires Known(s, c) && OwnsPart(o, s.repo, Version(c.base, c.head), owner)
    ensures ZoneOnly(o, s.repo, Version(c.base, c.head), Zones(o, s, vetoed), owner) <==> ZoneSpares(o, s, c, vetoed, owner)
  {
    var base, head := s.repo[c.base].tree, s.repo[c.head].tree;
    var v, zones := Version(c.base, c.head), Zones(o, s, vetoed);
    ZonesSame(o, s, vetoed, zones);
    var y :| At(base, y) != At(head, y) && OwnedBy(o.scan(head), o.path(y), owner);
    forall p ensures p in ChangedPaths(o, s.repo, v) <==> exists x :: At(base, x) != At(head, x) && o.path(x) == p {
      ChangedPathsIff(o, s.repo, v, p);
    }
    if ZoneOnly(o, s.repo, v, zones, owner) {
      assert InZone(zones, o.path(y));
      if vetoed || s.trunk == [] { NoZone(o.path(y)); }
    }
    if ZoneSpares(o, s, c, vetoed, owner) {
      var zs :| ZonesOf(o, s, vetoed, zs)
        && forall x :: At(base, x) != At(head, x) && OwnedBy(o.scan(head), o.path(x), owner) ==> InZone(zs, o.path(x));
      ZonesSame(o, s, vetoed, zs);
    }
  }

  /** The owners the gate asks are those who own what the Change changes, and each is content
      or spared as the gate finds. */
  lemma OwnersIff(o: Org, s: State, c: Change, x: Terms)
    requires Known(s, c) && x.lane.None?
    ensures var g := GateOf(o, s, c, x);
            && (forall n :: n in g.owners <==> OwnsPart(o, s.repo, Version(c.base, c.head), n))
            && (forall n :: n in g.owners ==>
                  (OwnerSatisfied(s, c, g, n) <==> ConsentAt(s, c, x.human, n) || ZoneSpares(o, s, c, x.vetoed, n)))
            && (forall n :: n in g.owners ==> (n in g.waived <==> ZoneSpares(o, s, c, x.vetoed, n)))
  {
    var g, v := GateOf(o, s, c, x), Version(c.base, c.head);
    forall n ensures n in g.owners <==> OwnsPart(o, s.repo, v, n) { RequiredOwned(o, s.repo, v, n); }
    forall n | n in g.owners ensures n in g.waived <==> ZoneSpares(o, s, c, x.vetoed, n) {
      SparesIff(o, s, c, x.vetoed, n);
    }
  }

  lemma ChecksIff(o: Org, s: State, c: Change, x: Terms)
    requires Known(s, c)
    ensures var g := GateOf(o, s, c, x);
            && (ChecksPass(s, c, g) <==> ChecksGreen(o, s, c, x))
            && (g.checks != {} <==> exists n :: RequiresCheck(x, n))
            && (g.fullyAuto <==> x.lane.None? && Zoned(o, s, c, x.vetoed))
  {
    var g := GateOf(o, s, c, x);
    ZonedIff(o, s, c, x.vetoed);
    assert forall n :: n in g.checks <==> RequiresCheck(x, n);
    assert forall n :: Green(s.review.runs, c.key, c.head, n) <==> Passed(s, c, n);
    if g.checks != {} { var n :| n in g.checks; assert RequiresCheck(x, n); }
    if ChecksGreen(o, s, c, x) {
      forall n | n in g.checks ensures Green(s.review.runs, c.key, c.head, n) { assert RequiresCheck(x, n); }
    }
    if ChecksPass(s, c, g) {
      forall n | RequiresCheck(x, n) ensures Passed(s, c, n) { assert n in g.checks; }
    }
  }

  lemma ContentIff(o: Org, s: State, c: Change, x: Terms)
    requires Known(s, c) && x.lane.None?
    ensures var g := GateOf(o, s, c, x);
            && ((forall n :: n in g.owners ==> OwnerSatisfied(s, c, g, n)) <==> OwnersContent(o, s, c, x))
            && (g.owners != {} <==> exists n :: OwnsPart(o, s.repo, Version(c.base, c.head), n))
  {
    var g := GateOf(o, s, c, x);
    OwnersIff(o, s, c, x);
    if g.owners != {} { var n :| n in g.owners; assert OwnsPart(o, s.repo, Version(c.base, c.head), n); }
  }

  lemma UnblockedIff(o: Org, s: State, c: Change, x: Terms)
    requires Known(s, c)
    ensures GateOf(o, s, c, x).unblocked <==> (x.lane.None? ==> Policed(o, s, c, x) && x.described && x.resolved)
  {
    ChecksIff(o, s, c, x);
    if x.lane.None? { ContentIff(o, s, c, x); }
  }

  /** The gate of a request holds if and only if the Change may merge. */
  lemma MergesIff(o: Org, s: State, c: Change, x: Terms)
    requires Known(s, c)
    ensures Mergeable(s, c, GateOf(o, s, c, x)) <==> MayMerge(o, s, c, x)
  {
    ChecksIff(o, s, c, x);
    UnblockedIff(o, s, c, x);
    if x.lane.None? { ContentIff(o, s, c, x); }
  }

  /** A zone stood in for someone: it covers the whole change, or spares an owner who did not
      consent. */
  ghost predicate ZoneStoodIn(o: Org, s: State, c: Change, x: Terms)
    requires Known(s, c)
  {
    && x.lane.None?
    && (Zoned(o, s, c, x.vetoed)
        || exists owner :: OwnsPart(o, s.repo, Version(c.base, c.head), owner)
             && ZoneSpares(o, s, c, x.vetoed, owner) && !ConsentAt(s, c, x.human, owner))
  }

  lemma StoodInIffZones(o: Org, s: State, c: Change, x: Terms)
    requires Known(s, c) && x.lane.None?
    ensures ZonesCount(o, s, c, x) <==> ZoneStoodIn(o, s, c, x)
  {
    var g := GateOf(o, s, c, x);
    ChecksIff(o, s, c, x);
    OwnersIff(o, s, c, x);
    assert forall n :: Consented(ApprovalsOf(s.review, c.key), c.head, c.author, x.human, n) <==> ConsentAt(s, c, x.human, n);
    assert forall n :: n in g.waived ==> n in g.owners;
  }

  // ----- Landing under the gate

  /** The Change is open, forced by who may or free to merge, waits for no parent, does not lose
      every race, and its delta goes on the tip. */
  ghost predicate MayLandAs(o: Org, s: State, a: Ask)
    requires KnownTips(s)
  {
    && a.key in s.rows && s.rows[a.key].status == Open
    && (a.force ==> a.authorized) && (a.force || MayMerge(o, s, s.rows[a.key], a.terms))
    && !OnOpenParent(s, s.rows[a.key].base) && a.lost < 5
    && Clean(s, s.rows[a.key], a.revalidate && !a.force)
  }

  /** A land that the caller asks for lands so, or changes nothing. */
  ghost predicate LandsAsAsked(o: Org, s: State, a: Ask, t: State)
    requires KnownTips(s)
  {
    if MayLandAs(o, s, a) then
      && LandsOn(s, t, a.key)
      && (t.rows[a.key].forced <==> !MayMerge(o, s, s.rows[a.key], a.terms))
      && ClosedExactly(t.rows, s.spaces, t.spaces, s.rows[a.key].workspace, a.closes)
    else t == s
  }

  /** A sweep under these requests stops only at a member that may not land there, unforced. */
  lemma AskedStopsRightly(o: Org, s: State, chain: seq<Key>, ask: Key -> Ask, env: seq<seq<Event>>)
    requires Wf(s) && |env| == |chain|
    ensures var r := Sweep(s, chain, Asking(o, ask), env);
            && StoppedAsAsked(o, r, ask)
            && forall k :: k in r.landed ==> IsLanded(r.state.rows, k) && !r.state.rows[k].forced
  {
    var r := Sweep(s, chain, Asking(o, ask), env);
    SweepStopsRightly(s, chain, Asking(o, ask), env);
    if r.stopped.Some? {
      var k := r.stopped.value;
      var a := ask(k).(key := k, force := false);
      WfKnown(r.state);
      assert Unforced(Asking(o, ask)(r.state, k), k) == Held(o, r.state, a);
      AskedExactly(o, r.state, a);
      LandsExactly(r.state, Held(o, r.state, a));
    }
  }

  ghost predicate StoppedAsAsked(o: Org, r: Swept, ask: Key -> Ask) {
    r.stopped.Some? ==>
      KnownTips(r.state) && !MayLandAs(o, r.state, ask(r.stopped.value).(key := r.stopped.value, force := false))
  }

  lemma AskedExactly(o: Org, s: State, a: Ask)
    requires KnownTips(s)
    ensures LandsAsAsked(o, s, a, LandChange(s, Held(o, s, a)))
  {
    var r := Held(o, s, a);
    LandsExactly(s, r);
    if a.key in s.rows {
      MergesIff(o, s, s.rows[a.key], a.terms);
      MergeableIff(s, s.rows[a.key], r.gate);
    }
  }
}
