/** What the tree and the org ask of a Change before it may land (runkod/api.go): the owners of
    what it changes, the zones that trunk declares, the checks, and the last blockers. */
module Policy {
  import opened Changes
  import opened Git
  import opened Store
  import opened Sync
  import opened Landing
  import opened Owners

  /** How trees are read: the path of each cell and the projects a tree declares. */
  datatype Org = Org(path: Cell -> string, scan: Tree -> seq<Manifest>)

  /** What settings and caller bring to one reading of the gate.  vetoed: the org switched
      zones off; human: the author is no agent; declared: the affected projects' checks;
      everywhere: the org's own; lane: the caller is a bot lane with these checks; unpoliced:
      landing without any policy is allowed; described: the description an agent owes is
      there; resolved: so is an answer to every thread that needs one. */
  datatype Terms = Terms(
    vetoed: bool,
    human: bool,
    declared: seq<Name>,
    everywhere: seq<Name>,
    lane: Option<seq<Name>>,
    unpoliced: bool,
    described: bool,
    resolved: bool)

  function TreeOf(repo: Repo, s: Sha): Tree {
    if s < |repo| then repo[s].tree else map[]
  }

  /** `git diff --name-only base head`. */
  function ChangedPaths(o: Org, repo: Repo, v: Version): set<string> {
    var base, head := TreeOf(repo, v.base), TreeOf(repo, v.head);
    set x | x in base.Keys + head.Keys && At(base, x) != At(head, x) :: o.path(x)
  }

  /** Exactly the paths of the cells the version changes. */
  lemma ChangedPathsIff(o: Org, repo: Repo, v: Version, p: string)
    ensures p in ChangedPaths(o, repo, v) <==>
              exists x :: At(TreeOf(repo, v.base), x) != At(TreeOf(repo, v.head), x) && o.path(x) == p
  {
    var base, head := TreeOf(repo, v.base), TreeOf(repo, v.head);
    if x :| At(base, x) != At(head, x) && o.path(x) == p {
      assert x in base.Keys + head.Keys;
    }
  }

  // ----- Owners

  /** The owners of the project a path belongs to. */
  ghost function OwnersAt(projects: seq<Manifest>, path: string): (r: set<Name>)
    ensures forall n :: n in r <==> OwnedBy(projects, path, n)
  {
    if i: nat :| Deepest(projects, path, i, false) then
      assert forall n :: OwnedBy(projects, path, n) ==> n in projects[i].owners by {
        forall n | OwnedBy(projects, path, n) ensures n in projects[i].owners { OwnersOfDeepest(projects, path, i, n); }
      }
      set n | n in projects[i].owners
    else {}
  }

  /** The owners of what a version changes, in the projects its own head declares. */
  ghost function RequiredOwners(o: Org, repo: Repo, v: Version): set<Name> {
    set p, n | p in ChangedPaths(o, repo, v) && n in OwnersAt(o.scan(TreeOf(repo, v.head)), p) :: n
  }

  /** The zones are trunk's, never the Change's own; a veto or an unborn trunk leaves none. */
  function Zones(o: Org, s: State, vetoed: bool): seq<Manifest> {
    if vetoed || s.trunk == [] then [] else o.scan(TreeOf(s.repo, Tip(s.trunk)))
  }

  /** Every changed path that makes `n` required is in a zone. */
  ghost predicate ZoneOnly(o: Org, repo: Repo, v: Version, zones: seq<Manifest>, n: Name) {
    forall p :: p in ChangedPaths(o, repo, v) && OwnedBy(o.scan(TreeOf(repo, v.head)), p, n) ==> InZone(zones, p)
  }

  ghost function WaivedOwners(o: Org, repo: Repo, v: Version, zones: seq<Manifest>): set<Name> {
    set n | n in RequiredOwners(o, repo, v) && ZoneOnly(o, repo, v, zones, n)
  }

  ghost predicate WhollyIn(zones: seq<Manifest>, paths: set<string>) {
    paths != {} && forall p :: p in paths ==> InZone(zones, p)
  }

  // ----- The gate

  function Named(names: seq<Name>): set<Name> {
    (set n | n in names) - {NONE}
  }

  function ChecksOf(x: Terms): set<Name> {
    (set n | n in x.declared) + Named(x.everywhere) + if x.lane.Some? then Named(x.lane.value) else {}
  }

  ghost function GateOf(o: Org, s: State, c: Change, x: Terms): Gate {
    var v := Version(c.base, c.head);
    if x.lane.Some? then Gate({}, {}, x.human, ChecksOf(x), false, true)
    else
      var zones, owners := Zones(o, s, x.vetoed), RequiredOwners(o, s.repo, v);
      var fullyAuto := WhollyIn(zones, ChangedPaths(o, s.repo, v));
      var policed := ChecksOf(x) != {} || owners != {} || AGENT_POLICY in RunsAt(s.review.runs, c.key, c.head);
      Gate(owners, WaivedOwners(o, s.repo, v, zones), x.human, ChecksOf(x), fullyAuto,
           (x.unpoliced || fullyAuto || policed) && x.described && x.resolved)
  }

  /** A request to land, before the tree is asked what it requires. */
  datatype Ask = Ask(
    key: Key, terms: Terms, force: bool, authorized: bool, lost: nat, revalidate: bool, closes: bool)

  /** The request as the gate meets it in `s`. */
  ghost function Held(o: Org, s: State, a: Ask): LandRequest {
    var g := if a.key in s.rows then GateOf(o, s, s.rows[a.key], a.terms) else Gate({}, {}, false, {}, false, true);
    LandRequest(a.key, g, a.force, a.authorized, a.lost, a.revalidate, a.closes)
  }

  // ----- The listed paths stand for the changed ones

  lemma RequiredListed(o: Org, repo: Repo, v: Version, paths: seq<string>, n: Name)
    requires forall p :: p in paths <==> p in ChangedPaths(o, repo, v)
    ensures n in RequiredOwners(o, repo, v) <==> Required(o.scan(TreeOf(repo, v.head)), paths, n)
  {
    var projects := o.scan(TreeOf(repo, v.head));
    if p :| p in paths && OwnedBy(projects, p, n) { assert n in OwnersAt(projects, p); }
  }

  /** The gate of a caller without a lane is the one the listed paths define. */
  lemma GateIsTreeGate(o: Org, s: State, c: Change, x: Terms, paths: seq<string>)
    requires x.lane.None?
    requires forall p :: p in paths <==> p in ChangedPaths(o, s.repo, Version(c.base, c.head))
    ensures TreeGate(GateOf(o, s, c, x), o.scan(TreeOf(s.repo, c.head)), Zones(o, s, x.vetoed), paths)
  {
    var v := Version(c.base, c.head);
    forall n ensures n in RequiredOwners(o, s.repo, v) <==> Required(o.scan(TreeOf(s.repo, c.head)), paths, n) {
      RequiredListed(o, s.repo, v, paths, n);
    }
  }

  ghost predicate OwnersAsGate(s: State, c: Change, g: Gate, reqs: seq<Requirement>) {
    && (reqs == [] <==> g.owners == {})
    && ((forall n :: n in g.owners ==> OwnerSatisfied(s, c, g, n)) <==> forall i :: 0 <= i < |reqs| ==> reqs[i].satisfied)
  }

  /** The requirements listed for a Change are all satisfied exactly when the gate's owners
      are, and a zone stood in exactly when one waives an owner who did not consent. */
  lemma ListedAgrees(o: Org, s: State, c: Change, x: Terms, paths: seq<string>, reqs: seq<Requirement>)
    requires x.lane.None? && forall p :: p in paths <==> p in ChangedPaths(o, s.repo, Version(c.base, c.head))
    requires ListedFor(o.scan(TreeOf(s.repo, c.head)), Zones(o, s, x.vetoed), paths, ApprovalsOf(s.review, c.key), c, x.human, reqs)
    ensures OwnersAsGate(s, c, GateOf(o, s, c, x), reqs)
    ensures StoodIn(reqs, ApprovalsOf(s.review, c.key), c.head, c.author, x.human, |reqs|) <==> SpareHelps(o, s, c, x)
  {
    var g, projects, zones := GateOf(o, s, c, x), o.scan(TreeOf(s.repo, c.head)), Zones(o, s, x.vetoed);
    GateIsTreeGate(o, s, c, x, paths);
    GateAgrees(s, c, g, projects, zones, paths, reqs);
    StoodInIff(c, g, ApprovalsOf(s.review, c.key), projects, zones, paths, reqs);
  }

  /** The gate waives an owner who did not consent. */
  ghost predicate SpareHelps(o: Org, s: State, c: Change, x: Terms) {
    exists n :: n in GateOf(o, s, c, x).waived && !Consented(ApprovalsOf(s.review, c.key), c.head, c.author, x.human, n)
  }

  /** AutoApprovedAll: an empty list is no zone. */
  method AutoApprovedAll(zones: seq<Manifest>, paths: seq<string>) returns (all: bool)
    ensures all <==> paths != [] && forall p :: p in paths ==> InZone(zones, p)
  {
    if paths == [] { return false; }
    for i := 0 to |paths|
      invariant forall p :: p in paths[..i] ==> InZone(zones, p)
    {
      var auto := AutoApproved(zones, paths[i]);
      if !auto {
        assert paths[i] in paths;
        return false;
      }
      assert paths[..i + 1] == paths[..i] + [paths[i]];
    }
    assert paths[..|paths|] == paths;
    all := true;
  }

  lemma MergedNames(names: seq<Name>, extra: seq<Name>, out: seq<Name>, added: seq<Name>)
    requires multiset(out) == multiset(names + added)
    requires forall n :: n in added <==> n in extra && n != NONE && n !in names
    ensures forall n :: n in out <==> n in names || n in Named(extra)
  {
    forall n ensures n in out <==> n in names || n in Named(extra) {
      assert n in out <==> n in multiset(out);
      assert n in names + added <==> n in multiset(names + added);
    }
  }

  method Merged(names: seq<Name>, extra: seq<Name>) returns (out: seq<Name>)
    ensures forall n :: n in out <==> n in names || n in Named(extra)
  {
    ghost var added;
    out, added := MergeCheckNames(names, extra);
    MergedNames(names, extra, out, added);
  }

  /** Under the gate, a zone has stood in: the whole change is in one, or one spares an
      owner. */
  ghost predicate ZonesCount(o: Org, s: State, c: Change, x: Terms) {
    GateOf(o, s, c, x).fullyAuto || SpareHelps(o, s, c, x)
  }

  lemma WhollyListed(zones: seq<Manifest>, paths: seq<string>, changed: set<string>)
    requires forall p :: p in paths <==> p in changed
    ensures paths != [] && (forall p :: p in paths ==> InZone(zones, p)) <==> WhollyIn(zones, changed)
  {
    if paths != [] { assert paths[0] in changed; }
    if p :| p in changed { assert p in paths; }
  }

  /** The gate taken apart: listed owners, listed names, the base, the last blockers. */
  lemma MergeableParts(o: Org, s: State, c: Change, x: Terms, reqs: seq<Requirement>, names: seq<Name>)
    requires OwnersAsGate(s, c, GateOf(o, s, c, x), reqs)
    requires var g := GateOf(o, s, c, x);
             forall n :: n in names <==>
                  n in ChecksOf(x) || (n == AGENT_POLICY && AGENT_POLICY in RunsAt(s.review.runs, c.key, c.head) && !g.fullyAuto)
    ensures var g := GateOf(o, s, c, x);
            Mergeable(s, c, g) <==>
              && (forall i :: 0 <= i < |reqs| ==> reqs[i].satisfied)
              && (forall n :: n in names ==> Green(s.review.runs, c.key, c.head, n))
              && (BaseOnTrunk(s.trunk, c.base) || ParentLanded(s, c.base))
              && (x.lane.Some? || ((x.unpoliced || g.fullyAuto || names != [] || reqs != []) && x.described && x.resolved))
  {
    var g := GateOf(o, s, c, x);
    var policy := AGENT_POLICY in RunsAt(s.review.runs, c.key, c.head) && !g.fullyAuto;
    assert names != [] <==> g.checks != {} || policy by {
      if names != [] { assert names[0] in names; }
      if n :| n in g.checks { assert n in names; }
      if policy { assert AGENT_POLICY in names; }
    }
  }

  /** What a version of an open Change requires. */
  ghost function Requires(o: Org, s: State, key: Key): set<Name> {
    if key in s.rows then RequiredOwners(o, s.repo, Version(s.rows[key].base, s.rows[key].head)) else {}
  }

  /** One sweep's request for each member, as the gate meets it then. */
  ghost function Asking(o: Org, ask: Key -> Ask): (State, Key) -> LandRequest {
    (s: State, k: Key) => Held(o, s, ask(k).(key := k))
  }
}
