/** Who must approve a change (runkod/api.go): the owners of the projects whose paths it
    touches, less what an auto-approve zone waives. */
module Owners {
  import opened Changes
  import opened Text
  import opened Store
  import opened Landing

  /** What a manifest says of a project: where it lives, who owns it, and whether it declares
      auto-approval. */
  datatype Manifest = Manifest(path: string, owners: seq<Name>, auto: Option<bool>)

  datatype Requirement = Requirement(owner: Name, satisfied: bool)

  // ----- Longest prefix

  /** A project owns its own directory and what lies below; the root project owns all.  Zones
      (`dot`) may name the root "." as well. */
  predicate Owns(project: string, path: string, dot: bool) {
    project == "" || (dot && project == ".") || path == project || HasPrefix(path, project + "/")
  }

  /** Character by character: a project owns its own directory and the paths that go on from it
      with a slash, so "app" does not own "apple". */
  lemma OwnsExactly(project: string, path: string, dot: bool)
    ensures Owns(project, path, dot) <==>
              || project == "" || (dot && project == ".")
              || (|project| <= |path| && (forall i :: 0 <= i < |project| ==> path[i] == project[i])
                  && (|project| == |path| || path[|project|] == '/'))
  {
    var q := project + "/";
    if |project| < |path| && (forall i :: 0 <= i < |project| ==> path[i] == project[i]) && path[|project|] == '/' {
      assert path[..|q|] == q;
    }
    if HasPrefix(path, q) {
      assert path[..|q|] == q && forall i :: 0 <= i < |project| ==> path[i] == q[i] == project[i];
      assert path[|project|] == q[|project|];
    }
    if |project| == |path| && (forall i :: 0 <= i < |project| ==> path[i] == project[i]) { assert path == project; }
  }

  /** No project of the list that owns `path` lies deeper than the i-th, and none before it
      lies as deep. */
  ghost predicate Deepest(projects: seq<Manifest>, path: string, i: nat, dot: bool) {
    && i < |projects| && Owns(projects[i].path, path, dot)
    && (forall j :: 0 <= j < |projects| && Owns(projects[j].path, path, dot) ==> |projects[j].path| <= |projects[i].path|)
    && (forall j :: 0 <= j < i && Owns(projects[j].path, path, dot) ==> |projects[j].path| < |projects[i].path|)
  }

  /** Two projects of the same length that own a path are at the same place. */
  lemma SameDepthSamePlace(a: string, b: string, path: string)
    requires Owns(a, path, false) && Owns(b, path, false) && |a| == |b|
    ensures a == b
  {
    PrefixOf(a, path);
    PrefixOf(b, path);
  }

  lemma PrefixOf(p: string, path: string)
    requires Owns(p, path, false)
    ensures |p| <= |path| && path[..|p|] == p
  {
    if p != "" && path != p {
      var q := p + "/";
      assert path[..|q|] == q && path[..|q|][..|p|] == path[..|p|];
    }
  }

  /** owningProject. */
  method OwningProject(projects: seq<Manifest>, path: string, dot: bool) returns (best: Option<nat>)
    ensures best.Some? ==> Deepest(projects, path, best.value, dot)
    ensures best.None? ==> forall j :: 0 <= j < |projects| ==> !Owns(projects[j].path, path, dot)
  {
    best := None;
    for i := 0 to |projects|
      invariant best.Some? ==> best.value < i && Deepest(projects[..i], path, best.value, dot)
      invariant best.None? ==> forall j :: 0 <= j < i ==> !Owns(projects[j].path, path, dot)
    {
      if Owns(projects[i].path, path, dot) && (best.None? || |projects[i].path| > |projects[best.value].path|) {
        best := Some(i);
      }
    }
    assert projects[..|projects|] == projects;
  }

  /** The owner of a path, where it has one. */
  ghost predicate OwnedBy(projects: seq<Manifest>, path: string, owner: Name) {
    exists i: nat :: Deepest(projects, path, i, false) && owner in projects[i].owners
  }

  lemma DeepestUnique(projects: seq<Manifest>, path: string, i: nat, j: nat, dot: bool)
    requires Deepest(projects, path, i, dot) && Deepest(projects, path, j, dot)
    ensures i == j
  {
  }

  // ----- Auto-approve zones (platform/index/autoapprove.go)

  /** The projects that declare anything; the others leave it to an ancestor. */
  function Declaring(zones: seq<Manifest>): seq<Manifest> {
    if zones == [] then []
    else
      var n := |zones| - 1;
      Declaring(zones[..n]) + (if zones[n].auto.Some? then [zones[n]] else [])
  }

  /** The deepest declaring project that owns the path says yes. */
  ghost predicate InZone(zones: seq<Manifest>, path: string) {
    exists i: nat :: Deepest(Declaring(zones), path, i, true) && Declaring(zones)[i].auto == Some(true)
  }

  /** Declaring projects owning the path: the i-th says yes, none of them lies deeper, and none
      before it as deep. */
  ghost predicate SaysYes(zones: seq<Manifest>, path: string, i: nat) {
    && i < |zones| && zones[i].auto == Some(true) && Owns(zones[i].path, path, true)
    && forall j :: 0 <= j < |zones| && zones[j].auto.Some? && Owns(zones[j].path, path, true) ==>
         |zones[j].path| <= |zones[i].path| && (j < i ==> |zones[j].path| < |zones[i].path|)
  }

  /** `at` says where the declaring projects stand in the whole list. */
  ghost predicate Places(zones: seq<Manifest>, ds: seq<Manifest>, at: seq<nat>) {
    && |at| == |ds|
    && (forall k :: 0 <= k < |at| ==> at[k] < |zones| && zones[at[k]] == ds[k] && ds[k].auto.Some?)
    && (forall k, l :: 0 <= k < l < |at| ==> at[k] < at[l])
    && (forall i :: 0 <= i < |zones| && zones[i].auto.Some? ==> i in at)
  }

  lemma {:induction false} DeclaringPlaces(zones: seq<Manifest>) returns (at: seq<nat>)
    ensures Places(zones, Declaring(zones), at)
  {
    at := [];
    if zones != [] {
      var n := |zones| - 1;
      var lower := DeclaringPlaces(zones[..n]);
      at := if zones[n].auto.Some? then lower + [n] else lower;
      PlacesNext(zones, Declaring(zones[..n]), lower, Declaring(zones), at);
    }
  }

  lemma PlacesNext(zones: seq<Manifest>, lower: seq<Manifest>, below: seq<nat>, ds: seq<Manifest>, at: seq<nat>)
    requires zones != [] && Places(zones[..|zones| - 1], lower, below)
    requires var n := |zones| - 1;
             && ds == lower + (if zones[n].auto.Some? then [zones[n]] else [])
             && at == if zones[n].auto.Some? then below + [n] else below
    ensures Places(zones, ds, at)
  {
    var n := |zones| - 1;
    forall i | 0 <= i < |zones| && zones[i].auto.Some? ensures i in at {
      if i < n {
        assert zones[..n][i] == zones[i] && i in below;
      } else {
        assert at[|at| - 1] == n;
      }
    }
  }

  /** A path is in a zone exactly when the deepest project that declares anything and owns it
      says yes; projects that declare nothing leave it to those above. */
  lemma InZoneExactly(zones: seq<Manifest>, path: string)
    ensures InZone(zones, path) <==> exists i: nat :: SaysYes(zones, path, i)
  {
    var at := DeclaringPlaces(zones);
    var ds := Declaring(zones);
    if InZone(zones, path) {
      var k: nat :| Deepest(ds, path, k, true) && ds[k].auto == Some(true);
      forall j | 0 <= j < |zones| && zones[j].auto.Some? && Owns(zones[j].path, path, true)
        ensures |zones[j].path| <= |zones[at[k]].path| && (j < at[k] ==> |zones[j].path| < |zones[at[k]].path|)
      {
        var l :| 0 <= l < |at| && at[l] == j;
        assert ds[l] == zones[j];
      }
      assert SaysYes(zones, path, at[k]);
    }
    if i: nat :| SaysYes(zones, path, i) {
      var k :| 0 <= k < |at| && at[k] == i;
      assert Deepest(ds, path, k, true) by {
        forall l | 0 <= l < |ds| && Owns(ds[l].path, path, true)
          ensures |ds[l].path| <= |ds[k].path| && (l < k ==> |ds[l].path| < |ds[k].path|)
        {
          assert zones[at[l]] == ds[l];
        }
      }
    }
  }

  method FilterDeclaring(zones: seq<Manifest>) returns (r: seq<Manifest>)
    ensures r == Declaring(zones)
  {
    r := [];
    assert zones[..0] == [];
    for i := 0 to |zones|
      invariant r == Declaring(zones[..i])
    {
      assert zones[..i + 1][..i] == zones[..i];
      if zones[i].auto.Some? { r := r + [zones[i]]; }
    }
    assert zones[..|zones|] == zones;
  }

  /** index.AutoApproved. */
  method AutoApproved(zones: seq<Manifest>, path: string) returns (yes: bool)
    ensures yes <==> InZone(zones, path)
  {
    var declaring := FilterDeclaring(zones);
    var best := OwningProject(declaring, path, true);
    yes := best.Some? && declaring[best.value].auto == Some(true);
    if best.Some? && InZone(zones, path) {
      var i: nat :| Deepest(declaring, path, i, true) && declaring[i].auto == Some(true);
      DeepestUnique(declaring, path, i, best.value, true);
    }
  }

  // ----- Owner requirements

  /** Some changed path makes `owner` required. */
  ghost predicate Required(projects: seq<Manifest>, paths: seq<string>, owner: Name) {
    exists p :: p in paths && OwnedBy(projects, p, owner)
  }

  /** Every path that does is in a zone. */
  ghost predicate AutoOnly(projects: seq<Manifest>, zones: seq<Manifest>, paths: seq<string>, owner: Name) {
    forall p :: p in paths && OwnedBy(projects, p, owner) ==> InZone(zones, p)
  }

  /** What the path loop has gathered: who is required, and whether by zone paths only. */
  ghost predicate Gathered(projects: seq<Manifest>, zones: seq<Manifest>, paths: seq<string>, autoOnly: map<Name, bool>) {
    forall o :: (o in autoOnly <==> Required(projects, paths, o))
      && (o in autoOnly ==> (autoOnly[o] <==> AutoOnly(projects, zones, paths, o)))
  }

  /** One path's owners, added. */
  method AddOwners(owners: seq<Name>, auto: bool, autoOnly: map<Name, bool>) returns (r: map<Name, bool>)
    ensures forall o :: o in r <==> o in autoOnly || o in owners
    ensures forall o :: o in r ==> (r[o] <==> (o in autoOnly ==> autoOnly[o]) && (o in owners ==> auto))
  {
    r := autoOnly;
    for i := 0 to |owners|
      invariant forall o :: o in r <==> o in autoOnly || o in owners[..i]
      invariant forall o :: o in r ==> (r[o] <==> (o in autoOnly ==> autoOnly[o]) && (o in owners[..i] ==> auto))
    {
      assert owners[..i + 1] == owners[..i] + [owners[i]];
      r := r[owners[i] := if owners[i] in r then r[owners[i]] && auto else auto];
    }
    assert owners[..|owners|] == owners;
  }

  lemma GatheredNext(projects: seq<Manifest>, zones: seq<Manifest>, paths: seq<string>, p: string, before: map<Name, bool>, after: map<Name, bool>)
    requires Gathered(projects, zones, paths, before)
    requires forall o :: o in after <==> o in before || OwnedBy(projects, p, o)
    requires forall o :: o in after ==>
               (after[o] <==> (o in before ==> before[o]) && (OwnedBy(projects, p, o) ==> InZone(zones, p)))
    ensures Gathered(projects, zones, paths + [p], after)
  {
    forall o ensures (o in after <==> Required(projects, paths + [p], o))
      && (o in after ==> (after[o] <==> AutoOnly(projects, zones, paths + [p], o)))
    {
      RequiredNext(projects, paths, p, o);
      AutoOnlyNext(projects, zones, paths, p, o);
    }
  }

  lemma RequiredNext(projects: seq<Manifest>, paths: seq<string>, p: string, o: Name)
    ensures Required(projects, paths + [p], o) <==> Required(projects, paths, o) || OwnedBy(projects, p, o)
  {
    assert forall q :: q in paths + [p] <==> q in paths || q == p;
  }

  lemma AutoOnlyNext(projects: seq<Manifest>, zones: seq<Manifest>, paths: seq<string>, p: string, o: Name)
    ensures AutoOnly(projects, zones, paths + [p], o) <==>
              AutoOnly(projects, zones, paths, o) && (OwnedBy(projects, p, o) ==> InZone(zones, p))
    ensures !Required(projects, paths, o) ==> AutoOnly(projects, zones, paths, o)
  {
    assert forall q :: q in paths + [p] <==> q in paths || q == p;
  }

  method GatherOwners(projects: seq<Manifest>, zones: seq<Manifest>, paths: seq<string>) returns (autoOnly: map<Name, bool>)
    ensures Gathered(projects, zones, paths, autoOnly)
  {
    autoOnly := map[];
    for i := 0 to |paths|
      invariant Gathered(projects, zones, paths[..i], autoOnly)
    {
      var p := paths[i];
      ghost var before := autoOnly;
      var project := OwningProject(projects, p, false);
      if project.Some? {
        var auto := AutoApproved(zones, p);
        autoOnly := AddOwners(projects[project.value].owners, auto, autoOnly);
        forall o ensures OwnedBy(projects, p, o) <==> o in projects[project.value].owners {
          OwnersOfDeepest(projects, p, project.value, o);
        }
      }
      GatheredNext(projects, zones, paths[..i], p, before, autoOnly);
      assert paths[..i + 1] == paths[..i] + [p];
    }
    assert paths[..|paths|] == paths;
  }

  lemma OwnersOfDeepest(projects: seq<Manifest>, path: string, i: nat, owner: Name)
    requires Deepest(projects, path, i, false)
    ensures OwnedBy(projects, path, owner) <==> owner in projects[i].owners
  {
    if OwnedBy(projects, path, owner) {
      var j: nat :| Deepest(projects, path, j, false) && owner in projects[j].owners;
      DeepestUnique(projects, path, i, j, false);
    }
  }

  /** sort.Strings on the required owners. */
  method SortNames(names: set<Name>) returns (q: seq<Name>)
    ensures Ascending(q) && forall n :: n in q <==> n in names
  {
    q := [];
    var todo := names;
    while todo != {}
      invariant todo <= names && Ascending(q)
      invariant forall n :: n in q <==> n in names && n !in todo
    {
      var n :| n in todo;
      q := InsertName(q, n);
      todo := todo - {n};
    }
  }

  method InsertName(q: seq<Name>, n: Name) returns (r: seq<Name>)
    requires Ascending(q) && n !in q
    ensures Ascending(r) && forall x :: x in r <==> x in q || x == n
  {
    var i := |q|;
    while i > 0 && n < q[i - 1]
      invariant 0 <= i <= |q|
      invariant forall j :: i <= j < |q| ==> n < q[j]
    {
      i := i - 1;
    }
    assert i > 0 ==> q[i - 1] in q;
    r := q[..i] + [n] + q[i..];
  }

  /** An approval at the head, or the human author's own ownership. */
  predicate Consented(approvals: map<Name, Approval>, head: Sha, author: Name, human: bool, owner: Name) {
    (owner in approvals && approvals[owner].head == head) || (owner == author && author != NONE && human)
  }

  ghost predicate Satisfied(projects: seq<Manifest>, zones: seq<Manifest>, paths: seq<string>,
                            approvals: map<Name, Approval>, head: Sha, author: Name, human: bool, owner: Name)
  {
    Consented(approvals, head, author, human, owner) || AutoOnly(projects, zones, paths, owner)
  }

  /** One of the first n requirements is satisfied without consent. */
  ghost predicate StoodIn(reqs: seq<Requirement>, approvals: map<Name, Approval>, head: Sha, author: Name, human: bool, n: nat)
    requires n <= |reqs|
  {
    exists i :: 0 <= i < n && reqs[i].satisfied && !Consented(approvals, head, author, human, reqs[i].owner)
  }

  /** ownerRequirements: exactly the owners of the touched projects, in order; each satisfied
      by consent at this head or by being required through zone paths only; and `waived`
      tells whether a zone stood in for anyone's consent. */
  method OwnerRequirements(projects: seq<Manifest>, zones: seq<Manifest>, paths: seq<string>,
                           approvals: map<Name, Approval>, head: Sha, author: Name, human: bool)
    returns (reqs: seq<Requirement>, waived: bool)
    ensures forall i, j :: 0 <= i < j < |reqs| ==> reqs[i].owner < reqs[j].owner
    ensures forall o :: Required(projects, paths, o) <==> exists i :: 0 <= i < |reqs| && reqs[i].owner == o
    ensures forall i :: 0 <= i < |reqs| ==>
              reqs[i].satisfied == Satisfied(projects, zones, paths, approvals, head, author, human, reqs[i].owner)
    ensures waived <==> StoodIn(reqs, approvals, head, author, human, |reqs|)
  {
    var autoOnly := GatherOwners(projects, zones, paths);
    var refs := SortNames(autoOnly.Keys);
    reqs, waived := Judge(refs, autoOnly, approvals, head, author, human);
    forall o ensures Required(projects, paths, o) <==> exists i :: 0 <= i < |reqs| && reqs[i].owner == o {
      RefsAre(refs, reqs, autoOnly, o);
    }
    forall i | 0 <= i < |reqs|
      ensures reqs[i].satisfied == Satisfied(projects, zones, paths, approvals, head, author, human, reqs[i].owner)
    {
      assert refs[i] in refs;
    }
  }

  lemma RefsAre(refs: seq<Name>, reqs: seq<Requirement>, autoOnly: map<Name, bool>, o: Name)
    requires |refs| == |reqs| && forall i :: 0 <= i < |reqs| ==> reqs[i].owner == refs[i]
    requires forall n :: n in refs <==> n in autoOnly
    ensures o in autoOnly <==> exists i :: 0 <= i < |reqs| && reqs[i].owner == o
  {
    if o in autoOnly {
      var i :| 0 <= i < |refs| && refs[i] == o;
      assert reqs[i].owner == o;
    }
    if i :| 0 <= i < |reqs| && reqs[i].owner == o { assert refs[i] in refs; }
  }

  predicate Judged(q: Requirement, ref: Name, autoOnly: map<Name, bool>, approvals: map<Name, Approval>, head: Sha,
                   author: Name, human: bool)
  {
    && q.owner == ref && ref in autoOnly
    && q.satisfied == (Consented(approvals, head, author, human, ref) || autoOnly[ref])
  }

  /** The last loop: each required owner against the approvals. */
  method Judge(refs: seq<Name>, autoOnly: map<Name, bool>, approvals: map<Name, Approval>, head: Sha, author: Name, human: bool)
    returns (reqs: seq<Requirement>, waived: bool)
    requires forall n :: n in refs ==> n in autoOnly
    ensures |reqs| == |refs| && forall i :: 0 <= i < |reqs| ==> Judged(reqs[i], refs[i], autoOnly, approvals, head, author, human)
    ensures waived <==> StoodIn(reqs, approvals, head, author, human, |reqs|)
  {
    reqs, waived := [], false;
    for i := 0 to |refs|
      invariant |reqs| == i && forall j :: 0 <= j < i ==> Judged(reqs[j], refs[j], autoOnly, approvals, head, author, human)
      invariant waived <==> StoodIn(reqs, approvals, head, author, human, i)
    {
      assert refs[i] in refs;
      var consented := Consented(approvals, head, author, human, refs[i]);
      var satisfied := consented || autoOnly[refs[i]];
      if !consented && satisfied { waived := true; }
      reqs := reqs + [Requirement(refs[i], satisfied)];
    }
  }

  /** The gate a land request is held to, as the tree defines it. */
  ghost predicate TreeGate(g: Gate, projects: seq<Manifest>, zones: seq<Manifest>, paths: seq<string>) {
    && (forall o :: o in g.owners <==> Required(projects, paths, o))
    && (forall o :: o in g.waived <==> o in g.owners && AutoOnly(projects, zones, paths, o))
  }

  /** `reqs` lists exactly the required owners, each with whether it is satisfied. */
  ghost predicate ListedFor(projects: seq<Manifest>, zones: seq<Manifest>, paths: seq<string>,
                            approvals: map<Name, Approval>, c: Change, human: bool, reqs: seq<Requirement>)
  {
    && (forall o :: Required(projects, paths, o) <==> exists i :: 0 <= i < |reqs| && reqs[i].owner == o)
    && forall i :: 0 <= i < |reqs| ==>
         reqs[i].satisfied == Satisfied(projects, zones, paths, approvals, c.head, c.author, human, reqs[i].owner)
  }

  function ApprovalsOf(r: Review, key: Key): map<Name, Approval> {
    if key in r.approvals then r.approvals[key] else map[]
  }

  /** Under such a gate the owners are satisfied exactly when every requirement is. */
  lemma GateAgrees(s: State, c: Change, g: Gate, projects: seq<Manifest>, zones: seq<Manifest>, paths: seq<string>, reqs: seq<Requirement>)
    requires TreeGate(g, projects, zones, paths)
    requires ListedFor(projects, zones, paths, ApprovalsOf(s.review, c.key), c, g.humanAuthor, reqs)
    ensures reqs == [] <==> g.owners == {}
    ensures (forall o :: o in g.owners ==> OwnerSatisfied(s, c, g, o)) <==>
              forall i :: 0 <= i < |reqs| ==> reqs[i].satisfied
  {
    forall i | 0 <= i < |reqs| ensures reqs[i].owner in g.owners && (reqs[i].satisfied <==> OwnerSatisfied(s, c, g, reqs[i].owner)) {
      assert Required(projects, paths, reqs[i].owner);
    }
    if forall i :: 0 <= i < |reqs| ==> reqs[i].satisfied {
      forall o | o in g.owners ensures OwnerSatisfied(s, c, g, o) {
        var i :| 0 <= i < |reqs| && reqs[i].owner == o;
      }
    }
    if reqs != [] { assert reqs[0].owner in g.owners; }
    if o :| o in g.owners {
      var i :| 0 <= i < |reqs| && reqs[i].owner == o;
    }
  }

  /** A zone stood in for someone's consent exactly when it waives an owner who gave none. */
  lemma StoodInIff(c: Change, g: Gate, approvals: map<Name, Approval>, projects: seq<Manifest>, zones: seq<Manifest>,
                   paths: seq<string>, reqs: seq<Requirement>)
    requires TreeGate(g, projects, zones, paths)
    requires ListedFor(projects, zones, paths, approvals, c, g.humanAuthor, reqs)
    ensures StoodIn(reqs, approvals, c.head, c.author, g.humanAuthor, |reqs|) <==>
              exists n :: n in g.waived && !Consented(approvals, c.head, c.author, g.humanAuthor, n)
  {
    if n :| n in g.waived && !Consented(approvals, c.head, c.author, g.humanAuthor, n) {
      assert Required(projects, paths, n);
      var i :| 0 <= i < |reqs| && reqs[i].owner == n;
      assert reqs[i].satisfied;
    }
    if StoodIn(reqs, approvals, c.head, c.author, g.humanAuthor, |reqs|) {
      var i :| 0 <= i < |reqs| && reqs[i].satisfied && !Consented(approvals, c.head, c.author, g.humanAuthor, reqs[i].owner);
      assert Required(projects, paths, reqs[i].owner);
      assert reqs[i].owner in g.waived;
    }
  }

  // ----- Required checks

  ghost predicate NonDescending(q: seq<Name>) {
    forall i, j :: 0 <= i < j < |q| ==> q[i] <= q[j]
  }

  /** sort.Strings. */
  method SortedNames(names: seq<Name>) returns (q: seq<Name>)
    ensures NonDescending(q) && multiset(q) == multiset(names)
  {
    q := [];
    assert names[..0] == [];
    for i := 0 to |names|
      invariant NonDescending(q) && multiset(q) == multiset(names[..i])
    {
      assert names[..i + 1] == names[..i] + [names[i]];
      q := InsertSorted(q, names[i]);
    }
    assert names[..|names|] == names;
  }

  method InsertSorted(q: seq<Name>, n: Name) returns (r: seq<Name>)
    requires NonDescending(q)
    ensures NonDescending(r) && multiset(r) == multiset(q) + multiset{n}
  {
    var i := |q|;
    while i > 0 && n < q[i - 1]
      invariant 0 <= i <= |q|
      invariant forall j :: i <= j < |q| ==> n < q[j]
    {
      i := i - 1;
    }
    r := q[..i] + [n] + q[i..];
    SplicedInOrder(q, n, i);
    SplicedHolds(q, n, i);
  }

  lemma SplicedInOrder(q: seq<Name>, n: Name, i: nat)
    requires NonDescending(q) && i <= |q| && (i > 0 ==> q[i - 1] <= n) && (i < |q| ==> n <= q[i])
    ensures NonDescending(q[..i] + [n] + q[i..])
  {
  }

  lemma SplicedHolds(q: seq<Name>, n: Name, i: nat)
    requires i <= |q|
    ensures multiset(q[..i] + [n] + q[i..]) == multiset(q) + multiset{n}
  {
    assert q == q[..i] + q[i..];
  }

  /** mergeCheckNames: the names and, once each, what is new among the extra ones, in order;
      no extra names change nothing. */
  method MergeCheckNames(names: seq<Name>, extra: seq<Name>) returns (out: seq<Name>, ghost added: seq<Name>)
    ensures NoDup(added) && forall n :: n in added <==> n in extra && n != NONE && n !in names
    ensures multiset(out) == multiset(names + added)
    ensures if extra == [] then out == names else NonDescending(out)
  {
    added := [];
    if extra == [] { return names, []; }
    var novel: seq<Name> := [];
    for i := 0 to |extra|
      invariant NoDup(novel) && forall n :: n in novel <==> n in extra[..i] && n != NONE && n !in names
    {
      assert extra[..i + 1] == extra[..i] + [extra[i]];
      if extra[i] != NONE && extra[i] !in names && extra[i] !in novel { novel := novel + [extra[i]]; }
    }
    assert extra[..|extra|] == extra;
    added := novel;
    out := SortedNames(names + novel);
  }
}
