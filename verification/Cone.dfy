/** The read cone of a workspace (runkod/workspace.go): what a checkout of some projects must
    materialise for them to build. */
module Cone {
  import opened Text

  datatype Project = Project(
    name: string,
    path: string,
    dependencies: seq<string>,
    testDependencies: seq<string>,
    consumes: seq<string>,
    contractDir: string,
    openAPIPath: string,
    schemaPaths: seq<string>)

  type Index = map<string, Project>

  // ----- Slash paths

  /** The last element of a non-empty path, after its last slash. */
  function LastElement(p: string): string {
    var parts := Split(p, '/');
    parts[|parts| - 1]
  }

  /** path.Clean's stack of elements: "." and empty ones vanish, ".." climbs. */
  function CleanParts(parts: seq<string>, rooted: bool): (r: seq<string>)
    ensures |r| <= |parts|
    decreases |parts|
  {
    if parts == [] then []
    else
      var above, e := CleanParts(parts[..|parts| - 1], rooted), parts[|parts| - 1];
      if e == "" || e == "." then above
      else if e != ".." then above + [e]
      else if above != [] && above[|above| - 1] != ".." then above[..|above| - 1]
      else if rooted then above
      else above + [e]
  }

  function Clean(p: string): string {
    var rooted := HasPrefix(p, "/");
    var body := Join(CleanParts(Split(p, '/'), rooted), '/');
    if rooted then "/" + body else if body == "" then "." else body
  }

  /** path.Dir: everything up to the last slash, cleaned. */
  function Dir(p: string): string {
    Clean(p[..|p| - |LastElementOf(p)|])
  }

  function LastElementOf(p: string): (r: string)
    ensures |r| <= |p|
  {
    LastElementFits(p);
    LastElement(p)
  }

  lemma {:induction false} LastElementFits(p: string)
    ensures |LastElement(p)| <= |p|
    decreases |p|
  {
    if p != "" { LastElementFits(p[1..]); }
  }

  /** coneDirFor: a surface that names a file contributes its directory; the repository root
      contributes nothing. */
  function ConeDirFor(surface: string): string {
    if surface == "" then ""
    else
      var dir := if '.' in LastElement(surface) then Dir(surface) else surface;
      if dir == "." || dir == "/" then "" else dir
  }

  /** An element that Clean keeps. */
  predicate Plain(e: string) {
    e != "" && e != "." && e != ".." && '/' !in e
  }

  lemma {:induction false} CleanPlain(es: seq<string>, rooted: bool)
    requires forall e :: e in es ==> Plain(e)
    ensures CleanParts(es, rooted) == es
    decreases |es|
  {
    if es != [] {
      var n := |es| - 1;
      assert Plain(es[n]) && forall e :: e in es[..n] ==> e in es;
      CleanPlain(es[..n], rooted);
      assert es == es[..n] + [es[n]];
    }
  }

  lemma CleanTrailing(es: seq<string>)
    requires es != [] && forall e :: e in es ==> Plain(e)
    ensures Clean(Join(es, '/') + "/") == Join(es, '/')
  {
    JoinLast(es, "", '/');
    assert Join(es + [""], '/') == Join(es, '/') + "/";
    SplitJoin(es + [""], '/');
    CleanPlain(es, false);
    CleanEmptyLast(es);
    NotRoot(es);
    NotRooted(es);
    CleanOf(Join(es, '/') + "/", es);
  }

  lemma CleanEmptyLast(es: seq<string>)
    ensures CleanParts(es + [""], false) == CleanParts(es, false)
  {
    assert (es + [""])[..|es|] == es;
  }

  lemma NotRooted(es: seq<string>)
    requires es != [] && forall e :: e in es ==> Plain(e)
    ensures !HasPrefix(Join(es, '/') + "/", "/")
  {
    assert Plain(es[0]) && Join(es, '/')[0] == es[0][0] && es[0][0] in es[0];
    OtherStart(Join(es, '/') + "/", "/");
  }

  lemma CleanOf(p: string, es: seq<string>)
    requires !HasPrefix(p, "/") && CleanParts(Split(p, '/'), false) == es && Join(es, '/') != ""
    ensures Clean(p) == Join(es, '/')
  {
  }

  /** A surface that names a file below the root contributes its directory; a file at the
      root contributes nothing; a directory contributes itself. */
  lemma ConeDirOfSurface(es: seq<string>, last: string)
    requires (forall e :: e in es ==> Plain(e)) && Plain(last)
    ensures var surface := Join(es + [last], '/');
            ConeDirFor(surface) == if '.' in last then Join(es, '/') else surface
  {
    var all := es + [last];
    var surface := Join(all, '/');
    SplitJoin(all, '/');
    assert LastElement(surface) == last;
    if es == [] {
      assert surface == last && last[..0] == "" && Split("", '/') == [""];
      assert Dir(last) == ".";
    } else {
      JoinLast(es, last, '/');
      CleanTrailing(es);
      assert surface[..|surface| - |last|] == Join(es, '/') + "/";
      NotRoot(es);
      NotRoot(all);
    }
  }

  lemma NotRoot(es: seq<string>)
    requires es != [] && forall e :: e in es ==> Plain(e)
    ensures Join(es, '/') != "" && Join(es, '/') != "." && Join(es, '/') != "/"
  {
    assert Plain(es[0]) && Join(es, '/')[0] == es[0][0] && es[0][0] in es[0];
    if |es| > 1 { assert |Join(es, '/')| > |es[0]|; }
  }

  // ----- The cone

  function Deps(p: Project): seq<string> {
    p.dependencies + p.testDependencies
  }

  function Surfaces(p: Project): seq<string> {
    [p.contractDir, p.openAPIPath] + p.schemaPaths
  }

  ghost predicate Follows(byName: Index, m: string, n: string) {
    m in byName && n in Deps(byName[m])
  }

  ghost predicate IsPath(byName: Index, affinity: seq<string>, path: seq<string>, n: string) {
    && |path| > 0 && path[0] in affinity && path[|path| - 1] == n
    && (forall i :: 0 <= i < |path| - 1 ==> Follows(byName, path[i], path[i + 1]))
  }

  /** Needed to build the affinity: along build and test dependencies. */
  ghost predicate Reachable(byName: Index, affinity: seq<string>, n: string) {
    exists path :: IsPath(byName, affinity, path, n)
  }

  /** A contract directory of a provider the project consumes. */
  ghost predicate Consumed(byName: Index, p: Project, d: string) {
    exists provider, surface ::
      provider in p.consumes && provider in byName && surface in Surfaces(byName[provider])
      && d == ConeDirFor(surface) != ""
  }

  ghost predicate Contributes(byName: Index, p: Project, d: string) {
    (d == p.path != "") || Consumed(byName, p, d)
  }

  ghost predicate InCone(byName: Index, affinity: seq<string>, allowlist: seq<string>, d: string) {
    d in allowlist || exists n :: Reachable(byName, affinity, n) && n in byName && Contributes(byName, byName[n], d)
  }

  ghost predicate Closed(byName: Index, affinity: seq<string>, names: iset<string>) {
    (forall n :: n in affinity ==> n in names) && (forall m, n :: m in names && Follows(byName, m, n) ==> n in names)
  }

  ghost predicate DependsOn(byName: Index, m: string, n: string) {
    m in byName && (n in byName[m].dependencies || n in byName[m].testDependencies)
  }

  /** `path` leads from the affinity along build and test dependencies. */
  ghost predicate Leads(byName: Index, affinity: seq<string>, path: seq<string>) {
    && path != [] && path[0] in affinity
    && forall i :: 0 <= i < |path| - 1 ==> DependsOn(byName, path[i], path[i + 1])
  }

  /** `d` is where a project lives, or the directory of a contract, an OpenAPI file or a schema
      of a provider it consumes. */
  ghost predicate Needs(byName: Index, p: Project, d: string) {
    || (d == p.path && d != "")
    || exists provider :: provider in p.consumes && provider in byName && d != ""
         && (d == ConeDirFor(byName[provider].contractDir) || d == ConeDirFor(byName[provider].openAPIPath)
             || exists f :: f in byName[provider].schemaPaths && d == ConeDirFor(f))
  }

  lemma NeedsExactly(byName: Index, p: Project, d: string)
    ensures Contributes(byName, p, d) <==> Needs(byName, p, d)
  {
    forall q ensures (exists s :: s in Surfaces(q) && d == ConeDirFor(s)) <==>
      d == ConeDirFor(q.contractDir) || d == ConeDirFor(q.openAPIPath) || exists f :: f in q.schemaPaths && d == ConeDirFor(f)
    {
      var s := Surfaces(q);
      assert s[0] == q.contractDir && s[1] == q.openAPIPath && s[2..] == q.schemaPaths;
      assert q.contractDir in s && q.openAPIPath in s;
    }
    if Consumed(byName, p, d) {
      var provider, surface :| provider in p.consumes && provider in byName && surface in Surfaces(byName[provider])
        && d == ConeDirFor(surface) != "";
      assert surface in Surfaces(byName[provider]) && d == ConeDirFor(surface);
    }
    if Needs(byName, p, d) && !(d == p.path && d != "") {
      var provider :| provider in p.consumes && provider in byName && d != ""
        && (d == ConeDirFor(byName[provider].contractDir) || d == ConeDirFor(byName[provider].openAPIPath)
            || exists f :: f in byName[provider].schemaPaths && d == ConeDirFor(f));
      var s :| s in Surfaces(byName[provider]) && d == ConeDirFor(s);
    }
  }

  lemma LeadsExactly(byName: Index, affinity: seq<string>, path: seq<string>)
    ensures path != [] && IsPath(byName, affinity, path, path[|path| - 1]) <==> Leads(byName, affinity, path)
  {
    assert forall m, n :: Follows(byName, m, n) <==> DependsOn(byName, m, n);
  }

  /** The cone is the allowlist, and what the projects that the affinity leads to need. */
  lemma ConeExactly(byName: Index, affinity: seq<string>, allowlist: seq<string>, d: string)
    ensures InCone(byName, affinity, allowlist, d) <==>
              || d in allowlist
              || exists path :: Leads(byName, affinity, path) && path[|path| - 1] in byName
                   && Needs(byName, byName[path[|path| - 1]], d)
  {
    if n :| Reachable(byName, affinity, n) && n in byName && Contributes(byName, byName[n], d) {
      var path :| IsPath(byName, affinity, path, n);
      LeadsExactly(byName, affinity, path);
      NeedsExactly(byName, byName[n], d);
    }
    if path :| Leads(byName, affinity, path) && path[|path| - 1] in byName && Needs(byName, byName[path[|path| - 1]], d) {
      LeadsExactly(byName, affinity, path);
      NeedsExactly(byName, byName[path[|path| - 1]], d);
      assert Reachable(byName, affinity, path[|path| - 1]);
    }
  }

  lemma ReachableStart(byName: Index, affinity: seq<string>, n: string)
    requires n in affinity
    ensures Reachable(byName, affinity, n)
  {
    assert IsPath(byName, affinity, [n], n);
  }

  lemma ReachableNext(byName: Index, affinity: seq<string>, m: string, n: string)
    requires Reachable(byName, affinity, m) && Follows(byName, m, n)
    ensures Reachable(byName, affinity, n)
  {
    var path :| IsPath(byName, affinity, path, m);
    var longer := path + [n];
    assert forall i :: 0 <= i < |longer| - 1 ==> Follows(byName, longer[i], longer[i + 1]);
    assert IsPath(byName, affinity, longer, n);
  }

  lemma {:induction false} ClosedHoldsPath(byName: Index, affinity: seq<string>, names: iset<string>, path: seq<string>)
    requires Closed(byName, affinity, names) && |path| > 0 && IsPath(byName, affinity, path, path[|path| - 1])
    ensures path[|path| - 1] in names
    decreases |path|
  {
    if |path| > 1 {
      var k := |path| - 1;
      assert Follows(byName, path[k - 1], path[k]);
      assert IsPath(byName, affinity, path[..k], path[k - 1]);
      ClosedHoldsPath(byName, affinity, names, path[..k]);
    }
  }

  /** Reachability is the least fixed point: closed itself, and inside every closed set. */
  lemma LeastFixedPoint(byName: Index, affinity: seq<string>, names: iset<string>)
    ensures Closed(byName, affinity, iset n | Reachable(byName, affinity, n))
    ensures Closed(byName, affinity, names) ==> forall n :: Reachable(byName, affinity, n) ==> n in names
  {
    var reach := iset n | Reachable(byName, affinity, n);
    forall n | n in affinity ensures n in reach { ReachableStart(byName, affinity, n); }
    forall m, n | m in reach && Follows(byName, m, n) ensures n in reach { ReachableNext(byName, affinity, m, n); }
    if Closed(byName, affinity, names) {
      forall n | Reachable(byName, affinity, n) ensures n in names {
        var path :| IsPath(byName, affinity, path, n);
        ClosedHoldsPath(byName, affinity, names, path);
      }
    }
  }

  // ----- Sorted lists of strings

  function Less(a: string, b: string): bool {
    if b == "" then false else if a == "" then true
    else if a[0] != b[0] then a[0] < b[0] else Less(a[1..], b[1..])
  }

  /** The strings agree up to `i`, where `a` ends or has the smaller character. */
  predicate SmallerAt(a: string, b: string, i: nat) {
    && i <= |a| && i < |b| && a[..i] == b[..i] && (i == |a| || a[i] < b[i])
  }

  lemma {:induction false} LessExactly(a: string, b: string)
    ensures Less(a, b) <==> exists i: nat :: SmallerAt(a, b, i)
    decreases |a|
  {
    if a != "" && b != "" {
      forall i: nat | SmallerAt(a, b, i) ensures a[0] <= b[0] { SmallerStart(a, b, i); }
    }
    if b == "" {
    } else if a == "" || a[0] < b[0] {
      assert SmallerAt(a, b, 0);
    } else if a[0] == b[0] {
      LessExactly(a[1..], b[1..]);
      if i: nat :| SmallerAt(a[1..], b[1..], i) {
        assert a[..i + 1] == [a[0]] + a[1..][..i] && b[..i + 1] == [b[0]] + b[1..][..i];
        assert SmallerAt(a, b, i + 1);
      }
      if i: nat :| SmallerAt(a, b, i) {
        assert i > 0 && a[1..][..i - 1] == a[..i][1..] && b[1..][..i - 1] == b[..i][1..];
        assert SmallerAt(a[1..], b[1..], i - 1);
      }
    }
  }

  lemma SmallerStart(a: string, b: string, i: nat)
    requires SmallerAt(a, b, i) && a != ""
    ensures a[0] <= b[0]
  {
    if i > 0 { assert a[..i][0] == a[0] && b[..i][0] == b[0]; }
  }

  lemma {:induction false} LessTrans(a: string, b: string, c: string)
    requires Less(a, b) && Less(b, c)
    ensures Less(a, c)
    decreases |a|
  {
    if a != "" && a[0] == b[0] == c[0] { LessTrans(a[1..], b[1..], c[1..]); }
  }

  lemma {:induction false} LessTotal(a: string, b: string)
    ensures Less(a, b) || a == b || Less(b, a)
    ensures !(Less(a, b) && Less(b, a)) && !Less(a, a)
    decreases |a|
  {
    if a != "" && b != "" && a[0] == b[0] {
      LessTotal(a[1..], b[1..]);
      assert a == [a[0]] + a[1..] && b == [b[0]] + b[1..];
    }
    if a != "" { LessTotal(a[1..], a[1..]); }
  }

  ghost predicate StrictlySorted(q: seq<string>) {
    forall i, j :: 0 <= i < j < |q| ==> Less(q[i], q[j])
  }

  /** A sorted list without duplicates is determined by what it holds. */
  lemma {:induction false} SortedUnique(p: seq<string>, q: seq<string>)
    requires StrictlySorted(p) && StrictlySorted(q) && forall x :: x in p <==> x in q
    ensures p == q
    decreases |p|
  {
    assert (p != [] ==> p[0] in q) && (q != [] ==> q[0] in p);
    if p != [] && q != [] {
      LessTotal(p[0], q[0]);
      var i :| 0 <= i < |q| && q[i] == p[0];
      var j :| 0 <= j < |p| && p[j] == q[0];
      assert p[0] == q[0];
      TailHolds(p, q);
      TailHolds(q, p);
      SortedUnique(p[1..], q[1..]);
      assert p == [p[0]] + p[1..] && q == [q[0]] + q[1..];
    }
  }

  lemma TailHolds(p: seq<string>, q: seq<string>)
    requires p != [] && q != [] && p[0] == q[0] && StrictlySorted(p) && forall x :: x in p ==> x in q
    ensures forall x :: x in p[1..] ==> x in q[1..]
  {
    forall x | x in p[1..] ensures x in q[1..] {
      var i :| 0 <= i < |p[1..]| && p[1..][i] == x;
      assert p[i + 1] == x && Less(p[0], x);
      LessTotal(x, x);
      assert x in q;
      var j :| 0 <= j < |q| && q[j] == x;
      assert q[1..][j - 1] == x;
    }
  }

  method SortPaths(paths: set<string>) returns (out: seq<string>)
    ensures StrictlySorted(out) && forall p :: p in out <==> p in paths
  {
    out := [];
    var todo := paths;
    while todo != {}
      invariant todo <= paths && StrictlySorted(out)
      invariant forall p :: p in out <==> p in paths && p !in todo
    {
      var p :| p in todo;
      out := Insert(out, p);
      todo := todo - {p};
    }
  }

  method Insert(q: seq<string>, x: string) returns (r: seq<string>)
    requires StrictlySorted(q) && x !in q
    ensures StrictlySorted(r) && forall p :: p in r <==> p in q || p == x
  {
    var i := |q|;
    while i > 0 && Less(x, q[i - 1])
      invariant 0 <= i <= |q|
      invariant forall j :: i <= j < |q| ==> Less(x, q[j])
    {
      i := i - 1;
    }
    forall j | 0 <= j < i ensures Less(q[j], x) {
      LessTotal(q[i - 1], x);
      assert q[i - 1] in q;
      if j < i - 1 { LessTrans(q[j], q[i - 1], x); }
    }
    r := q[..i] + [x] + q[i..];
  }

  // ----- The worklist

  /** The last project of a name wins. */
  ghost predicate Indexed(indexed: seq<Project>, byName: Index) {
    && (forall p :: p in indexed ==> p.name in byName)
    && (forall n :: n in byName ==> LastNamed(indexed, n, byName[n]))
  }

  ghost predicate LastNamed(indexed: seq<Project>, n: string, p: Project) {
    exists i :: 0 <= i < |indexed| && indexed[i] == p && p.name == n
      && forall j :: i < j < |indexed| ==> indexed[j].name != n
  }

  method IndexByName(indexed: seq<Project>) returns (byName: Index)
    ensures Indexed(indexed, byName)
  {
    byName := map[];
    assert indexed[..0] == [];
    for i := 0 to |indexed|
      invariant Indexed(indexed[..i], byName)
    {
      LastNamedNext(indexed[..i], indexed[i], byName);
      assert indexed[..i + 1] == indexed[..i] + [indexed[i]];
      byName := byName[indexed[i].name := indexed[i]];
    }
    assert indexed[..|indexed|] == indexed;
  }

  lemma LastNamedNext(done: seq<Project>, p: Project, byName: Index)
    requires Indexed(done, byName)
    ensures Indexed(done + [p], byName[p.name := p])
  {
    var next, more := byName[p.name := p], done + [p];
    forall n | n in next ensures LastNamed(more, n, next[n]) {
      if n == p.name {
        assert more[|done|] == p;
      } else {
        var i :| 0 <= i < |done| && done[i] == byName[n] && byName[n].name == n
          && forall j :: i < j < |done| ==> done[j].name != n;
        assert more[i] == byName[n];
      }
    }
  }

  /** The contract directories of what `p` consumes, added to `paths`. */
  method AddConsumed(byName: Index, p: Project, paths: set<string>) returns (r: set<string>)
    ensures forall d :: d in r <==> d in paths || Consumed(byName, p, d)
  {
    r := paths;
    for i := 0 to |p.consumes|
      invariant forall d :: d in r <==> d in paths || Consumed(byName, p.(consumes := p.consumes[..i]), d)
    {
      var provider := p.consumes[i];
      assert p.consumes[..i + 1] == p.consumes[..i] + [provider];
      if provider in byName {
        r := AddSurfaces(Surfaces(byName[provider]), r);
      }
      ConsumedNext(byName, p, i);
    }
    assert p.consumes[..|p.consumes|] == p.consumes;
  }

  ghost predicate Surfaced(surfaces: seq<string>, d: string) {
    exists s :: s in surfaces && d == ConeDirFor(s) != ""
  }

  lemma ConsumedNext(byName: Index, p: Project, i: nat)
    requires i < |p.consumes|
    ensures forall d :: Consumed(byName, p.(consumes := p.consumes[..i + 1]), d) <==>
              Consumed(byName, p.(consumes := p.consumes[..i]), d)
              || (p.consumes[i] in byName && Surfaced(Surfaces(byName[p.consumes[i]]), d))
  {
    assert p.consumes[..i + 1] == p.consumes[..i] + [p.consumes[i]];
  }

  method AddSurfaces(surfaces: seq<string>, paths: set<string>) returns (r: set<string>)
    ensures forall d :: d in r <==> d in paths || Surfaced(surfaces, d)
  {
    r := paths;
    for i := 0 to |surfaces|
      invariant forall d :: d in r <==> d in paths || Surfaced(surfaces[..i], d)
    {
      assert surfaces[..i + 1] == surfaces[..i] + [surfaces[i]];
      var dir := ConeDirFor(surfaces[i]);
      if dir != "" { r := r + {dir}; }
    }
    assert surfaces[..|surfaces|] == surfaces;
  }

  /** Every name the worklist can meet. */
  ghost function Universe(affinity: seq<string>, byName: Index): set<string> {
    (set n | n in affinity) + (set m, n | m in byName && n in Deps(byName[m]) :: n)
  }

  /** What the worklist knows: `seen` is done, `queue` is to do. */
  ghost predicate Working(byName: Index, affinity: seq<string>, seen: set<string>, queue: seq<string>) {
    && (forall n :: n in seen || n in queue ==> Reachable(byName, affinity, n) && n in Universe(affinity, byName))
    && (forall n :: n in affinity ==> n in seen || n in queue)
    && (forall m, n :: m in seen && Follows(byName, m, n) ==> n in seen || n in queue)
  }

  /** The paths of what has been seen, and the contracts it consumes. */
  ghost predicate Gathered(byName: Index, allowlist: seq<string>, seen: set<string>, paths: set<string>) {
    forall d :: d in paths <==> d in allowlist || exists n :: n in seen && n in byName && Contributes(byName, byName[n], d)
  }

  lemma WorkingStart(byName: Index, affinity: seq<string>)
    ensures Working(byName, affinity, {}, affinity)
  {
    forall n | n in affinity ensures Reachable(byName, affinity, n) { ReachableStart(byName, affinity, n); }
  }

  lemma WorkingAgain(byName: Index, affinity: seq<string>, seen: set<string>, queue: seq<string>)
    requires Working(byName, affinity, seen, queue) && queue != [] && queue[0] in seen
    ensures Working(byName, affinity, seen, queue[1..])
  {
    assert queue == [queue[0]] + queue[1..];
  }

  lemma WorkingSkip(byName: Index, affinity: seq<string>, seen: set<string>, queue: seq<string>)
    requires Working(byName, affinity, seen, queue) && queue != [] && queue[0] !in byName
    ensures Working(byName, affinity, seen + {queue[0]}, queue[1..])
  {
    assert queue == [queue[0]] + queue[1..];
  }

  lemma WorkingNext(byName: Index, affinity: seq<string>, seen: set<string>, queue: seq<string>)
    requires Working(byName, affinity, seen, queue) && queue != [] && queue[0] in byName
    ensures Working(byName, affinity, seen + {queue[0]}, queue[1..] + Deps(byName[queue[0]]))
  {
    var m := queue[0];
    assert queue == [m] + queue[1..];
    forall n | n in Deps(byName[m]) ensures Reachable(byName, affinity, n) {
      assert Follows(byName, m, n);
      ReachableNext(byName, affinity, m, n);
    }
  }

  /** An empty queue means everything reachable was seen. */
  lemma WorkingDone(byName: Index, affinity: seq<string>, seen: set<string>)
    requires Working(byName, affinity, seen, [])
    ensures forall n :: n in seen <==> Reachable(byName, affinity, n)
  {
    LeastFixedPoint(byName, affinity, iset n | n in seen);
  }

  lemma Unseen(byName: Index, affinity: seq<string>, seen: set<string>, queue: seq<string>)
    requires Working(byName, affinity, seen, queue) && queue != [] && queue[0] !in seen
    ensures |Universe(affinity, byName) - (seen + {queue[0]})| < |Universe(affinity, byName) - seen|
  {
    var all := Universe(affinity, byName);
    assert queue[0] in queue;
    assert all - seen == (all - (seen + {queue[0]})) + {queue[0]};
  }

  /** A project's own tree, and the contracts it consumes. */
  method AddProject(byName: Index, ghost allowlist: seq<string>, ghost seen: set<string>, name: string, paths: set<string>)
    returns (r: set<string>)
    requires name in byName && Gathered(byName, allowlist, seen, paths)
    ensures Gathered(byName, allowlist, seen + {name}, r)
  {
    var p := byName[name];
    r := paths;
    if p.path != "" { r := r + {p.path}; }
    r := AddConsumed(byName, p, r);
    assert forall d :: d in r <==> d in paths || Contributes(byName, p, d);
    GatheredNext(byName, allowlist, seen, name, paths, r);
  }

  lemma GatheredNext(byName: Index, allowlist: seq<string>, seen: set<string>, name: string, paths: set<string>, r: set<string>)
    requires name in byName && Gathered(byName, allowlist, seen, paths)
    requires forall d :: d in r <==> d in paths || Contributes(byName, byName[name], d)
    ensures Gathered(byName, allowlist, seen + {name}, r)
  {
    forall d ensures d in r <==> d in allowlist || exists n :: n in seen + {name} && n in byName && Contributes(byName, byName[n], d) {
      assert Contributes(byName, byName[name], d) ==> d in r;
    }
  }

  /** expandConeToDeps: exactly the allowlist, the reachable projects' paths and the contract
      directories they consume, sorted and without duplicates; providers are not followed. */
  method ExpandConeToDeps(affinity: seq<string>, allowlist: seq<string>, indexed: seq<Project>)
    returns (out: seq<string>, ghost byName: Index)
    ensures Indexed(indexed, byName)
    ensures StrictlySorted(out)
    ensures forall d :: d in out <==> InCone(byName, affinity, allowlist, d)
  {
    var names := IndexByName(indexed);
    byName := names;
    var paths: set<string> := set p | p in allowlist;
    var seen: set<string> := {};
    var queue := affinity;
    WorkingStart(names, affinity);
    while queue != []
      invariant Working(names, affinity, seen, queue) && Gathered(names, allowlist, seen, paths)
      decreases |Universe(affinity, names) - seen|, |queue|
    {
      ghost var work := queue;
      var name := queue[0];
      queue := queue[1..];
      if name in seen {
        WorkingAgain(names, affinity, seen, work);
      } else {
        Unseen(names, affinity, seen, work);
        if name !in names {
          WorkingSkip(names, affinity, seen, work);
        } else {
          WorkingNext(names, affinity, seen, work);
          queue := queue + Deps(names[name]);
          paths := AddProject(names, allowlist, seen, name, paths);
        }
        seen := seen + {name};
      }
    }
    WorkingDone(names, affinity, seen);
    out := SortPaths(paths);
  }
}
