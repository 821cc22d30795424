/** Deriving the stack a Change sits in (runkod/rpc.go, stackForChange): B is stacked on A
    when B's recorded base is A's head.  The specification is the forest of `Forest`; the
    method is the daemon's map-building, climbing and recursive descent. */
module Stacks {
  import opened Changes
  import opened Forest

  predicate DistinctKeys(all: seq<Change>) {
    forall i, j :: 0 <= i < j < |all| ==> all[i].key != all[j].key
  }

  ghost predicate KeysIdentify(all: seq<Change>) {
    forall c, d :: c in all && d in all && c.key == d.key ==> c == d
  }

  lemma DistinctIdentify(all: seq<Change>)
    requires DistinctKeys(all)
    ensures KeysIdentify(all)
  {
  }

  predicate Participates(c: Change, key: Key) {
    c.status == Open || c.key == key
  }

  /** The rows that take part: the open ones and the requested one, whatever its state. */
  function Alive(all: seq<Change>, key: Key): (r: seq<Change>)
    ensures forall c :: c in r <==> c in all && (c.status == Open || c.key == key)
    ensures DistinctKeys(all) ==> DistinctKeys(r)
  {
    if all == [] then []
    else
      var n := |all| - 1;
      var rest := Alive(all[..n], key);
      assert DistinctKeys(all) ==> forall d :: d in rest ==> d in all[..n] && d.key != all[n].key;
      if Participates(all[n], key) then rest + [all[n]] else rest
  }

  /** The row whose head is the commit `sha` - the last one listed, if several share it. */
  function OwnerOf(alive: seq<Change>, sha: Sha): (r: Option<Change>)
    ensures r.Some? ==> r.value in alive && r.value.head == sha && sha != NONE
    ensures r.None? ==> forall c :: c in alive && c.head != NONE ==> c.head != sha
  {
    if alive == [] then None
    else
      var n := |alive| - 1;
      if alive[n].head != NONE && alive[n].head == sha then Some(alive[n])
      else OwnerOf(alive[..n], sha)
  }

  ghost function KeySet(all: seq<Change>): set<Key> {
    set c | c in all :: c.key
  }

  ghost function ForestOf(alive: seq<Change>): (f: Forest)
    requires KeysIdentify(alive)
    ensures Valid(f)
  {
    Forest(KeySet(alive),
           map c | c in alive && OwnerOf(alive, c.base).Some? :: c.key := OwnerOf(alive, c.base).value.key)
  }

  /** A Change's parent is one whose head its base is, and it has one whenever there is such a
      Change. */
  lemma ParentsExactly(alive: seq<Change>, c: Change)
    requires KeysIdentify(alive) && c in alive
    ensures var f := ForestOf(alive);
            && (c.key in f.parent <==> exists d :: d in alive && d.head == c.base && c.base != NONE)
            && (c.key in f.parent ==> exists d :: d in alive && d.head == c.base && c.base != NONE && f.parent[c.key] == d.key)
  {
    var o := OwnerOf(alive, c.base);
    if o.Some? { assert o.value in alive; }
  }

  function Keys(q: seq<Change>): (r: seq<Key>)
    ensures |r| == |q| && forall i :: 0 <= i < |q| ==> r[i] == q[i].key
  {
    seq(|q|, i requires 0 <= i < |q| => q[i].key)
  }

  // ----- The daemon's derivation

  predicate Sorted(q: seq<Change>) {
    forall i, j :: 0 <= i < j < |q| ==> q[i].key < q[j].key
  }

  function InsertByKey(q: seq<Change>, c: Change): (r: seq<Change>)
    requires Sorted(q) && forall d :: d in q ==> d.key != c.key
    ensures Sorted(r)
    ensures forall d :: d in r <==> d in q || d == c
  {
    if q == [] then [c]
    else if c.key < q[0].key then [c] + q
    else
      var rest := InsertByKey(q[1..], c);
      assert q == [q[0]] + q[1..];
      assert q[0] in q && forall d :: d in rest ==> q[0].key < d.key;
      [q[0]] + rest
  }

  /** sort.Slice by key, as insertion. */
  method SortByKey(q: seq<Change>) returns (r: seq<Change>)
    requires DistinctKeys(q)
    ensures Sorted(r)
    ensures forall d :: d in r <==> d in q
  {
    r := [];
    for n := 0 to |q|
      invariant Sorted(r)
      invariant forall d :: d in r <==> d in q[..n]
    {
      assert q[..n + 1] == q[..n] + [q[n]];
      assert forall d :: d in r ==> d in q[..n] && d.key != q[n].key;
      r := InsertByKey(r, q[n]);
    }
    assert q[..|q|] == q;
  }

  function ChildrenOf(children: map<Key, seq<Change>>, k: Key): seq<Change> {
    if k in children then children[k] else []
  }

  ghost predicate IsChild(alive: seq<Change>, c: Change, k: Key) {
    OwnerOf(alive, c.base).Some? && OwnerOf(alive, c.base).value.key == k && c.key != k
  }

  /** `q` lists the rows of `part` whose base is `k`'s head. */
  ghost predicate Groups(alive: seq<Change>, part: seq<Change>, q: seq<Change>, k: Key) {
    && DistinctKeys(q)
    && (forall c :: c in q <==> c in part && IsChild(alive, c, k))
  }

  predicate AllIn(q: seq<Change>, all: seq<Change>) {
    forall c :: c in q ==> c in all
  }

  /** The daemon's children lists are the forest's. */
  ghost predicate Represents(f: Forest, alive: seq<Change>, children: map<Key, seq<Change>>) {
    forall k :: Keys(ChildrenOf(children, k)) == Kids(f, k) && AllIn(ChildrenOf(children, k), alive)
  }

  method IndexHeads(alive: seq<Change>) returns (byHead: map<Sha, Change>)
    ensures forall s :: s in byHead <==> OwnerOf(alive, s).Some?
    ensures forall s :: s in byHead ==> OwnerOf(alive, s) == Some(byHead[s])
  {
    byHead := map[];
    for i := 0 to |alive|
      invariant forall s :: s in byHead <==> OwnerOf(alive[..i], s).Some?
      invariant forall s :: s in byHead ==> OwnerOf(alive[..i], s) == Some(byHead[s])
    {
      assert alive[..i + 1][..i] == alive[..i];
      if alive[i].head != NONE {
        byHead := byHead[alive[i].head := alive[i]];
      }
    }
    assert alive[..|alive|] == alive;
  }

  lemma GroupStep(alive: seq<Change>, part: seq<Change>, c: Change, q: seq<Change>, k: Key)
    requires DistinctKeys(part + [c]) && Groups(alive, part, q, k)
    ensures Groups(alive, part + [c], if IsChild(alive, c, k) then q + [c] else q, k)
  {
    assert forall d :: d in part ==> d.key != c.key by {
      forall i | 0 <= i < |part| ensures part[i].key != c.key {
        assert (part + [c])[i] == part[i] && (part + [c])[|part|] == c;
      }
    }
  }

  method GroupChildren(alive: seq<Change>, byHead: map<Sha, Change>) returns (children: map<Key, seq<Change>>)
    requires DistinctKeys(alive)
    requires forall s :: s in byHead <==> OwnerOf(alive, s).Some?
    requires forall s :: s in byHead ==> OwnerOf(alive, s) == Some(byHead[s])
    ensures forall k :: Groups(alive, alive, ChildrenOf(children, k), k)
  {
    children := map[];
    for i := 0 to |alive|
      invariant forall k :: Groups(alive, alive[..i], ChildrenOf(children, k), k)
    {
      var c := alive[i];
      ghost var before := children;
      if c.base in byHead && byHead[c.base].key != c.key {
        children := children[byHead[c.base].key := ChildrenOf(children, byHead[c.base].key) + [c]];
      }
      assert alive[..i + 1] == alive[..i] + [c];
      forall k: Key ensures Groups(alive, alive[..i + 1], ChildrenOf(children, k), k) {
        GroupStep(alive, alive[..i], c, ChildrenOf(before, k), k);
        assert IsChild(alive, c, k) <==> c.base in byHead && byHead[c.base].key == k && c.key != k;
      }
    }
    assert alive[..|alive|] == alive;
  }

  method SortChildren(alive: seq<Change>, grouped: map<Key, seq<Change>>) returns (children: map<Key, seq<Change>>)
    requires DistinctKeys(alive) && KeysIdentify(alive)
    requires forall k :: Groups(alive, alive, ChildrenOf(grouped, k), k)
    ensures Represents(ForestOf(alive), alive, children)
  {
    children := grouped;
    var todo := children.Keys;
    while todo != {}
      invariant children.Keys == grouped.Keys && todo <= children.Keys
      invariant forall k :: k in todo ==> children[k] == grouped[k]
      invariant forall k :: k in children && k !in todo ==>
                  Sorted(children[k]) && forall d :: d in children[k] <==> d in grouped[k]
    {
      var k :| k in todo;
      assert Groups(alive, alive, ChildrenOf(grouped, k), k);
      var sorted := SortByKey(children[k]);
      children := children[k := sorted];
      todo := todo - {k};
    }
    forall k ensures Keys(ChildrenOf(children, k)) == Kids(ForestOf(alive), k)
      && AllIn(ChildrenOf(children, k), alive)
    {
      assert Groups(alive, alive, ChildrenOf(grouped, k), k);
      SortedAreKids(alive, ChildrenOf(children, k), k);
    }
  }

  lemma SortedAreKids(alive: seq<Change>, q: seq<Change>, k: Key)
    requires KeysIdentify(alive) && Sorted(q)
    requires forall c :: c in q <==> c in alive && IsChild(alive, c, k)
    ensures Keys(q) == Kids(ForestOf(alive), k)
  {
    forall x ensures x in Keys(q) <==> x in Kids(ForestOf(alive), k) {
      if x in Keys(q) { SortedIsKid(alive, q, k, x); }
      if x in Kids(ForestOf(alive), k) { KidIsSorted(alive, q, k, x); }
    }
    AscendingUnique(Keys(q), Kids(ForestOf(alive), k));
  }

  lemma SortedIsKid(alive: seq<Change>, q: seq<Change>, k: Key, x: Key)
    requires KeysIdentify(alive) && x in Keys(q)
    requires forall c :: c in q ==> c in alive && IsChild(alive, c, k)
    ensures x in Kids(ForestOf(alive), k)
  {
    var i :| 0 <= i < |q| && q[i].key == x;
    assert q[i] in alive && IsChild(alive, q[i], k);
  }

  lemma KidIsSorted(alive: seq<Change>, q: seq<Change>, k: Key, x: Key)
    requires KeysIdentify(alive) && x in Kids(ForestOf(alive), k)
    requires forall c :: c in alive && IsChild(alive, c, k) ==> c in q
    ensures x in Keys(q)
  {
    var c :| c in alive && OwnerOf(alive, c.base).Some? && c.key == x;
    assert IsChild(alive, c, k);
    var i :| 0 <= i < |q| && q[i] == c;
    assert Keys(q)[i] == x;
  }

  lemma KeysAppend(q: seq<Change>, c: Change)
    ensures Keys(q + [c]) == Keys(q) + [c.key]
  {
  }

  lemma Regroup(a: seq<Key>, x: Key, b: seq<Key>, c: seq<Key>)
    ensures a + ([x] + b + c) == ((a + [x]) + b) + c
  {
  }

  /** One turn of the descent's loop over a parent's children. */
  lemma DfsTurn(f: Forest, todo: seq<Key>, i: nat, seen: set<Key>)
    requires Valid(f) && Subset(todo, f.nodes) && i < |todo|
    ensures todo[i] in seen ==> Dfs(f, todo[i..], seen) == Dfs(f, todo[i + 1..], seen)
    ensures todo[i] !in seen ==>
              && Subset(Kids(f, todo[i]), f.nodes)
              && var sub := Dfs(f, Kids(f, todo[i]), seen + {todo[i]});
                 var rest := Dfs(f, todo[i + 1..], sub.seen);
                 Dfs(f, todo[i..], seen) == Visit([todo[i]] + sub.out + rest.out, rest.seen)
  {
    assert todo[i..][0] == todo[i] && todo[i..][1..] == todo[i + 1..];
    KidsSubset(f, todo[i]);
  }

  /** The recursive descent: appends the unseen part of `parent`'s subtree to `chain`. */
  method Walk(ghost f: Forest, ghost alive: seq<Change>, children: map<Key, seq<Change>>, parent: Key,
              chain: seq<Change>, seen: set<Key>) returns (chain': seq<Change>, seen': set<Key>)
    requires Valid(f) && Represents(f, alive, children) && AllIn(chain, alive)
    requires Subset(Kids(f, parent), f.nodes)
    ensures var v := Dfs(f, Kids(f, parent), seen);
            Keys(chain') == Keys(chain) + v.out && seen' == v.seen
    ensures AllIn(chain', alive)
    decreases f.nodes - seen
  {
    var kids := ChildrenOf(children, parent);
    ghost var todo := Kids(f, parent);
    ghost var goal := Dfs(f, todo, seen);
    chain', seen' := chain, seen;
    assert todo[0..] == todo;
    for i := 0 to |kids|
      invariant seen <= seen'
      invariant Keys(chain') + Dfs(f, todo[i..], seen').out == Keys(chain) + goal.out
      invariant Dfs(f, todo[i..], seen').seen == goal.seen
      invariant AllIn(chain', alive)
    {
      var c := kids[i];
      assert todo == Keys(kids) && todo[i] == c.key && AllIn(kids, alive) && c in kids;
      DfsTurn(f, todo, i, seen');
      if c.key !in seen' {
        ghost var sub := Dfs(f, Kids(f, c.key), seen' + {c.key});
        ghost var rest := Dfs(f, todo[i + 1..], sub.seen);
        ghost var before := Keys(chain');
        KeysAppend(chain', c);
        chain', seen' := Walk(f, alive, children, c.key, chain' + [c], seen' + {c.key});
        Regroup(before, c.key, sub.out, rest.out);
      }
    }
    assert todo[|kids|..] == [];
    assert Keys(chain') + [] == Keys(chain');
  }

  method FindRoot(alive: seq<Change>, byHead: map<Sha, Change>, change: Change) returns (root: Change)
    requires DistinctKeys(alive) && KeysIdentify(alive) && change in alive
    requires forall s :: s in byHead <==> OwnerOf(alive, s).Some?
    requires forall s :: s in byHead ==> OwnerOf(alive, s) == Some(byHead[s])
    ensures root in alive && root.key == Climb(ForestOf(alive), change.key, {change.key})
  {
    ghost var f := ForestOf(alive);
    root := change;
    var upSeen := {root.key};
    while root.base in byHead && byHead[root.base].key !in upSeen
      invariant root in alive && root.key in upSeen
      invariant Climb(f, root.key, upSeen) == Climb(f, change.key, {change.key})
      decreases f.nodes - upSeen
    {
      assert root.key in f.parent && f.parent[root.key] == byHead[root.base].key;
      upSeen := upSeen + {byHead[root.base].key};
      root := byHead[root.base];
    }
    assert root.key in f.parent ==> f.parent[root.key] == byHead[root.base].key;
  }

  /** stackForChange: the stack in pre-order and the requested Change's place in it. */
  method StackForChange(all: seq<Change>, change: Change) returns (chain: seq<Change>, position: nat)
    requires DistinctKeys(all) && change in all
    ensures KeysIdentify(Alive(all, change.key))
    ensures Keys(chain) == Stack(ForestOf(Alive(all, change.key)), change.key)
    ensures forall c :: c in chain ==> c in Alive(all, change.key)
    ensures position < |chain| && chain[position] == change
  {
    var alive := FilterAlive(all, change.key);
    DistinctIdentify(alive);
    ghost var f := ForestOf(alive);
    var byHead := IndexHeads(alive);
    var grouped := GroupChildren(alive, byHead);
    var children := SortChildren(alive, grouped);
    var root := FindRoot(alive, byHead, change);
    KidsSubset(f, root.key);
    var seen: set<Key>;
    chain, seen := Walk(f, alive, children, root.key, [root], {root.key});
    assert Keys([root]) == [root.key];
    ghost var k := InChain(alive, chain, change);
    position := FindPosition(chain, change.key, k);
    SameKeySame(alive, chain, change, position);
  }

  method FilterAlive(all: seq<Change>, key: Key) returns (alive: seq<Change>)
    ensures alive == Alive(all, key)
  {
    alive := [];
    for i := 0 to |all|
      invariant alive == Alive(all[..i], key)
    {
      assert all[..i + 1][..i] == all[..i];
      if all[i].status == Open || all[i].key == key { alive := alive + [all[i]]; }
    }
    assert all[..|all|] == all;
  }

  method FindPosition(chain: seq<Change>, key: Key, ghost k: nat) returns (position: nat)
    requires k < |chain| && chain[k].key == key
    ensures position < |chain| && chain[position].key == key
  {
    position := 0;
    while chain[position].key != key
      invariant 0 <= position <= k
      decreases k - position
    {
      position := position + 1;
    }
  }

  lemma InChain(alive: seq<Change>, chain: seq<Change>, change: Change) returns (k: nat)
    requires KeysIdentify(alive) && change in alive
    requires Keys(chain) == Stack(ForestOf(alive), change.key)
    ensures k < |chain| && chain[k].key == change.key
  {
    StackExact(ForestOf(alive), change.key);
    k :| 0 <= k < |Keys(chain)| && Keys(chain)[k] == change.key;
  }

  lemma SameKeySame(alive: seq<Change>, chain: seq<Change>, change: Change, i: nat)
    requires KeysIdentify(alive) && change in alive && AllIn(chain, alive)
    requires i < |chain| && chain[i].key == change.key
    ensures chain[i] == change
  {
    assert chain[i] in chain;
  }
}
