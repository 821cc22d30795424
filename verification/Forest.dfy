/** The stack relation as a graph: every node has at most one parent, but nothing rules
    out cycles.  `Climb` walks to the trunk-most ancestor and `Dfs` lists a subtree in
    pre-order, each with its own cycle guard. */
module Forest {
  import opened Changes

  datatype Forest = Forest(nodes: set<Key>, parent: map<Key, Key>)

  ghost predicate Valid(f: Forest) {
    forall k :: k in f.parent ==> k in f.nodes && f.parent[k] in f.nodes
  }

  ghost predicate Child(f: Forest, k: Key, p: Key) {
    k in f.parent && f.parent[k] == p
  }

  /** The children of `k`, in key order. */
  ghost function Kids(f: Forest, k: Key): (q: seq<Key>)
    ensures Ascending(q)
    ensures forall c :: c in q <==> c in f.parent && f.parent[c] == k && c != k
  {
    SortedKeys(set c | c in f.parent && f.parent[c] == k && c != k)
  }

  ghost predicate Subset(q: seq<Key>, s: set<Key>) {
    forall k :: k in q ==> k in s
  }

  lemma KidsSubset(f: Forest, k: Key)
    requires Valid(f)
    ensures Subset(Kids(f, k), f.nodes)
  {
  }

  ghost function Climb(f: Forest, k: Key, seen: set<Key>): (r: Key)
    requires Valid(f) && k in f.nodes && k in seen
    ensures r in f.nodes
    decreases f.nodes - seen
  {
    if k !in f.parent || f.parent[k] in seen then k
    else Climb(f, f.parent[k], seen + {f.parent[k]})
  }

  datatype Visit = Visit(out: seq<Key>, seen: set<Key>)

  /** Visits the nodes of `todo` in turn, each followed by its subtree. */
  ghost function Dfs(f: Forest, todo: seq<Key>, seen: set<Key>): (v: Visit)
    requires Valid(f) && Subset(todo, f.nodes)
    ensures seen <= v.seen
    decreases f.nodes - seen, |todo|
  {
    if todo == [] then Visit([], seen)
    else if todo[0] in seen then Dfs(f, todo[1..], seen)
    else
      KidsSubset(f, todo[0]);
      var sub := Dfs(f, Kids(f, todo[0]), seen + {todo[0]});
      var rest := Dfs(f, todo[1..], sub.seen);
      Visit([todo[0]] + sub.out + rest.out, rest.seen)
  }

  /** The stack holding `k`: its trunk-most ancestor, then the whole tree below it. */
  ghost function Stack(f: Forest, k: Key): (q: seq<Key>)
    requires Valid(f) && k in f.nodes
  {
    var r := Climb(f, k, {k});
    KidsSubset(f, r);
    [r] + Dfs(f, Kids(f, r), {r}).out
  }

  /** `to` is `n` child steps below `from`. */
  ghost predicate Below(f: Forest, from: Key, to: Key, n: nat)
    decreases n
  {
    if n == 0 then from == to
    else to in f.parent && f.parent[to] != to && Below(f, from, f.parent[to], n - 1)
  }

  ghost predicate Reaches(f: Forest, from: Key, to: Key) {
    exists n: nat :: Below(f, from, to, n)
  }

  // ----- What a visit lists

  /** A visit lists each newly seen node once, and nothing else. */
  lemma {:induction false} DfsLists(f: Forest, todo: seq<Key>, seen: set<Key>)
    requires Valid(f) && Subset(todo, f.nodes)
    ensures var v := Dfs(f, todo, seen);
            && NoDup(v.out)
            && (forall k :: k in v.out <==> k in v.seen && k !in seen)
            && Subset(v.out, f.nodes)
    decreases f.nodes - seen, |todo|
  {
    if todo == [] {
    } else if todo[0] in seen {
      DfsLists(f, todo[1..], seen);
    } else {
      var c := todo[0];
      KidsSubset(f, c);
      var sub := Dfs(f, Kids(f, c), seen + {c});
      DfsLists(f, Kids(f, c), seen + {c});
      DfsLists(f, todo[1..], sub.seen);
      var rest := Dfs(f, todo[1..], sub.seen);
      NoDupConcat([c], sub.out);
      NoDupConcat([c] + sub.out, rest.out);
    }
  }

  lemma NoDupConcat(a: seq<Key>, b: seq<Key>)
    requires NoDup(a) && NoDup(b)
    requires forall k :: k in a ==> k !in b
    ensures NoDup(a + b)
  {
    forall i, j | 0 <= i < j < |a + b| ensures (a + b)[i] != (a + b)[j] {
      if i < |a| && j >= |a| { assert a[i] in a && b[j - |a|] in b; }
    }
  }

  /** Every child of a node in `ks` is in `s`. */
  ghost predicate KidsIn(f: Forest, ks: set<Key>, s: set<Key>) {
    forall k :: k in ks ==> Subset(Kids(f, k), s)
  }

  lemma KidsInAll(f: Forest, c: Key, seen: set<Key>, mid: set<Key>, end: set<Key>)
    requires Subset(Kids(f, c), mid) && mid <= end && seen + {c} <= mid
    requires KidsIn(f, mid - (seen + {c}), mid) && KidsIn(f, end - mid, end)
    ensures KidsIn(f, end - seen, end)
  {
  }

  /** A visit leaves no child of a newly seen node unseen. */
  lemma {:induction false} DfsCloses(f: Forest, todo: seq<Key>, seen: set<Key>)
    requires Valid(f) && Subset(todo, f.nodes)
    ensures var v := Dfs(f, todo, seen);
            Subset(todo, v.seen) && KidsIn(f, v.seen - seen, v.seen)
    decreases f.nodes - seen, |todo|
  {
    if todo != [] {
      assert todo == [todo[0]] + todo[1..];
      if todo[0] in seen {
        DfsCloses(f, todo[1..], seen);
      } else {
        KidsSubset(f, todo[0]);
        var sub := Dfs(f, Kids(f, todo[0]), seen + {todo[0]});
        DfsCloses(f, Kids(f, todo[0]), seen + {todo[0]});
        DfsCloses(f, todo[1..], sub.seen);
        KidsInAll(f, todo[0], seen, sub.seen, Dfs(f, todo[1..], sub.seen).seen);
      }
    }
  }

  /** Everything a visit lists hangs below the parent whose children it started from. */
  lemma {:induction false} DfsSound(f: Forest, top: Key, todo: seq<Key>, seen: set<Key>)
    requires Valid(f) && Subset(todo, f.nodes)
    requires forall k :: k in todo ==> Reaches(f, top, k)
    ensures forall k :: k in Dfs(f, todo, seen).out ==> Reaches(f, top, k)
    decreases f.nodes - seen, |todo|
  {
    if todo == [] {
    } else if todo[0] in seen {
      DfsSound(f, top, todo[1..], seen);
    } else {
      var c := todo[0];
      KidsSubset(f, c);
      assert c in todo && Reaches(f, top, c);
      forall k | k in Kids(f, c) ensures Reaches(f, top, k) {
        var n: nat :| Below(f, top, c, n);
        assert Below(f, top, k, n + 1);
      }
      DfsSound(f, top, Kids(f, c), seen + {c});
      DfsSound(f, top, todo[1..], Dfs(f, Kids(f, c), seen + {c}).seen);
    }
  }

  /** Each listed node is a starting node or follows its own parent in the list. */
  ghost predicate ParentsFirst(f: Forest, starts: seq<Key>, out: seq<Key>) {
    forall i :: 0 <= i < |out| ==>
      out[i] in starts || (out[i] in f.parent && f.parent[out[i]] in out[..i])
  }

  lemma ParentsFirstConcat(f: Forest, p: seq<Key>, a: seq<Key>, q: seq<Key>, b: seq<Key>, all: seq<Key>)
    requires ParentsFirst(f, p, a) && ParentsFirst(f, q, b)
    requires forall k :: k in p ==> k in all
    requires forall k :: k in q ==> k in all || (k in f.parent && f.parent[k] in a)
    ensures ParentsFirst(f, all, a + b)
  {
    var out := a + b;
    forall i | 0 <= i < |out|
      ensures out[i] in all || (out[i] in f.parent && f.parent[out[i]] in out[..i])
    {
      if i < |a| {
        assert out[..i] == a[..i] && out[i] == a[i];
      } else {
        assert out[..i] == a + b[..i - |a|] && out[i] == b[i - |a|];
      }
    }
  }

  lemma {:induction false} DfsParentsFirst(f: Forest, todo: seq<Key>, seen: set<Key>)
    requires Valid(f) && Subset(todo, f.nodes)
    ensures ParentsFirst(f, todo, Dfs(f, todo, seen).out)
    decreases f.nodes - seen, |todo|
  {
    if todo == [] {
    } else if todo[0] in seen {
      DfsParentsFirst(f, todo[1..], seen);
      ParentsFirstConcat(f, [], [], todo[1..], Dfs(f, todo[1..], seen).out, todo);
      assert [] + Dfs(f, todo[1..], seen).out == Dfs(f, todo[1..], seen).out;
    } else {
      var c := todo[0];
      KidsSubset(f, c);
      var sub := Dfs(f, Kids(f, c), seen + {c});
      var rest := Dfs(f, todo[1..], sub.seen);
      DfsParentsFirst(f, Kids(f, c), seen + {c});
      DfsParentsFirst(f, todo[1..], sub.seen);
      ParentsFirstConcat(f, [c], [c], Kids(f, c), sub.out, todo);
      ParentsFirstConcat(f, todo, [c] + sub.out, todo[1..], rest.out, todo);
    }
  }

  // ----- The climb

  /** The climb stays on the ancestors of `k`, so it ends at one of them. */
  lemma {:induction false} ClimbReaches(f: Forest, k: Key, seen: set<Key>)
    requires Valid(f) && k in f.nodes && k in seen
    ensures Reaches(f, Climb(f, k, seen), k)
    decreases f.nodes - seen
  {
    if k !in f.parent || f.parent[k] in seen {
      assert Below(f, k, k, 0);
    } else {
      var p := f.parent[k];
      ClimbReaches(f, p, seen + {p});
      var n: nat :| Below(f, Climb(f, p, seen + {p}), p, n);
      assert Below(f, Climb(f, k, seen), k, n + 1);
    }
  }

  ghost predicate DownClosed(f: Forest, s: set<Key>) {
    forall c :: c in f.parent && f.parent[c] != c && f.parent[c] in s ==> c in s
  }

  lemma {:induction false} ReachesClosed(f: Forest, r: Key, k: Key, n: nat, s: set<Key>)
    requires r in s && Below(f, r, k, n) && DownClosed(f, s)
    ensures k in s
    decreases n
  {
    if n > 0 {
      ReachesClosed(f, r, f.parent[k], n - 1, s);
    }
  }

  // ----- The stack

  /** The members are exactly the nodes below the leader, each listed once. */
  lemma StackMembers(f: Forest, k: Key)
    requires Valid(f) && k in f.nodes
    ensures var q := Stack(f, k); var r := Climb(f, k, {k});
            && NoDup(q) && Subset(q, f.nodes)
            && (forall x :: x in q <==> Reaches(f, r, x))
  {
    var r := Climb(f, k, {k});
    KidsSubset(f, r);
    var kids := Kids(f, r);
    var v := Dfs(f, kids, {r});
    DfsLists(f, kids, {r});
    NoDupConcat([r], v.out);
    assert Below(f, r, r, 0);
    forall c | c in kids ensures Reaches(f, r, c) {
      assert Below(f, r, f.parent[c], 0);
      assert Below(f, r, c, 1);
    }
    DfsSound(f, r, kids, {r});
    DfsCloses(f, kids, {r});
    forall c | c in f.parent && f.parent[c] != c && f.parent[c] in v.seen ensures c in v.seen {
      assert c in Kids(f, f.parent[c]);
    }
    forall x | Reaches(f, r, x) ensures x in Stack(f, k) {
      var n: nat :| Below(f, r, x, n);
      ReachesClosed(f, r, x, n, v.seen);
    }
  }

  /** Stack derivation is exact, cycles included: the trunk-most ancestor leads, no member
      repeats, every other member follows its own parent, and the members are exactly the
      nodes below the leader - the requested node among them. */
  lemma StackExact(f: Forest, k: Key)
    requires Valid(f) && k in f.nodes
    ensures var q := Stack(f, k); var r := Climb(f, k, {k});
            && q[0] == r
            && NoDup(q) && Subset(q, f.nodes)
            && k in q
            && (forall i :: 0 < i < |q| ==> q[i] in f.parent && f.parent[q[i]] in q[..i])
            && (forall x :: x in q <==> Reaches(f, r, x))
  {
    var r := Climb(f, k, {k});
    StackMembers(f, k);
    ClimbReaches(f, k, {k});
    KidsSubset(f, r);
    var kids := Kids(f, r);
    DfsParentsFirst(f, kids, {r});
    ParentsFirstConcat(f, [r], [r], kids, Dfs(f, kids, {r}).out, [r]);
    var q := Stack(f, k);
    forall i | 0 < i < |q| ensures q[i] in f.parent && f.parent[q[i]] in q[..i] {
      assert q[i] != q[0];
    }
  }

  /** A child of a member is a member. */
  lemma StackClosed(f: Forest, key: Key, k: Key, p: Key)
    requires Valid(f) && key in f.nodes && p in Stack(f, key)
    requires k in f.parent && f.parent[k] == p && k != p
    ensures k in Stack(f, key)
  {
    StackMembers(f, key);
    var r := Climb(f, key, {key});
    var n: nat :| Below(f, r, p, n);
    assert Below(f, r, k, n + 1);
  }

  /** The climb stops where no parent is left, or where the next one hangs below already. */
  lemma {:induction false} ClimbTop(f: Forest, k: Key, seen: set<Key>)
    requires Valid(f) && k in f.nodes && k in seen
    ensures var r := Climb(f, k, seen);
            r in f.parent ==> f.parent[r] in seen || Reaches(f, r, f.parent[r])
    decreases f.nodes - seen
  {
    if k in f.parent && f.parent[k] !in seen {
      ClimbTop(f, f.parent[k], seen + {f.parent[k]});
      ClimbReaches(f, f.parent[k], seen + {f.parent[k]});
    }
  }

  /** A stack whose leader has a parent holds that parent: the leader sits on a cycle. */
  lemma LeaderParent(f: Forest, key: Key, p: Key)
    requires Valid(f) && key in f.nodes && Stack(f, key)[0] in f.parent && f.parent[Stack(f, key)[0]] == p
    ensures p in Stack(f, key)
  {
    ClimbTop(f, key, {key});
    ClimbReaches(f, key, {key});
    StackMembers(f, key);
  }

  // ----- Sibling order

  ghost predicate Siblings(f: Forest, x: Key, y: Key) {
    x in f.parent && y in f.parent && f.parent[x] == f.parent[y]
  }

  ghost predicate SiblingsOrdered(f: Forest, out: seq<Key>) {
    forall i, j :: 0 <= i < j < |out| && Siblings(f, out[i], out[j]) ==> out[i] < out[j]
  }

  lemma HeadBelowTail(todo: seq<Key>)
    requires Ascending(todo) && todo != []
    ensures Ascending(todo[1..]) && forall k :: k in todo[1..] ==> todo[0] < k && k in todo
  {
  }

  lemma {:induction false} DfsSiblings(f: Forest, p: Key, todo: seq<Key>, seen: set<Key>)
    requires Valid(f) && Subset(todo, f.nodes) && p in seen && Ascending(todo)
    requires forall k :: k in todo ==> k in f.parent && f.parent[k] == p
    ensures SiblingsOrdered(f, Dfs(f, todo, seen).out)
    decreases f.nodes - seen, |todo|
  {
    if todo == [] {
    } else if todo[0] in seen {
      DfsSiblings(f, p, todo[1..], seen);
    } else {
      var c := todo[0];
      KidsSubset(f, c);
      var sub := Dfs(f, Kids(f, c), seen + {c});
      var rest := Dfs(f, todo[1..], sub.seen);
      DfsSiblings(f, c, Kids(f, c), seen + {c});
      DfsSiblings(f, p, todo[1..], sub.seen);
      DfsLists(f, Kids(f, c), seen + {c});
      DfsLists(f, todo[1..], sub.seen);
      ParentsOf(f, Kids(f, c), c, seen + {c});
      ParentsOf(f, todo[1..], p, sub.seen);
      SiblingsConcat(f, [c], sub.out);
      HeadBelowTail(todo);
      SiblingsConcat(f, [c] + sub.out, rest.out);
    }
  }

  /** In a visit of children of `p`, every listed node's parent is `p` or listed too. */
  lemma ParentsOf(f: Forest, todo: seq<Key>, p: Key, seen: set<Key>)
    requires Valid(f) && Subset(todo, f.nodes)
    requires forall k :: k in todo ==> k in f.parent && f.parent[k] == p
    ensures var out := Dfs(f, todo, seen).out;
            forall k :: k in out ==>
              k in f.parent && (f.parent[k] in out || (k in todo && f.parent[k] == p))
  {
    DfsParentsFirst(f, todo, seen);
  }

  lemma SiblingsConcat(f: Forest, a: seq<Key>, b: seq<Key>)
    requires SiblingsOrdered(f, a) && SiblingsOrdered(f, b)
    requires forall x, y :: x in a && y in b && Siblings(f, x, y) ==> x < y
    ensures SiblingsOrdered(f, a + b)
  {
    var out := a + b;
    forall i, j | 0 <= i < j < |out| && Siblings(f, out[i], out[j]) ensures out[i] < out[j] {
      if i < |a| && j >= |a| {
        assert out[i] in a && out[j] in b;
      } else if i >= |a| {
        assert out[i] == b[i - |a|] && out[j] == b[j - |a|];
      }
    }
  }

  /** Children of one parent are listed in key order. */
  lemma StackSiblings(f: Forest, k: Key)
    requires Valid(f) && k in f.nodes
    ensures SiblingsOrdered(f, Stack(f, k)[1..])
  {
    var r := Climb(f, k, {k});
    KidsSubset(f, r);
    DfsSiblings(f, r, Kids(f, r), {r});
    assert Stack(f, k)[1..] == Dfs(f, Kids(f, r), {r}).out;
  }

  // ----- One stack, whoever asks

  lemma {:induction false} DepthUnique(f: Forest, r: Key, k: Key, m: nat, n: nat)
    requires r !in f.parent && Below(f, r, k, m) && Below(f, r, k, n)
    ensures m == n
    decreases m
  {
    if m > 0 && n > 0 { DepthUnique(f, r, f.parent[k], m - 1, n - 1); }
  }

  ghost predicate AtLeast(f: Forest, r: Key, k: Key, n: nat) {
    exists m: nat :: m >= n && Below(f, r, k, m)
  }

  lemma {:induction false} ClimbToRoot(f: Forest, r: Key, k: Key, n: nat, seen: set<Key>)
    requires Valid(f) && k in f.nodes && k in seen
    requires r !in f.parent && Below(f, r, k, n)
    requires forall s :: s in seen ==> AtLeast(f, r, s, n)
    ensures Climb(f, k, seen) == r
    decreases n
  {
    if n > 0 {
      var p := f.parent[k];
      if p in seen {
        var m: nat :| m >= n && Below(f, r, p, m);
        DepthUnique(f, r, p, m, n - 1);
      } else {
        assert Below(f, r, p, n - 1) && AtLeast(f, r, p, n - 1);
        assert forall s :: AtLeast(f, r, s, n) ==> AtLeast(f, r, s, n - 1);
        ClimbToRoot(f, r, p, n - 1, seen + {p});
      }
    }
  }

  /** Every member of a stack that hangs off a parentless root derives that same stack. */
  lemma SameStackFromAnyMember(f: Forest, k: Key, x: Key)
    requires Valid(f) && k in f.nodes && Climb(f, k, {k}) !in f.parent
    requires x in Stack(f, k)
    ensures x in f.nodes && Stack(f, x) == Stack(f, k)
  {
    var r := Climb(f, k, {k});
    StackMembers(f, k);
    var n: nat :| Below(f, r, x, n);
    assert AtLeast(f, r, x, n);
    ClimbToRoot(f, r, x, n, {x});
  }

  /** Two forests that agree on the children of everything visited give the same visit. */
  lemma {:induction false} DfsCongruent(f: Forest, g: Forest, todo: seq<Key>, seen: set<Key>)
    requires Valid(f) && Valid(g) && f.nodes == g.nodes && Subset(todo, f.nodes)
    requires forall k :: k in Dfs(f, todo, seen).out ==> Kids(f, k) == Kids(g, k)
    ensures Dfs(g, todo, seen) == Dfs(f, todo, seen)
    decreases f.nodes - seen, |todo|
  {
    if todo == [] {
    } else if todo[0] in seen {
      DfsCongruent(f, g, todo[1..], seen);
    } else {
      var c := todo[0];
      KidsSubset(f, c);
      var sub := Dfs(f, Kids(f, c), seen + {c});
      var rest := Dfs(f, todo[1..], sub.seen);
      assert Dfs(f, todo, seen).out == [c] + sub.out + rest.out;
      assert c in Dfs(f, todo, seen).out;
      DfsCongruent(f, g, Kids(f, c), seen + {c});
      DfsCongruent(f, g, todo[1..], sub.seen);
    }
  }

  // ----- Cutting the root loose

  /** `g` is `f` with the parent of `r` removed. */
  ghost predicate CutAt(f: Forest, g: Forest, r: Key) {
    && f.nodes == g.nodes
    && (forall k, p :: Child(g, k, p) <==> Child(f, k, p) && k != r)
  }

  lemma {:induction false} BelowCut(f: Forest, g: Forest, r: Key, k: Key, n: nat)
    requires CutAt(f, g, r) && Below(f, r, k, n)
    requires forall p :: Reaches(f, r, p) ==> p == r || !Child(f, r, p)
    ensures Below(g, r, k, n)
    decreases n
  {
    if n > 0 {
      var p := f.parent[k];
      assert Reaches(f, r, p) && Child(f, k, p);
      BelowCut(f, g, r, p, n - 1);
      assert Child(g, k, p);
    }
  }

  /** A stack whose root is nobody's child within it survives losing the root's parent. */
  lemma StackCut(f: Forest, g: Forest, key: Key)
    requires Valid(f) && Valid(g) && key in f.nodes && CutAt(f, g, Stack(f, key)[0])
    requires forall p :: p in Stack(f, key) && p != Stack(f, key)[0] ==> !Child(f, Stack(f, key)[0], p)
    ensures key in g.nodes && Stack(g, key) == Stack(f, key)
  {
    var q, r := Stack(f, key), Climb(f, key, {key});
    StackExact(f, key);
    assert q[0] == r;
    assert r !in g.parent by { if r in g.parent { assert Child(g, r, g.parent[r]); } }
    assert Reaches(f, r, key);
    var n: nat :| Below(f, r, key, n);
    BelowCut(f, g, r, key, n);
    assert AtLeast(g, r, key, n);
    ClimbToRoot(g, r, key, n, {key});
    KidsSubset(f, r);
    forall p | p in q ensures Kids(f, p) == Kids(g, p) { KidsCut(f, g, r, p); }
    DfsCongruent(f, g, Kids(f, r), {r});
  }

  lemma KidsCut(f: Forest, g: Forest, r: Key, p: Key)
    requires CutAt(f, g, r) && (p == r || !Child(f, r, p))
    ensures Kids(f, p) == Kids(g, p)
  {
    forall c ensures c in Kids(f, p) <==> c in Kids(g, p) {
      assert Child(g, c, p) <==> Child(f, c, p) && c != r;
    }
    AscendingUnique(Kids(f, p), Kids(g, p));
  }
}
