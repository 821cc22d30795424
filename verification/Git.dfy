/** Git as the daemon uses it.  A repository is the list of its commits in an order that
    puts parents first, so a commit id is an index and a minted commit is a new last entry.
    Slot NONE is the absent commit, whose tree is the empty tree.  A tree maps cells to
    contents and `git merge-tree` is a cell-wise three-way merge. */
module Git {
  import opened Changes

  type Cell = nat
  type Content = nat
  type Tree = map<Cell, Content>

  /** A message as it was written, or one with a Change-Id trailer appended to it. */
  datatype Message = Text(id: nat) | WithId(text: Message, key: Key)

  /** `trailer` is the Change-Id parsed from the message, NONE when it has none. */
  datatype Commit = Commit(parent: Sha, trailer: Key, message: Message, tree: Tree)

  type Repo = seq<Commit>

  predicate ValidRepo(repo: Repo) {
    && |repo| > 0
    && repo[0] == Commit(NONE, NONE, Text(0), map[])
    && forall s :: 0 < s < |repo| ==> repo[s].parent < s
  }

  // ----- First-parent history

  const STACK_WALK_LIMIT := 100

  /** `git rev-list --first-parent --max-count=limit s ^trunk`. */
  function RevList(repo: Repo, trunk: seq<Sha>, s: Sha, limit: nat): (walk: seq<Sha>)
    requires ValidRepo(repo) && s < |repo|
    ensures forall x :: x in walk ==> 0 < x <= s && x !in trunk
    ensures |walk| <= limit
  {
    if limit == 0 || s == NONE || s in trunk then []
    else [s] + RevList(repo, trunk, repo[s].parent, limit - 1)
  }

  /** `git merge-base s trunk`: the first ancestor trunk holds, NONE without common history. */
  function MergeBase(repo: Repo, trunk: seq<Sha>, s: Sha): (m: Sha)
    requires ValidRepo(repo) && s < |repo|
    ensures m == NONE || m in trunk
    ensures m <= s
    decreases s
  {
    if s == NONE || s in trunk then s else MergeBase(repo, trunk, repo[s].parent)
  }

  /** `s` lies on the first-parent line of `tip`. */
  predicate OnLine(repo: Repo, tip: Sha, s: Sha)
    requires ValidRepo(repo) && tip < |repo|
    decreases tip
  {
    tip == s || (tip != NONE && OnLine(repo, repo[tip].parent, s))
  }

  lemma {:induction false} RevListOnLine(repo: Repo, trunk: seq<Sha>, s: Sha, limit: nat)
    requires ValidRepo(repo) && s < |repo|
    ensures forall x :: x in RevList(repo, trunk, s, limit) ==> OnLine(repo, s, x)
  {
    if limit != 0 && s != NONE && s !in trunk {
      RevListOnLine(repo, trunk, repo[s].parent, limit - 1);
    }
  }

  /** The walk from `s` reaches trunk or a root within the limit. */
  predicate Complete(repo: Repo, trunk: seq<Sha>, s: Sha, limit: nat)
    requires ValidRepo(repo) && s < |repo|
  {
    s == NONE || s in trunk || (limit > 0 && Complete(repo, trunk, repo[s].parent, limit - 1))
  }

  /** A complete walk is the same under any larger limit, and so is the rest of it from any
      commit on. */
  lemma {:induction false} CompleteWalk(repo: Repo, trunk: seq<Sha>, s: Sha, limit: nat, more: nat)
    requires ValidRepo(repo) && s < |repo| && Complete(repo, trunk, s, limit) && limit <= more
    ensures RevList(repo, trunk, s, more) == RevList(repo, trunk, s, limit)
  {
    if s != NONE && s !in trunk {
      CompleteWalk(repo, trunk, repo[s].parent, limit - 1, more - 1);
    }
  }

  lemma {:induction false} CompleteRest(repo: Repo, trunk: seq<Sha>, s: Sha, limit: nat, i: nat)
    requires ValidRepo(repo) && s < |repo| && Complete(repo, trunk, s, limit)
    requires i < |RevList(repo, trunk, s, limit)|
    ensures var walk := RevList(repo, trunk, s, limit);
            walk[i] in walk && walk[i + 1..] == RevList(repo, trunk, repo[walk[i]].parent, limit)
  {
    var walk := RevList(repo, trunk, s, limit);
    if i == 0 {
      CompleteWalk(repo, trunk, repo[s].parent, limit - 1, limit);
    } else {
      CompleteRest(repo, trunk, repo[s].parent, limit - 1, i - 1);
      assert walk[1..] == RevList(repo, trunk, repo[s].parent, limit - 1);
      assert walk[i + 1..] == walk[1..][i..] && walk[i] == walk[1..][i - 1];
      CompleteOn(repo, trunk, repo[s].parent, limit - 1, i - 1);
      CompleteWalk(repo, trunk, repo[walk[i]].parent, limit - 1, limit);
    }
  }

  lemma {:induction false} CompleteOn(repo: Repo, trunk: seq<Sha>, s: Sha, limit: nat, i: nat)
    requires ValidRepo(repo) && s < |repo| && Complete(repo, trunk, s, limit)
    requires i < |RevList(repo, trunk, s, limit)|
    ensures RevList(repo, trunk, s, limit)[i] in RevList(repo, trunk, s, limit)
    ensures Complete(repo, trunk, repo[RevList(repo, trunk, s, limit)[i]].parent, limit)
  {
    if i == 0 {
      CompleteUp(repo, trunk, repo[s].parent, limit - 1);
    } else {
      CompleteOn(repo, trunk, repo[s].parent, limit - 1, i - 1);
      CompleteUp(repo, trunk, repo[RevList(repo, trunk, s, limit)[i]].parent, limit - 1);
    }
  }

  lemma {:induction false} CompleteUp(repo: Repo, trunk: seq<Sha>, s: Sha, limit: nat)
    requires ValidRepo(repo) && s < |repo| && Complete(repo, trunk, s, limit)
    ensures Complete(repo, trunk, s, limit + 1)
  {
    if s != NONE && s !in trunk { CompleteUp(repo, trunk, repo[s].parent, limit - 1); }
  }

  /** New commits do not change what an old commit's history says. */
  lemma {:induction false} OnLineStable(repo: Repo, repo': Repo, tip: Sha, s: Sha)
    requires ValidRepo(repo) && ValidRepo(repo') && repo <= repo' && tip < |repo|
    ensures OnLine(repo, tip, s) <==> OnLine(repo', tip, s)
    decreases tip
  {
    if tip != NONE { OnLineStable(repo, repo', repo[tip].parent, s); }
  }

  // ----- Trees and the three-way merge

  function At(t: Tree, c: Cell): Option<Content> {
    if c in t then Some(t[c]) else None
  }

  predicate ConflictAt(base: Tree, ours: Tree, theirs: Tree, c: Cell) {
    At(theirs, c) != At(base, c) && At(ours, c) != At(base, c) && At(ours, c) != At(theirs, c)
  }

  function MergedAt(base: Tree, ours: Tree, theirs: Tree, c: Cell): Option<Content> {
    if At(theirs, c) == At(base, c) then At(ours, c) else At(theirs, c)
  }

  function ConflictCells(base: Tree, ours: Tree, theirs: Tree): set<Cell> {
    set c | c in base.Keys + ours.Keys + theirs.Keys && ConflictAt(base, ours, theirs, c)
  }

  /** `git merge-tree --merge-base=base ours theirs`: None when some cell conflicts. */
  function MergeTree(base: Tree, ours: Tree, theirs: Tree): (r: Option<Tree>)
    ensures r.Some? <==> forall c :: !ConflictAt(base, ours, theirs, c)
    ensures r.Some? ==> forall c :: At(r.value, c) == MergedAt(base, ours, theirs, c)
  {
    assert forall c :: ConflictAt(base, ours, theirs, c) ==> c in ConflictCells(base, ours, theirs);
    if ConflictCells(base, ours, theirs) != {} then
      assert exists c :: c in ConflictCells(base, ours, theirs);
      None
    else
      Some(map c | c in base.Keys + ours.Keys + theirs.Keys && MergedAt(base, ours, theirs, c).Some?
             :: MergedAt(base, ours, theirs, c).value)
  }

  // ----- Trivial rebases (runkod/trivialrebase.go, trivialRebaseOf)

  datatype Version = Version(base: Sha, head: Sha)

  predicate KnownVersion(repo: Repo, v: Version) {
    v.base < |repo| && v.head < |repo|
  }

  predicate SameMessage(repo: Repo, a: Sha, b: Sha)
    requires a < |repo| && b < |repo|
  {
    repo[a].message == repo[b].message && repo[a].trailer == repo[b].trailer
  }

  /** `minted` says what `head` says, under `key`: the same message where the head names the
      Change already, and that message with the Change-Id appended where it does not. */
  ghost predicate SaysTheSame(head: Commit, key: Key, minted: Commit) {
    && minted.trailer == key
    && (head.trailer == key ==> minted.message == head.message)
    && (head.trailer != key ==> minted.message == WithId(head.message, key))
  }

  /** `to` carries `from`'s delta: same message, and replaying base..head onto the new base
      gives exactly the new tree.  A commit git cannot read is never one. */
  predicate TrivialRebase(repo: Repo, from: Version, to: Version) {
    && KnownVersion(repo, from) && KnownVersion(repo, to)
    && from.base != NONE && from.head != NONE && from.head != to.head && to.base != NONE
    && SameMessage(repo, from.head, to.head)
    && MergeTree(repo[from.base].tree, repo[to.base].tree, repo[from.head].tree)
       == Some(repo[to.head].tree)
  }

  /** Said cell by cell: where `from` changes a cell `to` has what it has, elsewhere `to`'s new
      base decides, and nowhere do the two disagree; both are real versions, at different heads
      with the same message. */
  lemma TrivialRebaseExactly(repo: Repo, from: Version, to: Version)
    requires KnownVersion(repo, from) && KnownVersion(repo, to)
    ensures TrivialRebase(repo, from, to) <==>
              && 0 < from.base && 0 < from.head && 0 < to.base && from.head != to.head
              && repo[to.head].message == repo[from.head].message && repo[to.head].trailer == repo[from.head].trailer
              && (forall c ::
                    var was, change, onto := At(repo[from.base].tree, c), At(repo[from.head].tree, c), At(repo[to.base].tree, c);
                    && At(repo[to.head].tree, c) == (if change != was then change else onto)
                    && (change != was && onto != was ==> change == onto))
  {
    var was, change, onto, left := repo[from.base].tree, repo[from.head].tree, repo[to.base].tree, repo[to.head].tree;
    var merged := MergeTree(was, onto, change);
    forall c ensures ConflictAt(was, onto, change, c) <==>
      !(At(change, c) != At(was, c) && At(onto, c) != At(was, c) ==> At(change, c) == At(onto, c)) {}
    if merged.Some? && forall c :: At(left, c) == MergedAt(was, onto, change, c) { SameCells(left, merged.value); }
  }

  lemma SameCells(a: Tree, b: Tree)
    requires forall c :: At(a, c) == At(b, c)
    ensures a == b
  {
    forall c ensures c in a <==> c in b { assert At(a, c) == At(b, c); }
    forall c | c in a ensures a[c] == b[c] { assert At(a, c) == At(b, c); }
  }

  /** The version changes cell `c`, and `x` is what it leaves there. */
  predicate Touches(repo: Repo, v: Version, c: Cell, x: Option<Content>)
    requires KnownVersion(repo, v)
  {
    At(repo[v.head].tree, c) == x && At(repo[v.base].tree, c) != x
  }

  predicate RebaseChain(repo: Repo, vs: seq<Version>) {
    && |vs| > 0
    && KnownVersion(repo, vs[0])
    && (forall i :: 0 <= i < |vs| - 1 ==> TrivialRebase(repo, vs[i], vs[i + 1]))
  }

  /** Whatever the last version of a chain of trivial rebases changes, the first version
      already changed, to the same content. */
  lemma {:induction false} ChainCovers(repo: Repo, vs: seq<Version>, c: Cell, x: Option<Content>)
    requires RebaseChain(repo, vs)
    ensures KnownVersion(repo, vs[|vs| - 1])
    ensures Touches(repo, vs[|vs| - 1], c, x) ==> Touches(repo, vs[0], c, x)
  {
    if |vs| > 1 {
      var from, to := vs[|vs| - 2], vs[|vs| - 1];
      assert vs[|vs| - 1] == vs[(|vs| - 2) + 1] && TrivialRebase(repo, from, to);
      var merged := MergeTree(repo[from.base].tree, repo[to.base].tree, repo[from.head].tree);
      assert At(merged.value, c) == MergedAt(repo[from.base].tree, repo[to.base].tree, repo[from.head].tree, c);
      assert !ConflictAt(repo[from.base].tree, repo[to.base].tree, repo[from.head].tree, c);
      assert Touches(repo, to, c, x) ==> Touches(repo, from, c, x);
      ChainCovers(repo, vs[..|vs| - 1], c, x);
    }
  }
}
