/** The rows the daemon stores and the order it lists them in.

    Change-Ids, commit ids, principal, workspace and branch names are opaque to the
    daemon except for equality, the order of Change-Ids and the empty string.  They are
    naturals here, with NONE standing for the empty string. */
module Changes {

  type Key = nat
  type Sha = nat
  type Name = nat

  const NONE: nat := 0

  datatype Option<+T> = None | Some(value: T)

  datatype Status = Open | Landed | Abandoned

  datatype Change = Change(
    key: Key,
    status: Status,
    base: Sha,
    head: Sha,
    landed: Sha,
    forced: bool,
    author: Name,
    workspace: Name,
    branch: Name)

  /** The `changes` table: one row per Change-Id. */
  type Rows = map<Key, Change>

  ghost predicate KeyedRows(rows: Rows) {
    forall k :: k in rows ==> rows[k].key == k
  }

  ghost predicate Ascending(q: seq<nat>) {
    forall i, j :: 0 <= i < j < |q| ==> q[i] < q[j]
  }

  lemma Whole<T>(q: seq<T>)
    ensures q[..|q|] == q
  {
  }

  /** A prefix of a prefix, and its last element. */
  lemma Prefix<T>(q: seq<T>, n: nat)
    requires 0 < n <= |q|
    ensures q[..n][..n - 1] == q[..n - 1] && q[..n][n - 1] == q[n - 1]
  {
  }

  lemma SplitLast<T>(q: seq<T>)
    requires q != []
    ensures q == q[..|q| - 1] + [q[|q| - 1]] && q[|q| - 1] in q
    ensures forall x :: x in q[..|q| - 1] ==> x in q
  {
  }

  predicate NoDup<T(==)>(q: seq<T>) {
    forall i, j :: 0 <= i < j < |q| ==> q[i] != q[j]
  }

  lemma {:induction false} Least(s: set<nat>) returns (k: nat)
    requires s != {}
    ensures k in s && forall j :: j in s ==> k <= j
  {
    k :| k in s;
    var rest := s - {k};
    assert forall j :: j in s ==> j == k || j in rest;
    if rest != {} {
      var m := Least(rest);
      if m < k { k := m; }
    }
  }

  lemma LeastExists(s: set<nat>)
    requires s != {}
    ensures exists k :: k in s && forall j :: j in s ==> k <= j
  {
    var k := Least(s);
  }

  /** The elements of `s` in increasing order: how the store lists keys. */
  ghost function SortedKeys(s: set<nat>): (q: seq<nat>)
    ensures Ascending(q)
    ensures forall k :: k in q <==> k in s
    ensures |q| == |s|
  {
    if s == {} then [] else
      LeastExists(s);
      var k :| k in s && forall j :: j in s ==> k <= j;
      var rest := SortedKeys(s - {k});
      assert forall j :: j in rest ==> j in s && j != k;
      [k] + rest
  }

  /** An increasing list is determined by its set of elements. */
  lemma {:induction false} AscendingUnique(p: seq<nat>, q: seq<nat>)
    requires Ascending(p) && Ascending(q)
    requires forall k :: k in p <==> k in q
    ensures p == q
  {
    assert p != [] ==> p[0] in p;
    assert q != [] ==> q[0] in q;
    if p != [] {
      assert q[0] in p;
      var i :| 0 <= i < |q| && q[i] == p[0];
      var j :| 0 <= j < |p| && p[j] == q[0];
      assert p[0] == q[0];
      forall k ensures k in p[1..] <==> k in q[1..] {
        if k in p[1..] { assert k in p && k != p[0]; assert k in q; }
        if k in q[1..] { assert k in q && k != q[0]; assert k in p; }
      }
      AscendingUnique(p[1..], q[1..]);
      assert p == [p[0]] + p[1..] && q == [q[0]] + q[1..];
    }
  }
}
