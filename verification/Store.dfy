/** The daemon's whole state, and what each write of the in-memory store does to it
    (runkod/store.go, MemStore).  `log` holds history that no operation reads: it is there
    for the run properties to talk about. */
module Store {
  import opened Changes
  import opened Git

  /** An owner's approval, bound to the head it was granted for. */
  datatype Approval = Approval(approver: Name, head: Sha)

  /** A check run: completed with success, completed otherwise, or not completed. */
  datatype Run = Passing | Failing | Running

  datatype Workspace = Workspace(owner: Name, closed: bool)

  /** The reserved check that records agent policy findings. */
  const AGENT_POLICY: Name := 1

  /** The branch a push means when it names none. */
  const HEAD_BRANCH: Name := 1

  /** versions: every (base, head) a row ever held; approved: explicit approvals with the
      version approved; found: heads whose push carried policy findings; acked: heads whose
      findings a human acknowledged; tips: the pushed tip per workspace branch. */
  datatype Log = Log(
    versions: set<(Key, Version)>,
    approved: set<(Key, Name, Name, Version)>,
    found: set<(Key, Sha)>,
    acked: set<(Key, Sha)>,
    tips: map<(Name, Name), Sha>)

  type Runs = map<(Key, Sha), map<Name, Run>>

  /** What review has produced so far. */
  datatype Review = Review(approvals: map<Key, map<Name, Approval>>, runs: Runs)

  datatype State = State(
    repo: Repo,
    trunk: seq<Sha>,
    rows: Rows,
    refs: map<Key, Sha>,
    review: Review,
    spaces: map<Name, Workspace>,
    log: Log)

  /** CreateOrUpdateChange: base and head move together, an empty origin keeps the stored
      one, and writing to an abandoned row reopens it. */
  function Upserted(rows: Rows, key: Key, base: Sha, head: Sha, author: Name, ws: Name, branch: Name): Change {
    if key in rows then
      var c := rows[key];
      c.(base := base, head := head, author := author,
         workspace := if ws != NONE then ws else c.workspace,
         branch := if ws != NONE then branch else c.branch,
         status := if c.status == Abandoned then Open else c.status)
    else
      Change(key, Open, base, head, NONE, false, author, ws, branch)
  }

  function RunsAt(runs: Runs, key: Key, head: Sha): map<Name, Run> {
    if (key, head) in runs then runs[(key, head)] else map[]
  }

  predicate Green(runs: Runs, key: Key, head: Sha, name: Name) {
    name in RunsAt(runs, key, head) && RunsAt(runs, key, head)[name] == Passing
  }

  function PutRun(runs: Runs, key: Key, head: Sha, name: Name, run: Run): Runs {
    runs[(key, head) := RunsAt(runs, key, head)[name := run]]
  }

  /** CopyPassingCheckRuns: a run already at the new head wins. */
  function CopyPassing(runs: Runs, key: Key, from: Sha, to: Sha): Runs {
    var src := RunsAt(runs, key, from);
    var copied := map n | n in src && src[n] == Passing :: src[n];
    runs[(key, to) := copied + RunsAt(runs, key, to)]
  }

  /** The owners' approvals at `from` re-bound to `to`; the others stay as they are. */
  function MoveApprovals(m: map<Name, Approval>, from: Sha, to: Sha): map<Name, Approval> {
    map o | o in m :: if m[o].head == from then Approval(m[o].approver, to) else m[o]
  }

  /** Every row's stable ref points at its head. */
  ghost predicate RefsFollow(s: State) {
    forall k :: k in s.rows ==> k in s.refs && s.refs[k] == s.rows[k].head
  }

  /** The open rows in listing order. */
  ghost function OpenKeys(rows: Rows): seq<Key> {
    SortedKeys(set k | k in rows && rows[k].status == Open)
  }

  ghost function OpenRows(rows: Rows): (q: seq<Change>)
    ensures |q| == |OpenKeys(rows)|
    ensures forall i :: 0 <= i < |q| ==> OpenKeys(rows)[i] in rows && q[i] == rows[OpenKeys(rows)[i]]
  {
    var ks := OpenKeys(rows);
    assert forall i :: 0 <= i < |ks| ==> ks[i] in ks;
    seq(|ks|, i requires 0 <= i < |ks| => rows[ks[i]])
  }

  lemma InOpenRows(rows: Rows, c: Change)
    requires KeyedRows(rows)
    ensures c in OpenRows(rows) <==> c.key in rows && rows[c.key] == c && c.status == Open
  {
    var ks, q := OpenKeys(rows), OpenRows(rows);
    if c.key in rows && rows[c.key] == c && c.status == Open {
      assert c.key in ks;
      var i :| 0 <= i < |ks| && ks[i] == c.key;
      assert q[i] == c;
    }
    if c in q {
      var i :| 0 <= i < |q| && q[i] == c;
      assert ks[i] in ks;
    }
  }
}
