/** The intake's per-key limiter (runkod/invite.go): a sliding window kept in a slice per key,
    compacted in place. */
module Limiter {
  import opened Changes

  const RATE_LIMIT := 5
  /** One hour, in nanoseconds. */
  const WINDOW: int := 3_600_000_000_000

  /** The times still inside the window that ends at `now`. */
  function Kept(times: seq<int>, now: int): (r: seq<int>)
    ensures |r| <= |times| && forall t :: t in r ==> t in times && now - t < WINDOW
  {
    if times == [] then []
    else
      var n := |times| - 1;
      Kept(times[..n], now) + (if now - times[n] < WINDOW then [times[n]] else [])
  }

  function HitsOf(hits: map<Name, seq<int>>, key: Name): seq<int> {
    if key in hits then hits[key] else []
  }

  function Allowed(times: seq<int>, now: int): bool {
    |Kept(times, now)| < RATE_LIMIT
  }

  /** One call: the hits are compacted either way, and an admitted call is added. */
  function Call(hits: map<Name, seq<int>>, key: Name, now: int): map<Name, seq<int>> {
    var times := HitsOf(hits, key);
    hits[key := Kept(times, now) + (if Allowed(times, now) then [now] else [])]
  }

  // ----- In place

  /** A Go slice: the first `len` cells of its backing array. */
  datatype Slice = Slice(cells: array<int>, len: nat)

  class InviteLimiter {
    var hits: map<Name, Slice>

    ghost predicate Valid()
      reads this, set k | k in hits :: hits[k].cells
    {
      && (forall k :: k in hits ==> hits[k].len <= hits[k].cells.Length)
      && (forall j, k :: j in hits && k in hits && j != k ==> hits[j].cells != hits[k].cells)
    }

    ghost function Contents(): map<Name, seq<int>>
      reads this, set k | k in hits :: hits[k].cells
      requires Valid()
    {
      map k | k in hits :: hits[k].cells[..hits[k].len]
    }

    constructor ()
      ensures Valid() && Contents() == map[]
    {
      hits := map[];
    }

    /** allow. */
    method Allow(key: Name, now: int) returns (ok: bool)
      requires Valid()
      modifies this, if key in hits then {hits[key].cells} else {}
      ensures Valid() && Contents() == Call(old(Contents()), key, now)
      ensures ok == Allowed(HitsOf(old(Contents()), key), now)
    {
      var s: Slice;
      if key in hits {
        s := hits[key];
      } else {
        var empty := new int[0];
        s := Slice(empty, 0);
      }
      ghost var times := HitsOf(Contents(), key);
      var kept := Compact(s.cells, s.len, now);
      s := Slice(s.cells, kept);
      ok := kept < RATE_LIMIT;
      if ok { s := Append(s, now); }
      Store(key, s, old(Contents()), Kept(times, now) + (if ok then [now] else []));
    }

    method Store(key: Name, s: Slice, ghost was: map<Name, seq<int>>, ghost times: seq<int>)
      requires s.len <= s.cells.Length && s.cells[..s.len] == times
      requires forall k :: k in hits && k != key ==>
                 hits[k].cells != s.cells && hits[k].len <= hits[k].cells.Length
                 && k in was && hits[k].cells[..hits[k].len] == was[k]
      requires forall j, k :: j in hits && k in hits && j != key && k != key && j != k ==> hits[j].cells != hits[k].cells
      requires was.Keys <= hits.Keys
      modifies this
      ensures Valid() && Contents() == was[key := times]
    {
      hits := hits[key := s];
      assert Contents().Keys == was[key := times].Keys;
    }

    /** The filter over hits[key][:0]: survivors move down over the cells already read. */
    static method Compact(cells: array<int>, len: nat, now: int) returns (kept: nat)
      requires len <= cells.Length
      modifies cells
      ensures kept <= len && cells[..kept] == Kept(old(cells[..len]), now)
    {
      kept := 0;
      ghost var times := cells[..len];
      assert times[..0] == [];
      for i := 0 to len
        invariant kept <= i && cells[i..len] == times[i..] && cells[..kept] == Kept(times[..i], now)
      {
        var t := cells[i];
        assert t == cells[i..len][0] == times[i];
        assert times[..i + 1][..i] == times[..i];
        if now - t < WINDOW {
          cells[kept] := t;
          kept := kept + 1;
        }
        assert cells[i + 1..len] == times[i + 1..];
      }
      assert times[..len] == times;
    }

    /** append: in place while there is room, into a larger array otherwise. */
    static method Append(s: Slice, now: int) returns (r: Slice)
      requires s.len <= s.cells.Length
      modifies s.cells
      ensures r.len == s.len + 1 <= r.cells.Length && (r.cells == s.cells || fresh(r.cells))
      ensures r.cells[..r.len] == old(s.cells[..s.len]) + [now]
    {
      if s.len < s.cells.Length {
        s.cells[s.len] := now;
        return Slice(s.cells, s.len + 1);
      }
      var grown := new int[2 * s.len + 1];
      for i := 0 to s.len
        invariant grown[..i] == s.cells[..i]
        invariant s.cells[..s.len] == old(s.cells[..s.len])
      {
        grown[i] := s.cells[i];
      }
      grown[s.len] := now;
      r := Slice(grown, s.len + 1);
    }
  }

  // ----- Whole runs

  datatype Attempt = Attempt(key: Name, now: int)

  function Run(calls: seq<Attempt>): map<Name, seq<int>> {
    if calls == [] then map[]
    else
      var last := calls[|calls| - 1];
      Call(Run(calls[..|calls| - 1]), last.key, last.now)
  }

  predicate Admits(calls: seq<Attempt>, i: nat)
    requires i < |calls|
  {
    Allowed(HitsOf(Run(calls[..i]), calls[i].key), calls[i].now)
  }

  /** When the key's admitted calls were. */
  function Admitted(calls: seq<Attempt>, key: Name): seq<int> {
    if calls == [] then []
    else
      var n := |calls| - 1;
      Admitted(calls[..n], key) + (if calls[n].key == key && Admits(calls, n) then [calls[n].now] else [])
  }

  ghost predicate InTime(calls: seq<Attempt>) {
    forall i, j :: 0 <= i < j < |calls| ==> calls[i].now <= calls[j].now
  }

  lemma {:induction false} KeptAgain(times: seq<int>, then_: int, now: int)
    requires then_ <= now
    ensures Kept(Kept(times, then_), now) == Kept(times, now)
    decreases |times|
  {
    if times != [] {
      var n := |times| - 1;
      KeptAgain(times[..n], then_, now);
      if then_ - times[n] < WINDOW {
        assert (Kept(times[..n], then_) + [times[n]])[..|Kept(times[..n], then_)|] == Kept(times[..n], then_);
      } else {
        assert Kept(times, then_) == Kept(times[..n], then_);
      }
    }
  }

  /** However the slice was compacted, what it yields now is what the admitted calls yield. */
  lemma {:induction false} HitsAreAdmitted(calls: seq<Attempt>, key: Name, now: int)
    requires InTime(calls) && (calls != [] ==> calls[|calls| - 1].now <= now)
    ensures Kept(HitsOf(Run(calls), key), now) == Kept(Admitted(calls, key), now)
    decreases |calls|
  {
    if calls != [] {
      var n := |calls| - 1;
      HitsAreAdmitted(calls[..n], key, now);
      var times := HitsOf(Run(calls[..n]), key);
      if calls[n].key == key {
        CompactedAndAdded(times, Admitted(calls[..n], key), calls[n].now, now, Admits(calls, n));
      } else {
        assert Admitted(calls, key) == Admitted(calls[..n], key);
      }
    }
  }

  lemma CompactedAndAdded(a: seq<int>, b: seq<int>, then_: int, now: int, add: bool)
    requires then_ <= now && Kept(a, now) == Kept(b, now)
    ensures var more := if add then [then_] else [];
            Kept(Kept(a, then_) + more, now) == Kept(b + more, now)
  {
    KeptAgain(a, then_, now);
    if add {
      AddedLast(Kept(a, then_), b, then_, now);
    } else {
      assert Kept(a, then_) + [] == Kept(a, then_) && b + [] == b;
    }
  }

  lemma AddedLast(a: seq<int>, b: seq<int>, t: int, now: int)
    requires Kept(a, now) == Kept(b, now)
    ensures Kept(a + [t], now) == Kept(b + [t], now)
  {
    assert (a + [t])[..|a|] == a && (b + [t])[..|b|] == b;
  }

  /** How many of the times lie less than an hour before `now`. */
  function Recent(times: seq<int>, now: int): nat {
    if times == [] then 0
    else
      var n := |times| - 1;
      Recent(times[..n], now) + (if times[n] > now - 3_600_000_000_000 then 1 else 0)
  }

  lemma {:induction false} RecentKept(times: seq<int>, now: int)
    ensures |Kept(times, now)| == Recent(times, now)
    decreases |times|
  {
    if times != [] { RecentKept(times[..|times| - 1], now); }
  }

  /** A call is admitted exactly when fewer than five of its key's admitted calls lie within the
      preceding hour. */
  lemma AdmitsBelowLimit(calls: seq<Attempt>, i: nat)
    requires InTime(calls) && i < |calls|
    ensures Admits(calls, i) <==> Recent(Admitted(calls[..i], calls[i].key), calls[i].now) < 5
  {
    HitsAreAdmitted(calls[..i], calls[i].key, calls[i].now);
    RecentKept(Admitted(calls[..i], calls[i].key), calls[i].now);
  }

  /** How many of the times lie in the hour from `from` on. */
  function Within(times: seq<int>, from: int): nat {
    if times == [] then 0
    else
      var n := |times| - 1;
      Within(times[..n], from) + (if from <= times[n] < from + 3_600_000_000_000 then 1 else 0)
  }

  lemma {:induction false} WithinKept(times: seq<int>, from: int, now: int)
    requires now < from + 3_600_000_000_000
    ensures Within(times, from) <= |Kept(times, now)|
    decreases |times|
  {
    if times != [] { WithinKept(times[..|times| - 1], from, now); }
  }

  lemma WithinNext(times: seq<int>, t: int, from: int)
    ensures Within(times + [t], from) == Within(times, from) + if from <= t < from + 3_600_000_000_000 then 1 else 0
  {
    assert (times + [t])[..|times|] == times;
  }

  lemma OneAdmitted(calls: seq<Attempt>, n: nat, from: int)
    requires InTime(calls) && n < |calls| && Admits(calls, n)
    requires Within(Admitted(calls[..n], calls[n].key), from) <= 5
    ensures Within(Admitted(calls[..n], calls[n].key) + [calls[n].now], from) <= 5
  {
    var times, now := Admitted(calls[..n], calls[n].key), calls[n].now;
    WithinNext(times, now, from);
    if from <= now < from + 3_600_000_000_000 {
      AdmitsBelowLimit(calls, n);
      RecentKept(times, now);
      WithinKept(times, from, now);
    }
  }

  /** Any hour holds at most five admitted calls of a key. */
  lemma {:induction false} WindowBound(calls: seq<Attempt>, key: Name, from: int)
    requires InTime(calls)
    ensures Within(Admitted(calls, key), from) <= 5
    decreases |calls|
  {
    if calls != [] {
      var n := |calls| - 1;
      WindowBound(calls[..n], key, from);
      if calls[n].key == key && Admits(calls, n) {
        OneAdmitted(calls, n, from);
      } else {
        assert Admitted(calls, key) == Admitted(calls[..n], key);
      }
    }
  }
}
