/** The blame parser (runkod/history.go, parseBlamePorcelain). */
module Blame {
  import opened Changes
  import opened Text

  datatype Meta = Meta(author: string, at: int, subject: string)

  const BLANK := Meta("", 0, "")

  /** A run of lines from one commit. */
  datatype Region = Region(start: int, count: int, sha: string, meta: Meta)

  datatype Result = Blamed(regions: seq<Region>, lines: seq<string>) | Unexpected

  // ----- Words

  /** unicode.IsSpace. */
  predicate IsSpace(c: char) {
    var n := c as int;
    9 <= n <= 13 || n == 32 || n == 0x85 || n == 0xA0 || n == 0x1680 || 0x2000 <= n <= 0x200a
    || n == 0x2028 || n == 0x2029 || n == 0x202f || n == 0x205f || n == 0x3000
  }

  function WordEnd(s: string): (n: nat)
    ensures n <= |s| && (s != "" && !IsSpace(s[0]) ==> n > 0)
  {
    if s == "" || IsSpace(s[0]) then 0 else 1 + WordEnd(s[1..])
  }

  /** strings.Fields. */
  function Fields(s: string): seq<string>
    decreases |s|
  {
    if s == "" then []
    else if IsSpace(s[0]) then Fields(s[1..])
    else [s[..WordEnd(s)]] + Fields(s[WordEnd(s)..])
  }

  predicate Word(s: string) {
    s != "" && forall c :: c in s ==> !IsSpace(c)
  }

  lemma {:induction false} WordEndAt(w: string, rest: string)
    requires (forall c :: c in w ==> !IsSpace(c)) && (rest == "" || IsSpace(rest[0]))
    ensures WordEnd(w + rest) == |w|
    decreases |w|
  {
    if w == "" {
      assert w + rest == rest;
    } else {
      assert w[0] in w && forall c :: c in w[1..] ==> c in w;
      assert (w + rest)[1..] == w[1..] + rest;
      WordEndAt(w[1..], rest);
    }
  }

  lemma FieldsFirst(w: string, rest: string)
    requires Word(w) && (rest == "" || IsSpace(rest[0]))
    ensures Fields(w + rest) == [w] + Fields(rest)
  {
    WordEndAt(w, rest);
    assert w[0] in w;
    assert (w + rest)[..|w|] == w && (w + rest)[|w|..] == rest;
  }

  lemma {:induction false} FieldsOfWords(ws: seq<string>)
    requires forall w :: w in ws ==> Word(w)
    ensures Fields(Join(ws, ' ')) == ws
    decreases |ws|
  {
    if ws != [] {
      assert ws[0] in ws && forall w :: w in ws[1..] ==> w in ws;
      if |ws| == 1 {
        FieldsFirst(ws[0], "");
        assert ws[0] + "" == ws[0];
      } else {
        var rest := [' '] + Join(ws[1..], ' ');
        FieldsFirst(ws[0], rest);
        assert ws[0] + [' '] + Join(ws[1..], ' ') == ws[0] + rest;
        assert rest[1..] == Join(ws[1..], ' ');
        FieldsOfWords(ws[1..]);
      }
    }
  }

  // ----- The state machine

  predicate IsHex(s: string) {
    forall c :: c in s ==> IsDigit(c) || 'a' <= c <= 'f'
  }

  predicate IsCommit(s: string) {
    |s| == 40 && IsHex(s)
  }

  /** A group header: "<sha> <origLine> <finalLine> ...". */
  predicate IsGroup(raw: string) {
    var fields := Fields(raw);
    |fields| >= 3 && IsCommit(fields[0])
  }

  /** strconv.ParseInt with its error dropped: 0 for no number, the nearest end of the range
      for one that does not fit. */
  function ParseTime(s: string): int {
    var n := Atoi(s);
    if n.Some? then n.value
    else if s != "" && Digits(s[1..]) && s[0] == '-' then -MAX_INT - 1
    else if Digits(s) || (s != "" && s[0] == '+' && Digits(s[1..])) then MAX_INT
    else 0
  }

  function Tagged(m: Meta, raw: string): Meta {
    if HasPrefix(raw, "author ") then m.(author := raw[7..])
    else if HasPrefix(raw, "author-time ") then m.(at := ParseTime(raw[12..]))
    else if HasPrefix(raw, "summary ") then m.(subject := raw[8..])
    else m
  }

  datatype State = State(
    metas: map<string, Meta>, regions: seq<Region>, cur: Option<Region>, lines: seq<string>, group: string, failed: bool)

  const START := State(map[], [], None, [], "", false)

  function Flush(s: State): State {
    if s.cur.Some? then s.(regions := s.regions + [s.cur.value], cur := None) else s
  }

  predicate Continues(cur: Option<Region>, sha: string, line: int) {
    cur.Some? && cur.value.sha == sha && cur.value.start + cur.value.count == line
  }

  /** A group header for `sha` at `line`: the open region grows, or a new one opens. */
  function Group(s: State, sha: string, line: int): State {
    var t := s.(group := sha, metas := if sha in s.metas then s.metas else s.metas[sha := BLANK]);
    if Continues(s.cur, sha, line) then t.(cur := Some(s.cur.value.(count := s.cur.value.count + 1)))
    else Flush(t).(cur := Some(Region(line, 1, sha, BLANK)))
  }

  function Step(s: State, raw: string): State {
    if s.failed || raw == "" then s
    else if raw[0] == '\t' then s.(lines := s.lines + [raw[1..]])
    else if IsGroup(raw) then
      var line := Atoi(Fields(raw)[2]);
      if line.None? then s.(failed := true) else Group(s, Fields(raw)[0], line.value)
    else if s.group !in s.metas then s
    else s.(metas := s.metas[s.group := Tagged(s.metas[s.group], raw)])
  }

  function Fold(s: State, lines: seq<string>): State
    decreases |lines|
  {
    if lines == [] then s else Step(Fold(s, lines[..|lines| - 1]), lines[|lines| - 1])
  }

  function Attach(r: Region, metas: map<string, Meta>): Region {
    if r.sha in metas then r.(meta := metas[r.sha]) else r
  }

  function AttachAll(rs: seq<Region>, metas: map<string, Meta>): (q: seq<Region>)
    ensures |q| == |rs| && forall i :: 0 <= i < |rs| ==> q[i] == Attach(rs[i], metas)
  {
    seq(|rs|, i requires 0 <= i < |rs| => Attach(rs[i], metas))
  }

  function Parse(text: string): Result {
    var s := Flush(Fold(START, Split(text, '\n')));
    if s.failed then Unexpected else Blamed(AttachAll(s.regions, s.metas), s.lines)
  }

  lemma {:induction false} FoldMore(s: State, a: seq<string>, b: seq<string>)
    ensures Fold(s, a + b) == Fold(Fold(s, a), b)
    decreases |b|
  {
    if b == [] {
      assert a + b == a;
    } else {
      assert (a + b)[..|a + b| - 1] == a + b[..|b| - 1];
      FoldMore(s, a, b[..|b| - 1]);
    }
  }

  lemma FoldOne(s: State, line: string)
    ensures Fold(s, [line]) == Step(s, line)
  {
    assert [line][..0] == [];
    assert Fold(s, [line][..0]) == s;
  }

  lemma {:induction false} FailedStays(s: State, lines: seq<string>)
    requires s.failed
    ensures Fold(s, lines).failed
    decreases |lines|
  {
    if lines != [] { FailedStays(s, lines[..|lines| - 1]); }
  }

  lemma FailsFrom(lines: seq<string>, i: nat)
    requires i <= |lines| && Fold(START, lines[..i]).failed
    ensures Fold(START, lines).failed
  {
    assert lines == lines[..i] + lines[i..];
    FoldMore(START, lines[..i], lines[i..]);
    FailedStays(Fold(START, lines[..i]), lines[i..]);
  }

  lemma FoldNext(lines: seq<string>, i: nat)
    requires i < |lines|
    ensures Fold(START, lines[..i + 1]) == Step(Fold(START, lines[..i]), lines[i])
  {
    assert lines[..i + 1][..i] == lines[..i];
  }

  lemma AttachNext(rs: seq<Region>, metas: map<string, Meta>, i: nat)
    requires i < |rs|
    ensures AttachAll(rs, metas)[..i + 1] == AttachAll(rs, metas)[..i] + [Attach(rs[i], metas)]
  {
  }

  /** A group header whose line number does not parse; a line of the file is none, whatever it
      says. */
  predicate BadGroup(raw: string) {
    raw != "" && raw[0] != '\t' && IsGroup(raw) && Atoi(Fields(raw)[2]).None?
  }

  /** The parser fails on such a header, and only there. */
  lemma {:induction false} FailsExactly(lines: seq<string>)
    ensures Fold(START, lines).failed <==> exists x :: x in lines && BadGroup(x)
    decreases |lines|
  {
    if lines != [] {
      var n := |lines| - 1;
      SplitLast(lines);
      FailsExactly(lines[..n]);
      assert Step(Fold(START, lines[..n]), lines[n]).failed <==> Fold(START, lines[..n]).failed || BadGroup(lines[n]);
      assert forall x :: x in lines <==> x in lines[..n] || x == lines[n];
    }
  }

  /** parseBlamePorcelain. */
  method ParseBlamePorcelain(out: string) returns (result: Result)
    ensures result == Parse(out)
  {
    var raws := Split(out, '\n');
    var metas: map<string, Meta> := map[];
    var regions: seq<Region> := [];
    var lines: seq<string> := [];
    var cur: Option<Region> := None;
    var group := "";
    assert raws[..0] == [];
    for i := 0 to |raws|
      invariant Fold(START, raws[..i]) == State(metas, regions, cur, lines, group, false)
    {
      var raw := raws[i];
      FoldNext(raws, i);
      if raw == "" {
      } else if raw[0] == '\t' {
        lines := lines + [raw[1..]];
      } else if IsGroup(raw) {
        var sha, line := Fields(raw)[0], Atoi(Fields(raw)[2]);
        if line.None? {
          FailsFrom(raws, i + 1);
          return Unexpected;
        }
        group := sha;
        if sha !in metas { metas := metas[sha := BLANK]; }
        if Continues(cur, sha, line.value) {
          cur := Some(cur.value.(count := cur.value.count + 1));
        } else {
          if cur.Some? { regions := regions + [cur.value]; }
          cur := Some(Region(line.value, 1, sha, BLANK));
        }
      } else if group in metas {
        metas := metas[group := Tagged(metas[group], raw)];
      }
    }
    assert raws[..|raws|] == raws;
    if cur.Some? { regions := regions + [cur.value]; }
    var attached: seq<Region> := [];
    for i := 0 to |regions|
      invariant attached == AttachAll(regions, metas)[..i]
    {
      AttachNext(regions, metas, i);
      attached := attached + [Attach(regions[i], metas)];
    }
    result := Blamed(attached, lines);
  }
}
