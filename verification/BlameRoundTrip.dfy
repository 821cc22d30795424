/** Any attribution of lines to commits survives printing in porcelain form and parsing. */
module BlameRoundTrip {
  import opened Changes
  import opened Text
  import opened Blame

  // ----- What the regions of a result mean

  /** One commit per line, the regions written out. */
  function Expand(rs: seq<Region>): seq<string> {
    if rs == [] then []
    else
      var r := rs[|rs| - 1];
      Expand(rs[..|rs| - 1]) + seq(if r.count > 0 then r.count else 0, _ => r.sha)
  }

  /** The regions cover 1..n: each starts where the one before ends. */
  ghost predicate Tiles(rs: seq<Region>) {
    && (rs != [] ==> rs[0].start == 1)
    && (forall i :: 0 <= i < |rs| ==> rs[i].count > 0)
    && (forall i :: 0 <= i < |rs| - 1 ==> rs[i + 1].start == rs[i].start + rs[i].count)
  }

  ghost predicate Maximal(rs: seq<Region>) {
    forall i :: 0 <= i < |rs| - 1 ==> rs[i].sha != rs[i + 1].sha
  }

  /** Regions that cover `shas` in order, no two neighbours of one commit. */
  ghost predicate Covers(rs: seq<Region>, shas: seq<string>) {
    Tiles(rs) && Maximal(rs) && Expand(rs) == shas
  }

  // ----- The cover is unique

  lemma ExpandLast(rs: seq<Region>)
    requires rs != [] && Tiles(rs)
    ensures var n, e := |rs| - 1, Expand(rs);
            && rs[n].count <= |e| && Expand(rs[..n]) == e[..|e| - rs[n].count] && Tiles(rs[..n])
            && forall i :: |e| - rs[n].count <= i < |e| ==> e[i] == rs[n].sha
  {
    var n := |rs| - 1;
    var tail := seq(rs[n].count, _ => rs[n].sha);
    assert Expand(rs) == Expand(rs[..n]) + tail;
    assert (Expand(rs[..n]) + tail)[..|Expand(rs[..n])|] == Expand(rs[..n]);
  }

  lemma {:induction false} LastStart(rs: seq<Region>)
    requires rs != [] && Tiles(rs)
    ensures rs[|rs| - 1].start + rs[|rs| - 1].count == |Expand(rs)| + 1
    decreases |rs|
  {
    var n := |rs| - 1;
    ExpandLast(rs);
    if n > 0 {
      LastStart(rs[..n]);
    } else {
      assert rs[..0] == [] && Expand(rs[..0]) == [];
    }
  }

  /** The line before the last run belongs to another commit. */
  lemma BelowLastRun(p: seq<Region>, shas: seq<string>)
    requires Covers(p, shas) && p != [] && p[|p| - 1].count < |shas|
    ensures shas[|shas| - p[|p| - 1].count - 1] != p[|p| - 1].sha
  {
    var n := |p| - 1;
    ExpandLast(p);
    assert |Expand(p[..n])| == |shas| - p[n].count;
    assert p[..n] != [];
    ExpandLast(p[..n]);
    assert p[..n][n - 1] == p[n - 1];
  }

  /** The last run of a maximal cover is as long as it can be. */
  lemma LastRun(p: seq<Region>, q: seq<Region>, shas: seq<string>)
    requires Covers(p, shas) && Covers(q, shas) && p != [] && q != []
    ensures p[|p| - 1].sha == q[|q| - 1].sha && p[|p| - 1].count >= q[|q| - 1].count
  {
    var a, b := p[|p| - 1], q[|q| - 1];
    ExpandLast(p);
    ExpandLast(q);
    assert shas[|shas| - 1] == a.sha;
    if a.count < b.count {
      assert shas[|shas| - a.count - 1] == b.sha;
      BelowLastRun(p, shas);
    }
  }

  /** An attribution has one maximal tiling: a cover is determined, metadata aside. */
  lemma {:induction false} CoverUnique(p: seq<Region>, q: seq<Region>, shas: seq<string>)
    requires Covers(p, shas) && Covers(q, shas)
    ensures |p| == |q| && forall i :: 0 <= i < |p| ==> q[i] == p[i].(meta := q[i].meta)
    decreases |p|
  {
    if p != [] { ExpandLast(p); }
    if q != [] { ExpandLast(q); }
    if p != [] && q != [] {
      LastRun(p, q, shas);
      LastRun(q, p, shas);
      LastStart(p);
      LastStart(q);
      CoverUnique(p[..|p| - 1], q[..|q| - 1], shas[..|shas| - p[|p| - 1].count]);
    }
  }

  // ----- Printing

  /** A line of the file: its commit, where it was there, the group size if printed, what
      follows the header besides the commit's tags, and the text. */
  datatype Entry = Entry(sha: string, orig: nat, count: Option<nat>, noise: seq<string>, content: string)

  function GroupWords(e: Entry, line: nat): seq<string> {
    [e.sha, Itoa(e.orig), Itoa(line)] + (if e.count.Some? then [Itoa(e.count.value)] else [])
  }

  function GroupLine(e: Entry, line: nat): string {
    Join(GroupWords(e, line), ' ')
  }

  function Tags(m: Meta): seq<string> {
    ["author " + m.author, "author-time " + Itoa(if m.at >= 0 then m.at else 0), "summary " + m.subject]
  }

  function Shas(es: seq<Entry>): seq<string> {
    seq(|es|, i requires 0 <= i < |es| => es[i].sha)
  }

  function Contents(es: seq<Entry>): seq<string> {
    seq(|es|, i requires 0 <= i < |es| => es[i].content)
  }

  /** The last entry's text: the commit's tags only the first time the commit appears. */
  function EntryText(e: Entry, line: nat, first: bool, m: Meta): seq<string> {
    [GroupLine(e, line)] + (if first then Tags(m) else []) + e.noise + ["\t" + e.content]
  }

  function AllText(es: seq<Entry>, about: map<string, Meta>): seq<string>
    requires forall e :: e in es ==> e.sha in about
  {
    if es == [] then []
    else
      var n := |es| - 1;
      AllText(es[..n], about) + EntryText(es[n], n + 1, es[n].sha !in Shas(es[..n]), about[es[n].sha])
  }

  function Print(es: seq<Entry>, about: map<string, Meta>): string
    requires forall e :: e in es ==> e.sha in about
  {
    Join(AllText(es, about) + [""], '\n')
  }

  predicate OneLine(s: string) {
    '\n' !in s
  }

  /** A tag the parser has no use for. */
  ghost predicate Noise(x: string) {
    && x != "" && x[0] != '\t' && OneLine(x) && !IsGroup(x)
    && !HasPrefix(x, "author ") && !HasPrefix(x, "author-time ") && !HasPrefix(x, "summary ")
  }

  ghost predicate GoodEntry(e: Entry) {
    IsCommit(e.sha) && OneLine(e.content) && forall x :: x in e.noise ==> Noise(x)
  }

  ghost predicate GoodMeta(m: Meta) {
    OneLine(m.author) && OneLine(m.subject) && 0 <= m.at <= MAX_INT
  }

  ghost predicate GoodBlame(es: seq<Entry>, about: map<string, Meta>) {
    && |es| <= MAX_INT
    && (forall e :: e in es ==> e.sha in about && GoodEntry(e))
    && (forall k :: k in about ==> GoodMeta(about[k]))
  }

  // ----- Lines

  lemma DigitsWord(s: string)
    requires Digits(s) || IsCommit(s)
    ensures Word(s) && OneLine(s)
  {
  }

  lemma {:induction false} JoinOneLine(ws: seq<string>)
    requires forall w :: w in ws ==> OneLine(w)
    ensures OneLine(Join(ws, ' '))
    decreases |ws|
  {
    if ws != [] {
      assert ws[0] in ws && forall w :: w in ws[1..] ==> w in ws;
      JoinOneLine(ws[1..]);
    }
  }

  lemma {:induction false} JoinStart(ws: seq<string>)
    requires ws != [] && ws[0] != ""
    ensures Join(ws, ' ') != "" && Join(ws, ' ')[0] == ws[0][0]
  {
  }

  lemma GroupRead(s: State, e: Entry, line: nat)
    requires !s.failed && IsCommit(e.sha) && line <= MAX_INT
    ensures Step(s, GroupLine(e, line)) == Group(s, e.sha, line) && OneLine(GroupLine(e, line))
  {
    var ws := GroupWords(e, line);
    forall w | w in ws ensures Word(w) && OneLine(w) { DigitsWord(w); }
    FieldsOfWords(ws);
    JoinOneLine(ws);
    JoinStart(ws);
    assert e.sha[0] in e.sha;
    AtoiItoa(line);
  }

  /** A line whose first word is a tag's name is no group header. */
  lemma TagIsNoGroup(name: string, x: string)
    requires Word(name) && |name| != 40
    ensures !IsGroup(name + " " + x)
  {
    FieldsFirst(name, " " + x);
    assert name + " " + x == name + (" " + x);
  }

  lemma TagLine(s: State, name: string, x: string)
    requires name in ["author", "author-time", "summary"] && !s.failed && s.group in s.metas
    ensures var raw := name + " " + x;
            Step(s, raw) == s.(metas := s.metas[s.group := Tagged(s.metas[s.group], raw)])
  {
    TagIsNoGroup(name, x);
    assert (name + " " + x)[0] == name[0];
  }

  lemma Cleanly(p: string, x: string)
    ensures HasPrefix(p + x, p) && (p + x)[|p|..] == x
  {
    assert (p + x)[..|p|] == p;
  }

  lemma TagMeaning(m: Meta, a: string, t: nat, b: string)
    requires t <= MAX_INT
    ensures Tagged(m, "author " + a) == m.(author := a)
    ensures Tagged(m, "author-time " + Itoa(t)) == m.(at := t)
    ensures Tagged(m, "summary " + b) == m.(subject := b)
  {
    Cleanly("author ", a);
    Cleanly("author-time ", Itoa(t));
    assert !HasPrefix("author-time " + Itoa(t), "author ") by {
      assert ("author-time " + Itoa(t))[6] == '-';
      NotAt("author-time " + Itoa(t), "author ", 0, 6);
    }
    AtoiItoa(t);
    Cleanly("summary ", b);
    OtherStart("summary " + b, "author ");
    OtherStart("summary " + b, "author-time ");
  }

  ghost function WithMeta(s: State, m: Meta): State {
    s.(metas := s.metas[s.group := m])
  }

  /** Reading one tag of a commit known as `was`. */
  lemma TagRead(s: State, was: Meta, name: string, x: string, m: Meta)
    requires name in ["author", "author-time", "summary"] && !s.failed && s.group in s.metas
    requires Tagged(was, name + " " + x) == m
    ensures Step(WithMeta(s, was), name + " " + x) == WithMeta(s, m)
  {
    TagLine(WithMeta(s, was), name, x);
    assert s.metas[s.group := was][s.group := m] == s.metas[s.group := m];
  }

  lemma FoldThree(s: State, a: string, b: string, c: string)
    ensures Fold(s, [a, b, c]) == Step(Step(Step(s, a), b), c)
  {
    assert [a, b, c] == [a] + [b] + [c];
    FoldMore(s, [a] + [b], [c]);
    FoldMore(s, [a], [b]);
    FoldOne(s, a);
    FoldOne(Step(s, a), b);
    FoldOne(Step(Step(s, a), b), c);
  }

  lemma Labels(author: string, at: string, subject: string)
    ensures "author" + " " + author == "author " + author
    ensures "author-time" + " " + at == "author-time " + at
    ensures "summary" + " " + subject == "summary " + subject
  {
  }

  lemma TagsRead(s: State, m: Meta)
    requires GoodMeta(m) && !s.failed && s.group in s.metas
    ensures Fold(s, Tags(m)) == WithMeta(s, m)
  {
    var w := s.metas[s.group];
    var w1, w2 := w.(author := m.author), w.(author := m.author, at := m.at);
    assert s.metas[s.group := w] == s.metas;
    FoldThree(s, "author " + m.author, "author-time " + Itoa(m.at), "summary " + m.subject);
    TagMeaning(w, m.author, m.at, m.subject);
    TagMeaning(w1, m.author, m.at, m.subject);
    TagMeaning(w2, m.author, m.at, m.subject);
    Labels(m.author, Itoa(m.at), m.subject);
    TagRead(s, w, "author", m.author, w1);
    TagRead(s, w1, "author-time", Itoa(m.at), w2);
    TagRead(s, w2, "summary", m.subject, m);
  }

  lemma {:induction false} NoiseRead(s: State, noise: seq<string>)
    requires !s.failed && s.group in s.metas && forall x :: x in noise ==> Noise(x)
    ensures Fold(s, noise) == s
    decreases |noise|
  {
    if noise != [] {
      var n := |noise| - 1;
      SplitLast(noise);
      NoiseRead(s, noise[..n]);
      assert s.metas[s.group := s.metas[s.group]] == s.metas;
    }
  }

  /** One entry: its group header, its tags or none, its text. */
  lemma EntryRead(s: State, e: Entry, line: nat, first: bool, m: Meta)
    requires GoodEntry(e) && GoodMeta(m) && !s.failed && line <= MAX_INT
    ensures var g := Group(s, e.sha, line);
            Fold(s, EntryText(e, line, first, m)) ==
              g.(lines := s.lines + [e.content], metas := if first then g.metas[e.sha := m] else g.metas)
  {
    var g := Group(s, e.sha, line);
    var a, b, d := [GroupLine(e, line)], if first then Tags(m) else [], ["\t" + e.content];
    GroupRead(s, e, line);
    FoldOne(s, GroupLine(e, line));
    FoldMore(s, a, b);
    if first { TagsRead(g, m); }
    var t := Fold(g, b);
    FoldMore(s, a + b, e.noise);
    NoiseRead(t, e.noise);
    FoldMore(s, a + b + e.noise, d);
    FoldOne(t, "\t" + e.content);
    assert ("\t" + e.content)[1..] == e.content;
  }

  // ----- Regions

  function Regions(s: State): seq<Region> {
    Flush(s).regions
  }

  /** After the first n entries. */
  ghost predicate ReadSo(s: State, es: seq<Entry>, about: map<string, Meta>) {
    && !s.failed && s.lines == Contents(es)
    && Covers(Regions(s), Shas(es))
    && Known(s.metas, Shas(es), about)
    && (s.cur.Some? <==> es != []) && (es == [] ==> s.regions == [])
    && (forall r :: r in Regions(s) ==> r.sha in s.metas)
    && (s.cur.Some? ==> s.cur.value.start + s.cur.value.count == |es| + 1)
  }

  lemma Grow(rs: seq<Region>, shas: seq<string>, sha: string)
    requires rs != [] && Covers(rs, shas) && rs[|rs| - 1].sha == sha
    ensures var last := rs[|rs| - 1];
            Covers(rs[..|rs| - 1] + [last.(count := last.count + 1)], shas + [sha])
  {
    var last := rs[|rs| - 1];
    var more := rs[..|rs| - 1] + [last.(count := last.count + 1)];
    assert more[..|more| - 1] == rs[..|rs| - 1];
    var c: nat := last.count;
    assert seq(c + 1, _ => sha) == seq(c, _ => sha) + [sha];
  }

  lemma Open(rs: seq<Region>, shas: seq<string>, r: Region)
    requires Covers(rs, shas) && r.count == 1 && (rs == [] ==> r.start == 1)
    requires rs != [] ==> rs[|rs| - 1].sha != r.sha && r.start == rs[|rs| - 1].start + rs[|rs| - 1].count
    ensures Covers(rs + [r], shas + [r.sha])
  {
    assert (rs + [r])[..|rs|] == rs;
    assert seq(1, _ => r.sha) == [r.sha];
  }

  lemma GroupCovers(s: State, es: seq<Entry>, about: map<string, Meta>, sha: string)
    requires ReadSo(s, es, about)
    ensures var g := Group(s, sha, |es| + 1);
            && Covers(Regions(g), Shas(es) + [sha])
            && g.cur.Some? && g.cur.value.start + g.cur.value.count == |es| + 2
            && (forall r :: r in Regions(g) ==> r.sha in s.metas || r.sha == sha)
  {
    if Continues(s.cur, sha, |es| + 1) {
      GroupGrows(s, es, about, sha);
    } else {
      GroupOpens(s, es, about, sha);
    }
  }

  lemma GroupGrows(s: State, es: seq<Entry>, about: map<string, Meta>, sha: string)
    requires ReadSo(s, es, about) && Continues(s.cur, sha, |es| + 1)
    ensures var g := Group(s, sha, |es| + 1);
            && Covers(Regions(g), Shas(es) + [sha])
            && g.cur.Some? && g.cur.value.start + g.cur.value.count == |es| + 2
            && (forall r :: r in Regions(g) ==> r.sha in s.metas || r.sha == sha)
  {
    var rs := Regions(s);
    Grow(rs, Shas(es), sha);
    assert Regions(Group(s, sha, |es| + 1)) == rs[..|rs| - 1] + [s.cur.value.(count := s.cur.value.count + 1)];
    assert forall r :: r in rs[..|rs| - 1] ==> r in rs;
  }

  lemma GroupOpens(s: State, es: seq<Entry>, about: map<string, Meta>, sha: string)
    requires ReadSo(s, es, about) && !Continues(s.cur, sha, |es| + 1)
    ensures var g := Group(s, sha, |es| + 1);
            && Covers(Regions(g), Shas(es) + [sha])
            && g.cur.Some? && g.cur.value.start + g.cur.value.count == |es| + 2
            && (forall r :: r in Regions(g) ==> r.sha in s.metas || r.sha == sha)
  {
    Open(Regions(s), Shas(es), Region(|es| + 1, 1, sha, BLANK));
    assert Regions(Group(s, sha, |es| + 1)) == Regions(s) + [Region(|es| + 1, 1, sha, BLANK)];
  }

  /** The metadata known after the entries' commits. */
  ghost predicate Known(metas: map<string, Meta>, shas: seq<string>, about: map<string, Meta>) {
    && (forall k :: k in metas <==> k in shas)
    && (forall k :: k in metas ==> k in about && metas[k] == about[k])
  }

  ghost function Learnt(s: State, shas: seq<string>, sha: string, line: nat, m: Meta): map<string, Meta> {
    var g := Group(s, sha, line);
    if sha !in shas then g.metas[sha := m] else g.metas
  }

  lemma LearnsOne(s: State, shas: seq<string>, about: map<string, Meta>, sha: string, line: nat)
    requires Known(s.metas, shas, about) && sha in about
    ensures Known(Learnt(s, shas, sha, line, about[sha]), shas + [sha], about)
  {
  }

  lemma OneLonger(es: seq<Entry>, e: Entry)
    ensures Shas(es + [e]) == Shas(es) + [e.sha] && Contents(es + [e]) == Contents(es) + [e.content]
  {
  }

  lemma OneMore(s: State, es: seq<Entry>, about: map<string, Meta>, e: Entry, t: State)
    requires ReadSo(s, es, about) && e.sha in about
    requires t == Group(s, e.sha, |es| + 1).(
                    lines := s.lines + [e.content], metas := Learnt(s, Shas(es), e.sha, |es| + 1, about[e.sha]))
    ensures ReadSo(t, es + [e], about)
  {
    var g := Group(s, e.sha, |es| + 1);
    GroupCovers(s, es, about, e.sha);
    LearnsOne(s, Shas(es), about, e.sha, |es| + 1);
    assert Regions(t) == Regions(g);
    OneLonger(es, e);
    assert e.sha in t.metas && forall k :: k in s.metas ==> k in t.metas;
  }

  lemma {:induction false} AllRead(es: seq<Entry>, about: map<string, Meta>)
    requires GoodBlame(es, about)
    ensures ReadSo(Fold(START, AllText(es, about)), es, about)
    decreases |es|
  {
    if es != [] {
      var n := |es| - 1;
      SplitLast(es);
      AllRead(es[..n], about);
      assert es == es[..n] + [es[n]];
      NextRead(es[..n], about, es[n]);
    }
  }

  lemma EntryReadOn(s: State, es: seq<Entry>, about: map<string, Meta>, e: Entry)
    requires e.sha in about && ReadSo(s, es, about) && GoodEntry(e) && GoodMeta(about[e.sha]) && |es| < MAX_INT
    ensures ReadSo(Fold(s, EntryText(e, |es| + 1, e.sha !in Shas(es), about[e.sha])), es + [e], about)
  {
    var first := e.sha !in Shas(es);
    EntryRead(s, e, |es| + 1, first, about[e.sha]);
    OneMore(s, es, about, e, Fold(s, EntryText(e, |es| + 1, first, about[e.sha])));
  }

  lemma TextNext(es: seq<Entry>, about: map<string, Meta>, e: Entry)
    requires (forall x :: x in es + [e] ==> x.sha in about) && (forall x :: x in es ==> x.sha in about) && e.sha in about
    ensures AllText(es + [e], about) == AllText(es, about) + EntryText(e, |es| + 1, e.sha !in Shas(es), about[e.sha])
  {
    assert (es + [e])[..|es|] == es;
  }

  lemma NextRead(es: seq<Entry>, about: map<string, Meta>, e: Entry)
    requires GoodBlame(es + [e], about) && (forall x :: x in es + [e] ==> x.sha in about) && (forall x :: x in es ==> x.sha in about)
    requires ReadSo(Fold(START, AllText(es, about)), es, about) && GoodEntry(e) && GoodMeta(about[e.sha])
    ensures ReadSo(Fold(START, AllText(es + [e], about)), es + [e], about)
  {
    var text := EntryText(e, |es| + 1, e.sha !in Shas(es), about[e.sha]);
    TextNext(es, about, e);
    FoldMore(START, AllText(es, about), text);
    EntryReadOn(Fold(START, AllText(es, about)), es, about, e);
  }

  // ----- The theorem

  ghost predicate OneLiners(lines: seq<string>) {
    forall x :: x in lines ==> OneLine(x)
  }

  lemma EntryOneLine(e: Entry, line: nat, first: bool, m: Meta)
    requires GoodEntry(e) && GoodMeta(m) && line <= MAX_INT
    ensures OneLiners(EntryText(e, line, first, m))
  {
    GroupRead(START, e, line);
    DigitsWord(Itoa(m.at));
    assert OneLiners(Tags(m));
  }

  lemma {:induction false} AllOneLine(es: seq<Entry>, about: map<string, Meta>)
    requires GoodBlame(es, about)
    ensures OneLiners(AllText(es, about))
    decreases |es|
  {
    if es != [] {
      var n := |es| - 1;
      SplitLast(es);
      AllOneLine(es[..n], about);
      EntryOneLine(es[n], n + 1, es[n].sha !in Shas(es[..n]), about[es[n].sha]);
    }
  }

  lemma {:induction false} SameCover(rs: seq<Region>, qs: seq<Region>)
    requires |rs| == |qs| && forall i :: 0 <= i < |rs| ==> qs[i] == rs[i].(meta := qs[i].meta)
    ensures Expand(qs) == Expand(rs)
    decreases |rs|
  {
    if rs != [] {
      var n := |rs| - 1;
      SameCover(rs[..n], qs[..n]);
    }
  }

  /** The lines come back unchanged; the regions tile 1..n, are maximal, expand back to the
      attribution, and each carries its own commit's metadata. */
  lemma RoundTrip(es: seq<Entry>, about: map<string, Meta>)
    requires GoodBlame(es, about)
    ensures var r := Parse(Print(es, about));
            && r.Blamed? && r.lines == Contents(es)
            && Covers(r.regions, Shas(es))
            && (forall q :: q in r.regions ==> q.sha in about && q.meta == about[q.sha])
  {
    AllRead(es, about);
    AllOneLine(es, about);
    ParseLines(AllText(es, about));
    AttachRead(Fold(START, AllText(es, about)), es, about);
  }

  lemma ParseLines(lines: seq<string>)
    requires OneLiners(lines) && !Fold(START, lines).failed
    ensures var s := Fold(START, lines);
            Parse(Join(lines + [""], '\n')) == Blamed(AttachAll(Regions(s), s.metas), s.lines)
  {
    SplitJoin(lines + [""], '\n');
    FoldMore(START, lines, [""]);
    FoldOne(Fold(START, lines), "");
  }

  lemma AttachRead(s: State, es: seq<Entry>, about: map<string, Meta>)
    requires ReadSo(s, es, about)
    ensures var rs := AttachAll(Regions(s), s.metas);
            Covers(rs, Shas(es)) && forall q :: q in rs ==> q.sha in about && q.meta == about[q.sha]
  {
    var rs := AttachAll(Regions(s), s.metas);
    SameCover(Regions(s), rs);
    forall q | q in rs ensures q.sha in about && q.meta == about[q.sha] {
      var i :| 0 <= i < |rs| && rs[i] == q;
      assert Regions(s)[i] in Regions(s);
    }
  }
}
