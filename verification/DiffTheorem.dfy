/** The round trip over whole patches. */
module DiffTheorem {
  import opened Changes
  import opened Text
  import opened Diff
  import opened DiffPrint
  import opened DiffRoundTrip

  // ----- Files do not disturb each other

  /** The same reading, after the files in `done`; line numbers matter inside a hunk only. */
  ghost predicate Alike(s: State, t: State, done: seq<File>) {
    && s.files == done + t.files && s.cur == t.cur && s.hunk == t.hunk && s.failed == t.failed
    && (s.hunk.Some? ==> s.oldNo == t.oldNo && s.newNo == t.newNo)
  }

  lemma AlikeStep(s: State, t: State, done: seq<File>, line: string)
    requires Alike(s, t, done)
    ensures Alike(Step(s, line), Step(t, line), done)
  {
    if s.failed {
    } else if TagOf(line).FileHead? {
      AlikeFlush(s, t, done);
    } else if s.cur.Some? {
      AlikeWithin(s, t, done, s.cur.value, TagOf(line), line);
    }
  }

  lemma AlikeWithin(s: State, t: State, done: seq<File>, c: File, tag: Tag, line: string)
    requires Alike(s, t, done) && tag == TagOf(line) && s.cur == Some(c)
    ensures Alike(Within(s, c, tag, line), Within(t, c, tag, line), done)
  {
  }

  lemma AlikeFlush(s: State, t: State, done: seq<File>)
    requires Alike(s, t, done)
    ensures Alike(FlushFile(s), FlushFile(t), done)
  {
    assert forall f :: done + (t.files + [f]) == (done + t.files) + [f];
  }

  lemma {:induction false} AlikeFold(s: State, t: State, done: seq<File>, lines: seq<string>)
    requires Alike(s, t, done)
    ensures Alike(Fold(s, lines), Fold(t, lines), done)
    decreases |lines|
  {
    if lines != [] {
      AlikeFold(s, t, done, lines[..|lines| - 1]);
      AlikeStep(Fold(s, lines[..|lines| - 1]), Fold(t, lines[..|lines| - 1]), done, lines[|lines| - 1]);
    }
  }

  lemma HeadAlike(s: State, line: string)
    requires !s.failed && TagOf(line).FileHead?
    ensures Alike(Step(s, line), Step(START, line), FlushFile(s).files)
  {
  }

  lemma FileLineTag(f: File)
    ensures TagOf(FileLine(f)).FileHead?
  {
    FileHeadTag("a/" + OldName(f) + " b/" + f.path);
    assert FileLine(f) == "diff --git " + ("a/" + OldName(f) + " b/" + f.path);
  }

  /** A file reads the same wherever it comes. */
  lemma FileAnywhere(s: State, f: File, d: Dress, tabs: bool)
    requires !s.failed
    ensures Alike(Fold(s, FileText(f, d, tabs)), Fold(START, FileText(f, d, tabs)), FlushFile(s).files)
  {
    FileLineTag(f);
    FileTextHead(f, d, tabs);
    HeadThenRest(s, FileText(f, d, tabs));
  }

  lemma FileTextHead(f: File, d: Dress, tabs: bool)
    ensures FileText(f, d, tabs) != [] && FileText(f, d, tabs)[0] == FileLine(f)
  {
    assert Preamble(f, d, tabs)[0] == FileLine(f);
  }

  lemma HeadThenRest(s: State, lines: seq<string>)
    requires !s.failed && lines != [] && TagOf(lines[0]).FileHead?
    ensures Alike(Fold(s, lines), Fold(START, lines), FlushFile(s).files)
  {
    var head, rest := lines[0], lines[1..];
    assert lines == [head] + rest;
    FoldMore(s, [head], rest);
    FoldMore(START, [head], rest);
    FoldOne(s, head);
    FoldOne(START, head);
    HeadAlike(s, head);
    AlikeFold(Step(s, head), Step(START, head), FlushFile(s).files, rest);
  }

  // ----- Whole patches

  function AllText(fs: seq<File>, ds: seq<Dress>, tabs: bool): seq<string>
    requires |fs| == |ds|
  {
    if fs == [] then []
    else
      var n := |fs| - 1;
      AllText(fs[..n], ds[..n], tabs) + FileText(fs[n], ds[n], tabs)
  }

  /** A patch: every line of every file, each ended by a newline. */
  function Print(fs: seq<File>, ds: seq<Dress>, tabs: bool): string
    requires |fs| == |ds|
  {
    Join(AllText(fs, ds, tabs) + [""], '\n')
  }

  ghost predicate GoodPatch(fs: seq<File>, ds: seq<Dress>) {
    && |fs| == |ds|
    && (forall f :: f in fs ==> GoodFile(f)) && (forall d :: d in ds ==> GoodDress(d))
  }

  /** The files come back one by one, those that are legible as they were. */
  ghost predicate ReadBack(t: State, fs: seq<File>, tabs: bool) {
    && !t.failed && |FlushFile(t).files| == |fs|
    && forall i :: 0 <= i < |fs| ==> (FlushFile(t).files[i] == fs[i] <==> Legible(fs[i], tabs))
  }

  lemma {:induction false} AllReadBack(fs: seq<File>, ds: seq<Dress>, tabs: bool)
    requires GoodPatch(fs, ds)
    ensures ReadBack(Fold(START, AllText(fs, ds, tabs)), fs, tabs)
    decreases |fs|
  {
    if fs != [] {
      var n := |fs| - 1;
      SplitLast(fs);
      SplitLast(ds);
      AllReadBack(fs[..n], ds[..n], tabs);
      var s := Fold(START, AllText(fs[..n], ds[..n], tabs));
      FoldMore(START, AllText(fs[..n], ds[..n], tabs), FileText(fs[n], ds[n], tabs));
      FileAnywhere(s, fs[n], ds[n], tabs);
      FileReadBack(fs[n], ds[n], tabs);
      OneMoreFile(s, Fold(s, FileText(fs[n], ds[n], tabs)), Fold(START, FileText(fs[n], ds[n], tabs)), fs, tabs);
    }
  }

  lemma OneMoreFile(s: State, t: State, alone: State, fs: seq<File>, tabs: bool)
    requires fs != [] && ReadBack(s, fs[..|fs| - 1], tabs) && Alike(t, alone, FlushFile(s).files)
    requires !alone.failed && alone.files == [] && alone.cur.Some?
    requires FlushFile(alone).files == [fs[|fs| - 1]] <==> Legible(fs[|fs| - 1], tabs)
    ensures ReadBack(t, fs, tabs)
  {
    var last := FlushFile(alone).files[0];
    assert FlushFile(alone).files == [last];
    OneMoreMatch(FlushFile(s).files, last, fs, tabs);
    assert FlushFile(t).files == FlushFile(s).files + [last];
  }

  lemma OneMoreMatch(got: seq<File>, last: File, fs: seq<File>, tabs: bool)
    requires fs != [] && |got| == |fs| - 1
    requires forall i :: 0 <= i < |got| ==> (got[i] == fs[..|fs| - 1][i] <==> Legible(fs[..|fs| - 1][i], tabs))
    requires last == fs[|fs| - 1] <==> Legible(fs[|fs| - 1], tabs)
    ensures forall i :: 0 <= i < |fs| ==> ((got + [last])[i] == fs[i] <==> Legible(fs[i], tabs))
  {
  }

  // ----- No line of a patch holds a newline

  ghost predicate OneLiners(lines: seq<string>) {
    forall x :: x in lines ==> OneLine(x)
  }

  lemma OneMore(a: seq<string>, b: seq<string>)
    requires OneLiners(a) && OneLiners(b)
    ensures OneLiners(a + b)
  {
  }

  lemma HunkLineOne(h: Hunk)
    requires GoodHunk(h)
    ensures OneLine(HunkLine(h))
  {
    ParsePrintedRange(h.oldStart, h.oldLines);
    ParsePrintedRange(h.newStart, h.newLines);
    assert OneLine(Marks(h)) && OneLine(Tail(h.header));
  }

  lemma NotedOne(l: Line, note: bool)
    requires OneLine(l.content)
    ensures OneLiners(LineWithNote(l, note))
  {
    NoteTag();
  }

  ghost predicate ContentsOne(lines: seq<Line>) {
    forall l :: l in lines ==> OneLine(l.content)
  }

  lemma ContentsLast(lines: seq<Line>)
    requires ContentsOne(lines) && lines != []
    ensures ContentsOne(lines[..|lines| - 1]) && OneLine(lines[|lines| - 1].content)
  {
  }

  lemma {:induction false} LineTextsOne(lines: seq<Line>, at: nat, bare: set<(nat, nat)>)
    requires ContentsOne(lines)
    ensures OneLiners(LineTexts(lines, at, bare))
    decreases |lines|
  {
    if lines != [] {
      var n := |lines| - 1;
      ContentsLast(lines);
      LineTextsOne(lines[..n], at, bare);
      NotedOne(lines[n], (at, n) in bare);
      OneMore(LineTexts(lines[..n], at, bare), LineWithNote(lines[n], (at, n) in bare));
    }
  }

  lemma HunkTextOne(h: Hunk, at: nat, bare: set<(nat, nat)>)
    requires GoodHunk(h)
    ensures OneLiners(HunkText(h, at, bare))
  {
    HunkLineOne(h);
    LineTextsOne(h.lines, at, bare);
    OneMore([HunkLine(h)], LineTexts(h.lines, at, bare));
  }

  lemma {:induction false} HunksTextOne(hs: seq<Hunk>, bare: set<(nat, nat)>)
    requires forall h :: h in hs ==> GoodHunk(h)
    ensures OneLiners(HunksText(hs, bare))
    decreases |hs|
  {
    if hs != [] {
      var n := |hs| - 1;
      SplitLast(hs);
      HunksTextOne(hs[..n], bare);
      HunkTextOne(hs[n], n, bare);
      OneMore(HunksText(hs[..n], bare), HunkText(hs[n], n, bare));
    }
  }

  lemma PreambleOne(f: File, d: Dress, tabs: bool)
    requires GoodFile(f) && GoodDress(d)
    ensures OneLiners(Preamble(f, d, tabs))
  {
    FileLineOne(f);
    StatusOne(f, d.mode);
    LabelsOne(f, tabs);
    OneMore([FileLine(f)], d.before);
    OneMore([FileLine(f)] + d.before, StatusLines(f, d.mode));
    OneMore([FileLine(f)] + d.before + StatusLines(f, d.mode), d.after);
    OneMore([FileLine(f)] + d.before + StatusLines(f, d.mode) + d.after, Labels(f, tabs));
  }

  lemma FileLineOne(f: File)
    requires OneLine(f.path) && OneLine(f.oldPath)
    ensures OneLine(FileLine(f))
  {
  }

  lemma StatusOne(f: File, mode: string)
    requires OneLine(f.path) && OneLine(f.oldPath) && OneLine(mode)
    ensures OneLiners(StatusLines(f, mode))
  {
  }

  lemma LabelsOne(f: File, tabs: bool)
    requires OneLine(f.path) && OneLine(f.oldPath)
    ensures OneLiners(Labels(f, tabs))
  {
  }

  lemma {:induction false} AllTextOne(fs: seq<File>, ds: seq<Dress>, tabs: bool)
    requires GoodPatch(fs, ds)
    ensures OneLiners(AllText(fs, ds, tabs))
    decreases |fs|
  {
    if fs != [] {
      var n := |fs| - 1;
      SplitLast(fs);
      SplitLast(ds);
      AllTextOne(fs[..n], ds[..n], tabs);
      PreambleOne(fs[n], ds[n], tabs);
      HunksTextOne(fs[n].hunks, ds[n].bare);
    }
  }

  // ----- The theorem

  /** Printing any list of file diffs and parsing it gives the list back exactly when every
      file is legible: no removed line starts with "-- ", no added one with "++ ", no path
      that is not a rename's holds " b/" - and, where names with a space end with a TAB, no
      labelled path has a space. */
  lemma RoundTrip(fs: seq<File>, ds: seq<Dress>, tabs: bool)
    requires GoodPatch(fs, ds)
    ensures Parse(Print(fs, ds, tabs)) == Files(fs) <==> forall f :: f in fs ==> Legible(f, tabs)
  {
    AllReadBack(fs, ds, tabs);
    ParsePrinted(fs, ds, tabs);
    AllOrNothing(FlushFile(Fold(START, AllText(fs, ds, tabs))).files, fs, tabs);
  }

  lemma ParsePrinted(fs: seq<File>, ds: seq<Dress>, tabs: bool)
    requires GoodPatch(fs, ds) && !Fold(START, AllText(fs, ds, tabs)).failed
    ensures Parse(Print(fs, ds, tabs)) == Files(FlushFile(Fold(START, AllText(fs, ds, tabs))).files)
  {
    AllTextOne(fs, ds, tabs);
    ParseLines(AllText(fs, ds, tabs));
  }

  lemma ParseLines(lines: seq<string>)
    requires OneLiners(lines) && !Fold(START, lines).failed
    ensures Parse(Join(lines + [""], '\n')) == Files(FlushFile(Fold(START, lines)).files)
  {
    SplitJoin(lines + [""], '\n');
    FoldMore(START, lines, [""]);
    FoldOne(Fold(START, lines), "");
    EmptySkipped(Fold(START, lines));
  }

  lemma EmptySkipped(s: State)
    ensures Step(s, "") == s
  {
    assert TagOf("").Other?;
  }

  lemma AllOrNothing(got: seq<File>, fs: seq<File>, tabs: bool)
    requires |got| == |fs| && forall i :: 0 <= i < |fs| ==> (got[i] == fs[i] <==> Legible(fs[i], tabs))
    ensures got == fs <==> forall f :: f in fs ==> Legible(f, tabs)
  {
    if forall f :: f in fs ==> Legible(f, tabs) {
      assert forall i :: 0 <= i < |fs| ==> fs[i] in fs;
    }
    if got == fs {
      forall f | f in fs ensures Legible(f, tabs) {
        var i :| 0 <= i < |fs| && fs[i] == f;
      }
    }
  }

  /** git's other extended headers are lines the parser has no case for. */
  lemma ExtendedHeaders(x: string)
    ensures TagOf("index " + x).Other? && TagOf("similarity index " + x).Other? && TagOf("old mode " + x).Other?
    ensures TagOf("new mode " + x).Other?
  {
    Plainly("index ", x);
    Plainly("similarity index ", x);
    Plainly("old mode ", x);
    NewModeHeader(x);
  }

  lemma NewModeHeader(x: string)
    ensures TagOf("new mode " + x).Other?
  {
    var s := "new mode " + x;
    Trimmed("new mode ", x);
    Apart(s, "new mode ", "new file mode ", 4);
    assert s[0] == 'n';
    OtherStart(s, "diff --git ");
    OtherStart(s, "deleted file mode ");
    OtherStart(s, "rename from ");
    OtherStart(s, "rename to ");
    OtherStart(s, "Binary files ");
  }

  lemma Plainly(p: string, x: string)
    requires p != "" && p[0] !in ['d', 'n', 'r', 'B', 'G', '-', '+', '@', ' ']
    ensures TagOf(p + x).Other?
  {
    var s := p + x;
    assert s[0] == p[0];
    OtherStart(s, "diff --git ");
    OtherStart(s, "new file mode ");
    OtherStart(s, "deleted file mode ");
    OtherStart(s, "rename from ");
    OtherStart(s, "rename to ");
    OtherStart(s, "Binary files ");
  }
}
