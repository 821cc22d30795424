/** Printing a diff and parsing it gives the diff back - exactly when no line and no path is
    taken for something else. */
module DiffRoundTrip {
  import opened Changes
  import opened Text
  import opened Diff
  import opened DiffShape
  import opened DiffPrint

  // ----- Hunks

  ghost predicate AllRead(lines: seq<Line>) {
    forall l :: l in lines ==> !Misread(l)
  }

  /** What folding the text of `lines` into an open, empty hunk leaves: one line for each that
      is not misread; and exactly those lines, when none is. */
  ghost predicate ReadInto(s: State, t: State, h: Hunk, lines: seq<Line>)
    requires s.cur.Some?
  {
    && !t.failed && t.files == s.files && t.cur.Some? && t.hunk.Some?
    && |t.hunk.value.lines| == Readable(lines)
    && t.cur.value.hunks == s.cur.value.hunks && t.cur.value.oldPath == s.cur.value.oldPath
    && (AllRead(lines) ==>
          && t.hunk.value == h.(lines := lines)
          && t.oldNo == OldAfter(h.oldStart, lines) && t.newNo == NewAfter(h.newStart, lines)
          && t.cur.value == s.cur.value.(
               adds := s.cur.value.adds + Count(lines, Plus), dels := s.cur.value.dels + Count(lines, Minus)))
  }

  ghost predicate AtHunk(s: State, h: Hunk) {
    !s.failed && s.cur.Some? && s.hunk == Some(h.(lines := [])) && s.oldNo == h.oldStart && s.newNo == h.newStart
  }

  lemma OneLineRead(s: State, t: State, h: Hunk, n: nat)
    requires s.cur.Some? && Numbered(h) && n < |h.lines| && ReadInto(s, t, h, h.lines[..n])
    ensures ReadInto(s, Step(t, LineText(h.lines[n])), h, h.lines[..n + 1])
  {
    LineTag(h.lines[n]);
    OneLineMore(s, t, h, n, LineText(h.lines[n]));
  }

  lemma OneLineMore(s: State, t: State, h: Hunk, n: nat, text: string)
    requires s.cur.Some? && Numbered(h) && n < |h.lines| && ReadInto(s, t, h, h.lines[..n])
    requires var l := h.lines[n];
             text != "" && text[1..] == l.content
             && TagOf(text) == if Misread(l) then (if l.kind.Plus? then NewLabel else OldLabel) else Body(l.kind)
    ensures ReadInto(s, Step(t, text), h, h.lines[..n + 1])
  {
    var l, before, after := h.lines[n], h.lines[..n], h.lines[..n + 1];
    assert after[..n] == before && after[n] == l && after == before + [l];
    assert NumberedAt(h, n);
    if AllRead(after) {
      assert forall x :: x in before ==> x in after;
      assert l in after;
    }
  }

  /** A line, and the note that may follow it. */
  lemma NotedRead(s: State, t: State, h: Hunk, n: nat, note: bool)
    requires s.cur.Some? && Numbered(h) && n < |h.lines| && ReadInto(s, t, h, h.lines[..n])
    ensures ReadInto(s, Fold(t, LineWithNote(h.lines[n], note)), h, h.lines[..n + 1])
  {
    var text := LineText(h.lines[n]);
    OneLineRead(s, t, h, n);
    FoldOne(t, text);
    if note {
      NoteSkipped(Step(t, text));
      assert [text, NO_NEWLINE] == [text] + [NO_NEWLINE];
      FoldMore(t, [text], [NO_NEWLINE]);
      FoldOne(Step(t, text), NO_NEWLINE);
    }
  }

  lemma NoteSkipped(s: State)
    requires s.cur.Some?
    ensures Step(s, NO_NEWLINE) == s
  {
    NoteTag();
  }

  lemma TextsNext(lines: seq<Line>, n: nat, at: nat, bare: set<(nat, nat)>)
    requires 0 < n <= |lines|
    ensures LineTexts(lines[..n], at, bare) ==
              LineTexts(lines[..n - 1], at, bare) + LineWithNote(lines[n - 1], (at, n - 1) in bare)
  {
    assert lines[..n][..n - 1] == lines[..n - 1];
  }

  lemma {:induction false} LinesRead(s: State, h: Hunk, n: nat, at: nat, bare: set<(nat, nat)>)
    requires AtHunk(s, h) && Numbered(h) && n <= |h.lines|
    ensures ReadInto(s, Fold(s, LineTexts(h.lines[..n], at, bare)), h, h.lines[..n])
  {
    if n > 0 {
      LinesRead(s, h, n - 1, at, bare);
      var texts := LineTexts(h.lines[..n - 1], at, bare);
      TextsNext(h.lines, n, at, bare);
      FoldMore(s, texts, LineWithNote(h.lines[n - 1], (at, n - 1) in bare));
      NotedRead(s, Fold(s, texts), h, n - 1, (at, n - 1) in bare);
    }
  }

  lemma HunkRead(s: State, h: Hunk, at: nat, bare: set<(nat, nat)>)
    requires GoodHunk(h) && !s.failed && s.cur.Some?
    ensures ReadInto(FlushHunk(s), Fold(s, HunkText(h, at, bare)), h, h.lines)
  {
    HunkHeader(h);
    HeadedRead(s, h, HunkLine(h), at, bare);
  }

  lemma HeadedRead(s: State, h: Hunk, head: string, at: nat, bare: set<(nat, nat)>)
    requires Numbered(h) && !s.failed && s.cur.Some?
    requires TagOf(head) == HunkHead && ParseHunkHeader(head) == Some(h.(lines := []))
    ensures ReadInto(FlushHunk(s), Fold(s, [head] + LineTexts(h.lines, at, bare)), h, h.lines)
  {
    FoldMore(s, [head], LineTexts(h.lines, at, bare));
    FoldOne(s, head);
    OpensHunk(s, h, head);
    OpenedRead(FlushHunk(s), Step(s, head), h, at, bare);
  }

  lemma OpenedRead(s: State, t: State, h: Hunk, at: nat, bare: set<(nat, nat)>)
    requires Numbered(h) && AtHunk(t, h) && s.files == t.files && s.cur == t.cur
    ensures ReadInto(s, Fold(t, LineTexts(h.lines, at, bare)), h, h.lines)
  {
    Whole(h.lines);
    LinesRead(t, h, |h.lines|, at, bare);
  }

  lemma OpensHunk(s: State, h: Hunk, head: string)
    requires !s.failed && s.cur.Some?
    requires TagOf(head) == HunkHead && ParseHunkHeader(head) == Some(h.(lines := []))
    ensures AtHunk(Step(s, head), h)
    ensures Step(s, head).files == s.files && Step(s, head).cur == FlushHunk(s).cur
  {
  }

  /** The hunks read so far, the open one included. */
  function HunksOf(s: State): seq<Hunk>
    requires s.cur.Some?
  {
    if s.hunk.Some? then s.cur.value.hunks + [s.hunk.value] else s.cur.value.hunks
  }

  ghost predicate AllHunksRead(hs: seq<Hunk>) {
    forall h :: h in hs ==> AllRead(h.lines)
  }

  /** The same for a file's hunks, read from its preamble on. */
  ghost predicate HunksInto(s: State, t: State, hs: seq<Hunk>)
    requires s.cur.Some?
  {
    && t.cur.Some? && HunksSized(s, t, hs)
    && (AllHunksRead(hs) ==> HunksOf(t) == hs && TalliesHunks(s.cur.value, t.cur.value, hs))
  }

  ghost predicate HunksSized(s: State, t: State, hs: seq<Hunk>)
    requires s.cur.Some? && t.cur.Some?
  {
    && !t.failed && t.files == s.files && |HunksOf(t)| == |hs|
    && (forall i :: 0 <= i < |hs| ==> |HunksOf(t)[i].lines| == Readable(hs[i].lines))
    && t.cur.value.oldPath == s.cur.value.oldPath
  }

  ghost predicate TalliesHunks(before: File, after: File, hs: seq<Hunk>) {
    after == before.(hunks := after.hunks, adds := Total(hs, Plus), dels := Total(hs, Minus))
  }

  lemma OneHunkRead(s: State, t: State, hs: seq<Hunk>, h: Hunk, u: State)
    requires s.cur.Some? && HunksInto(s, t, hs) && ReadInto(FlushHunk(t), u, h, h.lines)
    ensures HunksInto(s, u, hs + [h])
  {
    assert HunksOf(u) == HunksOf(t) + [u.hunk.value];
    OneHunkSized(s, t, hs, h, u);
    if AllHunksRead(hs + [h]) {
      assert forall x :: x in hs ==> x in hs + [h];
      assert h in hs + [h];
      assert AllRead(h.lines) && u.hunk.value == h;
      TotalMore(hs, h);
    }
  }

  lemma OneHunkSized(s: State, t: State, hs: seq<Hunk>, h: Hunk, u: State)
    requires s.cur.Some? && t.cur.Some? && HunksSized(s, t, hs) && ReadInto(FlushHunk(t), u, h, h.lines)
    requires HunksOf(u) == HunksOf(t) + [u.hunk.value]
    ensures HunksSized(s, u, hs + [h])
  {
  }

  lemma TotalMore(hs: seq<Hunk>, h: Hunk)
    ensures forall k :: Total(hs + [h], k) == Total(hs, k) + Count(h.lines, k)
  {
    assert (hs + [h])[..|hs|] == hs;
  }

  /** A file of which nothing but the preamble has been read. */
  ghost predicate Bare(s: State) {
    !s.failed && s.cur.Some? && s.hunk.None?
    && s.cur.value.hunks == [] && s.cur.value.adds == 0 && s.cur.value.dels == 0
  }

  lemma {:induction false} HunksRead(s: State, hs: seq<Hunk>, bare: set<(nat, nat)>)
    requires Bare(s) && (forall h :: h in hs ==> GoodHunk(h))
    ensures HunksInto(s, Fold(s, HunksText(hs, bare)), hs)
    decreases |hs|
  {
    if hs != [] {
      var n := |hs| - 1;
      SplitLast(hs);
      HunksRead(s, hs[..n], bare);
      NextHunk(s, hs[..n], hs[n], HunksText(hs[..n], bare), n, bare);
    }
  }

  lemma NextHunk(s: State, hs: seq<Hunk>, h: Hunk, before: seq<string>, at: nat, bare: set<(nat, nat)>)
    requires s.cur.Some? && HunksInto(s, Fold(s, before), hs) && GoodHunk(h)
    ensures HunksInto(s, Fold(s, before + HunkText(h, at, bare)), hs + [h])
  {
    FoldMore(s, before, HunkText(h, at, bare));
    HunkRead(Fold(s, before), h, at, bare);
    OneHunkRead(s, Fold(s, before), hs, h, Fold(Fold(s, before), HunkText(h, at, bare)));
  }

  // ----- Preambles

  /** What git decides besides the diff itself: the mode, extended headers the parser has no
      case for, and the lines that end a file without a newline. */
  datatype Dress = Dress(mode: string, before: seq<string>, after: seq<string>, bare: set<(nat, nat)>)

  ghost predicate GoodDress(d: Dress) {
    OneLine(d.mode) && forall x :: x in d.before || x in d.after ==> TagOf(x).Other? && OneLine(x)
  }

  /** Diffs as git can produce them. */
  ghost predicate GoodFile(f: File) {
    && OneLine(f.path) && OneLine(f.oldPath)
    && (f.status.Renamed? <==> f.oldPath != "")
    && (f.binary ==> f.hunks == [])
    && (forall h :: h in f.hunks ==> GoodHunk(h))
    && Tallied(f)
  }

  function OldName(f: File): string {
    if f.status.Renamed? then f.oldPath else f.path
  }

  function FileLine(f: File): string {
    "diff --git a/" + OldName(f) + " b/" + f.path
  }

  function StatusLines(f: File, mode: string): seq<string> {
    match f.status
    case Added => ["new file mode " + mode]
    case Deleted => ["deleted file mode " + mode]
    case Renamed => ["rename from " + f.oldPath, "rename to " + f.path]
    case Modified => []
  }

  /** With `tabs`, a name that has a space ends with a TAB. */
  function Named(p: string, tabs: bool): string {
    if tabs && ' ' in p then p + "\t" else p
  }

  function Labels(f: File, tabs: bool): seq<string> {
    if f.binary then ["Binary files a/" + OldName(f) + " and b/" + f.path + " differ"]
    else if f.hunks == [] then []
    else
      [if f.status.Added? then "--- /dev/null" else "--- a/" + Named(OldName(f), tabs),
       if f.status.Deleted? then "+++ /dev/null" else "+++ b/" + Named(f.path, tabs)]
  }

  function Preamble(f: File, d: Dress, tabs: bool): seq<string> {
    [FileLine(f)] + d.before + StatusLines(f, d.mode) + d.after + Labels(f, tabs)
  }

  function FileText(f: File, d: Dress, tabs: bool): seq<string> {
    Preamble(f, d, tabs) + HunksText(f.hunks, d.bare)
  }

  lemma {:induction false} NoiseSkipped(s: State, noise: seq<string>)
    requires s.cur.Some? && !s.failed && forall x :: x in noise ==> TagOf(x).Other?
    ensures Fold(s, noise) == s
    decreases |noise|
  {
    if noise != [] {
      var n := |noise| - 1;
      SplitLast(noise);
      NoiseSkipped(s, noise[..n]);
    }
  }

  lemma Trimmed(p: string, x: string)
    ensures HasPrefix(p + x, p) && TrimPrefix(p + x, p) == x && (p + x)[|p|..] == x
  {
    assert (p + x)[..|p|] == p;
  }

  lemma Apart(s: string, p: string, q: string, i: nat)
    requires HasPrefix(s, p) && i < |p| && i < |q| && p[i] != q[i]
    ensures !HasPrefix(s, q)
  {
    assert s[..|p|][i] == p[i];
    if |q| <= |s| { assert s[..|q|][i] == s[i]; }
  }

  lemma FileHeadTag(x: string)
    ensures TagOf("diff --git " + x) == FileHead && TrimPrefix("diff --git " + x, "diff --git ") == x
  {
    var s := "diff --git " + x;
    Trimmed("diff --git ", x);
  }

  lemma NewModeTag(x: string)
    ensures TagOf("new file mode " + x) == NewMode && TrimPrefix("new file mode " + x, "new file mode ") == x
  {
    var s := "new file mode " + x;
    Trimmed("new file mode ", x);
    Apart(s, "new file mode ", "diff --git ", 0);
  }

  lemma DeletedModeTag(x: string)
    ensures TagOf("deleted file mode " + x) == DeletedMode && TrimPrefix("deleted file mode " + x, "deleted file mode ") == x
  {
    var s := "deleted file mode " + x;
    Trimmed("deleted file mode ", x);
    Apart(s, "deleted file mode ", "diff --git ", 1);
    Apart(s, "deleted file mode ", "new file mode ", 0);
  }

  lemma RenameFromTag(x: string)
    ensures TagOf("rename from " + x) == RenameFrom && TrimPrefix("rename from " + x, "rename from ") == x
  {
    var s := "rename from " + x;
    Trimmed("rename from ", x);
    Apart(s, "rename from ", "diff --git ", 0);
    Apart(s, "rename from ", "new file mode ", 0);
    Apart(s, "rename from ", "deleted file mode ", 0);
  }

  lemma RenameToTag(x: string)
    ensures TagOf("rename to " + x) == RenameTo && TrimPrefix("rename to " + x, "rename to ") == x
  {
    var s := "rename to " + x;
    Trimmed("rename to ", x);
    Apart(s, "rename to ", "diff --git ", 0);
    Apart(s, "rename to ", "new file mode ", 0);
    Apart(s, "rename to ", "deleted file mode ", 0);
    Apart(s, "rename to ", "rename from ", 7);
  }

  lemma BinaryMarkTag(x: string)
    ensures TagOf("Binary files " + x) == BinaryMark && TrimPrefix("Binary files " + x, "Binary files ") == x
  {
    var s := "Binary files " + x;
    Trimmed("Binary files ", x);
    Apart(s, "Binary files ", "diff --git ", 0);
    Apart(s, "Binary files ", "new file mode ", 0);
    Apart(s, "Binary files ", "deleted file mode ", 0);
    Apart(s, "Binary files ", "rename from ", 0);
    Apart(s, "Binary files ", "rename to ", 0);
  }

  lemma OldLabelTag(x: string)
    ensures TagOf("--- " + x) == OldLabel && TrimPrefix("--- " + x, "--- ") == x
  {
    var s := "--- " + x;
    Trimmed("--- ", x);
    Apart(s, "--- ", "diff --git ", 0);
    Apart(s, "--- ", "new file mode ", 0);
    Apart(s, "--- ", "deleted file mode ", 0);
    Apart(s, "--- ", "rename from ", 0);
    Apart(s, "--- ", "rename to ", 0);
    Apart(s, "--- ", "Binary files ", 0);
    assert s[0] == s[..4][0];
  }

  lemma NewLabelTag(x: string)
    ensures TagOf("+++ " + x) == NewLabel && TrimPrefix("+++ " + x, "+++ ") == x
  {
    var s := "+++ " + x;
    Trimmed("+++ ", x);
    Apart(s, "+++ ", "diff --git ", 0);
    Apart(s, "+++ ", "new file mode ", 0);
    Apart(s, "+++ ", "deleted file mode ", 0);
    Apart(s, "+++ ", "rename from ", 0);
    Apart(s, "+++ ", "rename to ", 0);
    Apart(s, "+++ ", "Binary files ", 0);
    Apart(s, "+++ ", "--- ", 0);
    assert s[0] == s[..4][0];
  }

  // ----- The file header's paths

  ghost predicate Has(s: string, sub: string) {
    exists i: nat :: At(s, sub, i)
  }

  /** The two halves of a file header agree, for a path without " b/"; with one, the header is
      split inside the second name. */
  lemma HeadPaths(p: string)
    ensures var f := OpenFile("diff --git a/" + p + " b/" + p);
            if Has(p, " b/") then f.oldPath != "" else f.path == p && f.oldPath == ""
  {
    var rest := p + " b/" + p;
    assert "diff --git a/" + p + " b/" + p == "diff --git a/" + rest;
    Trimmed("diff --git a/", rest);
    LastSplit(p, rest);
  }

  lemma LastSplit(p: string, rest: string)
    requires rest == p + " b/" + p
    ensures var i := LastIndexOf(rest, " b/", |rest|);
            i.Some? && (if Has(p, " b/") then i.value >= |p| + 3
                        else rest[..i.value] == p && rest[i.value + 3..] == p)
  {
    assert rest[|p|..|p| + 3] == " b/";
    assert At(rest, " b/", |p|);
    if Has(p, " b/") {
      var k: nat :| At(p, " b/", k);
      assert rest[|p| + 3 + k..|p| + 3 + k + 3] == p[k..k + 3];
      assert At(rest, " b/", |p| + 3 + k);
    } else {
      forall j: nat | |p| < j <= |rest| ensures !At(rest, " b/", j) { NotLater(p, rest, j); }
      var i := LastIndexOf(rest, " b/", |rest|);
      assert i == Some(|p|);
    }
  }

  lemma NotLater(p: string, rest: string, j: nat)
    requires rest == p + " b/" + p && |p| < j && !Has(p, " b/")
    ensures !At(rest, " b/", j)
  {
    if j < |p| + 3 {
      NotAt(rest, " b/", j, 0);
    } else if j + 3 <= |rest| {
      assert rest[j..j + 3] == p[j - |p| - 3..j - |p|];
      assert !At(p, " b/", j - |p| - 3);
    }
  }

  // ----- The state a preamble leaves

  /** Reading a file of which nothing but the preamble has come by. */
  function Opened(path: string, oldPath: string, status: FileStatus, binary: bool): State {
    State([], Some(File(path, oldPath, status, binary, [], 0, 0)), None, 0, 0, false)
  }

  function SeenOldPath(f: File): string {
    if f.status.Renamed? then f.oldPath else OpenFile(FileLine(f)).oldPath
  }

  function SeenPath(f: File, tabs: bool): string {
    if f.hunks != [] then Named(f.path, tabs)
    else if f.status.Renamed? then f.path
    else OpenFile(FileLine(f)).path
  }

  lemma FileLineRead(f: File)
    ensures var o := OpenFile(FileLine(f));
            Fold(START, [FileLine(f)]) == Opened(o.path, o.oldPath, Modified, false)
  {
    FileHeadTag("a/" + OldName(f) + " b/" + f.path);
    assert FileLine(f) == "diff --git " + ("a/" + OldName(f) + " b/" + f.path);
    FoldOne(START, FileLine(f));
  }

  lemma StatusRead(f: File, mode: string, path: string, oldPath: string)
    ensures Fold(Opened(path, oldPath, Modified, false), StatusLines(f, mode)) ==
              Opened(if f.status.Renamed? then f.path else path, if f.status.Renamed? then f.oldPath else oldPath, f.status, false)
  {
    var s := Opened(path, oldPath, Modified, false);
    match f.status
    case Modified =>
    case Added =>
      NewModeTag(mode);
      FoldOne(s, "new file mode " + mode);
    case Deleted =>
      DeletedModeTag(mode);
      FoldOne(s, "deleted file mode " + mode);
    case Renamed => RenameRead(s, f.oldPath, f.path);
  }

  lemma RenameRead(s: State, from: string, to: string)
    requires s.cur.Some? && !s.failed
    ensures Fold(s, ["rename from " + from, "rename to " + to]) ==
              s.(cur := Some(s.cur.value.(status := Renamed, oldPath := from, path := to)))
  {
    var a, b := "rename from " + from, "rename to " + to;
    RenameFromTag(from);
    RenameToTag(to);
    assert [a, b] == [a] + [b];
    FoldMore(s, [a], [b]);
    FoldOne(s, a);
    FoldOne(Fold(s, [a]), b);
  }

  lemma LabelsRead(f: File, tabs: bool, path: string, oldPath: string)
    requires GoodFile(f)
    ensures Fold(Opened(path, oldPath, f.status, false), Labels(f, tabs)) ==
              Opened(if f.hunks != [] then Named(f.path, tabs) else path, oldPath, f.status, f.binary)
  {
    var s := Opened(path, oldPath, f.status, false);
    if f.binary {
      BinaryLine(OldName(f), f.path);
      FoldOne(s, Labels(f, tabs)[0]);
    } else if f.hunks != [] {
      NameLabels(s, f, tabs);
    }
  }

  lemma BinaryLine(a: string, b: string)
    ensures TagOf("Binary files a/" + a + " and b/" + b + " differ") == BinaryMark
  {
    BinaryMarkTag("a/" + a + " and b/" + b + " differ");
    assert "Binary files a/" + a + " and b/" + b + " differ" == "Binary files " + ("a/" + a + " and b/" + b + " differ");
  }

  /** What a label line does to the path of the file being read. */
  lemma OldLabelRead(s: State, name: string, c: File)
    requires !s.failed && s.cur == Some(c)
    ensures Step(s, "--- a/" + name) == if c.status.Deleted? then s.(cur := Some(c.(path := name))) else s
    ensures Step(s, "--- /dev/null") == s
  {
    OldLabelTag("a/" + name);
    assert "--- a/" + name == "--- " + ("a/" + name);
    Trimmed("--- a/", name);
    OldLabelTag("/dev/null");
    assert "--- /dev/null" == "--- " + "/dev/null";
    Apart("--- /dev/null", "--- /", "--- a/", 4);
  }

  lemma NewLabelRead(s: State, name: string, c: File)
    requires !s.failed && s.cur == Some(c)
    ensures Step(s, "+++ b/" + name) == s.(cur := Some(c.(path := name)))
    ensures Step(s, "+++ /dev/null") == s
  {
    NewLabelTag("b/" + name);
    assert "+++ b/" + name == "+++ " + ("b/" + name);
    Trimmed("+++ b/", name);
    NewLabelTag("/dev/null");
    assert "+++ /dev/null" == "+++ " + "/dev/null";
    Apart("+++ /dev/null", "+++ /", "+++ b/", 4);
  }

  lemma NameLabels(s: State, f: File, tabs: bool)
    requires !s.failed && s.cur.Some? && s.cur.value.status == f.status && !f.binary && f.hunks != []
    ensures Fold(s, Labels(f, tabs)) == s.(cur := Some(s.cur.value.(path := Named(f.path, tabs))))
  {
    var ls := Labels(f, tabs);
    assert ls == [ls[0]] + [ls[1]];
    FoldMore(s, [ls[0]], [ls[1]]);
    FoldOne(s, ls[0]);
    OldLabelRead(s, Named(OldName(f), tabs), s.cur.value);
    var t := Step(s, ls[0]);
    FoldOne(t, ls[1]);
    NewLabelRead(t, Named(f.path, tabs), t.cur.value);
  }

  lemma PreambleRead(f: File, d: Dress, tabs: bool)
    requires GoodFile(f) && GoodDress(d)
    ensures Fold(START, Preamble(f, d, tabs)) == Opened(SeenPath(f, tabs), SeenOldPath(f), f.status, f.binary)
  {
    var o := OpenFile(FileLine(f));
    var a := [FileLine(f)];
    FileLineRead(f);
    FoldMore(START, a, d.before);
    NoiseSkipped(Fold(START, a), d.before);
    FoldMore(START, a + d.before, StatusLines(f, d.mode));
    StatusRead(f, d.mode, o.path, o.oldPath);
    var b := a + d.before + StatusLines(f, d.mode);
    FoldMore(START, b, d.after);
    NoiseSkipped(Fold(START, b), d.after);
    FoldMore(START, b + d.after, Labels(f, tabs));
    var path := if f.status.Renamed? then f.path else o.path;
    LabelsRead(f, tabs, path, SeenOldPath(f));
  }

  // ----- One file

  /** Every line of every hunk is read as one, the file header's halves agree, and no name
      gained a TAB. */
  ghost predicate Legible(f: File, tabs: bool) {
    && AllHunksRead(f.hunks)
    && (f.status.Renamed? || !Has(f.path, " b/"))
    && (tabs && f.hunks != [] ==> ' ' !in f.path)
  }

  lemma SeenAsPrinted(f: File, tabs: bool)
    requires GoodFile(f)
    ensures SeenPath(f, tabs) == f.path && SeenOldPath(f) == f.oldPath <==>
              (f.status.Renamed? || !Has(f.path, " b/")) && (tabs && f.hunks != [] ==> ' ' !in f.path)
  {
    HeadPaths(f.path);
    assert |f.path + "\t"| > |f.path|;
  }

  /** A file is read back exactly when it is legible. */
  lemma FileReadBack(f: File, d: Dress, tabs: bool)
    requires GoodFile(f) && GoodDress(d)
    ensures var t := Fold(START, FileText(f, d, tabs));
            !t.failed && t.files == [] && t.cur.Some?
            && (FlushFile(t).files == [f] <==> Legible(f, tabs))
  {
    PreambleRead(f, d, tabs);
    FoldMore(START, Preamble(f, d, tabs), HunksText(f.hunks, d.bare));
    var s := Opened(SeenPath(f, tabs), SeenOldPath(f), f.status, f.binary);
    HunksRead(s, f.hunks, d.bare);
    JudgeFile(f, s, Fold(s, HunksText(f.hunks, d.bare)), tabs);
  }

  lemma JudgeFile(f: File, s: State, t: State, tabs: bool)
    requires GoodFile(f) && s == Opened(SeenPath(f, tabs), SeenOldPath(f), f.status, f.binary)
    requires HunksInto(s, t, f.hunks)
    ensures FlushFile(t).files == [f] <==> Legible(f, tabs)
  {
    SeenAsPrinted(f, tabs);
    var got := t.cur.value.(hunks := HunksOf(t));
    assert FlushFile(t).files == [got];
    if got == f {
      forall h | h in f.hunks ensures AllRead(h.lines) {
        var i :| 0 <= i < |f.hunks| && f.hunks[i] == h;
        ReadableAll(h.lines);
      }
    }
  }
}
