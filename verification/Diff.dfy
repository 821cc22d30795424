/** The unified-diff parser (runkod/diff.go). */
module Diff {
  import opened Changes
  import opened Text

  datatype FileStatus = Added | Modified | Deleted | Renamed

  datatype Kind = Context | Plus | Minus

  /** A line without its marker; a number is 0 on a side the line is not on. */
  datatype Line = Line(kind: Kind, content: string, oldLine: int, newLine: int)

  datatype Hunk = Hunk(oldStart: int, oldLines: int, newStart: int, newLines: int, header: string, lines: seq<Line>)

  datatype File = File(
    path: string, oldPath: string, status: FileStatus, binary: bool, hunks: seq<Hunk>, adds: int, dels: int)

  datatype Result = Files(files: seq<File>) | Malformed

  // ----- Headers

  /** parseHunkRange: "start[,count]". */
  function ParseRange(s: string): Option<(int, int)> {
    var cut := Cut(s, ",");
    if cut.None? then
      var start := Atoi(s);
      if start.None? then None else Some((start.value, 1))
    else
      var start, count := Atoi(cut.value.0), Atoi(cut.value.1);
      if start.None? || count.None? then None else Some((start.value, count.value))
  }

  function TrimPrefix(s: string, p: string): string {
    if HasPrefix(s, p) then s[|p|..] else s
  }

  /** parseHunkHeader, with no lines yet. */
  function ParseHunkHeader(line: string): Option<Hunk> {
    if !HasPrefix(line, "@@ ") then None
    else
      var cut := Cut(line[3..], " @@");
      if cut.None? then None
      else
        var ranges := Cut(cut.value.0, " ");
        if ranges.None? || !HasPrefix(ranges.value.0, "-") || !HasPrefix(ranges.value.1, "+") then None
        else
          var o, n := ParseRange(ranges.value.0[1..]), ParseRange(ranges.value.1[1..]);
          if o.None? || n.None? then None
          else Some(Hunk(o.value.0, o.value.1, n.value.0, n.value.1, TrimPrefix(cut.value.1, " "), []))
  }

  /** splitDiffGitPaths: the two paths of a file header, split at the last " b/". */
  function SplitPaths(line: string): Option<(string, string)> {
    if !HasPrefix(line, "diff --git a/") then None
    else
      var rest := line[13..];
      var i := LastIndexOf(rest, " b/", |rest|);
      if i.None? then None else Some((rest[..i.value], rest[i.value + 3..]))
  }

  /** The header is put together from the two paths, and " b/" occurs nowhere later than between
      them; without a split it does not start right or has no " b/". */
  lemma SplitPathsExactly(line: string)
    ensures var r := SplitPaths(line);
            if r.Some? then
              && line == "diff --git a/" + r.value.0 + " b/" + r.value.1
              && forall j: nat :: j > 13 + |r.value.0| ==> !At(line, " b/", j)
            else HasPrefix(line, "diff --git a/") ==> forall j: nat :: j >= 13 ==> !At(line, " b/", j)
  {
    if HasPrefix(line, "diff --git a/") {
      var rest := line[13..];
      var i := LastIndexOf(rest, " b/", |rest|);
      forall j: nat | j >= 13 ensures At(line, " b/", j) <==> At(rest, " b/", j - 13) {
        if j + 3 <= |line| { assert line[j..j + 3] == rest[j - 13..j - 13 + 3]; }
      }
      if i.Some? {
        assert rest == rest[..i.value] + rest[i.value..i.value + 3] + rest[i.value + 3..];
        assert line == line[..13] + rest;
      }
    }
  }

  /** A file as its header opens it. */
  function OpenFile(line: string): File {
    var blank := File("", "", Modified, false, [], 0, 0);
    var paths := SplitPaths(line);
    if paths.None? then blank
    else
      var (a, b) := paths.value;
      blank.(path := b, oldPath := if a != b then a else "")
  }

  // ----- The state machine

  /** What a line is, by the first of the parser's cases that takes it. */
  datatype Tag =
    | FileHead
    | NewMode
    | DeletedMode
    | RenameFrom
    | RenameTo
    | BinaryMark
    | OldLabel
    | NewLabel
    | HunkHead
    | Body(kind: Kind)
    | Other

  function TagOf(line: string): Tag {
    if HasPrefix(line, "diff --git ") then FileHead
    else if HasPrefix(line, "new file mode ") then NewMode
    else if HasPrefix(line, "deleted file mode ") then DeletedMode
    else if HasPrefix(line, "rename from ") then RenameFrom
    else if HasPrefix(line, "rename to ") then RenameTo
    else if HasPrefix(line, "Binary files ") || line == "GIT binary patch" then BinaryMark
    else if HasPrefix(line, "--- ") then OldLabel
    else if HasPrefix(line, "+++ ") then NewLabel
    else if HasPrefix(line, "@@ ") then HunkHead
    else if HasPrefix(line, "+") then Body(Plus)
    else if HasPrefix(line, "-") then Body(Minus)
    else if HasPrefix(line, " ") then Body(Context)
    else Other
  }

  datatype State = State(
    files: seq<File>, cur: Option<File>, hunk: Option<Hunk>, oldNo: int, newNo: int, failed: bool)

  const START := State([], None, None, 0, 0, false)

  function FlushHunk(s: State): State {
    if s.cur.Some? && s.hunk.Some?
    then s.(cur := Some(s.cur.value.(hunks := s.cur.value.hunks + [s.hunk.value])), hunk := None)
    else s.(hunk := None)
  }

  function FlushFile(s: State): State {
    var t := FlushHunk(s);
    if t.cur.Some? then t.(files := t.files + [t.cur.value], cur := None) else t
  }

  /** A content line of the current hunk. */
  function BodyLine(s: State, h: Hunk, c: File, kind: Kind, content: string): State {
    match kind
    case Plus =>
      s.(hunk := Some(h.(lines := h.lines + [Line(Plus, content, 0, s.newNo)])),
         cur := Some(c.(adds := c.adds + 1)), newNo := s.newNo + 1)
    case Minus =>
      s.(hunk := Some(h.(lines := h.lines + [Line(Minus, content, s.oldNo, 0)])),
         cur := Some(c.(dels := c.dels + 1)), oldNo := s.oldNo + 1)
    case Context =>
      s.(hunk := Some(h.(lines := h.lines + [Line(Context, content, s.oldNo, s.newNo)])),
         oldNo := s.oldNo + 1, newNo := s.newNo + 1)
  }

  function OpenHunk(s: State, line: string): State {
    var h := ParseHunkHeader(line);
    if h.None? then s.(failed := true)
    else FlushHunk(s).(hunk := h, oldNo := h.value.oldStart, newNo := h.value.newStart)
  }

  /** A line inside a file. */
  function Within(s: State, c: File, tag: Tag, line: string): State
    requires tag == TagOf(line)
  {
    match tag
    case NewMode => s.(cur := Some(c.(status := Added)))
    case DeletedMode => s.(cur := Some(c.(status := Deleted)))
    case RenameFrom => s.(cur := Some(c.(status := Renamed, oldPath := TrimPrefix(line, "rename from "))))
    case RenameTo => s.(cur := Some(c.(status := Renamed, path := TrimPrefix(line, "rename to "))))
    case BinaryMark => s.(cur := Some(c.(binary := true)))
    case OldLabel =>
      if HasPrefix(line, "--- a/") && c.status == Deleted then s.(cur := Some(c.(path := line[6..]))) else s
    case NewLabel => if HasPrefix(line, "+++ b/") then s.(cur := Some(c.(path := line[6..]))) else s
    case HunkHead => OpenHunk(s, line)
    case Body(kind) => if s.hunk.Some? then BodyLine(s, s.hunk.value, c, kind, line[1..]) else s
    case _ => s
  }

  function Step(s: State, line: string): State {
    if s.failed then s
    else if TagOf(line).FileHead? then FlushFile(s).(cur := Some(OpenFile(line)))
    else if s.cur.None? then s
    else Within(s, s.cur.value, TagOf(line), line)
  }

  function Fold(s: State, lines: seq<string>): State
    decreases |lines|
  {
    if lines == [] then s else Step(Fold(s, lines[..|lines| - 1]), lines[|lines| - 1])
  }

  function Parse(patch: string): Result {
    var s := Fold(START, Split(patch, '\n'));
    if s.failed then Malformed else Files(FlushFile(s).files)
  }

  lemma {:induction false} FoldMore(s: State, a: seq<string>, b: seq<string>)
    ensures Fold(s, a + b) == Fold(Fold(s, a), b)
    decreases |b|
  {
    if b == [] {
      assert a + b == a;
    } else {
      assert (a + b)[..|a + b| - 1] == a + b[..|b| - 1];
      FoldMore(s, a, b[..|b| - 1]);
    }
  }

  lemma FoldOne(s: State, line: string)
    ensures Fold(s, [line]) == Step(s, line)
  {
    assert [line][..0] == [];
    assert Fold(s, [line][..0]) == s;
  }

  lemma {:induction false} FailedStays(s: State, lines: seq<string>)
    requires s.failed
    ensures Fold(s, lines).failed
    decreases |lines|
  {
    if lines != [] { FailedStays(s, lines[..|lines| - 1]); }
  }

  lemma FoldNext(lines: seq<string>, i: nat)
    requires i < |lines|
    ensures Fold(START, lines[..i + 1]) == Step(Fold(START, lines[..i]), lines[i])
  {
    assert lines[..i + 1][..i] == lines[..i];
  }

  lemma FailsFrom(lines: seq<string>, i: nat)
    requires i <= |lines| && Fold(START, lines[..i]).failed
    ensures Fold(START, lines).failed
  {
    assert lines == lines[..i] + lines[i..];
    FoldMore(START, lines[..i], lines[i..]);
    FailedStays(Fold(START, lines[..i]), lines[i..]);
  }

  lemma HunkStep(s: State, line: string, h: Hunk)
    requires !s.failed && s.cur.Some? && TagOf(line).HunkHead? && ParseHunkHeader(line) == Some(h)
    ensures Step(s, line) == FlushHunk(s).(hunk := Some(h), oldNo := h.oldStart, newNo := h.newStart)
  {
  }

  lemma BodyStep(s: State, line: string)
    requires !s.failed && s.cur.Some? && TagOf(line).Body?
    ensures line != []
    ensures Step(s, line) == if s.hunk.Some? then BodyLine(s, s.hunk.value, s.cur.value, TagOf(line).kind, line[1..]) else s
  {
  }

  predicate BadHunk(line: string) {
    TagOf(line).HunkHead? && ParseHunkHeader(line).None?
  }

  ghost predicate HasFile(lines: seq<string>) {
    exists x :: x in lines && TagOf(x).FileHead?
  }

  /** A hunk header that does not parse, below a file header. */
  ghost predicate HasBadHunk(lines: seq<string>) {
    exists i :: 0 <= i < |lines| && BadHunk(lines[i]) && HasFile(lines[..i])
  }

  lemma HasFileNext(lines: seq<string>)
    requires lines != []
    ensures HasFile(lines) <==> HasFile(lines[..|lines| - 1]) || TagOf(lines[|lines| - 1]).FileHead?
  {
    SplitLast(lines);
    assert forall x :: x in lines <==> x in lines[..|lines| - 1] || x == lines[|lines| - 1];
  }

  lemma HasBadHunkNext(lines: seq<string>)
    requires lines != []
    ensures var n := |lines| - 1;
            HasBadHunk(lines) <==> HasBadHunk(lines[..n]) || (BadHunk(lines[n]) && HasFile(lines[..n]))
  {
    var n := |lines| - 1;
    assert forall i :: 0 <= i < n ==> lines[..n][i] == lines[i] && lines[..n][..i] == lines[..i];
  }

  /** The parser fails at a hunk header that does not parse, inside a file, and only there; a
      file is open from the first file header on. */
  lemma {:induction false} FailsExactly(lines: seq<string>)
    ensures Fold(START, lines).failed <==> HasBadHunk(lines)
    ensures !Fold(START, lines).failed ==> (Fold(START, lines).cur.Some? <==> HasFile(lines))
    decreases |lines|
  {
    if lines != [] {
      var n := |lines| - 1;
      FailsExactly(lines[..n]);
      HasFileNext(lines);
      HasBadHunkNext(lines);
      LastLine(Fold(START, lines[..n]), lines[n]);
    }
  }

  lemma LastLine(s: State, line: string)
    ensures var t := Step(s, line);
            && (t.failed <==> s.failed || (s.cur.Some? && BadHunk(line)))
            && (!t.failed ==> (t.cur.Some? <==> s.cur.Some? || TagOf(line).FileHead?))
  {
    if s.cur.Some? && !s.failed { InsideFails(s, s.cur.value, TagOf(line), line); }
  }

  /** Inside a file only a bad hunk header fails, and the file stays open. */
  lemma InsideFails(s: State, c: File, tag: Tag, line: string)
    requires tag == TagOf(line) && !s.failed && s.cur == Some(c)
    ensures var t := Within(s, c, tag, line);
            && (t.failed <==> tag.HunkHead? && ParseHunkHeader(line).None?) && t.cur.Some?
  {
  }

  /** A binary file is announced by either of git's two lines. */
  lemma BinaryMarks(rest: string)
    ensures TagOf("Binary files " + rest).BinaryMark? && TagOf("GIT binary patch").BinaryMark?
  {
    var line := "Binary files " + rest;
    assert line[..13] == "Binary files ";
    NoOtherMark(line);
    NoOtherMark("GIT binary patch");
  }

  /** A line that starts with neither mark of a header or a label. */
  lemma NoOtherMark(line: string)
    requires line != "" && line[0] in {'B', 'G'}
    ensures !HasPrefix(line, "diff --git ") && !HasPrefix(line, "new file mode ") && !HasPrefix(line, "deleted file mode ")
    ensures !HasPrefix(line, "rename from ") && !HasPrefix(line, "rename to ")
  {
    OtherStart(line, "diff --git ");
    OtherStart(line, "new file mode ");
    OtherStart(line, "deleted file mode ");
    OtherStart(line, "rename from ");
    OtherStart(line, "rename to ");
  }

  /** parseUnifiedDiff. */
  method ParseUnifiedDiff(patch: string) returns (result: Result)
    ensures result == Parse(patch)
  {
    var lines := Split(patch, '\n');
    var files: seq<File> := [];
    var cur: Option<File> := None;
    var hunk: Option<Hunk> := None;
    var oldNo, newNo := 0, 0;
    assert lines[..0] == [];
    for i := 0 to |lines|
      invariant Fold(START, lines[..i]) == State(files, cur, hunk, oldNo, newNo, false)
    {
      var line := lines[i];
      var s := State(files, cur, hunk, oldNo, newNo, false);
      var t := s;
      FoldNext(lines, i);
      var tag := TagOf(line);
      if tag.FileHead? {
        t := FlushFile(s).(cur := Some(OpenFile(line)));
      } else if cur.None? {
      } else if tag.HunkHead? {
        var h := ParseHunkHeader(line);
        if h.None? {
          FailsFrom(lines, i + 1);
          return Malformed;
        }
        t := FlushHunk(s).(hunk := h, oldNo := h.value.oldStart, newNo := h.value.newStart);
        HunkStep(s, line, h.value);
      } else if tag.Body? {
        BodyStep(s, line);
        if hunk.Some? { t := BodyLine(s, hunk.value, cur.value, tag.kind, line[1..]); }
      } else {
        t := Within(s, cur.value, tag, line);
      }
      assert t == Step(s, line) && !t.failed;
      files, cur, hunk, oldNo, newNo := t.files, t.cur, t.hunk, t.oldNo, t.newNo;
    }
    assert lines[..|lines|] == lines;
    result := Files(FlushFile(State(files, cur, hunk, oldNo, newNo, false)).files);
  }
}
