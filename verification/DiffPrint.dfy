/** Diffs as git prints them, and what the parser makes of a line, a header, a hunk. */
module DiffPrint {
  import opened Changes
  import opened Text
  import opened Diff
  import opened DiffShape

  // ----- Printing

  predicate Fits(n: int) {
    0 <= n <= MAX_INT
  }

  predicate OneLine(s: string) {
    '\n' !in s
  }

  ghost predicate GoodHunk(h: Hunk) {
    && Fits(h.oldStart) && Fits(h.oldLines) && Fits(h.newStart) && Fits(h.newLines)
    && OneLine(h.header) && (forall l :: l in h.lines ==> OneLine(l.content)) && Numbered(h)
  }

  function Num(n: int): string {
    if n >= 0 then Itoa(n) else ""
  }

  /** A count of one goes without saying. */
  function Range(start: int, count: int): string {
    if count == 1 then Num(start) else Num(start) + "," + Num(count)
  }

  function Marks(h: Hunk): string {
    "-" + Range(h.oldStart, h.oldLines) + " +" + Range(h.newStart, h.newLines)
  }

  function Tail(header: string): string {
    if header == "" then "" else " " + header
  }

  function HunkLine(h: Hunk): string {
    "@@ " + Marks(h) + " @@" + Tail(h.header)
  }

  function Mark(kind: Kind): char {
    match kind
    case Context => ' '
    case Plus => '+'
    case Minus => '-'
  }

  function LineText(l: Line): string {
    [Mark(l.kind)] + l.content
  }

  /** What git prints after a line that its file ends with, without a newline. */
  const NO_NEWLINE := "\\ No newline at end of file"

  /** `bare` says which lines, by hunk and position, are followed by that note. */
  function LineWithNote(l: Line, note: bool): seq<string> {
    if note then [LineText(l), NO_NEWLINE] else [LineText(l)]
  }

  /** The lines of hunk `at`. */
  function LineTexts(lines: seq<Line>, at: nat, bare: set<(nat, nat)>): seq<string> {
    if lines == [] then []
    else
      var n := |lines| - 1;
      LineTexts(lines[..n], at, bare) + LineWithNote(lines[n], (at, n) in bare)
  }

  function HunkText(h: Hunk, at: nat, bare: set<(nat, nat)>): seq<string> {
    [HunkLine(h)] + LineTexts(h.lines, at, bare)
  }

  function HunksText(hunks: seq<Hunk>, bare: set<(nat, nat)>): seq<string> {
    if hunks == [] then []
    else
      var n := |hunks| - 1;
      HunksText(hunks[..n], bare) + HunkText(hunks[n], n, bare)
  }

  // ----- Content lines

  /** A removed "-- ..." prints as "--- ...", an added "++ ..." as "+++ ...": the parser takes
      them for file labels. */
  predicate Misread(l: Line) {
    (l.kind.Plus? && HasPrefix(l.content, "++ ")) || (l.kind.Minus? && HasPrefix(l.content, "-- "))
  }

  function Readable(lines: seq<Line>): nat {
    if lines == [] then 0 else Readable(lines[..|lines| - 1]) + (if Misread(lines[|lines| - 1]) then 0 else 1)
  }

  lemma {:induction false} ReadableAll(lines: seq<Line>)
    ensures Readable(lines) <= |lines|
    ensures Readable(lines) == |lines| <==> forall l :: l in lines ==> !Misread(l)
    decreases |lines|
  {
    if lines != [] {
      var n := |lines| - 1;
      ReadableAll(lines[..n]);
      assert lines == lines[..n] + [lines[n]];
    }
  }

  /** The note is a line the parser has no case for. */
  lemma NoteTag()
    ensures TagOf(NO_NEWLINE).Other? && OneLine(NO_NEWLINE)
  {
    OtherStart(NO_NEWLINE, "diff --git ");
    OtherStart(NO_NEWLINE, "new file mode ");
    OtherStart(NO_NEWLINE, "deleted file mode ");
    OtherStart(NO_NEWLINE, "rename from ");
    OtherStart(NO_NEWLINE, "rename to ");
    OtherStart(NO_NEWLINE, "Binary files ");
    OtherStart(NO_NEWLINE, "--- ");
    OtherStart(NO_NEWLINE, "+++ ");
    OtherStart(NO_NEWLINE, "@@ ");
    OtherStart(NO_NEWLINE, "+");
    OtherStart(NO_NEWLINE, "-");
    OtherStart(NO_NEWLINE, " ");
  }

  lemma PrefixAfterMark(m: char, content: string, p: string)
    ensures HasPrefix([m] + content, [m] + p) <==> HasPrefix(content, p)
  {
    var s := [m] + content;
    if |p| <= |content| {
      assert s[..|p| + 1] == [m] + content[..|p|];
      assert ([m] + content[..|p|])[1..] == content[..|p|] && ([m] + p)[1..] == p;
    }
  }

  lemma LineTag(l: Line)
    ensures TagOf(LineText(l)) ==
              if Misread(l) then (if l.kind.Plus? then NewLabel else OldLabel) else Body(l.kind)
  {
    var s := LineText(l);
    NotHeader(s);
    PrefixAfterMark('+', l.content, "++ ");
    PrefixAfterMark('-', l.content, "-- ");
    assert ['+'] + "++ " == "+++ " && ['-'] + "-- " == "--- ";
    assert s[..1] == [Mark(l.kind)];
    match l.kind
    case Context =>
      OtherStart(s, "--- ");
      OtherStart(s, "+++ ");
    case Plus => OtherStart(s, "--- ");
    case Minus => OtherStart(s, "+++ ");
  }

  /** No line of a hunk's body starts like an extended header. */
  lemma NotHeader(s: string)
    requires s != "" && s[0] in [' ', '+', '-']
    ensures !HasPrefix(s, "diff --git ") && !HasPrefix(s, "new file mode ") && !HasPrefix(s, "deleted file mode ")
    ensures !HasPrefix(s, "rename from ") && !HasPrefix(s, "rename to ") && !HasPrefix(s, "Binary files ")
    ensures s != "GIT binary patch" && !HasPrefix(s, "@@ ")
  {
    OtherStart(s, "diff --git ");
    OtherStart(s, "new file mode ");
    OtherStart(s, "deleted file mode ");
    OtherStart(s, "rename from ");
    OtherStart(s, "rename to ");
    OtherStart(s, "Binary files ");
    OtherStart(s, "@@ ");
  }

  // ----- Hunk headers

  predicate RangeText(s: string) {
    forall c :: c in s ==> IsDigit(c) || c == ','
  }

  lemma ParsePrintedRange(start: int, count: int)
    requires Fits(start) && Fits(count)
    ensures ParseRange(Range(start, count)) == Some((start, count)) && RangeText(Range(start, count))
  {
    AtoiItoa(start);
    AtoiItoa(count);
    var a := Num(start);
    if count == 1 {
      forall j: nat ensures !At(a, ",", j) {
        assert j < |a| ==> a[j] in a;
        NotAt(a, ",", j, 0);
      }
    } else {
      forall j: nat | j < |a| ensures !At(a + "," + Num(count), ",", j) {
        assert a[j] in a;
        NotAt(a + "," + Num(count), ",", j, 0);
      }
      CutAt(a, ",", Num(count));
    }
  }

  lemma CutRanges(o: string, n: string)
    requires RangeText(o)
    ensures Cut("-" + o + " +" + n, " ") == Some(("-" + o, "+" + n))
  {
    var a, b := "-" + o, "+" + n;
    forall j: nat | j < |a| ensures !At(a + " " + b, " ", j) {
      if j > 0 { assert a[j] == o[j - 1] && o[j - 1] in o; }
      NotAt(a + " " + b, " ", j, 0);
    }
    CutAt(a, " ", b);
    assert a + " " + b == "-" + o + " +" + n;
  }

  lemma CutMarks(marks: string, tail: string)
    requires '@' !in marks
    ensures Cut(marks + " @@" + tail, " @@") == Some((marks, tail))
  {
    var s := marks + " @@" + tail;
    forall j: nat | j < |marks| ensures !At(s, " @@", j) {
      if j + 1 < |marks| { assert marks[j + 1] in marks; }
      NotAt(s, " @@", j, 1);
    }
    CutAt(marks, " @@", tail);
  }

  lemma NoAt(o: string, n: string)
    requires RangeText(o) && RangeText(n)
    ensures '@' !in "-" + o + " +" + n
  {
  }

  lemma ParsePrintedRanges(marks: string, tail: string, o: string, n: string, line: string)
    requires RangeText(o) && RangeText(n) && marks == "-" + o + " +" + n && line == "@@ " + marks + " @@" + tail
    ensures ParseHunkHeader(line) ==
              var p, q := ParseRange(o), ParseRange(n);
              if p.None? || q.None? then None
              else Some(Hunk(p.value.0, p.value.1, q.value.0, q.value.1, TrimPrefix(tail, " "), []))
  {
    NoAt(o, n);
    CutMarks(marks, tail);
    CutRanges(o, n);
    HeaderLine(line, marks, tail);
    assert ("-" + o)[1..] == o && ("+" + n)[1..] == n;
    assert ("-" + o)[..1] == "-" && ("+" + n)[..1] == "+";
  }

  lemma TrimTail(header: string)
    ensures TrimPrefix(Tail(header), " ") == header
  {
    assert header != "" ==> Tail(header)[..1] == " " && Tail(header)[1..] == header;
  }

  lemma HunkHeader(h: Hunk)
    requires GoodHunk(h)
    ensures TagOf(HunkLine(h)) == HunkHead && ParseHunkHeader(HunkLine(h)) == Some(h.(lines := []))
  {
    ParsePrintedRange(h.oldStart, h.oldLines);
    ParsePrintedRange(h.newStart, h.newLines);
    HeaderLine(HunkLine(h), Marks(h), Tail(h.header));
    ParsePrintedRanges(Marks(h), Tail(h.header), Range(h.oldStart, h.oldLines), Range(h.newStart, h.newLines), HunkLine(h));
    TrimTail(h.header);
  }

  lemma HeaderLine(line: string, marks: string, tail: string)
    requires line == "@@ " + marks + " @@" + tail
    ensures TagOf(line) == HunkHead && HasPrefix(line, "@@ ") && line[3..] == marks + " @@" + tail
  {
    assert line[..3] == "@@ ";
    OtherStart(line, "diff --git ");
    OtherStart(line, "new file mode ");
    OtherStart(line, "deleted file mode ");
    OtherStart(line, "rename from ");
    OtherStart(line, "rename to ");
    OtherStart(line, "Binary files ");
    OtherStart(line, "--- ");
    OtherStart(line, "+++ ");
  }
}
