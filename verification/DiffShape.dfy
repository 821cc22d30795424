/** Whatever text is parsed, the result is a well-numbered diff. */
module DiffShape {
  import opened Changes
  import opened Diff
  import opened Text

  /** How many of the lines are of a kind. */
  function Count(lines: seq<Line>, kind: Kind): nat {
    if lines == [] then 0 else Count(lines[..|lines| - 1], kind) + (if lines[|lines| - 1].kind == kind then 1 else 0)
  }

  function Total(hunks: seq<Hunk>, kind: Kind): nat {
    if hunks == [] then 0 else Total(hunks[..|hunks| - 1], kind) + Count(hunks[|hunks| - 1].lines, kind)
  }

  /** The old-side number after `lines`: every line but an added one has one. */
  function OldAfter(start: int, lines: seq<Line>): int {
    start + |lines| - Count(lines, Plus)
  }

  function NewAfter(start: int, lines: seq<Line>): int {
    start + |lines| - Count(lines, Minus)
  }

  /** Both sides count up from the hunk's starts, each over the lines it has. */
  ghost predicate Numbered(h: Hunk) {
    forall i :: 0 <= i < |h.lines| ==> NumberedAt(h, i)
  }

  ghost predicate NumberedAt(h: Hunk, i: nat)
    requires i < |h.lines|
  {
    var l := h.lines[i];
    && l.oldLine == (if l.kind.Plus? then 0 else OldAfter(h.oldStart, h.lines[..i]))
    && l.newLine == (if l.kind.Minus? then 0 else NewAfter(h.newStart, h.lines[..i]))
  }

  /** A file's totals are those of its hunks. */
  ghost predicate Tallied(f: File) {
    && (forall i :: 0 <= i < |f.hunks| ==> Numbered(f.hunks[i]))
    && f.adds == Total(f.hunks, Plus) && f.dels == Total(f.hunks, Minus)
  }

  /** The file being read counts its open hunk's lines already. */
  ghost predicate Reading(s: State) {
    && (forall i :: 0 <= i < |s.files| ==> Tallied(s.files[i]))
    && (s.cur.None? ==> s.hunk.None?)
    && (s.cur.Some? ==> ReadingFile(s.cur.value, s.hunk, s.oldNo, s.newNo))
  }

  ghost predicate ReadingFile(f: File, hunk: Option<Hunk>, oldNo: int, newNo: int) {
    if hunk.None? then Tallied(f)
    else
      var h := hunk.value;
      && Numbered(h) && oldNo == OldAfter(h.oldStart, h.lines) && newNo == NewAfter(h.newStart, h.lines)
      && (forall i :: 0 <= i < |f.hunks| ==> Numbered(f.hunks[i]))
      && f.adds == Total(f.hunks, Plus) + Count(h.lines, Plus)
      && f.dels == Total(f.hunks, Minus) + Count(h.lines, Minus)
  }

  lemma FlushTallies(f: File, h: Hunk, oldNo: int, newNo: int)
    requires ReadingFile(f, Some(h), oldNo, newNo)
    ensures Tallied(f.(hunks := f.hunks + [h]))
  {
    assert (f.hunks + [h])[..|f.hunks|] == f.hunks;
  }

  lemma FlushKeeps(s: State)
    requires Reading(s)
    ensures Reading(FlushHunk(s)) && Reading(FlushFile(s)) && FlushHunk(s).hunk.None? && FlushFile(s).cur.None?
  {
    if s.cur.Some? && s.hunk.Some? { FlushTallies(s.cur.value, s.hunk.value, s.oldNo, s.newNo); }
  }

  lemma LongerHunk(h: Hunk, l: Line)
    requires Numbered(h)
    requires l.oldLine == if l.kind.Plus? then 0 else OldAfter(h.oldStart, h.lines)
    requires l.newLine == if l.kind.Minus? then 0 else NewAfter(h.newStart, h.lines)
    ensures Numbered(h.(lines := h.lines + [l]))
    ensures forall k :: Count(h.lines + [l], k) == Count(h.lines, k) + if l.kind == k then 1 else 0
  {
    var g := h.(lines := h.lines + [l]);
    assert g.lines[..|h.lines|] == h.lines;
    forall i | 0 <= i < |g.lines| ensures NumberedAt(g, i) {
      if i < |h.lines| {
        assert NumberedAt(h, i) && g.lines[..i] == h.lines[..i];
      }
    }
  }

  lemma BodyKeeps(s: State, kind: Kind, content: string)
    requires Reading(s) && s.cur.Some? && s.hunk.Some?
    ensures Reading(BodyLine(s, s.hunk.value, s.cur.value, kind, content))
  {
    var h := s.hunk.value;
    var l := Line(kind, content, if kind.Plus? then 0 else s.oldNo, if kind.Minus? then 0 else s.newNo);
    LongerHunk(h, l);
    assert BodyLine(s, h, s.cur.value, kind, content).hunk == Some(h.(lines := h.lines + [l]));
  }

  lemma OpenKeeps(s: State, line: string)
    requires Reading(s) && s.cur.Some?
    ensures Reading(OpenHunk(s, line))
  {
    FlushKeeps(s);
  }

  lemma StepKeeps(s: State, line: string)
    requires Reading(s)
    ensures Reading(Step(s, line))
  {
    if s.failed || TagOf(line).FileHead? || s.cur.None? {
      FlushKeeps(s);
    } else {
      match TagOf(line)
      case HunkHead => OpenKeeps(s, line);
      case Body(kind) => if s.hunk.Some? { BodyKeeps(s, kind, line[1..]); }
      case _ =>
    }
  }

  lemma {:induction false} FoldKeeps(s: State, lines: seq<string>)
    requires Reading(s)
    ensures Reading(Fold(s, lines))
    decreases |lines|
  {
    if lines != [] {
      FoldKeeps(s, lines[..|lines| - 1]);
      StepKeeps(Fold(s, lines[..|lines| - 1]), lines[|lines| - 1]);
    }
  }

  /** For any text: in every parsed file the line numbers of each side are consecutive from
      the hunk's start, and Adds and Dels are the numbers of added and removed lines. */
  lemma ParsedIsTallied(patch: string)
    ensures var r := Parse(patch); r.Files? ==> forall i :: 0 <= i < |r.files| ==> Tallied(r.files[i])
  {
    FoldKeeps(START, Split(patch, '\n'));
    FlushKeeps(Fold(START, Split(patch, '\n')));
  }
}
