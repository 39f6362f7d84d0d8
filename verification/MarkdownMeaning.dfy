/** The meaning of excerpts over whole documents: exactly when every line-aligned excerpt of a
    document reads like the document, whether or not its lines are read alike everywhere. */
module MarkdownMeaning {
  import opened Basics
  import opened MarkdownFences
  import opened MarkdownReaders
  import opened MarkdownExcerpts
  import opened MarkdownDocuments

  // ---------- cutting out one line ----------

  /** A range of a document that begins and ends where lines do. */
  predicate Aligned(markdown: string, start: nat, end: nat) {
    start <= end <= |markdown| && Whole(SliceOf(markdown, start, end))
  }

  /** A slice of one line, perhaps with the empty rest after its line feed. */
  predicate IsOnly(lines: seq<string>, line: string) {
    lines == [line] || lines == [line, ""]
  }

  /** Line `d` of a document is all there is in a range of it. */
  predicate CutsOut(markdown: string, d: nat, start: nat, end: nat) {
    && Aligned(markdown, start, end)
    && d < |Split(markdown)| && |Split(markdown[..start])| == d + 1
    && IsOnly(Split(markdown[start..end]), Split(markdown)[d])
    && IsDocumentLine(markdown, start, end, 0)
  }

  lemma {:induction false} TakeLine(markdown: string) returns (line: string, rest: string)
    requires |Split(markdown)| > 1
    ensures markdown == line + "\n" + rest && NoLineFeed(line) && Split(markdown) == [line] + Split(rest)
  {
    if markdown[0] == '\n' {
      line, rest := "", markdown[1..];
    } else {
      var tail;
      tail, rest := TakeLine(markdown[1..]);
      line := [markdown[0]] + tail;
      assert markdown == [markdown[0]] + markdown[1..];
    }
  }

  lemma {:induction false} OnlyLine(markdown: string)
    requires |Split(markdown)| == 1
    ensures Split(markdown) == [markdown]
  {
    if markdown != "" && markdown[0] != '\n' {
      OnlyLine(markdown[1..]);
      assert markdown == [markdown[0]] + markdown[1..];
    }
  }

  lemma CutFirst(markdown: string) returns (end: nat)
    ensures CutsOut(markdown, 0, 0, end)
  {
    hide Split;
    assert Split("") == [""] by { SplitLine("", ""); }
    assert markdown[..0] == "";
    if |Split(markdown)| == 1 {
      OnlyLine(markdown);
      end := |markdown|;
      assert markdown[0..end] == markdown;
    } else {
      var line, rest := TakeLine(markdown);
      end := |line| + 1;
      assert markdown[0..end] == line + "\n" + "";
      SplitLine(line, "");
    }
  }

  lemma {:induction false} CutOut(markdown: string, d: nat) returns (start: nat, end: nat)
    requires d < |Split(markdown)|
    ensures CutsOut(markdown, d, start, end)
    decreases d
  {
    hide Split;
    if d == 0 {
      start := 0;
      end := CutFirst(markdown);
    } else {
      var line, rest := TakeLine(markdown);
      var from, to := CutOut(rest, d - 1);
      CutFurther(markdown, line, rest, d - 1, from, to);
      start, end := |line| + 1 + from, |line| + 1 + to;
    }
  }

  lemma ShiftedSlice(markdown: string, head: string, rest: string, from: nat, to: nat)
    requires markdown == head + rest && head != "" && head[|head| - 1] == '\n' && from <= to <= |rest|
    ensures markdown[..|head| + from] == head + rest[..from]
    ensures markdown[|head| + from..|head| + to] == rest[from..to]
    ensures IsDocumentLine(rest, from, to, 0) ==> IsDocumentLine(markdown, |head| + from, |head| + to, 0)
    ensures Aligned(rest, from, to) ==> Aligned(markdown, |head| + from, |head| + to)
  {
    hide Split;
    assert markdown[|head| + from..|head| + to] == rest[from..to];
    assert markdown[|head| - 1] == '\n';
    assert from > 0 ==> markdown[|head| + from - 1] == rest[from - 1];
    assert to > 0 ==> markdown[|head| + to - 1] == rest[to - 1];
  }

  lemma CutFurther(markdown: string, line: string, rest: string, d: nat, from: nat, to: nat)
    requires markdown == line + "\n" + rest && NoLineFeed(line) && Split(markdown) == [line] + Split(rest)
    requires CutsOut(rest, d, from, to)
    ensures CutsOut(markdown, d + 1, |line| + 1 + from, |line| + 1 + to)
  {
    hide Split, Aligned, IsDocumentLine, IsOnly, NoLineFeed;
    assert from <= to <= |rest| by { AlignedRange(rest, from, to); }
    ShiftedSlice(markdown, line + "\n", rest, from, to);
    SplitLine(line, rest[..from]);
    assert Split(markdown)[d + 1] == Split(rest)[d];
  }

  lemma AlignedRange(markdown: string, start: nat, end: nat)
    requires Aligned(markdown, start, end)
    ensures start <= end <= |markdown|
  {
  }

  // ---------- a line that is read differently ----------

  lemma RenderedOnly(s: Slice, o: Open, line: string)
    requires Whole(s) && IsOnly(s.lines, line) && IsOpen(o)
    ensures var (shown, next) := Render(s, 0, o); var tail := if next.Open? then [next.render] else [];
      Rendered(s, 0, o) == [shown] + tail || Rendered(s, 0, o) == [shown, ""] + tail
  {
    hide Render;
    RenderedStep(s, 0, o);
    var next := Render(s, 0, o).1;
    if |s.lines| == 2 {
      RenderEmpty(s, 1, next);
      RenderedStep(s, 1, next);
    }
    RenderedAtEnd(s, next);
  }

  /** What is open after an excerpt of one line, from how the line is shown. */
  lemma ReadOnly(r: Reader, s: Slice, o: Open, line: string, shown: State)
    requires Whole(s) && IsOnly(s.lines, line) && IsOpen(o) && IsState(shown)
    ensures var (first, next) := Render(s, 0, o); var after := Step(r, shown, first);
      Read(r, shown, Rendered(s, 0, o)) == if next.Open? then Step(r, after, next.render) else after
  {
    hide Step, Render, Rendered;
    RenderedOnly(s, o, line);
    var (first, next) := Render(s, 0, o);
    var after, tail := Step(r, shown, first), if next.Open? then [next.render] else [];
    ReadConcat(r, shown, [first], tail);
    ReadConcat(r, shown, [first], [""] + tail);
    assert [first, ""] + tail == [first] + ([""] + tail);
    ReadOne(r, shown, first);
    ReadAfterEmpty(r, after, tail);
    if next.Open? { ReadOne(r, after, next.render); }
  }

  /** A line that the reader and the repository read differently, alone in an excerpt, either
      changes its standing there or leaves a fence open behind it. */
  lemma DisagreementShows(r: Reader, s: Slice, line: string, active: State)
    requires Whole(s) && IsOnly(s.lines, line) && IsState(active)
    requires RoleOf(r, active, line) != RoleOf(Repository, active, line)
    ensures var o := StartOpen(s, active); var shown := Shown(o);
      !(SameLine(r, active, line, shown, Render(s, 0, o).0) && Read(r, shown, Rendered(s, 0, o)).None?)
  {
    hide Shape, RenderMarker, Rendered, Blank, SpacesAndTabs, Read, IsMarker, CanOpen, OneLine;
    var o := StartOpen(s, active);
    ReadOnly(r, s, o, line, Shown(o));
    var next := Render(s, 0, o).1;
    if next.Open? { RenderedEnd(r, next.render); }
  }

  /** How the excerpt shows its one line. */
  lemma FirstShown(r: Reader, s: Slice, active: State, line: string)
    requires Whole(s) && IsOnly(s.lines, line) && IsState(active)
    ensures var o, output := StartOpen(s, active), BalancedLines(s, active);
      && |output| > Before(active) && output[Before(active)] == Render(s, 0, o).0
      && Read(r, None, output[..Before(active)]) == Shown(o)
      && Read(r, None, output) == Read(r, Shown(o), Rendered(s, 0, o))
  {
    hide Step, Render, Rendered, BalancedLines, StartOpen;
    var o := StartOpen(s, active);
    HeadRead(r, s, active, 0);
    RenderedOnly(s, o, line);
    ReadNothing(r, Shown(o), Rendered(s, 0, o));
  }

  /** A document in which every excerpt of one line reads like the document is read alike by the
      reader and the repository. */
  lemma DisagreementIsSeen(r: Reader, markdown: string)
    requires !AgreesFrom(r, None, Split(markdown))
    ensures exists start, end: nat :: Aligned(markdown, start, end) && !ReadsLikeDocument(r, markdown, start, end)
  {
    hide Split, AgreesFrom, RoleOf, ReadsLikeDocument, SliceOf;
    var d := FirstDisagreement(r, None, Split(markdown));
    var start, end := CutOut(markdown, d);
    OpenAtLine(markdown, d, start, end);
    ReadingsAgreeAlong(r, None, Split(markdown)[..d]);
    CutDisagreement(r, markdown, d, start, end);
  }

  lemma OpenAtLine(markdown: string, d: nat, start: nat, end: nat)
    requires CutsOut(markdown, d, start, end)
    ensures ActiveAt(markdown, start) == Read(Repository, None, Split(markdown)[..d])
  {
    hide Split, AgreesFrom, Read, ActiveAt;
    AgreesWithItself(None, Split(markdown));
    LinesBefore(Repository, markdown, start);
    assert Split(markdown)[..d] == Split(markdown[..start])[..d];
  }

  lemma CutDisagreement(r: Reader, markdown: string, d: nat, start: nat, end: nat)
    requires CutsOut(markdown, d, start, end)
    requires var t := Read(r, None, Split(markdown)[..d]);
      t == ActiveAt(markdown, start) && RoleOf(r, t, Split(markdown)[d]) != RoleOf(Repository, t, Split(markdown)[d])
    ensures !ReadsLikeDocument(r, markdown, start, end)
  {
    hide Split, Read, RoleOf, Step, BalancedLines, Rendered, Render, ActiveAt, Excerpt, StartOpen, SameLine;
    var s, active, line := SliceOf(markdown, start, end), ActiveAt(markdown, start), Split(markdown)[d];
    DisagreementShows(r, s, line, active);
    ExcerptLines(markdown, start, end);
    FirstShown(r, s, active, line);
    var shown := Split(Excerpt(markdown, start, end));
    assert Read(r, None, shown).None? ==> !StandsAsInDocument(r, markdown, start, shown, 0);
  }

  /** Every line-aligned excerpt of a document reads like the document exactly when the reader
      and the repository read each line alike where it stands, and no excerpt merges a delimiter
      or shows as code a line that ends its fence. */
  lemma DocumentKeepsMeaningExactly(r: Reader, markdown: string)
    ensures (forall start, end: nat :: Aligned(markdown, start, end) ==> ReadsLikeDocument(r, markdown, start, end))
      <==>
      && AgreesFrom(r, None, Split(markdown))
      && (forall start, end: nat :: Aligned(markdown, start, end) ==> ShowsFences(r, markdown, start, end))
  {
    hide Split, AgreesFrom, ReadsLikeDocument, ShowsFences, SliceOf;
    if AgreesFrom(r, None, Split(markdown)) {
      forall start, end: nat | Aligned(markdown, start, end)
        ensures ReadsLikeDocument(r, markdown, start, end) <==> ShowsFences(r, markdown, start, end)
      {
        ExcerptReadsLikeDocument(r, markdown, start, end);
      }
    } else {
      DisagreementIsSeen(r, markdown);
    }
  }
}
