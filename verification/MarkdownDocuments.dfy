/** Excerpts of whole documents: text is split at line feeds, and a line-aligned excerpt is
    compared with the document it was cut from. */
module MarkdownDocuments {
  import opened Basics
  import opened MarkdownFences
  import opened MarkdownReaders
  import opened MarkdownExcerpts

  // ---------- lines of a text ----------

  function Split(text: string): (lines: seq<string>)
    ensures |lines| >= 1
  {
    if text == "" then [""]
    else
      var rest := Split(text[1..]);
      if text[0] == '\n' then [""] + rest else [[text[0]] + rest[0]] + rest[1..]
  }

  function Join(lines: seq<string>): string
    requires |lines| >= 1
  {
    if |lines| == 1 then lines[0] else lines[0] + "\n" + Join(lines[1..])
  }

  predicate NoLineFeed(line: string) {
    '\n' !in line
  }

  lemma {:induction false} SplitHasNoLineFeed(text: string, i: nat)
    requires i < |Split(text)|
    ensures NoLineFeed(Split(text)[i])
  {
    if text != "" {
      if text[0] == '\n' {
        if i > 0 { SplitHasNoLineFeed(text[1..], i - 1); }
      } else {
        SplitHasNoLineFeed(text[1..], i);
      }
    }
  }

  lemma {:induction false} SplitLine(line: string, rest: string)
    requires NoLineFeed(line)
    ensures Split(line) == [line]
    ensures Split(line + "\n" + rest) == [line] + Split(rest)
  {
    if line == "" {
      assert ("" + "\n" + rest)[1..] == rest;
    } else {
      SplitLine(line[1..], rest);
      assert line == [line[0]] + line[1..];
      assert (line + "\n" + rest)[1..] == line[1..] + "\n" + rest;
    }
  }

  /** Lines without line feeds are read back from their text. */
  lemma {:induction false} SplitJoin(lines: seq<string>)
    requires |lines| >= 1 && forall i :: 0 <= i < |lines| ==> NoLineFeed(lines[i])
    ensures Split(Join(lines)) == lines
  {
    if |lines| == 1 {
      SplitLine(lines[0], "");
    } else {
      SplitJoin(lines[1..]);
      SplitLine(lines[0], Join(lines[1..]));
    }
  }

  /** A text that ends where a line begins. */
  predicate EndsLine(text: string) {
    text == "" || text[|text| - 1] == '\n'
  }

  /** The split of a text from the split of its rest. */
  function WithFirst(c: char, rest: seq<string>): seq<string>
    requires |rest| >= 1
  {
    if c == '\n' then [""] + rest else [[c] + rest[0]] + rest[1..]
  }

  lemma WithFirstConcat(c: char, r: seq<string>, q: seq<string>)
    requires |r| >= 1 && |q| >= 1 && (c != '\n' ==> |r| >= 2)
    ensures var w := WithFirst(c, r);
      |w| >= 2 && WithFirst(c, r[..|r| - 1] + q) == w[..|w| - 1] + q && w[|w| - 1] == r[|r| - 1]
  {
    if c != '\n' {
      assert (r[..|r| - 1] + q)[1..] == r[1..][..|r| - 2] + q;
    }
  }

  lemma SplitFirst(text: string)
    requires text != ""
    ensures Split(text) == WithFirst(text[0], Split(text[1..]))
  {
  }

  lemma EndsRest(text: string)
    requires text != "" && EndsLine(text)
    ensures EndsLine(text[1..]) && (text[0] != '\n' ==> text[1..] != "")
  {
    if |text| > 1 { assert text[1..][|text| - 2] == text[|text| - 1]; }
  }

  lemma {:induction false} SplitConcat(a: string, b: string)
    requires EndsLine(a)
    ensures Split(a + b) == Split(a)[..|Split(a)| - 1] + Split(b) && Split(a)[|Split(a)| - 1] == ""
    ensures a != "" ==> |Split(a)| >= 2
  {
    if a == "" {
      assert a + b == b;
    } else {
      hide Split, WithFirst, EndsLine;
      assert (a + b)[1..] == a[1..] + b;
      assert EndsLine(a[1..]) by { EndsRest(a); }
      SplitFirst(a);
      SplitFirst(a + b);
      SplitConcat(a[1..], b);
      WithFirstConcat(a[0], Split(a[1..]), Split(b));
    }
  }

  // ---------- the fence open at an offset ----------

  function CompleteLines(markdown: string, offset: nat): seq<string>
    requires offset <= |markdown|
  {
    var lines := Split(markdown[..offset]);
    if offset == |markdown| || (offset > 0 && markdown[offset - 1] == '\n') then lines else lines[..|lines| - 1]
  }

  method ActiveFence(markdown: string, offset: nat) returns (active: State)
    requires offset <= |markdown|
    ensures IsState(active) && active == Read(Repository, None, CompleteLines(markdown, offset))
  {
    hide ParseMarkdownFence, ClosesMarkdownFence, Matches, Read, CompleteLines, IsMarker;
    active := None;
    var lines := CompleteLines(markdown, offset);
    ReadNothing(Repository, None, lines);
    var index := 0;
    while index < |lines|
      invariant index <= |lines| && IsState(active) && active == Read(Repository, None, lines[..index])
    {
      var fence := ParseMarkdownFence(lines[index]);
      ghost var before := active;
      if fence.Some? {
        if active.None? {
          active := Some(fence.value.marker);
        } else if ClosesMarkdownFence(fence.value, active.value) {
          active := None;
        }
      }
      ReadNext(Repository, None, lines, index);
      index := index + 1;
    }
    assert lines[..|lines|] == lines;
  }

  // ---------- balancing a text ----------

  function SliceOf(markdown: string, start: nat, end: nat): Slice
    requires start <= end <= |markdown|
  {
    Slice(
      Split(markdown[start..end]),
      start == 0 || markdown[start - 1] == '\n',
      end == |markdown| || (end > 0 && markdown[end - 1] == '\n'))
  }

  function ActiveAt(markdown: string, offset: nat): (s: State)
    requires offset <= |markdown|
    ensures IsState(s)
  {
    Read(Repository, None, CompleteLines(markdown, offset))
  }

  function Excerpt(markdown: string, start: nat, end: nat): string
    requires start <= end <= |markdown|
  {
    var lines := BalancedLines(SliceOf(markdown, start, end), ActiveAt(markdown, start));
    if |lines| >= 1 then Join(lines) else ""
  }

  method BalanceFences(markdown: string, start: nat, end: nat) returns (excerpt: string)
    requires start <= end <= |markdown|
    ensures excerpt == Excerpt(markdown, start, end)
  {
    var active := ActiveFence(markdown, start);
    var output := BalanceLines(SliceOf(markdown, start, end), active);
    excerpt := if |output| >= 1 then Join(output) else "";
  }

  // ---------- the excerpt against its document ----------

  /** The document's lines around a slice that starts at a line, and what is open there. */
  lemma LinesBefore(r: Reader, markdown: string, start: nat)
    requires start <= |markdown| && (start == 0 || markdown[start - 1] == '\n')
    requires AgreesFrom(r, None, Split(markdown))
    ensures var before := Split(markdown[..start]); var n := |before| - 1;
      && Split(markdown) == before[..n] + Split(markdown[start..])
      && ActiveAt(markdown, start) == Read(r, None, before[..n])
      && AgreesFrom(r, ActiveAt(markdown, start), Split(markdown[start..]))
  {
    hide Split, Read, Step, AgreesFrom;
    var before := Split(markdown[..start]);
    var n := |before| - 1;
    var open := Read(Repository, None, before[..n]);
    assert markdown == markdown[..start] + markdown[start..];
    SplitConcat(markdown[..start], markdown[start..]);
    assert before == before[..n] + [""];
    ReadConcat(Repository, None, before[..n], [""]);
    BlankLineKeeps(Repository, open);
    ReadOne(Repository, open, "");
    AgreesConcat(r, None, before[..n], Split(markdown[start..]));
    ReadingsAgreeAlong(r, None, before[..n]);
  }

  lemma LinesWithin(markdown: string, start: nat, end: nat, i: nat)
    requires start <= end <= |markdown| && Whole(SliceOf(markdown, start, end))
    requires var n := |Split(markdown[start..end])|; i < n && (i + 1 < n || end == |markdown|)
    ensures i < |Split(markdown[start..])|
    ensures Split(markdown[start..])[i] == Split(markdown[start..end])[i]
    ensures Split(markdown[start..])[..i] == Split(markdown[start..end])[..i]
  {
    hide Split;
    var slice := markdown[start..end];
    SplitLine("", "");
    if end == |markdown| {
      assert slice == markdown[start..];
    } else if start < end {
      assert slice[|slice| - 1] == markdown[end - 1];
      assert markdown[start..] == slice + markdown[end..];
      SplitConcat(slice, markdown[end..]);
    }
  }

  lemma {:induction false} RenderedHasNoLineFeed(s: Slice, i: nat, o: Open)
    requires i <= |s.lines| && IsOpen(o) && forall k :: 0 <= k < |s.lines| ==> NoLineFeed(s.lines[k])
    ensures forall k :: 0 <= k < |Rendered(s, i, o)| ==> NoLineFeed(Rendered(s, i, o)[k])
    decreases |s.lines| - i
  {
    if i < |s.lines| {
      RenderedHasNoLineFeed(s, i + 1, Render(s, i, o).1);
    }
  }

  /** The lines of the excerpt's text are the balanced lines. */
  lemma ExcerptLines(markdown: string, start: nat, end: nat)
    requires start <= end <= |markdown|
    ensures Split(Excerpt(markdown, start, end)) ==
      BalancedLines(SliceOf(markdown, start, end), ActiveAt(markdown, start))
  {
    hide RenderMarker, Rendered, Render;
    var s, active := SliceOf(markdown, start, end), ActiveAt(markdown, start);
    var o := StartOpen(s, active);
    forall k | 0 <= k < |s.lines| ensures NoLineFeed(s.lines[k]) { SplitHasNoLineFeed(markdown[start..end], k); }
    RenderedHasNoLineFeed(s, 0, o);
    RenderedLength(s, 0, o);
    SplitJoin(BalancedLines(s, active));
  }

  /** Line `i` of the slice is a line of the document; only the empty rest after the last
      line feed of a slice is not. */
  predicate IsDocumentLine(markdown: string, start: nat, end: nat, i: nat)
    requires start <= end <= |markdown|
  {
    var n := |Split(markdown[start..end])|;
    i < n && (i + 1 < n || end == |markdown|)
  }

  /** Line `i` of the slice stands in the shown text as the line it comes from stands in the document. */
  ghost predicate StandsAsInDocument(r: Reader, markdown: string, start: nat, shown: seq<string>, i: nat)
    requires start <= |markdown|
  {
    var doc, n, h := Split(markdown), |Split(markdown[..start])| - 1, Before(ActiveAt(markdown, start));
    && n + i < |doc| && h + i < |shown|
    && SameLine(r, Read(r, None, doc[..n + i]), doc[n + i], Read(r, None, shown[..h + i]), shown[h + i])
  }

  /** The text of the excerpt gives every line the standing it has in the document, changes
      nothing but delimiters, and ends outside any fence. */
  ghost predicate ReadsLikeDocument(r: Reader, markdown: string, start: nat, end: nat)
    requires start <= end <= |markdown|
  {
    var shown := Split(Excerpt(markdown, start, end));
    && Read(r, None, shown).None?
    && forall i :: IsDocumentLine(markdown, start, end, i) ==> StandsAsInDocument(r, markdown, start, shown, i)
  }

  lemma LineOfDocument(r: Reader, markdown: string, start: nat, end: nat, i: nat)
    requires start <= end <= |markdown| && Whole(SliceOf(markdown, start, end)) && AgreesFrom(r, None, Split(markdown))
    requires IsDocumentLine(markdown, start, end, i)
    ensures var doc, lines, n := Split(markdown), Split(markdown[start..end]), |Split(markdown[..start])| - 1;
      && n + i < |doc| && doc[n + i] == lines[i]
      && Read(r, None, doc[..n + i]) == Read(r, ActiveAt(markdown, start), lines[..i])
  {
    hide Read, Split, AgreesFrom;
    LinesBefore(r, markdown, start);
    LinesWithin(markdown, start, end, i);
    var doc, lines, n := Split(markdown), Split(markdown[start..end]), |Split(markdown[..start])| - 1;
    var before := Split(markdown[..start])[..n];
    assert doc[..n + i] == before + Split(markdown[start..])[..i];
    ReadConcat(r, None, before, lines[..i]);
  }

  /** The lines of a slice are lines of the document and at most an empty rest. */
  lemma SliceLines(markdown: string, start: nat, end: nat, i: nat)
    requires start <= end <= |markdown| && Whole(SliceOf(markdown, start, end))
    requires i < |Split(markdown[start..end])|
    ensures IsDocumentLine(markdown, start, end, i)
      || (i + 1 == |Split(markdown[start..end])| && Split(markdown[start..end])[i] == "")
  {
    var slice := markdown[start..end];
    if end != |markdown| {
      assert start < end ==> slice[|slice| - 1] == markdown[end - 1];
      SplitConcat(slice, "");
    }
  }

  lemma SliceAgrees(r: Reader, markdown: string, start: nat, end: nat)
    requires start <= end <= |markdown| && Whole(SliceOf(markdown, start, end)) && AgreesFrom(r, None, Split(markdown))
    ensures AgreesFrom(r, ActiveAt(markdown, start), SliceOf(markdown, start, end).lines)
  {
    hide Split, ActiveAt, AgreesFrom, Read;
    var active, lines, rest := ActiveAt(markdown, start), Split(markdown[start..end]), Split(markdown[start..]);
    LinesBefore(r, markdown, start);
    var n := |lines| - 1;
    SliceLines(markdown, start, end, n);
    if IsDocumentLine(markdown, start, end, n) {
      assert markdown[start..end] == markdown[start..];
    } else {
      if n > 0 { LinesWithin(markdown, start, end, n - 1); }
      assert lines == lines[..n] + [""];
      assert lines[..n] == rest[..n] by {
        assert n > 0 ==> lines[..n] == lines[..n - 1] + [lines[n - 1]] && rest[..n] == rest[..n - 1] + [rest[n - 1]];
      }
      assert rest == rest[..n] + rest[n..];
      AgreesConcat(r, active, rest[..n], rest[n..]);
      AgreesConcat(r, active, lines[..n], [""]);
      EmptyAgrees(r, Read(Repository, active, lines[..n]));
    }
  }

  lemma EmptyAgrees(r: Reader, s: State)
    requires IsState(s)
    ensures AgreesFrom(r, s, [""])
  {
    EmptyRole(r, s);
    EmptyRole(Repository, s);
  }

  lemma EmptyInfo()
    ensures !TildeInfo("")
  {
  }

  /** In an excerpt that ends outside any fence an empty last line stands as it should. */
  lemma {:induction false} LastEmpty(r: Reader, s: Slice, i: nat, o: Open, shown: State)
    requires Whole(s) && i < |s.lines| && s.lines[|s.lines| - 1] == ""
    requires IsOpen(o) && Agreed(r, s, i, o) && IsState(shown) && Read(r, shown, Rendered(s, i, o)).None?
    ensures |Rendered(s, i, o)| >= |s.lines| - i
    ensures SameFrom(r, s.lines, i, |s.lines| - 1, Source(o), shown, Rendered(s, i, o))
    decreases |s.lines| - i
  {
    hide Step, Agreed, SameFrom, SameLine, Render, Rendered;
    var (line, next) := Render(s, i, o);
    var rest := Rendered(s, i, o);
    RenderedStep(s, i, o);
    RenderedLength(s, i, o);
    if i + 1 == |s.lines| {
      FirstLine(r, s.lines, i, Source(o), shown, rest);
      EmptyAtEnd(r, s, o, shown);
    } else {
      assert rest[1..] == Rendered(s, i + 1, next);
      NextSource(r, s, i, o);
      LastEmpty(r, s, i + 1, next, Step(r, shown, line));
      LaterLine(r, s.lines, i, |s.lines| - 1, Source(o), shown, rest);
    }
  }

  lemma EmptyRole(r: Reader, s: State)
    requires IsState(s)
    ensures RoleOf(r, s, "") == if s.None? then Prose else Code
  {
  }

  lemma RenderEmpty(s: Slice, i: nat, o: Open)
    requires i < |s.lines| && s.lines[i] == "" && IsOpen(o)
    ensures Render(s, i, o) == ("", o)
  {
    hide RenderMarker;
  }

  lemma ReadAfterEmpty(r: Reader, s: State, tail: seq<string>)
    requires IsState(s)
    ensures Read(r, s, [""] + tail) == Read(r, s, tail)
  {
    hide Step;
    BlankLineKeeps(r, s);
    assert ([""] + tail)[1..] == tail;
  }

  lemma EmptyAtEnd(r: Reader, s: Slice, o: Open, shown: State)
    requires Whole(s) && |s.lines| > 0 && s.lines[|s.lines| - 1] == ""
    requires IsOpen(o) && IsState(shown) && Read(r, shown, Rendered(s, |s.lines| - 1, o)).None?
    ensures SameLine(r, Source(o), "", shown, Rendered(s, |s.lines| - 1, o)[0])
  {
    hide Render, Rendered, Read, Step, RoleOf, Shape, FenceOf;
    var i := |s.lines| - 1;
    RenderEmpty(s, i, o);
    RenderedStep(s, i, o);
    RenderedAtEnd(s, o);
    EmptyRole(r, shown);
    EmptyRole(r, Source(o));
    if o.Open? {
      ReadAfterEmpty(r, shown, [o.render]);
      ReadOne(r, shown, o.render);
      RenderedEnd(r, o.render);
    } else {
      ReadAfterEmpty(r, shown, []);
      ReadNothing(r, shown, []);
    }
  }

  /** A line of the document stands in the excerpt's text as a line of the slice stands in its lines. */
  lemma StandsIsSame(r: Reader, markdown: string, start: nat, end: nat, i: nat)
    requires start <= end <= |markdown| && Whole(SliceOf(markdown, start, end)) && AgreesFrom(r, None, Split(markdown))
    requires IsDocumentLine(markdown, start, end, i)
    ensures var s, active := SliceOf(markdown, start, end), ActiveAt(markdown, start);
      var output := BalancedLines(s, active);
      && Before(active) + i < |output|
      && (StandsAsInDocument(r, markdown, start, output, i) <==> SameAt(r, s.lines, i, active, output))
  {
    hide Read, Split, SameLine, BalancedLines, CompleteLines, ActiveAt, AgreesFrom, StartOpen, Rendered;
    HeadRead(r, SliceOf(markdown, start, end), ActiveAt(markdown, start), i);
    LineOfDocument(r, markdown, start, end, i);
  }

  lemma LineStands(r: Reader, markdown: string, start: nat, end: nat, i: nat)
    requires start <= end <= |markdown| && Whole(SliceOf(markdown, start, end)) && AgreesFrom(r, None, Split(markdown))
    requires ReadsLikeDocument(r, markdown, start, end) && i < |SliceOf(markdown, start, end).lines|
    ensures var s, active := SliceOf(markdown, start, end), ActiveAt(markdown, start);
      Before(active) + i < |BalancedLines(s, active)| && SameAt(r, s.lines, i, active, BalancedLines(s, active))
  {
    hide Read, Split, SameAt, BalancedLines, StandsAsInDocument, Excerpt, CompleteLines, ActiveAt, AgreesFrom,
      StartOpen, Rendered, SameFrom;
    var s, active := SliceOf(markdown, start, end), ActiveAt(markdown, start);
    ExcerptLines(markdown, start, end);
    if IsDocumentLine(markdown, start, end, i) {
      StandsIsSame(r, markdown, start, end, i);
    } else {
      SliceLines(markdown, start, end, i);
      SliceAgrees(r, markdown, start, end);
      LastStands(r, s, active);
    }
  }

  lemma LastStands(r: Reader, s: Slice, active: State)
    requires Whole(s) && |s.lines| > 0 && s.lines[|s.lines| - 1] == "" && IsState(active)
    requires AgreesFrom(r, active, s.lines)
    requires Read(r, None, BalancedLines(s, active)).None?
    ensures var i, output := |s.lines| - 1, BalancedLines(s, active);
      Before(active) + i < |output| && SameAt(r, s.lines, i, active, output)
  {
    hide Read, SameAt, BalancedLines, AgreesFrom, StartOpen, Rendered, SameFrom;
    var o := StartOpen(s, active);
    assert s.lines[0..] == s.lines;
    HeadRead(r, s, active, 0);
    LastEmpty(r, s, 0, o, Shown(o));
    AfterHead(r, s, active, |s.lines| - 1);
  }

  /** No delimiter merges in the excerpt, and no line shown as code ends its fence. */
  ghost predicate ShowsFences(r: Reader, markdown: string, start: nat, end: nat)
    requires start <= end <= |markdown|
  {
    var s, active := SliceOf(markdown, start, end), ActiveAt(markdown, start);
    MergeFree(s, 0, active) && CodeStays(r, s, 0, StartOpen(s, active))
  }

  /** In a document that the reader and the repository read alike, the text of the excerpt of a
      line-aligned slice reads like the document exactly when no delimiter merges in it and no
      line shown as code ends its fence. */
  lemma ExcerptReadsLikeDocument(r: Reader, markdown: string, start: nat, end: nat)
    requires start <= end <= |markdown| && Whole(SliceOf(markdown, start, end)) && AgreesFrom(r, None, Split(markdown))
    ensures ReadsLikeDocument(r, markdown, start, end) <==> ShowsFences(r, markdown, start, end)
  {
    hide Read, Split, SameAt, StandsAsInDocument, BalancedLines, MergeFree, CodeStays, Excerpt, CompleteLines,
      ActiveAt, AgreesFrom, StartOpen;
    var s, active := SliceOf(markdown, start, end), ActiveAt(markdown, start);
    var output := BalancedLines(s, active);
    SliceAgrees(r, markdown, start, end);
    ExcerptKeepsMeaning(r, s, active);
    ExcerptLines(markdown, start, end);
    if ReadsLikeDocument(r, markdown, start, end) {
      forall i | 0 <= i < |s.lines| ensures Before(active) + i < |output| && SameAt(r, s.lines, i, active, output) {
        LineStands(r, markdown, start, end, i);
      }
      HeadLength(s, active);
    }
    if KeepsMeaning(r, s.lines, active, output) {
      forall i | IsDocumentLine(markdown, start, end, i) ensures StandsAsInDocument(r, markdown, start, output, i) {
        StandsIsSame(r, markdown, start, end, i);
      }
    }
  }

  lemma HeadLength(s: Slice, active: State)
    requires IsState(active)
    ensures |BalancedLines(s, active)| >= Before(active) + |s.lines|
  {
    hide Rendered, StartOpen;
    HeadRead(Repository, s, active, 0);
  }

  lemma SliceFits(r: Reader, markdown: string, start: nat, end: nat)
    requires start <= end <= |markdown| && Whole(SliceOf(markdown, start, end)) && Fits(r, Split(markdown))
    ensures Fits(r, SliceOf(markdown, start, end).lines)
  {
    hide Split, Agreeable, ActiveAt, AgreesFrom;
    var lines := Split(markdown[start..end]);
    forall i | 0 <= i < |lines| ensures r.CommonMark? ==> IsLine(lines[i]) && Agreeable(lines[i]) {
      SliceLines(markdown, start, end, i);
      if IsDocumentLine(markdown, start, end, i) {
        AgreesWithItself(None, Split(markdown));
        LineOfDocument(Repository, markdown, start, end, i);
      } else {
        EmptyFits();
      }
    }
  }

  lemma EmptyFits()
    ensures IsLine("") && Agreeable("")
  {
  }

  /** As the repository reads fences this is so of every document, and under section 4.5 of every
      document of agreeable lines; and then merging is all that can go wrong. */
  lemma FittingDocumentKeepsMeaning(r: Reader, markdown: string, start: nat, end: nat)
    requires start <= end <= |markdown| && Whole(SliceOf(markdown, start, end)) && Fits(r, Split(markdown))
    ensures ReadsLikeDocument(r, markdown, start, end)
      <==> MergeFree(SliceOf(markdown, start, end), 0, ActiveAt(markdown, start))
  {
    hide Split, MergeFree, CodeStays, ActiveAt, AgreesFrom, Fits, Excerpt, RenderMarker, ReadsLikeDocument;
    var s, active := SliceOf(markdown, start, end), ActiveAt(markdown, start);
    var o := StartOpen(s, active);
    if o.Open? { ChosenIsSafe(s, 0, active.value, ""); }
    FittingAgrees(r, None, Split(markdown));
    ExcerptReadsLikeDocument(r, markdown, start, end);
    SliceFits(r, markdown, start, end);
    FittingCodeStays(r, s, 0, o);
  }

  /** In particular the excerpt reads like the document when no backtick fence of the document
      has an info string that begins with a tilde. */
  lemma PlainDocumentsKeepMeaning(r: Reader, markdown: string, start: nat, end: nat)
    requires start <= end <= |markdown| && Whole(SliceOf(markdown, start, end)) && Fits(r, Split(markdown))
    requires forall d :: 0 <= d < |Split(markdown)| ==> !TildeInfo(Split(markdown)[d])
    ensures ReadsLikeDocument(r, markdown, start, end)
  {
    hide Read, Split, MergeFree, Excerpt, ActiveAt, TildeInfo, Fits, ReadsLikeDocument, AgreesFrom;
    var s := SliceOf(markdown, start, end);
    AgreesWithItself(None, Split(markdown));
    forall k | 0 <= k < |s.lines| ensures !TildeInfo(s.lines[k]) {
      SliceLines(markdown, start, end, k);
      if IsDocumentLine(markdown, start, end, k) {
        LineOfDocument(Repository, markdown, start, end, k);
      } else {
        EmptyInfo();
      }
    }
    NoTildeInfoIsMergeFree(s, 0, ActiveAt(markdown, start));
    FittingDocumentKeepsMeaning(r, markdown, start, end);
  }
}
