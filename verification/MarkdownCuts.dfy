/** Excerpts of slices that may cut a line at either end: what the pieces of cut lines do to the
    excerpt, and exactly when it still reads like the slice and like the document. */
module MarkdownCuts {
  import opened Basics
  import opened MarkdownFences
  import opened MarkdownReaders
  import opened MarkdownExcerpts
  import opened MarkdownDocuments

  // ---------- a slice with pieces of lines ----------

  /** The first or the last line of the slice is only a piece of a line. */
  predicate IsPiece(s: Slice, i: nat) {
    (i == 0 && !s.starts) || (i + 1 == |s.lines| && !s.ends)
  }

  /** A piece opens and closes nothing: it is prose or code, whatever it looks like. */
  function RoleIn(s: Slice, i: nat, state: State): Role
    requires i < |s.lines| && IsState(state)
  {
    if !IsPiece(s, i) then RoleOf(Repository, state, s.lines[i]) else if state.None? then Prose else Code
  }

  function StepIn(s: Slice, i: nat, state: State): (next: State)
    requires i < |s.lines| && IsState(state)
    ensures IsState(next)
  {
    if IsPiece(s, i) then state else Step(Repository, state, s.lines[i])
  }

  /** What is open in the source before line `i` of the slice. */
  function ReadIn(s: Slice, i: nat, active: State): (state: State)
    requires i <= |s.lines| && IsState(active)
    ensures IsState(state)
  {
    if i == 0 then active else StepIn(s, i - 1, ReadIn(s, i - 1, active))
  }

  predicate SameLineIn(s: Slice, i: nat, source: State, shown: State, line: string)
    requires i < |s.lines| && IsState(source) && IsState(shown)
  {
    && RoleOf(Repository, shown, line) == RoleIn(s, i, source)
    && (RoleIn(s, i, source) == Prose || RoleIn(s, i, source) == Code ==> line == s.lines[i])
  }

  predicate SameAtIn(s: Slice, i: nat, active: State, output: seq<string>)
    requires i < |s.lines| && Before(active) + i < |output| && IsState(active)
  {
    var k := Before(active) + i;
    SameLineIn(s, i, ReadIn(s, i, active), Read(Repository, None, output[..k]), output[k])
  }

  /** Every line and every piece stands in the excerpt as in the slice, only delimiters look
      different, and the excerpt leaves no fence open. */
  ghost predicate KeepsMeaningIn(s: Slice, active: State, output: seq<string>)
    requires IsState(active)
  {
    && |output| >= Before(active) + |s.lines|
    && Read(Repository, None, output).None?
    && (forall i :: 0 <= i < |s.lines| ==> SameAtIn(s, i, active, output))
  }

  /** No opening line is given a marker that runs into its info string, and no piece of a line
      outside fences looks like a fence. */
  predicate FaultAt(s: Slice, i: nat, state: State)
    requires i < |s.lines| && IsState(state)
  {
    || (RoleIn(s, i, state) == Opening && Merges(s, i, ParseMarkdownFence(s.lines[i]).value))
    || (IsPiece(s, i) && state.None? && ParseMarkdownFence(s.lines[i]).Some?)
  }

  ghost predicate FaultFree(s: Slice, active: State)
    requires IsState(active)
  {
    forall i :: 0 <= i < |s.lines| ==> !FaultAt(s, i, ReadIn(s, i, active))
  }

  // ---------- the excerpt's lines ----------

  /** What the excerpt has open before line `i` of the slice. */
  function OpenAt(s: Slice, i: nat, active: State): (o: Open)
    requires i <= |s.lines| && IsState(active)
    ensures IsOpen(o)
  {
    if i == 0 then StartOpen(s, active) else Render(s, i - 1, OpenAt(s, i - 1, active)).1
  }

  lemma OpenIsRead(s: Slice, i: nat, o: Open)
    requires i < |s.lines| && IsOpen(o)
    ensures s.Complete(i) <==> !IsPiece(s, i)
    ensures Source(Render(s, i, o).1) == StepIn(s, i, Source(o))
  {
    hide RenderMarker, Shape;
  }

  lemma {:induction false} SourceAt(s: Slice, i: nat, active: State)
    requires i <= |s.lines| && IsState(active)
    ensures Source(OpenAt(s, i, active)) == ReadIn(s, i, active)
  {
    hide StartOpen, Render, StepIn;
    if i > 0 {
      SourceAt(s, i - 1, active);
      OpenIsRead(s, i - 1, OpenAt(s, i - 1, active));
    }
  }

  lemma {:induction false} RenderedFrom(s: Slice, i: nat, active: State)
    requires i <= |s.lines| && IsState(active)
    ensures var rest := Rendered(s, 0, StartOpen(s, active));
      |rest| >= |s.lines| && rest[i..] == Rendered(s, i, OpenAt(s, i, active))
  {
    hide StartOpen, Render;
    RenderedLength(s, 0, StartOpen(s, active));
    if i > 0 {
      RenderedFrom(s, i - 1, active);
      var o, rest := OpenAt(s, i - 1, active), Rendered(s, 0, StartOpen(s, active));
      RenderedStep(s, i - 1, o);
      assert rest[i..] == rest[i - 1..][1..];
    }
  }

  /** The excerpt's line for line `i`, and the excerpt's reading before and after it. */
  lemma LineAt(s: Slice, i: nat, active: State)
    requires i < |s.lines| && IsState(active)
    ensures var k, output := Before(active) + i, BalancedLines(s, active);
      && k < |output| && output[k] == Render(s, i, OpenAt(s, i, active)).0
      && Read(Repository, None, output[..k + 1]) == Step(Repository, Read(Repository, None, output[..k]), output[k])
  {
    hide Render, Rendered, Step, Read, StartOpen;
    var k, output := Before(active) + i, BalancedLines(s, active);
    var rest := Rendered(s, 0, StartOpen(s, active));
    RenderedFrom(s, i, active);
    RenderedStep(s, i, OpenAt(s, i, active));
    assert rest[i..][0] == rest[i];
    assert StartOpen(s, active).Open? <==> active.Some? by { SourceAt(s, 0, active); }
    ReadNext(Repository, None, output, k);
  }

  lemma LastAt(s: Slice, active: State)
    requires IsState(active)
    ensures var o, k, output := OpenAt(s, |s.lines|, active), Before(active) + |s.lines|, BalancedLines(s, active);
      && k <= |output| && Read(Repository, None, output)
        == if o.Open? then Step(Repository, Read(Repository, None, output[..k]), o.render)
           else Read(Repository, None, output[..k])
  {
    hide Render, Rendered, Step, Read, StartOpen;
    var o, k, output := OpenAt(s, |s.lines|, active), Before(active) + |s.lines|, BalancedLines(s, active);
    var rest := Rendered(s, 0, StartOpen(s, active));
    RenderedFrom(s, |s.lines|, active);
    RenderedAtEnd(s, o);
    assert StartOpen(s, active).Open? <==> active.Some? by { SourceAt(s, 0, active); }
    assert rest == rest[..|s.lines|] + rest[|s.lines|..];
    assert output == output[..k] + rest[|s.lines|..];
    ReadConcat(Repository, None, output[..k], rest[|s.lines|..]);
    if o.Open? {
      ReadOne(Repository, Read(Repository, None, output[..k]), o.render);
    } else {
      ReadNothing(Repository, Read(Repository, None, output[..k]), []);
    }
  }

  lemma FirstAt(s: Slice, active: State)
    requires IsState(active)
    ensures Before(active) <= |BalancedLines(s, active)|
    ensures Read(Repository, None, BalancedLines(s, active)[..Before(active)]) == Shown(StartOpen(s, active))
  {
    hide Rendered, Step, Read;
    HeadRead(Repository, s, active, 0);
    ReadNothing(Repository, Shown(StartOpen(s, active)), Rendered(s, 0, StartOpen(s, active)));
  }

  // ---------- what a fault does ----------

  lemma PieceInStep(s: Slice, i: nat, o: Open, shown: State)
    requires i < |s.lines| && IsPiece(s, i) && IsOpen(o) && IsState(shown) && InStep(s, i, o, shown)
    ensures Render(s, i, o) == (s.lines[i], o)
    ensures SameLineIn(s, i, Source(o), shown, s.lines[i]) <==> !FaultAt(s, i, Source(o))
    ensures !FaultAt(s, i, Source(o)) ==> InStep(s, i + 1, o, Step(Repository, shown, s.lines[i]))
  {
    hide RenderMarker, Longest, Shape;
    OpenIsRead(s, i, o);
    if o.Open? { SafeInside(Repository, s, i, o.opening, o.render); }
  }

  lemma WholeLineInStep(s: Slice, i: nat, o: Open, shown: State)
    requires i < |s.lines| && !IsPiece(s, i) && IsOpen(o) && IsState(shown) && InStep(s, i, o, shown)
    ensures var (line, next) := Render(s, i, o);
      if FaultAt(s, i, Source(o)) then Stuck(next, Step(Repository, shown, line))
      else SameLineIn(s, i, Source(o), shown, line) && InStep(s, i + 1, next, Step(Repository, shown, line))
  {
    hide Shape, ParseMarkdownFence, Longest, RenderMarker, Matches, ClosesMarkdownFence;
    OpenIsRead(s, i, o);
    var (line, next) := Render(s, i, o);
    if o.Closed? {
      if ParseMarkdownFence(s.lines[i]).Some? { OpenLine(Repository, s, i); }
    } else if RoleOf(Repository, Source(o), s.lines[i]) == Closing {
      CloseLine(Repository, s, i, o);
      var indent :| line == indent + o.render && Indents(Repository, indent);
      ShortCloses(Repository, indent, o.render, shown);
    } else {
      SafeInside(Repository, s, i, o.opening, o.render);
    }
  }

  lemma LineInStep(s: Slice, i: nat, o: Open, shown: State)
    requires i < |s.lines| && IsOpen(o) && IsState(shown) && InStep(s, i, o, shown)
    ensures var (line, next) := Render(s, i, o);
      if FaultAt(s, i, Source(o)) then
        !SameLineIn(s, i, Source(o), shown, line) || Stuck(next, Step(Repository, shown, line))
      else SameLineIn(s, i, Source(o), shown, line) && InStep(s, i + 1, next, Step(Repository, shown, line))
  {
    hide Render, SameLineIn, InStep, Stuck, Step, FaultAt;
    if IsPiece(s, i) { PieceInStep(s, i, o, shown); } else { WholeLineInStep(s, i, o, shown); }
  }

  lemma StuckLine(s: Slice, i: nat, o: Open, shown: State)
    requires i < |s.lines| && IsOpen(o) && IsState(shown) && Stuck(o, shown)
    ensures var (line, next) := Render(s, i, o);
      SameLineIn(s, i, Source(o), shown, line) ==> Stuck(next, Step(Repository, shown, line))
  {
    hide Shape, ParseMarkdownFence, Longest, RenderMarker, Matches, ClosesMarkdownFence;
    OpenIsRead(s, i, o);
    var (line, next) := Render(s, i, o);
    if s.Complete(i) && RoleOf(Repository, Source(o), s.lines[i]) == Closing {
      CloseLine(Repository, s, i, o);
      var indent :| line == indent + o.render && Indents(Repository, indent);
      ShortCloses(Repository, indent, o.render, shown);
    }
  }

  // ---------- the main result for slices ----------

  /** The excerpt read up to line `i` of the slice. */
  function ShownAt(s: Slice, i: nat, active: State): (shown: State)
    requires i <= |s.lines| && IsState(active)
    ensures IsState(shown)
  {
    var k, output := Before(active) + i, BalancedLines(s, active);
    Read(Repository, None, if k <= |output| then output[..k] else output)
  }

  lemma NextAt(s: Slice, i: nat, active: State)
    requires i < |s.lines| && IsState(active)
    ensures var (line, next) := Render(s, i, OpenAt(s, i, active));
      && next == OpenAt(s, i + 1, active) && Source(OpenAt(s, i, active)) == ReadIn(s, i, active)
      && ShownAt(s, i + 1, active) == Step(Repository, ShownAt(s, i, active), line)
      && Before(active) + i < |BalancedLines(s, active)|
      && (SameAtIn(s, i, active, BalancedLines(s, active)) <==>
        SameLineIn(s, i, ReadIn(s, i, active), ShownAt(s, i, active), line))
  {
    hide Render, Step, Read, SameLineIn, BalancedLines, ReadIn;
    LineAt(s, i, active);
    SourceAt(s, i, active);
  }

  lemma {:induction false} InStepAt(s: Slice, i: nat, active: State)
    requires i <= |s.lines| && IsState(active)
    requires forall k :: 0 <= k < i ==> !FaultAt(s, k, ReadIn(s, k, active))
    ensures InStep(s, i, OpenAt(s, i, active), ShownAt(s, i, active))
  {
    hide Render, Step, SameLineIn, FaultAt, ShownAt, ReadIn, InStep;
    if i == 0 {
      StartsInStep(s, active);
    } else {
      InStepAt(s, i - 1, active);
      NextAt(s, i - 1, active);
      LineInStep(s, i - 1, OpenAt(s, i - 1, active), ShownAt(s, i - 1, active));
    }
  }

  lemma StartsInStep(s: Slice, active: State)
    requires IsState(active)
    ensures InStep(s, 0, OpenAt(s, 0, active), ShownAt(s, 0, active))
  {
    hide RenderMarker, BalancedLines, Read;
    FirstAt(s, active);
    if active.Some? { ChosenIsSafe(s, 0, active.value, ""); }
  }

  lemma {:induction false} StuckFailsIn(s: Slice, i: nat, active: State)
    requires i <= |s.lines| && IsState(active) && Stuck(OpenAt(s, i, active), ShownAt(s, i, active))
    ensures !KeepsMeaningIn(s, active, BalancedLines(s, active))
    decreases |s.lines| - i
  {
    hide Render, Step, SameLineIn, Stuck, ShownAt, ReadIn, BalancedLines, SameAtIn, Read;
    if i == |s.lines| {
      StuckAtEnd(s, active);
    } else {
      NextAt(s, i, active);
      StuckLine(s, i, OpenAt(s, i, active), ShownAt(s, i, active));
      if SameAtIn(s, i, active, BalancedLines(s, active)) { StuckFailsIn(s, i + 1, active); }
    }
  }

  lemma StuckAtEnd(s: Slice, active: State)
    requires IsState(active) && Stuck(OpenAt(s, |s.lines|, active), ShownAt(s, |s.lines|, active))
    ensures Read(Repository, None, BalancedLines(s, active)).Some?
  {
    hide Read, BalancedLines, FenceOf, OpenAt;
    LastAt(s, active);
    var o, shown := OpenAt(s, |s.lines|, active), ShownAt(s, |s.lines|, active);
    ShortCloses(Repository, "", o.render, shown);
    assert "" + o.render == o.render;
  }

  lemma EndsInStep(s: Slice, active: State)
    requires IsState(active) && InStep(s, |s.lines|, OpenAt(s, |s.lines|, active), ShownAt(s, |s.lines|, active))
    ensures Read(Repository, None, BalancedLines(s, active)).None?
    ensures |BalancedLines(s, active)| >= Before(active) + |s.lines|
  {
    hide Read, BalancedLines, OpenAt, Safe, Step;
    LastAt(s, active);
    var o := OpenAt(s, |s.lines|, active);
    if o.Open? { RenderedEnd(Repository, o.render); }
  }

  /** The excerpt of any slice, whether or not it cuts lines, keeps the meaning of every line and
      every piece exactly when no opening line is given a marker that runs into its info string
      and no piece of a line outside fences looks like a fence. */
  lemma AnyExcerptKeepsMeaning(s: Slice, active: State)
    requires IsState(active)
    ensures KeepsMeaningIn(s, active, BalancedLines(s, active)) <==> FaultFree(s, active)
  {
    hide Render, Step, SameLineIn, FaultAt, ShownAt, ReadIn, InStep, Stuck, BalancedLines, SameAtIn, Read;
    if FaultFree(s, active) {
      InStepAt(s, |s.lines|, active);
      EndsInStep(s, active);
      forall i | 0 <= i < |s.lines| ensures SameAtIn(s, i, active, BalancedLines(s, active)) {
        InStepAt(s, i, active);
        NextAt(s, i, active);
        LineInStep(s, i, OpenAt(s, i, active), ShownAt(s, i, active));
      }
    } else {
      var i := FirstFault(s, active);
      InStepAt(s, i, active);
      NextAt(s, i, active);
      LineInStep(s, i, OpenAt(s, i, active), ShownAt(s, i, active));
      if SameAtIn(s, i, active, BalancedLines(s, active)) { StuckFailsIn(s, i + 1, active); }
    }
  }

  lemma FirstFault(s: Slice, active: State) returns (i: nat)
    requires IsState(active) && !FaultFree(s, active)
    ensures i < |s.lines| && FaultAt(s, i, ReadIn(s, i, active))
    ensures forall k :: 0 <= k < i ==> !FaultAt(s, k, ReadIn(s, k, active))
  {
    hide FaultAt, ReadIn;
    i := 0;
    while !FaultAt(s, i, ReadIn(s, i, active))
      invariant i < |s.lines| && forall k :: 0 <= k < i ==> !FaultAt(s, k, ReadIn(s, k, active))
      decreases |s.lines| - i
    {
      i := i + 1;
    }
  }

  // ---------- lines of the document ----------

  /** The lines of two texts put together: the last of the first and the first of the second
      become one. */
  function Joined(x: seq<string>, y: seq<string>): seq<string>
    requires |x| >= 1 && |y| >= 1
  {
    x[..|x| - 1] + [x[|x| - 1] + y[0]] + y[1..]
  }

  lemma NothingJoined(y: seq<string>)
    requires |y| >= 1
    ensures Joined([""], y) == y
  {
    assert "" + y[0] == y[0] && y == [y[0]] + y[1..];
  }

  lemma {:induction false} SplitAnywhere(a: string, b: string)
    ensures Split(a + b) == Joined(Split(a), Split(b))
  {
    if a == "" {
      assert "" + b == b;
      NothingJoined(Split(b));
    } else {
      hide Split, WithFirst, Joined;
      SplitAnywhere(a[1..], b);
      assert (a + b)[1..] == a[1..] + b;
      SplitFirst(a);
      SplitFirst(a + b);
      WithFirstAnywhere(a[0], Split(a[1..]), Split(b));
    }
  }

  lemma WithFirstAnywhere(c: char, x: seq<string>, y: seq<string>)
    requires |x| >= 1 && |y| >= 1
    ensures WithFirst(c, Joined(x, y)) == Joined(WithFirst(c, x), y)
  {
    if c != '\n' {
      if |x| == 1 {
        assert [c] + (x[0] + y[0]) == [c] + x[0] + y[0] && Joined(x, y)[1..] == y[1..];
      } else {
        assert Joined(x, y)[1..] == x[1..][..|x| - 2] + [x[|x| - 1] + y[0]] + y[1..] && Joined(x, y)[0] == x[0];
      }
    }
  }

  /** The first line of the slice is whole, or it is not the first. */
  predicate AfterPiece(markdown: string, start: nat, i: nat)
    requires start <= |markdown|
  {
    i > 0 || start == 0 || markdown[start - 1] == '\n'
  }

  /** A line of the slice that is a line of the document, and not only the end of one. */
  predicate IsWholeLine(markdown: string, start: nat, end: nat, i: nat)
    requires start <= end <= |markdown|
  {
    IsDocumentLine(markdown, start, end, i) && AfterPiece(markdown, start, i)
  }

  /** The text of the excerpt gives every whole line of the slice the standing it has in the
      document and changes nothing but delimiters; a piece of a line is shown as it is and
      opens and closes nothing; and the text ends outside any fence. */
  ghost predicate ReadsLikeSource(markdown: string, start: nat, end: nat)
    requires start <= end <= |markdown|
  {
    var s, h := SliceOf(markdown, start, end), Before(ActiveAt(markdown, start));
    var shown := Split(Excerpt(markdown, start, end));
    && Read(Repository, None, shown).None?
    && (forall i :: IsWholeLine(markdown, start, end, i) ==> StandsAsInDocument(Repository, markdown, start, shown, i))
    && (forall i :: 0 <= i < |s.lines| && IsPiece(s, i) ==> PieceStands(s, h, shown, i))
  }

  predicate PieceStands(s: Slice, h: nat, shown: seq<string>, i: nat)
    requires i < |s.lines|
  {
    && h + i < |shown| && shown[h + i] == s.lines[i]
    && RoleOf(Repository, Read(Repository, None, shown[..h + i]), shown[h + i]) in {Prose, Code}
  }

  /** The slice begins within a delimiter of the document and goes on to a whole line. */
  ghost predicate CutsDelimiter(markdown: string, start: nat, end: nat)
    requires start <= end <= |markdown|
  {
    var doc, n := Split(markdown), |Split(markdown[..start])| - 1;
    && !AfterPiece(markdown, start, 0) && IsDocumentLine(markdown, start, end, 1)
    && n < |doc| && RoleOf(Repository, Read(Repository, None, doc[..n]), doc[n]) in {Opening, Closing}
  }

  lemma LastLine(text: string)
    requires EndsLine(text)
    ensures Split(text)[|Split(text)| - 1] == ""
  {
    SplitConcat(text, "");
  }

  /** A whole line of the slice is that line of the document. */
  lemma WholeLineIs(markdown: string, start: nat, end: nat, i: nat)
    requires start <= end <= |markdown| && IsWholeLine(markdown, start, end, i)
    ensures var doc, n := Split(markdown), |Split(markdown[..start])| - 1;
      n + i < |doc| && doc[n + i] == Split(markdown[start..end])[i]
  {
    hide Split;
    var a, b, c := markdown[..start], markdown[start..end], markdown[end..];
    assert markdown == a + (b + c);
    SplitAnywhere(a, b + c);
    SplitAnywhere(b, c);
    if i == 0 { LastLine(a); }
    if end == |markdown| {
      assert c == "" && b + c == b;
    }
  }

  /** What is open at an offset is what is open after the document's lines before that of the
      offset: a line begun does not count. */
  lemma ActiveIs(markdown: string, start: nat)
    requires start <= |markdown| && (start < |markdown| || AfterPiece(markdown, start, 0))
    ensures var n := |Split(markdown[..start])| - 1;
      n <= |Split(markdown)| && ActiveAt(markdown, start) == Read(Repository, None, Split(markdown)[..n])
  {
    hide Split, Read, AgreesFrom;
    var a, b := markdown[..start], markdown[start..];
    assert markdown == a + b;
    SplitAnywhere(a, b);
    if AfterPiece(markdown, start, 0) {
      AgreesWithItself(None, Split(markdown));
      LinesBefore(Repository, markdown, start);
    } else {
      assert Split(markdown)[..|Split(a)| - 1] == Split(a)[..|Split(a)| - 1];
    }
  }

  /** The slice's reading is the document's, unless it begins within a delimiter. */
  lemma {:induction false} SourceIs(markdown: string, start: nat, end: nat, i: nat)
    requires start <= end <= |markdown| && IsWholeLine(markdown, start, end, i) && !CutsDelimiter(markdown, start, end)
    ensures var n := |Split(markdown[..start])| - 1;
      n + i <= |Split(markdown)|
      && ReadIn(SliceOf(markdown, start, end), i, ActiveAt(markdown, start))
        == Read(Repository, None, Split(markdown)[..n + i])
    decreases i
  {
    hide Split, Read, Step, RoleOf, ActiveAt;
    var doc, n, s := Split(markdown), |Split(markdown[..start])| - 1, SliceOf(markdown, start, end);
    WholeLineIs(markdown, start, end, i);
    if i == 0 {
      ActiveIs(markdown, start);
    } else if IsWholeLine(markdown, start, end, i - 1) {
      SourceIs(markdown, start, end, i - 1);
      WholeLineIs(markdown, start, end, i - 1);
      ReadNext(Repository, None, doc, n + i - 1);
    } else {
      BegunLine(markdown, start, end);
    }
  }

  lemma BegunLine(markdown: string, start: nat, end: nat)
    requires start <= end <= |markdown| && IsWholeLine(markdown, start, end, 1) && !AfterPiece(markdown, start, 0)
    ensures var doc, n, s := Split(markdown), |Split(markdown[..start])| - 1, SliceOf(markdown, start, end);
      && n + 1 < |doc| && ActiveAt(markdown, start) == Read(Repository, None, doc[..n])
      && ReadIn(s, 1, ActiveAt(markdown, start)) == ActiveAt(markdown, start)
      && Read(Repository, None, doc[..n + 1]) == Step(Repository, ActiveAt(markdown, start), doc[n])
      && (CutsDelimiter(markdown, start, end)
        <==> RoleOf(Repository, ActiveAt(markdown, start), doc[n]) in {Opening, Closing})
      && (!CutsDelimiter(markdown, start, end) ==>
        Step(Repository, ActiveAt(markdown, start), doc[n]) == ActiveAt(markdown, start))
  {
    hide Read, RoleOf, ActiveAt;
    var doc, n, s := Split(markdown), |Split(markdown[..start])| - 1, SliceOf(markdown, start, end);
    WholeLineIs(markdown, start, end, 1);
    ActiveIs(markdown, start);
    ReadNext(Repository, None, doc, n);
    ProseIsNone(ActiveAt(markdown, start), doc[n]);
  }

  lemma ProseIsNone(state: State, line: string)
    requires IsState(state)
    ensures RoleOf(Repository, state, line) == Prose || RoleOf(Repository, state, line) == Opening <==> state.None?
    ensures RoleOf(Repository, state, line) == Prose ==> Step(Repository, state, line) == state
    ensures Step(Repository, state, line).None?
      <==> RoleOf(Repository, state, line) == Prose || RoleOf(Repository, state, line) == Closing
  {
    hide ParseMarkdownFence, ClosesMarkdownFence;
  }

  // ---------- the main result for documents ----------

  /** Line `i` of the slice has a line in the excerpt, and stands there as in the slice. */
  ghost predicate Stands(s: Slice, i: nat, active: State)
    requires i < |s.lines| && IsState(active)
  {
    var output := BalancedLines(s, active);
    Before(active) + i < |output| && SameAtIn(s, i, active, output)
  }

  lemma WholeIsNoPiece(markdown: string, start: nat, end: nat, i: nat)
    requires start <= end <= |markdown| && IsWholeLine(markdown, start, end, i)
    ensures i < |SliceOf(markdown, start, end).lines| && !IsPiece(SliceOf(markdown, start, end), i)
  {
    hide Split;
  }

  lemma SameInBoth(s: Slice, i: nat, source: State, shown: State, line: string)
    requires i < |s.lines| && !IsPiece(s, i) && IsState(source) && IsState(shown)
    ensures SameLineIn(s, i, source, shown, line) <==> SameLine(Repository, source, s.lines[i], shown, line)
  {
    hide RoleOf;
  }

  lemma WholeLineStands(markdown: string, start: nat, end: nat, i: nat)
    requires start <= end <= |markdown| && IsWholeLine(markdown, start, end, i) && !CutsDelimiter(markdown, start, end)
    ensures var s, active := SliceOf(markdown, start, end), ActiveAt(markdown, start);
      StandsAsInDocument(Repository, markdown, start, BalancedLines(s, active), i) <==> Stands(s, i, active)
  {
    hide Split, Read, ReadIn, RoleOf, SameLine, SameLineIn, ActiveAt, BalancedLines, CutsDelimiter, IsPiece,
      IsWholeLine, Render, OpenAt, Step;
    var s, active := SliceOf(markdown, start, end), ActiveAt(markdown, start);
    WholeLineIs(markdown, start, end, i);
    WholeIsNoPiece(markdown, start, end, i);
    SourceIs(markdown, start, end, i);
    LineAt(s, i, active);
    var k, output := Before(active) + i, BalancedLines(s, active);
    SameInBoth(s, i, ReadIn(s, i, active), Read(Repository, None, output[..k]), output[k]);
  }

  /** Before line `i` the excerpt is inside a fence exactly if the slice is. */
  ghost predicate AlikeAt(s: Slice, i: nat, active: State)
    requires i <= |s.lines| && IsState(active)
  {
    ShownAt(s, i, active).None? <==> ReadIn(s, i, active).None?
  }

  lemma {:induction false} StaysAlike(s: Slice, i: nat, active: State)
    requires i <= |s.lines| && IsState(active) && forall k :: 0 <= k < i ==> Stands(s, k, active)
    ensures AlikeAt(s, i, active)
  {
    hide Render, Step, RoleOf, BalancedLines, Read, OpenAt, ShownAt, SameAtIn;
    if i == 0 {
      StartsAlike(s, active);
    } else {
      StaysAlike(s, i - 1, active);
      assert Stands(s, i - 1, active);
      NextAt(s, i - 1, active);
      var line := Render(s, i - 1, OpenAt(s, i - 1, active)).0;
      ProseIsNone(ShownAt(s, i - 1, active), line);
      ProseIsNone(ReadIn(s, i - 1, active), s.lines[i - 1]);
    }
  }

  lemma StartsAlike(s: Slice, active: State)
    requires IsState(active)
    ensures AlikeAt(s, 0, active)
  {
    hide RenderMarker, BalancedLines, Read;
    FirstAt(s, active);
  }

  /** A piece that is shown as it is and is no delimiter stands as it should. */
  lemma PieceIsSame(s: Slice, i: nat, active: State)
    requires i < |s.lines| && IsState(active) && IsPiece(s, i) && AlikeAt(s, i, active)
    ensures Stands(s, i, active) <==> PieceStands(s, Before(active), BalancedLines(s, active), i)
  {
    hide Render, Step, RoleOf, BalancedLines, Read, OpenAt, ReadIn;
    NextAt(s, i, active);
    var k, output := Before(active) + i, BalancedLines(s, active);
    ProseIsNone(Read(Repository, None, output[..k]), output[k]);
  }

  /** The empty rest after the last line feed. */
  lemma RestIsSame(s: Slice, i: nat, active: State)
    requires i < |s.lines| && IsState(active) && !IsPiece(s, i) && s.lines[i] == "" && AlikeAt(s, i, active)
    ensures Stands(s, i, active)
  {
    hide Render, Step, BalancedLines, Read, OpenAt, ReadIn, ShownAt, RoleOf;
    NextAt(s, i, active);
    RenderEmpty(s, i, OpenAt(s, i, active));
    EmptyRole(Repository, ShownAt(s, i, active));
    EmptyRole(Repository, ReadIn(s, i, active));
  }

  lemma LineKinds(markdown: string, start: nat, end: nat, i: nat)
    requires start <= end <= |markdown| && i < |Split(markdown[start..end])|
    ensures var s := SliceOf(markdown, start, end);
      IsWholeLine(markdown, start, end, i) || IsPiece(s, i) || s.lines[i] == ""
  {
    hide Split;
    var slice := markdown[start..end];
    if i + 1 == |Split(slice)| && end < |markdown| && SliceOf(markdown, start, end).ends {
      assert slice != "" ==> slice[|slice| - 1] == markdown[end - 1];
      LastLine(slice);
    }
  }

  lemma {:induction false} LineStandsToo(markdown: string, start: nat, end: nat, i: nat)
    requires start <= end <= |markdown| && ReadsLikeSource(markdown, start, end) && !CutsDelimiter(markdown, start, end)
    requires i <= |SliceOf(markdown, start, end).lines|
    ensures var s, active := SliceOf(markdown, start, end), ActiveAt(markdown, start);
      forall k :: 0 <= k < i ==> Stands(s, k, active)
    decreases i
  {
    hide Split, ActiveAt, CutsDelimiter, IsPiece, IsWholeLine, Stands, AlikeAt, Read, BalancedLines, StandsAsInDocument,
      PieceStands, Excerpt;
    if i > 0 {
      var s, active := SliceOf(markdown, start, end), ActiveAt(markdown, start);
      LineStandsToo(markdown, start, end, i - 1);
      StaysAlike(s, i - 1, active);
      ExcerptLines(markdown, start, end);
      LineKinds(markdown, start, end, i - 1);
      if IsWholeLine(markdown, start, end, i - 1) {
        WholeLineStands(markdown, start, end, i - 1);
      } else if IsPiece(s, i - 1) {
        PieceIsSame(s, i - 1, active);
      } else {
        RestIsSame(s, i - 1, active);
      }
    }
  }

  lemma SourceFromSlice(markdown: string, start: nat, end: nat)
    requires start <= end <= |markdown| && !CutsDelimiter(markdown, start, end)
    requires var s, active := SliceOf(markdown, start, end), ActiveAt(markdown, start);
      && Read(Repository, None, BalancedLines(s, active)).None?
      && forall i :: 0 <= i < |s.lines| ==> Stands(s, i, active)
    ensures ReadsLikeSource(markdown, start, end)
  {
    hide Split, ActiveAt, CutsDelimiter, IsPiece, IsWholeLine, Stands, AlikeAt, Read, BalancedLines, StandsAsInDocument,
      PieceStands, Excerpt;
    var s, active := SliceOf(markdown, start, end), ActiveAt(markdown, start);
    var shown := Split(Excerpt(markdown, start, end));
    ExcerptLines(markdown, start, end);
    forall i | IsWholeLine(markdown, start, end, i)
      ensures StandsAsInDocument(Repository, markdown, start, shown, i) {
      WholeIsNoPiece(markdown, start, end, i);
      WholeLineStands(markdown, start, end, i);
    }
    forall i | 0 <= i < |s.lines| && IsPiece(s, i) ensures PieceStands(s, Before(active), shown, i) {
      StaysAlike(s, i, active);
      PieceIsSame(s, i, active);
    }
  }

  /** An excerpt that begins within a delimiter of the document reads the next line otherwise. */
  lemma CutDelimiterShows(markdown: string, start: nat, end: nat)
    requires start <= end <= |markdown| && CutsDelimiter(markdown, start, end)
    ensures !ReadsLikeSource(markdown, start, end)
  {
    hide Split, ActiveAt, Read, BalancedLines, RoleOf, Excerpt;
    if ReadsLikeSource(markdown, start, end) {
      var s, active := SliceOf(markdown, start, end), ActiveAt(markdown, start);
      var doc, n := Split(markdown), |Split(markdown[..start])| - 1;
      ExcerptLines(markdown, start, end);
      BegunLine(markdown, start, end);
      StartsAlike(s, active);
      assert IsPiece(s, 0);
      PieceIsSame(s, 0, active);
      StaysAlike(s, 1, active);
      assert IsWholeLine(markdown, start, end, 1);
      assert StandsAsInDocument(Repository, markdown, start, Split(Excerpt(markdown, start, end)), 1);
      NextAt(s, 0, active);
      DelimiterTurns(active, doc[n], doc[n + 1]);
      var output := BalancedLines(s, active);
      ProseIsNone(Read(Repository, None, output[..Before(active) + 1]), output[Before(active) + 1]);
    }
  }

  lemma DelimiterTurns(state: State, line: string, next: string)
    requires IsState(state) && RoleOf(Repository, state, line) in {Opening, Closing}
    ensures var after := Step(Repository, state, line);
      && (after.None? <==> !state.None?)
      && (RoleOf(Repository, after, next) in {Prose, Opening} <==> after.None?)
  {
    hide ParseMarkdownFence, ClosesMarkdownFence;
  }

  /** For every slice of every document: the excerpt reads like its source exactly when no
      delimiter runs into its info string, no piece of a line outside fences looks like a fence,
      and the slice does not begin within a delimiter and go on to a whole line. */
  lemma AnyExcerptReadsLikeSource(markdown: string, start: nat, end: nat)
    requires start <= end <= |markdown|
    ensures ReadsLikeSource(markdown, start, end) <==>
      FaultFree(SliceOf(markdown, start, end), ActiveAt(markdown, start)) && !CutsDelimiter(markdown, start, end)
  {
    hide Split, ActiveAt, CutsDelimiter, IsPiece, IsWholeLine, Stands, AlikeAt, Read, BalancedLines, StandsAsInDocument,
      PieceStands, Excerpt, FaultFree;
    var s, active := SliceOf(markdown, start, end), ActiveAt(markdown, start);
    ExcerptLines(markdown, start, end);
    AnyExcerptKeepsMeaning(s, active);
    if CutsDelimiter(markdown, start, end) {
      CutDelimiterShows(markdown, start, end);
    } else if ReadsLikeSource(markdown, start, end) {
      LineStandsToo(markdown, start, end, |s.lines|);
      AllStand(s, active);
    } else if FaultFree(s, active) {
      AllStand(s, active);
      SourceFromSlice(markdown, start, end);
    }
  }

  lemma AllStand(s: Slice, active: State)
    requires IsState(active) && Read(Repository, None, BalancedLines(s, active)).None?
    ensures KeepsMeaningIn(s, active, BalancedLines(s, active)) <==>
      forall i :: 0 <= i < |s.lines| ==> Stands(s, i, active)
  {
    hide SameAtIn, BalancedLines, Read;
    HeadLength(s, active);
    if KeepsMeaningIn(s, active, BalancedLines(s, active)) {
      forall i | 0 <= i < |s.lines| ensures Stands(s, i, active) {
        assert SameAtIn(s, i, active, BalancedLines(s, active));
      }
    }
    if forall i :: 0 <= i < |s.lines| ==> Stands(s, i, active) {
      forall i | 0 <= i < |s.lines| ensures SameAtIn(s, i, active, BalancedLines(s, active)) {
        assert Stands(s, i, active);
      }
    }
  }

  // ---------- both can happen ----------

  lemma TildesAreAFence()
    ensures ParseMarkdownFence("~~~") == Some(Fence("", "~~~", ""))
  {
    assert "~~~" == "" + "~~~" + "";
    ParseFinds("~~~", Fence("", "~~~", ""));
  }

  /** What is cut off in front of tildes makes a fence of them: the excerpt puts the next line into
      a fence that the document does not have. */
  lemma PieceLooksLikeFence()
    ensures !ReadsLikeSource("a~~~\nb", 1, 6)
  {
    var markdown := "a~~~\nb";
    var s := SliceOf(markdown, 1, 6);
    SplitLine("~~~", "b");
    assert markdown[1..6] == "~~~" + "\n" + "b";
    SplitLine("a", "");
    assert markdown[..1] == "a" && CompleteLines(markdown, 1) == [];
    TildesAreAFence();
    hide ParseMarkdownFence;
    assert FaultAt(s, 0, ReadIn(s, 0, ActiveAt(markdown, 1)));
    AnyExcerptReadsLikeSource(markdown, 1, 6);
  }

  lemma CutOpeningLines()
    ensures var markdown := "~~~\nb";
      && Split(markdown) == ["~~~", "b"] && |Split(markdown[..1])| == 1 && |Split(markdown[1..5])| == 2
      && !AfterPiece(markdown, 1, 0)
  {
    hide Split;
    SplitLine("~~~", "b");
    SplitLine("~~", "b");
    SplitLine("b", "");
    SplitLine("~", "");
    assert "~~~\nb" == "~~~" + "\n" + "b" && "~~~\nb"[1..5] == "~~" + "\n" + "b" && "~~~\nb"[..1] == "~";
  }

  /** Cut out from within its opening line, code is shown as prose. */
  lemma CutOpeningHidesCode()
    ensures !ReadsLikeSource("~~~\nb", 1, 5)
  {
    hide ParseMarkdownFence, Split, ReadsLikeSource, FaultFree;
    var markdown := "~~~\nb";
    CutOpeningLines();
    TildesAreAFence();
    assert Split(markdown)[..0] == [];
    assert CutsDelimiter(markdown, 1, 5);
    AnyExcerptReadsLikeSource(markdown, 1, 5);
  }
}
