/** What balancing does to the meaning of an excerpt: exactly when every line keeps its
    standing as prose, code or delimiter, and that an excerpt leaves no fence open. */
module MarkdownExcerpts {
  import opened Basics
  import opened MarkdownFences
  import opened MarkdownReaders

  // ---------- safe delimiters ----------

  /** `render` is no shorter than one more than any bare run of its character that is shown inside. */
  predicate Safe(s: Slice, i: nat, opening: string, render: string)
    requires IsMarker(opening) && IsMarker(render)
  {
    Longest(s, i, opening, render[0]) < |render|
  }

  lemma ChosenIsSafe(s: Slice, i: nat, opening: string, trailing: string)
    requires IsMarker(opening)
    ensures Safe(s, i, opening, RenderMarker(s, i, opening, trailing))
    ensures '`' in trailing ==> RenderMarker(s, i, opening, trailing)[0] == '~'
  {
  }

  /** No safe delimiter is shorter than the one chosen, and among equally short ones the
      source's own character stays; before a backtick in the info string only tildes will do. */
  lemma ChosenIsShortest(s: Slice, i: nat, opening: string, trailing: string, other: string)
    requires IsMarker(opening) && IsMarker(other) && Safe(s, i, opening, other) && ('`' in trailing ==> other[0] == '~')
    ensures |RenderMarker(s, i, opening, trailing)| <= |other|
    ensures |RenderMarker(s, i, opening, trailing)| == |other| && other[0] == opening[0] ==>
      RenderMarker(s, i, opening, trailing)[0] == opening[0]
  {
    hide Longest;
  }

  predicate Whole(s: Slice) {
    s.starts && s.ends
  }

  /** A safe delimiter stays safe inside the fence, and there the repository takes no shown line
      for its end; nor does section 4.5 of the CommonMark Spec when the line is agreeable. */
  lemma SafeInside(r: Reader, s: Slice, i: nat, opening: string, render: string)
    requires i < |s.lines|
    requires IsMarker(opening) && IsMarker(render) && Safe(s, i, opening, render)
    requires !EndsFence(s, i, opening)
    ensures Safe(s, i + 1, opening, render)
    ensures r.Repository? || Agreeable(s.lines[i]) ==> RoleOf(r, Some(render), s.lines[i]) == Code
  {
    hide Shape, Agreeable;
    if Agreeable(s.lines[i]) { RolesAgree(Some(render), s.lines[i]); }
  }

  /** A rendered delimiter has the shape of what was meant, unless it runs into its info string. */
  lemma RenderedShape(f: Fence, line: string, render: string)
    requires Matches(line, f) && IsMarker(render)
    ensures var shown := f.indent + render + f.trailing; Shape(shown).Some? && var g := Shape(shown).value;
      && g.indent == f.indent && OneLine(g.trailing) && g.marker[0] == render[0]
      && ('`' !in f.trailing ==> '`' !in g.trailing)
      && if StartsWith(f.trailing, render[0]) then |g.marker| > |render| else g.marker == render
  {
    var shown := f.indent + render + f.trailing;
    var run := RunLength(f.trailing, render[0]);
    var g := Fence(f.indent, render + f.trailing[..run], f.trailing[run..]);
    assert g.marker[0] == render[0];
    assert AllOf(g.marker, render[0]) by {
      forall k | 0 <= k < |g.marker| ensures g.marker[k] == render[0] {
        if k >= |render| { assert g.marker[k] == f.trailing[..run][k - |render|]; }
      }
    }
    assert shown == g.indent + g.marker + g.trailing;
    assert OneLine(g.trailing);
    ShapeFinds(shown, g);
  }

  /** What may stand in front of a fence. */
  predicate Indents(r: Reader, indent: string) {
    |indent| <= 3 && (if r.CommonMark? then AllOf(indent, ' ') else Blank(indent))
  }

  /** A rendered opening line is read as what was meant, unless it runs into its info string;
      under section 4.5 it needs spaces for an indent and tildes before a backtick. */
  lemma RenderedOpening(r: Reader, f: Fence, line: string, render: string)
    requires Matches(line, f) && IsMarker(render) && Indents(r, f.indent) && ('`' in f.trailing ==> render[0] == '~')
    ensures var shown := f.indent + render + f.trailing;
      FenceOf(r, shown).Some? && var g := FenceOf(r, shown).value;
      && g.marker[0] == render[0]
      && if StartsWith(f.trailing, render[0]) then |g.marker| > |render| else g.marker == render
  {
    hide Shape;
    RenderedShape(f, line, render);
    ChoppedShape(f.indent + render + f.trailing);
  }

  lemma RenderedClosing(r: Reader, indent: string, render: string)
    requires Indents(r, indent) && IsMarker(render)
    ensures FenceOf(r, indent + render) == Some(Fence(indent, render, ""))
  {
    hide Shape;
    assert indent + render == indent + render + "";
    ShapeFinds(indent + render, Fence(indent, render, ""));
    ChoppedShape(indent + render);
  }

  // ---------- the two readings side by side ----------

  /** A delimiter that would run into its info string: a tilde marker before a tilde. */
  predicate Merges(s: Slice, i: nat, f: Fence)
    requires IsMarker(f.marker)
  {
    RenderMarker(s, i + 1, f.marker, f.trailing)[0] == '~' && StartsWith(f.trailing, '~')
  }

  /** No opening line of the slice is rendered with a marker that runs into its info string. */
  predicate MergeFree(s: Slice, i: nat, active: State)
    requires i <= |s.lines| && IsState(active)
    decreases |s.lines| - i
  {
    i == |s.lines| ||
    (&& (RoleOf(Repository, active, s.lines[i]) == Opening ==> !Merges(s, i, ParseMarkdownFence(s.lines[i]).value))
     && MergeFree(s, i + 1, Step(Repository, active, s.lines[i])))
  }

  /** Same standing, and only delimiters may look different. */
  predicate SameLine(r: Reader, source: State, line: string, shown: State, shownLine: string)
    requires IsState(source) && IsState(shown)
  {
    && RoleOf(r, shown, shownLine) == RoleOf(r, source, line)
    && (RoleOf(r, source, line) == Prose || RoleOf(r, source, line) == Code ==> shownLine == line)
  }

  /** From line `i` on, every line keeps its standing and the excerpt ends outside a fence. */
  predicate SameReading(r: Reader, s: Slice, i: nat, o: Open, shown: State)
    requires i <= |s.lines| && IsOpen(o) && IsState(shown)
    decreases |s.lines| - i
  {
    if i == |s.lines| then (if o.Open? then Step(r, shown, o.render) else shown).None?
    else
      var (line, next) := Render(s, i, o);
      SameLine(r, Source(o), s.lines[i], shown, line) && SameReading(r, s, i + 1, next, Step(r, shown, line))
  }

  /** From line `i` on the reader and the repository read the slice alike. */
  predicate Agreed(r: Reader, s: Slice, i: nat, o: Open)
    requires i <= |s.lines| && IsOpen(o)
  {
    AgreesFrom(r, Source(o), s.lines[i..])
  }

  lemma NextSource(r: Reader, s: Slice, i: nat, o: Open)
    requires Whole(s) && i < |s.lines| && IsOpen(o) && Agreed(r, s, i, o)
    ensures var next := Render(s, i, o).1; Source(next) == Step(r, Source(o), s.lines[i]) && Agreed(r, s, i + 1, next)
    ensures RoleOf(r, Source(o), s.lines[i]) == RoleOf(Repository, Source(o), s.lines[i])
    ensures Step(r, Source(o), s.lines[i]) == Step(Repository, Source(o), s.lines[i])
  {
    hide AgreesFrom;
    AgreesHere(r, Source(o), s.lines, i);
  }

  /** How the excerpt stands when nothing has gone wrong. */
  predicate InStep(s: Slice, i: nat, o: Open, shown: State)
    requires IsOpen(o)
  {
    if o.Open? then shown == Some(o.render) && Safe(s, i, o.opening, o.render) else shown.None?
  }

  /** The excerpt has opened a longer fence than it will ever close. */
  predicate Stuck(o: Open, shown: State)
    requires IsOpen(o) && IsState(shown)
  {
    o.Open? && shown.Some? && shown.value[0] == o.render[0] && |shown.value| > |o.render|
  }

  lemma ShortCloses(r: Reader, indent: string, render: string, shown: State)
    requires Indents(r, indent) && IsMarker(render) && IsState(shown) && shown.Some?
    requires shown.value[0] == render[0]
    ensures RoleOf(r, shown, indent + render) == if |render| >= |shown.value| then Closing else Code
  {
    hide FenceOf;
    RenderedClosing(r, indent, render);
  }

  /** A delimiter to both is indented as the reader wants it. */
  lemma FenceIndents(r: Reader, s: State, line: string)
    requires IsState(s) && RoleOf(r, s, line) == RoleOf(Repository, s, line)
    requires RoleOf(r, s, line) == Opening || RoleOf(r, s, line) == Closing
    ensures ParseMarkdownFence(line).Some? && Indents(r, ParseMarkdownFence(line).value.indent)
  {
    hide Shape;
    ChoppedShape(line);
  }

  lemma CloseLine(r: Reader, s: Slice, i: nat, o: Open)
    requires i < |s.lines| && s.Complete(i) && IsOpen(o)
    requires RoleOf(r, Source(o), s.lines[i]) == RoleOf(Repository, Source(o), s.lines[i]) == Closing
    ensures o.Open? && var (line, next) := Render(s, i, o);
      next == Closed && exists indent :: line == indent + o.render && Indents(r, indent)
  {
    FenceIndents(r, Source(o), s.lines[i]);
    var f := ParseMarkdownFence(s.lines[i]).value;
    assert Render(s, i, o).0 == f.indent + o.render;
  }

  lemma {:induction false} StuckFails(r: Reader, s: Slice, i: nat, o: Open, shown: State)
    requires Whole(s) && i <= |s.lines| && IsOpen(o) && Agreed(r, s, i, o) && IsState(shown) && Stuck(o, shown)
    ensures !SameReading(r, s, i, o, shown)
    decreases |s.lines| - i
  {
    hide ParseMarkdownFence, FenceOf, Matches, ClosesMarkdownFence, Agreed;
    if i == |s.lines| {
      ShortCloses(r, "", o.render, shown);
      assert "" + o.render == o.render;
    } else {
      NextSource(r, s, i, o);
      if RoleOf(Repository, Source(o), s.lines[i]) == Closing {
        CloseLine(r, s, i, o);
        var indent :| Render(s, i, o).0 == indent + o.render && Indents(r, indent);
        ShortCloses(r, indent, o.render, shown);
      } else {
        StuckFails(r, s, i + 1, o, shown);
      }
    }
  }

  lemma OpenLine(r: Reader, s: Slice, i: nat)
    requires i < |s.lines| && s.Complete(i) && ParseMarkdownFence(s.lines[i]).Some?
    requires RoleOf(r, None, s.lines[i]) == RoleOf(Repository, None, s.lines[i])
    ensures var f := ParseMarkdownFence(s.lines[i]).value;
      var (line, next) := Render(s, i, Closed);
      && next.Open? && next.opening == f.marker
      && RoleOf(Repository, None, s.lines[i]) == Opening && RoleOf(r, None, line) == Opening
      && Safe(s, i + 1, next.opening, next.render)
      && if Merges(s, i, f) then Stuck(next, Step(r, None, line)) else Step(r, None, line) == Some(next.render)
  {
    hide Shape;
    var f := ParseMarkdownFence(s.lines[i]).value;
    var render := RenderMarker(s, i + 1, f.marker, f.trailing);
    FenceIndents(r, None, s.lines[i]);
    ChosenIsSafe(s, i + 1, f.marker, f.trailing);
    RenderedOpening(r, f, s.lines[i], render);
  }

  /** No line shown as code is taken for the end of the delimiter chosen for its fence. */
  predicate CodeStays(r: Reader, s: Slice, i: nat, o: Open)
    requires i <= |s.lines| && IsOpen(o)
    decreases |s.lines| - i
  {
    i == |s.lines| ||
    (&& (o.Open? && RoleOf(Repository, Source(o), s.lines[i]) == Code ==> RoleOf(r, Some(o.render), s.lines[i]) == Code)
     && CodeStays(r, s, i + 1, Render(s, i, o).1))
  }

  /** The heart of balancing: the two readings agree exactly when no delimiter merges and no
      line shown as code ends its fence. */
  lemma {:induction false} ReadingsAgree(r: Reader, s: Slice, i: nat, o: Open, shown: State)
    requires Whole(s) && i <= |s.lines| && IsOpen(o) && Agreed(r, s, i, o) && IsState(shown) && InStep(s, i, o, shown)
    ensures SameReading(r, s, i, o, shown) <==> MergeFree(s, i, Source(o)) && CodeStays(r, s, i, o)
    decreases |s.lines| - i
  {
    hide ParseMarkdownFence, FenceOf, Matches, ClosesMarkdownFence, Longest, RenderMarker, Agreed, Closes;
    if i == |s.lines| {
      if o.Open? { RenderedEnd(r, o.render); }
    } else {
      var (line, next) := Render(s, i, o);
      NextSource(r, s, i, o);
      if o.Closed? && ParseMarkdownFence(s.lines[i]).Some? {
        OpenLine(r, s, i);
        var f := ParseMarkdownFence(s.lines[i]).value;
        if Merges(s, i, f) {
          StuckFails(r, s, i + 1, next, Step(r, shown, line));
        } else {
          ReadingsAgree(r, s, i + 1, next, Step(r, shown, line));
        }
      } else if o.Closed? {
        ReadingsAgree(r, s, i + 1, next, shown);
      } else if RoleOf(Repository, Source(o), s.lines[i]) == Closing {
        CloseLine(r, s, i, o);
        var indent :| line == indent + o.render && Indents(r, indent);
        ShortCloses(r, indent, o.render, shown);
        ReadingsAgree(r, s, i + 1, next, None);
      } else if RoleOf(r, shown, s.lines[i]) == Code {
        SafeInside(r, s, i, o.opening, o.render);
        ReadingsAgree(r, s, i + 1, next, shown);
      }
    }
  }

  /** Agreeable lines never end a delimiter chosen for them, and for the repository none do. */
  lemma {:induction false} FittingCodeStays(r: Reader, s: Slice, i: nat, o: Open)
    requires Whole(s) && Fits(r, s.lines) && i <= |s.lines| && IsOpen(o)
    requires o.Open? ==> Safe(s, i, o.opening, o.render)
    ensures CodeStays(r, s, i, o)
    decreases |s.lines| - i
  {
    hide ParseMarkdownFence, Matches, ClosesMarkdownFence, Longest, RenderMarker, Agreeable;
    if i < |s.lines| {
      var next := Render(s, i, o).1;
      if o.Open? && RoleOf(Repository, Source(o), s.lines[i]) == Code {
        SafeInside(r, s, i, o.opening, o.render);
      } else if o.Closed? && ParseMarkdownFence(s.lines[i]).Some? {
        OpenLine(Repository, s, i);
      }
      FittingCodeStays(r, s, i + 1, next);
    }
  }

  lemma RenderedEnd(r: Reader, render: string)
    requires IsMarker(render)
    ensures Step(r, Some(render), render).None? && Step(r, None, render) == Some(render)
  {
    hide FenceOf;
    RenderedClosing(r, "", render);
    assert "" + render == render;
  }

  // ---------- the main result, line by line ----------

  /** How many lines the excerpt puts in front: the delimiter of a fence open at its start. */
  function Before(active: State): nat {
    if active.Some? then 1 else 0
  }

  /** Line `i` of the slice stands in the excerpt as it stands in the document. */
  predicate SameAt(r: Reader, lines: seq<string>, i: nat, active: State, output: seq<string>)
    requires i < |lines| && Before(active) + i < |output| && IsState(active)
  {
    var k := Before(active) + i;
    SameLine(r, Read(r, active, lines[..i]), lines[i], Read(r, None, output[..k]), output[k])
  }

  /** Every line of the slice stands in the excerpt as it stands in the document, only
      delimiters look different, and the excerpt leaves no fence open. */
  ghost predicate KeepsMeaning(r: Reader, lines: seq<string>, active: State, output: seq<string>)
    requires IsState(active)
  {
    && |output| >= Before(active) + |lines|
    && Read(r, None, output).None?
    && (forall i :: 0 <= i < |lines| ==> SameAt(r, lines, i, active, output))
  }

  /** Line `k` in the two readings that both start at line `i`. */
  predicate SameFrom(r: Reader, lines: seq<string>, i: nat, k: nat, source: State, shown: State, rest: seq<string>)
    requires i <= k < |lines| && k - i < |rest| && IsState(source) && IsState(shown)
  {
    SameLine(r, Read(r, source, lines[i..k]), lines[k], Read(r, shown, rest[..k - i]), rest[k - i])
  }

  /** The same from line `i` on, of an excerpt already under way. */
  ghost predicate KeepsFrom(r: Reader, s: Slice, i: nat, o: Open, shown: State)
    requires i <= |s.lines| && IsOpen(o) && IsState(shown)
  {
    var rest := Rendered(s, i, o);
    && |rest| >= |s.lines| - i
    && Read(r, shown, rest).None?
    && (forall k :: i <= k < |s.lines| ==> SameFrom(r, s.lines, i, k, Source(o), shown, rest))
  }

  lemma {:induction false} LineByLine(r: Reader, s: Slice, i: nat, o: Open, shown: State)
    requires Whole(s) && i <= |s.lines| && IsOpen(o) && Agreed(r, s, i, o) && IsState(shown)
    ensures KeepsFrom(r, s, i, o, shown) <==> SameReading(r, s, i, o, shown)
    decreases |s.lines| - i
  {
    hide Step, Render, SameLine, Agreed;
    if i < |s.lines| {
      var (line, next) := Render(s, i, o);
      NextSource(r, s, i, o);
      LineByLine(r, s, i + 1, next, Step(r, shown, line));
      OneMoreLine(r, s, i, o, shown);
    } else {
      assert Rendered(s, i, o) == if o.Open? then [o.render] else [];
      assert o.Open? ==> Read(r, shown, [o.render]) == Step(r, shown, o.render);
    }
  }

  lemma FirstLine(r: Reader, lines: seq<string>, i: nat, source: State, shown: State, rest: seq<string>)
    requires i < |lines| && |rest| > 0 && IsState(source) && IsState(shown)
    ensures SameFrom(r, lines, i, i, source, shown, rest) <==> SameLine(r, source, lines[i], shown, rest[0])
  {
    assert lines[i..i] == [] && rest[..0] == [];
  }

  lemma LaterLine(r: Reader, lines: seq<string>, i: nat, k: nat, source: State, shown: State, rest: seq<string>)
    requires i < k < |lines| && k - i < |rest| && IsState(source) && IsState(shown)
    ensures SameFrom(r, lines, i, k, source, shown, rest)
      <==> SameFrom(r, lines, i + 1, k, Step(r, source, lines[i]), Step(r, shown, rest[0]), rest[1..])
  {
    hide Step, SameLine;
    assert lines[i..k][1..] == lines[i + 1..k];
    ReadStep(r, shown, rest, k - i);
  }

  lemma {:induction false} RenderedLength(s: Slice, i: nat, o: Open)
    requires i <= |s.lines| && IsOpen(o)
    ensures |Rendered(s, i, o)| >= |s.lines| - i
    decreases |s.lines| - i
  {
    if i < |s.lines| {
      RenderedLength(s, i + 1, Render(s, i, o).1);
    }
  }

  lemma OneMoreLine(r: Reader, s: Slice, i: nat, o: Open, shown: State)
    requires Whole(s) && i < |s.lines| && IsOpen(o) && Agreed(r, s, i, o) && IsState(shown)
    ensures var (line, next) := Render(s, i, o);
      KeepsFrom(r, s, i, o, shown) <==>
      SameLine(r, Source(o), s.lines[i], shown, line) && KeepsFrom(r, s, i + 1, next, Step(r, shown, line))
  {
    hide Step, SameLine, SameFrom, Render, Agreed;
    var (line, next) := Render(s, i, o);
    var rest, q := Rendered(s, i, o), Rendered(s, i + 1, next);
    assert rest == [line] + q && rest[1..] == q;
    NextSource(r, s, i, o);
    RenderedLength(s, i + 1, next);
    FirstLine(r, s.lines, i, Source(o), shown, rest);
    var j, after := i + 1, Step(r, shown, line);
    forall k | i < k < |s.lines|
      ensures SameFrom(r, s.lines, i, k, Source(o), shown, rest) == SameFrom(r, s.lines, j, k, Source(next), after, q)
    {
      LaterLine(r, s.lines, i, k, Source(o), shown, rest);
    }
    if KeepsFrom(r, s, i, o, shown) {
      assert SameFrom(r, s.lines, i, i, Source(o), shown, rest);
      forall k | j <= k < |s.lines| ensures SameFrom(r, s.lines, j, k, Source(next), after, q) {
        assert SameFrom(r, s.lines, i, k, Source(o), shown, rest);
      }
    }
    if SameLine(r, Source(o), s.lines[i], shown, line) && KeepsFrom(r, s, j, next, after) {
      forall k | i <= k < |s.lines| ensures SameFrom(r, s.lines, i, k, Source(o), shown, rest) {
        if k > i { assert SameFrom(r, s.lines, j, k, Source(next), after, q); }
      }
    }
  }

  function Shown(o: Open): (s: State)
    requires IsOpen(o)
    ensures IsState(s)
  {
    if o.Open? then Some(o.render) else None
  }

  /** The excerpt after the delimiter of a fence that was open at its start. */
  lemma HeadRead(r: Reader, s: Slice, active: State, i: nat)
    requires IsState(active) && i <= |s.lines|
    ensures var o := StartOpen(s, active); var rest, output := Rendered(s, 0, o), BalancedLines(s, active);
      && |rest| >= |s.lines| && |output| == Before(active) + |rest| && Read(r, None, output) == Read(r, Shown(o), rest)
      && Read(r, None, output[..Before(active) + i]) == Read(r, Shown(o), rest[..i])
      && (i < |rest| ==> output[Before(active) + i] == rest[i])
  {
    hide Step, RenderMarker, Rendered;
    var o := StartOpen(s, active);
    var rest := Rendered(s, 0, o);
    RenderedLength(s, 0, o);
    if o.Open? {
      RenderedEnd(r, o.render);
      assert ([o.render] + rest)[1..] == rest;
      ReadStep(r, None, [o.render] + rest, i + 1);
    } else {
      assert [] + rest == rest;
    }
  }

  lemma AfterHead(r: Reader, s: Slice, active: State, i: nat)
    requires IsState(active) && i < |s.lines|
    ensures var o := StartOpen(s, active); var rest, output := Rendered(s, 0, o), BalancedLines(s, active);
      && |rest| >= |s.lines| && |output| == Before(active) + |rest|
      && (SameFrom(r, s.lines, 0, i, active, Shown(o), rest) <==> SameAt(r, s.lines, i, active, output))
  {
    hide SameLine, Rendered, Step, BalancedLines, StartOpen;
    HeadRead(r, s, active, i);
    assert s.lines[0..i] == s.lines[..i];
  }

  lemma KeepsMeaningIsKeepsFrom(r: Reader, s: Slice, active: State)
    requires IsState(active)
    ensures KeepsMeaning(r, s.lines, active, BalancedLines(s, active))
      <==> KeepsFrom(r, s, 0, StartOpen(s, active), Shown(StartOpen(s, active)))
  {
    hide Step, Render, SameAt, RenderMarker, Rendered, SameFrom, BalancedLines;
    var o, output := StartOpen(s, active), BalancedLines(s, active);
    HeadRead(r, s, active, 0);
    if KeepsFrom(r, s, 0, o, Shown(o)) {
      forall i | 0 <= i < |s.lines| ensures SameAt(r, s.lines, i, active, output) {
        AfterHead(r, s, active, i);
        assert SameFrom(r, s.lines, 0, i, Source(o), Shown(o), Rendered(s, 0, o));
      }
    }
    if KeepsMeaning(r, s.lines, active, output) {
      forall i | 0 <= i < |s.lines| ensures SameFrom(r, s.lines, 0, i, Source(o), Shown(o), Rendered(s, 0, o)) {
        AfterHead(r, s, active, i);
        assert SameAt(r, s.lines, i, active, output);
      }
    }
  }

  /** Balancing a line-aligned slice that the reader and the repository read alike keeps the meaning
      of every line exactly when no opening line is given a tilde delimiter in front of an info
      string that begins with a tilde, and no line shown as code ends its fence. */
  lemma ExcerptKeepsMeaning(r: Reader, s: Slice, active: State)
    requires Whole(s) && IsState(active) && AgreesFrom(r, active, s.lines)
    ensures KeepsMeaning(r, s.lines, active, BalancedLines(s, active))
      <==> MergeFree(s, 0, active) && CodeStays(r, s, 0, StartOpen(s, active))
  {
    hide Step, Render, SameLine, RenderMarker, Rendered, MergeFree, SameFrom, BalancedLines, SameReading, CodeStays,
      AgreesFrom;
    var o := StartOpen(s, active);
    assert s.lines[0..] == s.lines;
    if o.Open? { ChosenIsSafe(s, 0, active.value, ""); }
    KeepsMeaningIsKeepsFrom(r, s, active);
    LineByLine(r, s, 0, o, Shown(o));
    ReadingsAgree(r, s, 0, o, Shown(o));
  }

  /** As the repository reads fences this is so of every slice, and under section 4.5 of every
      slice of agreeable lines; and then merging is all that can go wrong. */
  lemma FittingExcerptKeepsMeaning(r: Reader, s: Slice, active: State)
    requires Whole(s) && Fits(r, s.lines) && IsState(active)
    ensures KeepsMeaning(r, s.lines, active, BalancedLines(s, active)) <==> MergeFree(s, 0, active)
  {
    hide Step, Render, RenderMarker, Rendered, MergeFree, BalancedLines, KeepsMeaning, CodeStays, Fits, AgreesFrom;
    var o := StartOpen(s, active);
    if o.Open? { ChosenIsSafe(s, 0, active.value, ""); }
    FittingAgrees(r, active, s.lines);
    FittingCodeStays(r, s, 0, o);
    ExcerptKeepsMeaning(r, s, active);
  }

  // ---------- when delimiters never merge ----------

  predicate TildeInfo(line: string) {
    var f := ParseMarkdownFence(line);
    f.Some? && f.value.marker[0] == '`' && StartsWith(f.value.trailing, '~')
  }

  /** It is enough that no backtick fence of the slice has an info string beginning with a tilde. */
  lemma {:induction false} NoTildeInfoIsMergeFree(s: Slice, i: nat, active: State)
    requires i <= |s.lines| && IsState(active) && forall k :: i <= k < |s.lines| ==> !TildeInfo(s.lines[k])
    ensures MergeFree(s, i, active)
    decreases |s.lines| - i
  {
    hide RenderMarker, Step;
    if i < |s.lines| {
      NoTildeInfoIsMergeFree(s, i + 1, Step(Repository, active, s.lines[i]));
      assert !TildeInfo(s.lines[i]);
    }
  }
}
