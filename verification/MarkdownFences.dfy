/** Fenced code in Markdown excerpts: how a fence line is parsed, and how an excerpt is
    balanced so that it opens and closes its own fences. A char is one code point. */
module MarkdownFences {
  import opened Basics

  // ---------- characters ----------

  /** What `\s` and `trim` take for white space. */
  predicate IsSpace(c: char) {
    || c == '\t' || c == '\n' || c == '\U{000B}' || c == '\U{000C}' || c == '\r' || c == ' ' || c == '\U{00A0}'
    || c == '\U{1680}' || '\U{2000}' <= c <= '\U{200A}' || c == '\U{2028}' || c == '\U{2029}' || c == '\U{202F}'
    || c == '\U{205F}' || c == '\U{3000}' || c == '\U{FEFF}'
  }

  /** What `.` does not match. */
  predicate IsLineTerminator(c: char) {
    c == '\n' || c == '\r' || c == '\U{2028}' || c == '\U{2029}'
  }

  predicate IsFenceChar(c: char) {
    c == '`' || c == '~'
  }

  predicate Blank(s: string) {
    forall i :: 0 <= i < |s| ==> IsSpace(s[i])
  }

  predicate OneLine(s: string) {
    forall i :: 0 <= i < |s| ==> !IsLineTerminator(s[i])
  }

  predicate AllOf(s: string, c: char) {
    forall i :: 0 <= i < |s| ==> s[i] == c
  }

  predicate StartsWith(s: string, c: char) {
    |s| > 0 && s[0] == c
  }

  function Repeat(c: char, n: nat): (s: string)
    ensures |s| == n && AllOf(s, c)
  {
    seq(n, _ => c)
  }

  // ---------- fence lines ----------

  predicate IsMarker(m: string) {
    |m| >= 3 && IsFenceChar(m[0]) && AllOf(m, m[0])
  }

  datatype Fence = Fence(indent: string, marker: string, trailing: string)

  /** The shape of a fence line: up to three white space characters, the whole run of at
      least three backticks or tildes, and the rest. */
  predicate HasShape(line: string, f: Fence) {
    && line == f.indent + f.marker + f.trailing
    && |f.indent| <= 3 && Blank(f.indent)
    && IsMarker(f.marker)
    && !StartsWith(f.trailing, f.marker[0])
  }

  /** What the fence pattern says: the shape, with a rest without line terminators. */
  predicate Matches(line: string, f: Fence) {
    HasShape(line, f) && OneLine(f.trailing)
  }

  function Spaces(s: string): (n: nat)
    ensures n <= |s| && Blank(s[..n]) && (n < |s| ==> !IsSpace(s[n]))
  {
    if |s| > 0 && IsSpace(s[0]) then
      var n := Spaces(s[1..]);
      assert s[..n + 1] == [s[0]] + s[1..][..n];
      n + 1
    else 0
  }

  function RunLength(s: string, c: char): (n: nat)
    ensures n <= |s| && AllOf(s[..n], c) && (n < |s| ==> s[n] != c)
  {
    if |s| > 0 && s[0] == c then
      var n := RunLength(s[1..], c);
      assert s[..n + 1] == [s[0]] + s[1..][..n];
      n + 1
    else 0
  }

  function Shape(line: string): (r: Option<Fence>)
    ensures r.Some? ==> HasShape(line, r.value)
  {
    var indent := Spaces(line);
    if indent > 3 || indent == |line| || !IsFenceChar(line[indent]) then None
    else
      var rest := line[indent..];
      var run := RunLength(rest, rest[0]);
      if run < 3 then None
      else
        assert line == line[..indent] + rest[..run] + rest[run..];
        Some(Fence(line[..indent], rest[..run], rest[run..]))
  }

  function ParseMarkdownFence(line: string): (r: Option<Fence>)
    ensures r.Some? ==> Matches(line, r.value) && IsMarker(r.value.marker)
  {
    var f := Shape(line);
    if f.Some? && OneLine(f.value.trailing) then f else None
  }

  lemma SpacesAreIndent(line: string, f: Fence)
    requires HasShape(line, f)
    ensures Spaces(line) == |f.indent| && line[|f.indent|..] == f.marker + f.trailing && line[..|f.indent|] == f.indent
  {
    var n := Spaces(line);
    assert line[|f.indent|] == f.marker[0] && !IsSpace(f.marker[0]);
    assert forall k :: 0 <= k < n ==> IsSpace(line[..n][k]) && line[..n][k] == line[k];
    assert forall k :: 0 <= k < |f.indent| ==> IsSpace(f.indent[k]) && f.indent[k] == line[k];
  }

  /** A line has the shape of a fence in at most one way. */
  lemma ShapeFinds(line: string, f: Fence)
    ensures HasShape(line, f) <==> Shape(line) == Some(f)
  {
    hide Spaces, RunLength, Blank, AllOf, IsSpace;
    if HasShape(line, f) {
      SpacesAreIndent(line, f);
      var rest := f.marker + f.trailing;
      assert rest[0] == f.marker[0];
      RunIsMarker(rest, f.marker, f.trailing);
      assert rest[|f.marker|..] == f.trailing && rest[..|f.marker|] == f.marker;
    }
  }

  /** A line is a fence in at most one way, and the parser finds it. */
  lemma ParseFinds(line: string, f: Fence)
    ensures Matches(line, f) <==> ParseMarkdownFence(line) == Some(f)
  {
    hide Shape, HasShape;
    ShapeFinds(line, f);
  }

  lemma RunAt(s: string, c: char, k: nat)
    requires k < RunLength(s, c)
    ensures k < |s| && s[k] == c
  {
    assert s[..RunLength(s, c)][k] == s[k];
  }

  lemma RunIsMarker(rest: string, marker: string, trailing: string)
    requires rest == marker + trailing && |marker| > 0 && AllOf(marker, marker[0]) && !StartsWith(trailing, marker[0])
    ensures RunLength(rest, marker[0]) == |marker|
  {
    var n := RunLength(rest, marker[0]);
    assert forall i :: 0 <= i < |marker| ==> rest[i] == marker[i];
    assert |trailing| > 0 ==> rest[|marker|] == trailing[0];
    if n > |marker| {
      RunAt(rest, marker[0], |marker|);
    }
  }

  predicate ClosesMarkdownFence(candidate: Fence, opening: string)
    requires IsMarker(candidate.marker) && IsMarker(opening)
  {
    candidate.marker[0] == opening[0] && |candidate.marker| >= |opening| && Blank(candidate.trailing)
  }

  /** The marker of the open fence, if any. */
  type State = Option<string>

  predicate IsState(s: State) {
    s.Some? ==> IsMarker(s.value)
  }

  // ---------- choosing a delimiter ----------

  predicate CompleteSliceLine(index: nat, count: nat, startsAtBoundary: bool, endsAtBoundary: bool) {
    (index > 0 || startsAtBoundary) && (index + 1 < count || endsAtBoundary)
  }

  /** The slice's lines and whether it starts and ends at a line boundary. */
  datatype Slice = Slice(lines: seq<string>, starts: bool, ends: bool) {
    predicate Complete(i: nat) {
      CompleteSliceLine(i, |lines|, starts, ends)
    }
  }

  /** The length of the run of `c` that is all of a line, if it is one. */
  function BareRun(line: string, c: char): nat {
    var fence := ParseMarkdownFence(line);
    if fence.Some? && Blank(fence.value.trailing) && fence.value.marker[0] == c then |fence.value.marker| else 0
  }

  predicate EndsFence(s: Slice, i: nat, opening: string)
    requires i < |s.lines| && IsMarker(opening)
  {
    var fence := ParseMarkdownFence(s.lines[i]);
    s.Complete(i) && fence.Some? && ClosesMarkdownFence(fence.value, opening)
  }

  /** The longest bare run of `c` among the lines from `i` to the line that closes. */
  function Longest(s: Slice, i: nat, opening: string, c: char): (n: nat)
    requires IsMarker(opening)
    ensures n >= 2
    decreases |s.lines| - i
  {
    if i >= |s.lines| || EndsFence(s, i, opening) then 2
    else Max(BareRun(s.lines[i], c), Longest(s, i + 1, opening, c))
  }

  function Choose(backtick: nat, tilde: nat, opening: string, trailing: string): (r: string)
    requires IsMarker(opening) && backtick >= 2 && tilde >= 2
    ensures IsMarker(r)
  {
    if '`' in trailing then Repeat('~', tilde + 1)
    else if backtick < tilde then Repeat('`', backtick + 1)
    else if tilde < backtick then Repeat('~', tilde + 1)
    else if opening[0] == '~' then Repeat('~', tilde + 1) else Repeat('`', backtick + 1)
  }

  function RenderMarker(s: Slice, i: nat, opening: string, trailing: string): (r: string)
    requires IsMarker(opening)
    ensures IsMarker(r)
  {
    Choose(Longest(s, i, opening, '`'), Longest(s, i, opening, '~'), opening, trailing)
  }

  method SafeSyntheticFence(s: Slice, start: nat, opening: string, trailing: string) returns (r: string)
    requires IsMarker(opening)
    ensures r == RenderMarker(s, start, opening, trailing)
  {
    hide ParseMarkdownFence, ClosesMarkdownFence, Matches, Blank, CompleteSliceLine, AllOf, Choose;
    var backtick, tilde, i := 2, 2, start;
    while i < |s.lines|
      invariant backtick >= 2 && tilde >= 2
      invariant Max(backtick, Longest(s, i, opening, '`')) == Longest(s, start, opening, '`')
      invariant Max(tilde, Longest(s, i, opening, '~')) == Longest(s, start, opening, '~')
      decreases |s.lines| - i
    {
      var fence := ParseMarkdownFence(s.lines[i]);
      if fence.Some? {
        if s.Complete(i) && ClosesMarkdownFence(fence.value, opening) {
          break;
        }
        if Blank(fence.value.trailing) {
          if fence.value.marker[0] == '`' {
            backtick := Max(backtick, |fence.value.marker|);
          } else {
            tilde := Max(tilde, |fence.value.marker|);
          }
        }
      }
      i := i + 1;
    }
    r := Choose(backtick, tilde, opening, trailing);
  }

  // ---------- balancing ----------

  /** The open fence of the source and the marker the excerpt shows for it. */
  datatype Open = Closed | Open(opening: string, render: string)

  predicate IsOpen(o: Open) {
    o.Open? ==> IsMarker(o.opening) && IsMarker(o.render)
  }

  function Source(o: Open): State {
    if o.Open? then Some(o.opening) else None
  }

  /** One line of the excerpt and what is open after it. */
  function Render(s: Slice, i: nat, o: Open): (r: (string, Open))
    requires i < |s.lines| && IsOpen(o)
    ensures IsOpen(r.1)
  {
    var line := s.lines[i];
    var fence := if s.Complete(i) then ParseMarkdownFence(line) else None;
    if o.Closed? then
      if fence.None? then (line, Closed)
      else
        var f := fence.value;
        var render := RenderMarker(s, i + 1, f.marker, f.trailing);
        (f.indent + render + f.trailing, Open(f.marker, render))
    else if fence.Some? && ClosesMarkdownFence(fence.value, o.opening) then (fence.value.indent + o.render, Closed)
    else (line, o)
  }

  /** The excerpt's lines from the `i`-th on, with the closing line it may need. */
  function Rendered(s: Slice, i: nat, o: Open): seq<string>
    requires i <= |s.lines| && IsOpen(o)
    decreases |s.lines| - i
  {
    if i == |s.lines| then (if o.Open? then [o.render] else [])
    else var (line, next) := Render(s, i, o); [line] + Rendered(s, i + 1, next)
  }

  lemma RenderedStep(s: Slice, i: nat, o: Open)
    requires i < |s.lines| && IsOpen(o)
    ensures var (line, next) := Render(s, i, o); Rendered(s, i, o) == [line] + Rendered(s, i + 1, next)
  {
  }

  lemma RenderedAtEnd(s: Slice, o: Open)
    requires IsOpen(o)
    ensures Rendered(s, |s.lines|, o) == if o.Open? then [o.render] else []
  {
  }

  function StartOpen(s: Slice, active: State): (o: Open)
    requires IsState(active)
    ensures IsOpen(o) && Source(o) == active
  {
    if active.Some? then Open(active.value, RenderMarker(s, 0, active.value, "")) else Closed
  }

  function BalancedLines(s: Slice, active: State): seq<string>
    requires IsState(active)
  {
    var o := StartOpen(s, active);
    (if o.Open? then [o.render] else []) + Rendered(s, 0, o)
  }

  /** The body of `balanceFences`, from the lines of the slice to the lines of the excerpt. */
  method BalanceLines(s: Slice, active: State) returns (output: seq<string>)
    requires IsState(active)
    ensures output == BalancedLines(s, active)
  {
    hide ParseMarkdownFence, ClosesMarkdownFence, Matches, CompleteSliceLine, RenderMarker, IsMarker, Rendered;
    var opening := active;
    var render: State := None;
    output := [];
    ghost var o := StartOpen(s, active);
    if opening.Some? {
      var marker := SafeSyntheticFence(s, 0, opening.value, "");
      render := Some(marker);
      output := [marker];
    }
    var index := 0;
    while index < |s.lines|
      invariant index <= |s.lines| && IsOpen(o)
      invariant Source(o) == opening && render == (if o.Open? then Some(o.render) else None)
      invariant output + Rendered(s, index, o) == BalancedLines(s, active)
    {
      var line := s.lines[index];
      var fence := if s.Complete(index) then ParseMarkdownFence(line) else None;
      ghost var before := o;
      if opening.None? {
        if fence.None? {
          output := output + [line];
        } else {
          opening := Some(fence.value.marker);
          var marker := SafeSyntheticFence(s, index + 1, fence.value.marker, fence.value.trailing);
          render := Some(marker);
          output := output + [fence.value.indent + marker + fence.value.trailing];
        }
      } else if fence.Some? && ClosesMarkdownFence(fence.value, opening.value) {
        output := output + [fence.value.indent + render.value];
        opening := None;
        render := None;
      } else {
        output := output + [line];
      }
      o := Render(s, index, before).1;
      RenderedStep(s, index, before);
      index := index + 1;
    }
    RenderedAtEnd(s, o);
    if opening.Some? {
      output := output + [render.value];
    }
  }
}
