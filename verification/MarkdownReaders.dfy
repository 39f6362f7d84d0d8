/** Two readers of Markdown lines: the repository's own, and that of section 4.5 of the
    CommonMark Spec for fences outside containers. And on which lines they agree. */
module MarkdownReaders {
  import opened Basics
  import opened MarkdownFences

  datatype Reader = Repository | CommonMark

  // ---------- fences as the CommonMark Spec has them ----------

  /** A line in the sense of section 2.1, perhaps with the carriage return of its line ending. */
  predicate IsLine(line: string) {
    forall i :: 0 <= i < |line| ==> line[i] != '\n' && (line[i] == '\r' ==> i == |line| - 1)
  }

  function Chopped(line: string): string {
    if |line| > 0 && line[|line| - 1] == '\r' then line[..|line| - 1] else line
  }

  predicate SpacesAndTabs(s: string) {
    forall i :: 0 <= i < |s| ==> s[i] == ' ' || s[i] == '\t'
  }

  /** Only spaces indent a fence, and no backtick stands in the info string after backticks. */
  predicate CanOpen(f: Fence)
    requires IsMarker(f.marker)
  {
    AllOf(f.indent, ' ') && (f.marker[0] == '`' ==> '`' !in f.trailing)
  }

  // ---------- reading lines ----------

  function FenceOf(r: Reader, line: string): (f: Option<Fence>)
    ensures f.Some? ==> IsMarker(f.value.marker)
  {
    match r
    case Repository => ParseMarkdownFence(line)
    case CommonMark =>
      var f := Shape(Chopped(line));
      if f.Some? && CanOpen(f.value) then f else None
  }

  /** Whether a fence closes an opening one; a closing fence may be followed by spaces and tabs only. */
  predicate Closes(r: Reader, f: Fence, opening: string)
    requires IsMarker(f.marker) && IsMarker(opening)
  {
    match r
    case Repository => ClosesMarkdownFence(f, opening)
    case CommonMark => f.marker[0] == opening[0] && |f.marker| >= |opening| && SpacesAndTabs(f.trailing)
  }

  datatype Role = Prose | Opening | Code | Closing

  function RoleOf(r: Reader, s: State, line: string): Role
    requires IsState(s)
  {
    var fence := FenceOf(r, line);
    if s.None? then (if fence.None? then Prose else Opening)
    else if fence.Some? && Closes(r, fence.value, s.value) then Closing
    else Code
  }

  function Step(r: Reader, s: State, line: string): (next: State)
    requires IsState(s)
    ensures IsState(next)
  {
    match RoleOf(r, s, line)
    case Prose => None
    case Opening => Some(FenceOf(r, line).value.marker)
    case Code => s
    case Closing => None
  }

  /** The state after reading lines. */
  function Read(r: Reader, s: State, lines: seq<string>): (next: State)
    requires IsState(s)
    ensures IsState(next)
    decreases |lines|
  {
    if lines == [] then s else Read(r, Step(r, s, lines[0]), lines[1..])
  }

  lemma ReadOne(r: Reader, s: State, line: string)
    requires IsState(s)
    ensures Read(r, s, [line]) == Step(r, s, line)
  {
  }

  lemma ReadStep(r: Reader, s: State, lines: seq<string>, k: nat)
    requires IsState(s) && 0 < k <= |lines|
    ensures Read(r, s, lines[..k]) == Read(r, Step(r, s, lines[0]), lines[1..][..k - 1])
  {
    assert lines[..k][1..] == lines[1..][..k - 1];
  }

  lemma {:induction false} ReadConcat(r: Reader, s: State, a: seq<string>, b: seq<string>)
    requires IsState(s)
    ensures Read(r, s, a + b) == Read(r, Read(r, s, a), b)
    decreases |a|
  {
    hide Step;
    if a == [] {
      assert a + b == b;
    } else {
      ReadConcat(r, Step(r, s, a[0]), a[1..], b);
      assert (a + b)[1..] == a[1..] + b;
    }
  }

  lemma ReadNothing(r: Reader, s: State, lines: seq<string>)
    requires IsState(s)
    ensures Read(r, s, lines[..0]) == s && lines[..|lines|] == lines
  {
  }

  lemma ReadNext(r: Reader, s: State, lines: seq<string>, i: nat)
    requires IsState(s) && i < |lines|
    ensures Read(r, s, lines[..i + 1]) == Step(r, Read(r, s, lines[..i]), lines[i])
  {
    hide Step, Read;
    ReadConcat(r, s, lines[..i], [lines[i]]);
    assert lines[..i + 1] == lines[..i] + [lines[i]];
    ReadOne(r, Read(r, s, lines[..i]), lines[i]);
  }

  lemma BlankLineKeeps(r: Reader, s: State)
    requires IsState(s)
    ensures Step(r, s, "") == s
  {
  }

  // ---------- where the readers agree ----------

  /** The repository reads the line as a fence exactly when section 4.5 does, and what it
      takes for a blank rest are spaces and tabs. */
  predicate Agreeable(line: string) {
    var f := Shape(line);
    f.Some? ==>
      && (OneLine(f.value.trailing) <==> CanOpen(f.value))
      && (OneLine(f.value.trailing) && Blank(f.value.trailing) ==> SpacesAndTabs(f.value.trailing))
  }

  lemma ChoppedShape(line: string)
    ensures var f := Shape(line);
      Shape(Chopped(line)) == if f.Some? then Some(f.value.(trailing := Chopped(f.value.trailing))) else None
  {
    hide Shape;
    var f, g := Shape(line), Shape(Chopped(line));
    if f.Some? {
      var c := f.value.(trailing := Chopped(f.value.trailing));
      assert Chopped(line) == c.indent + c.marker + c.trailing;
      ShapeFinds(Chopped(line), c);
    } else if g.Some? && Chopped(line) != line {
      var c := g.value.(trailing := g.value.trailing + "\r");
      assert line == Chopped(line) + "\r";
      assert line == c.indent + c.marker + c.trailing;
      ShapeFinds(line, c);
    }
  }

  lemma FencesAgree(line: string)
    ensures var f, g := FenceOf(Repository, line), FenceOf(CommonMark, line);
      && (f.Some? && g.Some? ==> f == g)
      && (Agreeable(line) ==> f == g)
  {
    hide Shape;
    ChoppedShape(line);
  }

  /** Both readers give an agreeable line the same standing, whatever is open. */
  lemma RolesAgree(s: State, line: string)
    requires IsState(s) && Agreeable(line)
    ensures RoleOf(CommonMark, s, line) == RoleOf(Repository, s, line)
    ensures Step(CommonMark, s, line) == Step(Repository, s, line)
  {
    hide Shape;
    FencesAgree(line);
  }

  /** And only agreeable lines are read alike in every state. */
  lemma ReadersAgree(line: string)
    ensures Agreeable(line) <==>
      forall s: State :: IsState(s) ==> RoleOf(CommonMark, s, line) == RoleOf(Repository, s, line)
  {
    hide Shape;
    ChoppedShape(line);
    if Agreeable(line) {
      forall s: State | IsState(s) ensures RoleOf(CommonMark, s, line) == RoleOf(Repository, s, line) {
        RolesAgree(s, line);
      }
    } else {
      var f := Shape(line).value;
      if OneLine(f.trailing) <==> CanOpen(f) {
        assert RoleOf(CommonMark, Some(f.marker), line) != RoleOf(Repository, Some(f.marker), line);
      } else {
        assert RoleOf(CommonMark, None, line) != RoleOf(Repository, None, line);
      }
    }
  }

  /** Lines that may be read in either way. */
  predicate Fits(r: Reader, lines: seq<string>) {
    r.CommonMark? ==> forall i :: 0 <= i < |lines| ==> IsLine(lines[i]) && Agreeable(lines[i])
  }

  /** From `s` on, the reader gives each line the standing that the repository gives it there. */
  predicate AgreesFrom(r: Reader, s: State, lines: seq<string>)
    requires IsState(s)
    decreases |lines|
  {
    lines == [] ||
    (&& RoleOf(r, s, lines[0]) == RoleOf(Repository, s, lines[0])
     && AgreesFrom(r, Step(Repository, s, lines[0]), lines[1..]))
  }

  lemma SameRoleSameStep(r: Reader, s: State, line: string)
    requires IsState(s) && RoleOf(r, s, line) == RoleOf(Repository, s, line)
    ensures Step(r, s, line) == Step(Repository, s, line)
  {
    hide Shape;
    FencesAgree(line);
  }

  lemma AgreesHere(r: Reader, s: State, lines: seq<string>, i: nat)
    requires IsState(s) && i < |lines| && AgreesFrom(r, s, lines[i..])
    ensures RoleOf(r, s, lines[i]) == RoleOf(Repository, s, lines[i])
    ensures Step(r, s, lines[i]) == Step(Repository, s, lines[i])
    ensures AgreesFrom(r, Step(Repository, s, lines[i]), lines[i + 1..])
  {
    hide Step, RoleOf;
    assert lines[i..][0] == lines[i] && lines[i..][1..] == lines[i + 1..];
    SameRoleSameStep(r, s, lines[i]);
  }

  lemma {:induction false} ReadingsAgreeAlong(r: Reader, s: State, lines: seq<string>)
    requires IsState(s) && AgreesFrom(r, s, lines)
    ensures Read(r, s, lines) == Read(Repository, s, lines)
    decreases |lines|
  {
    hide Step, RoleOf;
    if lines != [] {
      SameRoleSameStep(r, s, lines[0]);
      ReadingsAgreeAlong(r, Step(r, s, lines[0]), lines[1..]);
    }
  }

  lemma {:induction false} AgreesConcat(r: Reader, s: State, a: seq<string>, b: seq<string>)
    requires IsState(s)
    ensures AgreesFrom(r, s, a + b) <==> AgreesFrom(r, s, a) && AgreesFrom(r, Read(Repository, s, a), b)
    decreases |a|
  {
    hide Step, RoleOf;
    if a == [] {
      assert a + b == b;
    } else {
      AgreesConcat(r, Step(Repository, s, a[0]), a[1..], b);
      assert (a + b)[1..] == a[1..] + b;
    }
  }

  lemma {:induction false} AgreesWithItself(s: State, lines: seq<string>)
    requires IsState(s)
    ensures AgreesFrom(Repository, s, lines)
    decreases |lines|
  {
    hide Step, RoleOf;
    if lines != [] {
      AgreesWithItself(Step(Repository, s, lines[0]), lines[1..]);
    }
  }

  lemma {:induction false} FittingAgrees(r: Reader, s: State, lines: seq<string>)
    requires IsState(s) && Fits(r, lines)
    ensures AgreesFrom(r, s, lines)
    decreases |lines|
  {
    hide Step, RoleOf, Agreeable;
    if lines != [] {
      if r.CommonMark? { RolesAgree(s, lines[0]); }
      FittingAgrees(r, Step(Repository, s, lines[0]), lines[1..]);
    }
  }

  /** Where the readers first part. */
  lemma {:induction false} FirstDisagreement(r: Reader, s: State, lines: seq<string>) returns (d: nat)
    requires IsState(s) && !AgreesFrom(r, s, lines)
    ensures d < |lines| && AgreesFrom(r, s, lines[..d])
    ensures var t := Read(Repository, s, lines[..d]); RoleOf(r, t, lines[d]) != RoleOf(Repository, t, lines[d])
    decreases |lines|
  {
    hide Step, RoleOf;
    if RoleOf(r, s, lines[0]) != RoleOf(Repository, s, lines[0]) {
      d := 0;
    } else {
      var k := FirstDisagreement(r, Step(Repository, s, lines[0]), lines[1..]);
      d := k + 1;
      assert lines[..d][1..] == lines[1..][..k];
    }
  }
}
