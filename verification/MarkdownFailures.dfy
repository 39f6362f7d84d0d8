/** Excerpts that do not read like their document: a delimiter that runs into its info string,
    and lines that the repository and section 4.5 of the CommonMark Spec read differently. */
module MarkdownFailures {
  import opened Basics
  import opened MarkdownFences
  import opened MarkdownReaders
  import opened MarkdownExcerpts
  import opened MarkdownDocuments

  lemma ShapeIs(marker: string, trailing: string)
    requires IsMarker(marker) && !StartsWith(trailing, marker[0])
    ensures Shape(marker + trailing) == Some(Fence("", marker, trailing))
  {
    hide Shape;
    assert marker + trailing == "" + marker + trailing;
    ShapeFinds(marker + trailing, Fence("", marker, trailing));
  }

  lemma Bare(marker: string)
    requires IsMarker(marker)
    ensures Shape(marker) == Some(Fence("", marker, ""))
  {
    hide Shape;
    ShapeIs(marker, "");
    assert marker + "" == marker;
  }

  lemma MergingLines(s: Slice)
    requires s == Slice(["````~", "```", "````"], true, true)
    ensures forall k :: 0 <= k < |s.lines| ==> IsLine(s.lines[k]) && Agreeable(s.lines[k])
    ensures ParseMarkdownFence(s.lines[0]) == Some(Fence("", "````", "~"))
    ensures ParseMarkdownFence(s.lines[1]) == Some(Fence("", "```", ""))
    ensures ParseMarkdownFence(s.lines[2]) == Some(Fence("", "````", ""))
  {
    hide Shape;
    ShapeIs("````", "~");
    assert "````" + "~" == "````~";
    Bare("```");
    Bare("````");
  }

  /** The failing family is real for both readers: a fence of four backticks with the info string
      `~` around a line of three backticks is given three tildes, which run into the info string. */
  lemma MergingExcerpt(r: Reader)
    ensures var s := Slice(["````~", "```", "````"], true, true);
      Fits(r, s.lines) && !MergeFree(s, 0, None) && !KeepsMeaning(r, s.lines, None, BalancedLines(s, None))
  {
    hide ParseMarkdownFence, Agreeable, IsLine, BalancedLines, KeepsMeaning;
    var s := Slice(["````~", "```", "````"], true, true);
    MergingLines(s);
    assert EndsFence(s, 2, "````") && !EndsFence(s, 1, "````");
    assert Longest(s, 2, "````", '`') == 2 && Longest(s, 2, "````", '~') == 2;
    assert Longest(s, 1, "````", '`') == 3 && Longest(s, 1, "````", '~') == 2;
    assert Merges(s, 0, Fence("", "````", "~"));
    FittingExcerptKeepsMeaning(r, s, None);
  }

  lemma BacktickInfo()
    ensures ParseMarkdownFence("```a`b") == Some(Fence("", "```", "a`b"))
    ensures FenceOf(CommonMark, "```a`b") == None
    ensures FenceOf(CommonMark, "~~~a`b") == Some(Fence("", "~~~", "a`b"))
  {
    hide Shape;
    assert "```" + "a`b" == "```a`b" && "~~~" + "a`b" == "~~~a`b";
    ShapeIs("```", "a`b");
    ShapeIs("~~~", "a`b");
    assert "a`b"[1] == '`';
  }

  lemma NoFence()
    ensures Shape("x") == None && ParseMarkdownFence("x") == None && FenceOf(CommonMark, "x") == None
  {
  }

  lemma RenderedBacktickInfo(s: Slice)
    requires s == Slice(["```a`b", "x"], true, true)
    ensures MergeFree(s, 0, None) && BalancedLines(s, None) == ["~~~a`b", "x", "~~~"]
  {
    hide ParseMarkdownFence, Shape;
    BacktickInfo();
    NoFence();
    assert s.Complete(0) && s.Complete(1);
    assert Longest(s, 2, "```", '`') == 2 && Longest(s, 2, "```", '~') == 2;
    assert Longest(s, 1, "```", '`') == 2 && Longest(s, 1, "```", '~') == 2;
    assert "a`b"[1] == '`';
    assert RenderMarker(s, 1, "```", "a`b") == "~~~";
    var o := Open("```", "~~~");
    assert Render(s, 0, Closed) == ("~~~a`b", o) by { assert "" + "~~~" + "a`b" == "~~~a`b"; }
    assert Render(s, 1, o) == ("x", o);
    assert Rendered(s, 2, o) == ["~~~"];
    assert Rendered(s, 1, o) == ["x", "~~~"];
  }

  /** Backticks before an info string with a backtick: prose of the document, which the repository
      takes for a fence and shows with tildes, so that the prose below it is shown as code. */
  lemma BacktickInfoBecomesCode()
    ensures var s := Slice(["```a`b", "x"], true, true); var output := BalancedLines(s, None);
      && output == ["~~~a`b", "x", "~~~"]
      && MergeFree(s, 0, None) && KeepsMeaning(Repository, s.lines, None, output)
      && RoleOf(CommonMark, Read(CommonMark, None, s.lines[..1]), s.lines[1]) == Prose
      && RoleOf(CommonMark, Read(CommonMark, None, output[..1]), output[1]) == Code
      && !KeepsMeaning(CommonMark, s.lines, None, output)
  {
    hide ParseMarkdownFence, Shape, FenceOf, MergeFree, BalancedLines;
    var s := Slice(["```a`b", "x"], true, true);
    var output := ["~~~a`b", "x", "~~~"];
    RenderedBacktickInfo(s);
    FittingExcerptKeepsMeaning(Repository, s, None);
    BacktickInfo();
    NoFence();
    assert s.lines[..1] == [s.lines[0]] && output[..1] == [output[0]];
    ReadOne(CommonMark, None, s.lines[0]);
    ReadOne(CommonMark, None, output[0]);
    assert !SameAt(CommonMark, s.lines, 1, None, output);
  }

  /** The excerpt of the one prose line below `open`, in a document of these two lines. */
  lemma SecondLine(markdown: string, open: string, active: State)
    requires NoLineFeed(open) && markdown == open + "\n" + "x" && IsState(active)
    requires Step(Repository, None, open) == active
    ensures var start := |open| + 1;
      && SliceOf(markdown, start, |markdown|) == Slice(["x"], true, true)
      && ActiveAt(markdown, start) == active
      && Split(markdown) == [open, "x"] && |Split(markdown[..start])| == 2
  {
    hide Step, Split;
    var start := |open| + 1;
    assert markdown[start..|markdown|] == "x" && markdown[..start] == open + "\n" + "";
    SplitLine(open, "x");
    SplitLine(open, "");
    SplitLine("x", "");
    SplitLine("", "");
    assert CompleteLines(markdown, start) == [open] + [""];
    ReadConcat(Repository, None, [open], [""]);
    ReadOne(Repository, None, open);
    ReadOne(Repository, active, "");
    BlankLineKeeps(Repository, active);
  }

  lemma ShownAlone(s: Slice)
    requires s == Slice(["x"], true, true)
    ensures BalancedLines(s, None) == ["x"]
    ensures BalancedLines(s, Some("```")) == ["```", "x", "```"]
    ensures MergeFree(s, 0, None) && MergeFree(s, 0, Some("```"))
  {
    hide ParseMarkdownFence, Shape;
    NoFence();
    assert Longest(s, 1, "```", '`') == 2 && Longest(s, 1, "```", '~') == 2;
    assert Longest(s, 0, "```", '`') == 2 && Longest(s, 0, "```", '~') == 2;
    assert RenderMarker(s, 0, "```", "") == "```";
    var o := Open("```", "```");
    assert Render(s, 0, Closed) == ("x", Closed) && Render(s, 0, o) == ("x", o);
    assert Rendered(s, 1, Closed) == [] && Rendered(s, 1, o) == ["```"];
    assert StartOpen(s, Some("```")) == o;
  }

  /** A line below that prose, cut out on its own, is put into a fence. */
  lemma AfterBacktickInfo()
    ensures var markdown := "```a`b\nx";
      && MergeFree(SliceOf(markdown, 7, 8), 0, ActiveAt(markdown, 7))
      && ReadsLikeDocument(Repository, markdown, 7, 8) && !ReadsLikeDocument(CommonMark, markdown, 7, 8)
      && Split(markdown) == ["```a`b", "x"] && Split(Excerpt(markdown, 7, 8)) == ["```", "x", "```"]
  {
    hide ParseMarkdownFence, Shape, FenceOf, MergeFree, BalancedLines, Split, ActiveAt, Excerpt;
    var markdown := "```a`b\nx";
    assert markdown == "```a`b" + "\n" + "x";
    BacktickInfo();
    NoFence();
    assert Step(Repository, None, "```a`b") == Some("```") by { FenceIsParse("```a`b"); }
    SecondLine(markdown, "```a`b", Some("```"));
    ShownAlone(SliceOf(markdown, 7, 8));
    ExcerptLines(markdown, 7, 8);
    FittingDocumentKeepsMeaning(Repository, markdown, 7, 8);
    var doc, shown := ["```a`b", "x"], ["```", "x", "```"];
    BareFence("```");
    assert doc[..1] == [doc[0]] && shown[..1] == [shown[0]];
    ReadOne(CommonMark, None, doc[0]);
    ReadOne(CommonMark, None, shown[0]);
    assert IsDocumentLine(markdown, 7, 8, 0);
    assert !StandsAsInDocument(CommonMark, markdown, 7, shown, 0);
  }

  lemma FenceIsParse(line: string)
    ensures FenceOf(Repository, line) == ParseMarkdownFence(line)
  {
  }

  /** A delimiter and a carriage return: the repository sees no fence. */
  lemma CarriageReturnFence(marker: string)
    requires IsMarker(marker)
    ensures ParseMarkdownFence(marker + "\r") == None
    ensures FenceOf(CommonMark, marker + "\r") == Some(Fence("", marker, ""))
  {
    hide Shape, IsFenceChar;
    assert !IsFenceChar('\r') by { NotAFence('\r'); }
    assert "\r"[0] == '\r';
    ShapeIs(marker, "\r");
    ChoppedShape(marker + "\r");
  }

  lemma NotAFence(c: char)
    requires c != '`' && c != '~'
    ensures !IsFenceChar(c)
  {
  }

  lemma BareFence(marker: string)
    requires IsMarker(marker)
    ensures ParseMarkdownFence(marker) == FenceOf(CommonMark, marker) == Some(Fence("", marker, ""))
  {
    hide Shape;
    Bare(marker);
    assert marker[|marker| - 1] == marker[0];
  }

  /** In a document whose lines end in a carriage return and a line feed the repository sees no
      fence, so that code cut out of it is shown as prose. */
  lemma CarriageReturnHidesFence()
    ensures var markdown := "```\r\nx";
      && MergeFree(SliceOf(markdown, 5, 6), 0, ActiveAt(markdown, 5))
      && ReadsLikeDocument(Repository, markdown, 5, 6) && !ReadsLikeDocument(CommonMark, markdown, 5, 6)
      && Split(markdown) == ["```\r", "x"] && Split(Excerpt(markdown, 5, 6)) == ["x"]
  {
    hide ParseMarkdownFence, Shape, FenceOf, MergeFree, BalancedLines, Split, ActiveAt, Excerpt;
    var markdown := "```\r\nx";
    assert markdown == "```\r" + "\n" + "x";
    CarriageReturnFence("```");
    assert "```" + "\r" == "```\r";
    NoFence();
    assert Step(Repository, None, "```\r") == None by { FenceIsParse("```\r"); }
    SecondLine(markdown, "```\r", None);
    ShownAlone(SliceOf(markdown, 5, 6));
    ExcerptLines(markdown, 5, 6);
    FittingDocumentKeepsMeaning(Repository, markdown, 5, 6);
    var doc, shown := ["```\r", "x"], ["x"];
    assert doc[..1] == [doc[0]] && shown[..0] == [];
    ReadOne(CommonMark, None, doc[0]);
    assert IsDocumentLine(markdown, 5, 6, 0);
    assert !StandsAsInDocument(CommonMark, markdown, 5, shown, 0);
  }

  lemma CarriageReturnLines(s: Slice)
    requires s == Slice(["````", "```", "~~~\r", "````"], true, true)
    ensures ParseMarkdownFence(s.lines[0]) == FenceOf(CommonMark, s.lines[0]) == Some(Fence("", "````", ""))
    ensures ParseMarkdownFence(s.lines[1]) == FenceOf(CommonMark, s.lines[1]) == Some(Fence("", "```", ""))
    ensures ParseMarkdownFence(s.lines[2]) == None && FenceOf(CommonMark, s.lines[2]) == Some(Fence("", "~~~", ""))
  {
    hide ParseMarkdownFence, FenceOf;
    BareFence("````");
    BareFence("```");
    assert "~~~" + "\r" == "~~~\r";
    CarriageReturnFence("~~~");
  }

  lemma CarriageReturnMergeFree(s: Slice)
    requires s == Slice(["````", "```", "~~~\r", "````"], true, true)
    ensures MergeFree(s, 0, None) && forall k :: 0 <= k < |s.lines| ==> IsLine(s.lines[k])
  {
    hide ParseMarkdownFence, Shape, MergeFree;
    CarriageReturnLines(s);
    assert forall k :: 0 <= k < |s.lines| ==> !TildeInfo(s.lines[k]);
    NoTildeInfoIsMergeFree(s, 0, None);
  }

  lemma CarriageReturnRender(s: Slice)
    requires s == Slice(["````", "```", "~~~\r", "````"], true, true)
    ensures RenderMarker(s, 1, "````", "") == "~~~"
  {
    hide ParseMarkdownFence, FenceOf, Shape;
    CarriageReturnLines(s);
    assert EndsFence(s, 3, "````") && !EndsFence(s, 2, "````") && !EndsFence(s, 1, "````");
    assert BareRun(s.lines[2], '`') == 0 && BareRun(s.lines[2], '~') == 0;
    assert BareRun(s.lines[1], '`') == 3 && BareRun(s.lines[1], '~') == 0;
    OneFurther(s, 2, '`');
    OneFurther(s, 2, '~');
    OneFurther(s, 1, '`');
    OneFurther(s, 1, '~');
  }

  lemma OneFurther(s: Slice, i: nat, c: char)
    requires i + 1 < |s.lines| && !EndsFence(s, i, "````")
    ensures Longest(s, i, "````", c) ==
      Max(BareRun(s.lines[i], c), if EndsFence(s, i + 1, "````") then 2 else Longest(s, i + 1, "````", c))
  {
    hide EndsFence, BareRun;
  }

  /** Lines below an opening line, read alike as long as it is open. */
  lemma {:induction false} AlikeInside(r: Reader, lines: seq<string>, s: State)
    requires IsState(s)
    requires forall k :: 0 <= k < |lines| ==> RoleOf(r, s, lines[k]) == RoleOf(Repository, s, lines[k])
    requires forall k :: 0 <= k < |lines| - 1 ==> RoleOf(Repository, s, lines[k]) == Code
    ensures AgreesFrom(r, s, lines)
  {
    hide RoleOf;
    if |lines| > 1 {
      AlikeInside(r, lines[1..], s);
    } else if |lines| == 1 {
      assert AgreesFrom(r, Step(Repository, s, lines[0]), lines[1..]);
    }
  }

  /** A slice that both readers read alike and that merges nothing, and still loses its meaning:
      around three backticks the delimiter becomes three tildes, which a line of tildes and a
      carriage return ends under section 4.5 and not for the repository. */
  lemma CarriageReturnEndsFence()
    ensures var s := Slice(["````", "```", "~~~\r", "````"], true, true);
      && (forall k :: 0 <= k < |s.lines| ==> IsLine(s.lines[k]))
      && AgreesFrom(CommonMark, None, s.lines) && MergeFree(s, 0, None) && !CodeStays(CommonMark, s, 0, Closed)
      && !KeepsMeaning(CommonMark, s.lines, None, BalancedLines(s, None))
  {
    hide ParseMarkdownFence, Shape, FenceOf, BalancedLines, KeepsMeaning, MergeFree;
    var s := Slice(["````", "```", "~~~\r", "````"], true, true);
    CarriageReturnLines(s);
    CarriageReturnMergeFree(s);
    CarriageReturnRender(s);
    FenceIsParse("````");
    FenceIsParse("```");
    FenceIsParse("~~~\r");
    AlikeInside(CommonMark, s.lines[1..], Some("````"));
    var o := Open("````", "~~~");
    assert Render(s, 0, Closed).1 == o && Render(s, 1, o).1 == o;
    assert !CodeStays(CommonMark, s, 2, o);
    assert !CodeStays(CommonMark, s, 1, o);
    ExcerptKeepsMeaning(CommonMark, s, None);
  }

  lemma BacktickInfoIsNotAgreeable()
    ensures !Agreeable("```a`b")
  {
    hide Shape;
    assert "```" + "a`b" == "```a`b";
    ShapeIs("```", "a`b");
    assert "a`b"[1] == '`';
  }

  lemma InsideTildes(s: Slice)
    requires s == Slice(["~~~", "```a`b", "~~~"], true, true)
    ensures ParseMarkdownFence(s.lines[0]) == FenceOf(CommonMark, s.lines[0]) == Some(Fence("", "~~~", ""))
    ensures ParseMarkdownFence(s.lines[1]) == Some(Fence("", "```", "a`b")) && FenceOf(CommonMark, s.lines[1]) == None
    ensures MergeFree(s, 0, None)
    ensures RenderMarker(s, 1, "~~~", "") == "~~~"
  {
    hide ParseMarkdownFence, FenceOf, Shape, MergeFree;
    BareFence("~~~");
    BacktickInfo();
    assert "a`b"[1] == '`';
    assert forall k :: 0 <= k < |s.lines| ==> !TildeInfo(s.lines[k]);
    NoTildeInfoIsMergeFree(s, 0, None);
    assert Longest(s, 2, "~~~", '`') == 2 && Longest(s, 2, "~~~", '~') == 2;
  }

  /** Agreeing on a line where it stands is less than agreeing on it everywhere: inside a tilde
      fence, backticks before an info string with a backtick are code to both. */
  lemma BacktickInfoInsideFence()
    ensures var s := Slice(["~~~", "```a`b", "~~~"], true, true);
      && !Agreeable(s.lines[1]) && AgreesFrom(CommonMark, None, s.lines)
      && KeepsMeaning(CommonMark, s.lines, None, BalancedLines(s, None))
  {
    hide ParseMarkdownFence, Shape, FenceOf, BalancedLines, KeepsMeaning, MergeFree, Agreeable;
    var s := Slice(["~~~", "```a`b", "~~~"], true, true);
    InsideTildes(s);
    BacktickInfoIsNotAgreeable();
    FenceIsParse("~~~");
    FenceIsParse("```a`b");
    AlikeInside(CommonMark, s.lines[1..], Some("~~~"));
    var o := Open("~~~", "~~~");
    assert Render(s, 0, Closed).1 == o && Render(s, 1, o).1 == o && Render(s, 2, o).1 == Closed;
    assert CodeStays(CommonMark, s, 2, o);
    assert CodeStays(CommonMark, s, 1, o);
    ExcerptKeepsMeaning(CommonMark, s, None);
  }
}
