/** Windows into a document: how a window is placed and trimmed to its limit, and that
    following next or previous targets reads the whole document piece by piece. */
module DocumentWindows {
  import opened Basics

  /** One UTF-16 code unit; offsets count these. */
  type CodeUnit = x: int | 0 <= x < 0x1_0000

  type Text = seq<CodeUnit>

  const NEWLINE: CodeUnit := 10

  const READ_MARKDOWN_LIMIT := 10_000
  const FENCE_BALANCE_RESERVE := 200
  const TRIM_ATTEMPTS := 4

  datatype Request =
    | Forward(start: int)
    | Backward(end: int)
    | Center(focusStart: int, focusEnd: int)

  datatype Span = Span(start: int, end: int)

  datatype Window = Window(start: int, end: int, truncatedBefore: bool, truncatedAfter: bool)

  // ---------- places in a text ----------

  function Clamp(value: int, minimum: int, maximum: int): int {
    Max(minimum, Min(maximum, value))
  }

  /** The last newline at or before `from`, or -1. */
  function LastNewline(text: Text, from: int): (r: int)
    ensures -1 <= r < |text| && (r >= 0 ==> r <= from && text[r] == NEWLINE)
    ensures forall k :: r < k < |text| && k <= from ==> text[k] != NEWLINE
    decreases from + 1
  {
    if from < 0 then -1
    else if from < |text| && text[from] == NEWLINE then from
    else LastNewline(text, from - 1)
  }

  /** The last blank-line break at or before `from`, or -1. */
  function LastParagraph(text: Text, from: int): (r: int)
    ensures -1 <= r && (r >= 0 ==> r <= from && r + 1 < |text| && text[r] == NEWLINE && text[r + 1] == NEWLINE)
    ensures forall k :: r < k && k + 1 < |text| && k <= from ==> !(text[k] == NEWLINE && text[k + 1] == NEWLINE)
    decreases from + 1
  {
    if from < 0 then -1
    else if from + 1 < |text| && text[from] == NEWLINE && text[from + 1] == NEWLINE then from
    else LastParagraph(text, from - 1)
  }

  /** The first newline at or after `from`, or -1. */
  function FirstNewline(text: Text, from: nat): (r: int)
    ensures -1 <= r < |text| && (r >= 0 ==> from <= r && text[r] == NEWLINE)
    ensures forall k :: from <= k < |text| && (r < 0 || k < r) ==> text[k] != NEWLINE
    decreases |text| - from
  {
    if from >= |text| then -1 else if text[from] == NEWLINE then from else FirstNewline(text, from + 1)
  }

  function PreferredStart(text: Text, desired: int, maximum: int): int {
    if desired <= 0 then 0
    else
      var paragraph := LastParagraph(text, desired);
      if paragraph >= Max(0, desired - 400) then Min(maximum, paragraph + 2)
      else
        var line := LastNewline(text, desired);
        if line == -1 then 0 else Min(maximum, line + 1)
  }

  function PreferredEnd(text: Text, minimum: int, desired: int): int {
    if desired >= |text| then |text|
    else
      var paragraph := LastParagraph(text, desired);
      if paragraph > Max(minimum, desired - 400) then paragraph + 2
      else
        var line := LastNewline(text, desired);
        if line <= minimum then desired else line + 1
  }

  function NextLineStart(text: Text, offset: nat): int {
    var newline := FirstNewline(text, offset);
    if newline == -1 then |text| else newline + 1
  }

  function PreviousLineEnd(text: Text, offset: int): int {
    var newline := LastNewline(text, offset);
    if newline == -1 then 0 else newline + 1
  }

  lemma PreferredStartBounds(text: Text, desired: int, maximum: int)
    requires 0 <= maximum <= |text|
    ensures 0 <= PreferredStart(text, desired, maximum) <= maximum
    ensures desired + 2 < maximum && 0 < maximum ==> PreferredStart(text, desired, maximum) < maximum
  {
  }

  lemma PreferredEndBounds(text: Text, minimum: int, desired: int)
    requires 0 <= minimum <= |text| && minimum <= desired
    ensures minimum <= PreferredEnd(text, minimum, desired) <= |text|
    ensures minimum < desired && minimum < |text| ==> minimum < PreferredEnd(text, minimum, desired)
  {
  }

  predicate NoNewline(text: Text, after: int, upTo: int)
    requires -1 <= after && upTo < |text|
  {
    forall k :: after < k <= upTo ==> text[k] != NEWLINE
  }

  predicate BlankLineAt(text: Text, k: int) {
    0 <= k && k + 1 < |text| && text[k] == NEWLINE && text[k + 1] == NEWLINE
  }

  /** A preferred end comes after a line feed; only when the range has none, or the document
      ends first, does the window end elsewhere. A blank line within the last 400 units wins. */
  lemma EndsAtABreak(text: Text, minimum: nat, desired: int)
    requires minimum <= desired
    ensures var r := PreferredEnd(text, minimum, desired);
      && (desired >= |text| ==> r == |text|)
      && (desired < |text| ==> (r > 0 && text[r - 1] == NEWLINE) || (r == desired && NoNewline(text, minimum, desired)))
      && (forall k :: BlankLineAt(text, k) && Max(minimum, desired - 400) < k <= desired < |text| ==>
        k + 2 <= r && BlankLineAt(text, r - 2))
  {
  }

  /** A preferred start is the document's start, or comes after a line feed, or is the focus. */
  lemma StartsAtABreak(text: Text, desired: int, maximum: nat)
    requires maximum <= |text|
    ensures var r := PreferredStart(text, desired, maximum);
      && (r == 0 || r == maximum || text[r - 1] == NEWLINE)
      && (r == 0 && 0 < desired < |text| && maximum > 0 ==> NoNewline(text, -1, desired))
  {
  }

  // ---------- placing a window ----------

  function ContentLimit(limit: nat): int {
    limit - FENCE_BALANCE_RESERVE
  }

  function PlaceCenter(text: Text, focusStart: int, focusEnd: int, content: int): Span {
    var before := Max(0, (content - Min(content, focusEnd - focusStart)) / 3);
    var start := PreferredStart(text, Max(0, focusStart - before), focusStart);
    var end := PreferredEnd(text, start, Min(|text|, start + content));
    if end < focusEnd then
      var later := PreferredEnd(text, focusEnd, Min(|text|, focusEnd + 1_000));
      Span(PreferredStart(text, Max(0, later - content), focusStart), later)
    else Span(start, end)
  }

  function PlaceFirst(text: Text, request: Request, limit: nat): Span {
    var content := ContentLimit(limit);
    match request
    case Forward(s) =>
      var start := Clamp(s, 0, |text|);
      Span(start, PreferredEnd(text, start, Min(|text|, start + content)))
    case Backward(e) =>
      var end := Clamp(e, 0, |text|);
      Span(PreferredStart(text, Max(0, end - content), end), end)
    case Center(s, e) =>
      var focusStart := Clamp(s, 0, |text|);
      PlaceCenter(text, focusStart, Clamp(Max(e, focusStart), focusStart, |text|), content)
  }

  /** An empty span in a document that is not empty is widened. */
  function Widen(text: Text, span: Span, limit: nat): Span {
    var content := ContentLimit(limit);
    if span.start != span.end || |text| == 0 then span
    else if span.start == |text| then Span(PreferredStart(text, Max(0, span.start - content), span.start), span.end)
    else Span(span.start, PreferredEnd(text, span.start, Min(|text|, span.start + content)))
  }

  function Place(text: Text, request: Request, limit: nat): Span {
    Widen(text, PlaceFirst(text, request, limit), limit)
  }

  predicate Inside(text: Text, span: Span) {
    0 <= span.start <= span.end <= |text|
  }

  lemma PlaceCenterBounds(text: Text, focusStart: int, focusEnd: int, content: int)
    requires 0 <= focusStart <= focusEnd <= |text| && content >= 3
    ensures Inside(text, PlaceCenter(text, focusStart, focusEnd, content))
  {
    hide PreferredStart, PreferredEnd;
    var before := Max(0, (content - Min(content, focusEnd - focusStart)) / 3);
    PreferredStartBounds(text, Max(0, focusStart - before), focusStart);
    var start := PreferredStart(text, Max(0, focusStart - before), focusStart);
    PreferredEndBounds(text, start, Min(|text|, start + content));
    PreferredEndBounds(text, focusEnd, Min(|text|, focusEnd + 1_000));
    var later := PreferredEnd(text, focusEnd, Min(|text|, focusEnd + 1_000));
    PreferredStartBounds(text, Max(0, later - content), focusStart);
  }

  lemma WidenBounds(text: Text, span: Span, limit: nat)
    requires Inside(text, span) && limit >= FENCE_BALANCE_RESERVE + 3
    ensures Inside(text, Widen(text, span, limit))
    ensures |text| > 0 ==> Widen(text, span, limit).start < Widen(text, span, limit).end
  {
    var content := ContentLimit(limit);
    if span.start == span.end && |text| > 0 {
      if span.start == |text| {
        PreferredStartBounds(text, Max(0, span.start - content), span.start);
        assert span.start - content <= 0 ==> PreferredStart(text, Max(0, span.start - content), span.start) == 0;
      } else {
        PreferredEndBounds(text, span.start, Min(|text|, span.start + content));
      }
    }
  }

  /** Every request is placed inside the document, and not empty unless the document is. */
  lemma PlaceBounds(text: Text, request: Request, limit: nat)
    requires limit >= FENCE_BALANCE_RESERVE + 3
    ensures Inside(text, Place(text, request, limit))
    ensures |text| > 0 ==> Place(text, request, limit).start < Place(text, request, limit).end
  {
    var content := ContentLimit(limit);
    match request {
      case Forward(s) =>
        var start := Clamp(s, 0, |text|);
        PreferredEndBounds(text, start, Min(|text|, start + content));
      case Backward(e) =>
        var end := Clamp(e, 0, |text|);
        PreferredStartBounds(text, Max(0, end - content), end);
      case Center(s, e) =>
        var focusStart := Clamp(s, 0, |text|);
        PlaceCenterBounds(text, focusStart, Clamp(Max(e, focusStart), focusStart, |text|), content);
    }
    WidenBounds(text, PlaceFirst(text, request, limit), limit);
  }

  // ---------- trimming to the limit ----------

  /** The length of what a span shows: its excerpt, balanced and trimmed. */
  type Shown = (int, int) -> nat

  predicate TrimsStart(request: Request, span: Span) {
    match request
    case Forward(_) => false
    case Backward(_) => true
    case Center(s, e) => s - span.start > span.end - e
  }

  function TrimOnce(text: Text, request: Request, span: Span, excess: nat): Span {
    if TrimsStart(request, span) then
      var next := NextLineStart(text, Max(0, Min(span.end, span.start + excess)));
      Span(if next >= span.end then Min(span.end - 1, span.start + excess) else next, span.end)
    else
      var previous := PreviousLineEnd(text, Max(span.start, span.end - excess));
      Span(span.start, if previous <= span.start then Max(span.start + 1, span.end - excess) else previous)
  }

  function Trim(text: Text, request: Request, limit: nat, shown: Shown, span: Span, attempts: nat): Span
    decreases attempts
  {
    var length := shown(span.start, span.end);
    if length <= limit || attempts == 0 then span
    else Trim(text, request, limit, shown, TrimOnce(text, request, span, length - limit + 16), attempts - 1)
  }

  function WindowOf(text: Text, request: Request, limit: nat, shown: Shown): Option<Window> {
    var span := Trim(text, request, limit, shown, Place(text, request, limit), TRIM_ATTEMPTS);
    if shown(span.start, span.end) > limit || span.end <= span.start then None
    else Some(Window(span.start, span.end, span.start > 0, span.end < |text|))
  }

  lemma TrimUnfolds(text: Text, request: Request, limit: nat, shown: Shown, span: Span, attempts: nat)
    ensures var length := shown(span.start, span.end);
      Trim(text, request, limit, shown, span, attempts) ==
      if length <= limit || attempts == 0 then span
      else Trim(text, request, limit, shown, TrimOnce(text, request, span, length - limit + 16), attempts - 1)
  {
  }

  /** `markdownWindow`; no window is the window error. */
  method MarkdownWindow(text: Text, request: Request, limit: nat, shown: Shown) returns (w: Option<Window>)
    ensures w == WindowOf(text, request, limit, shown)
  {
    hide Place, Trim, NextLineStart, PreviousLineEnd;
    var span := Place(text, request, limit);
    var startOffset, endOffset := span.start, span.end;
    var balanced := shown(startOffset, endOffset);
    var attempt := 0;
    while balanced > limit && attempt < TRIM_ATTEMPTS
      invariant attempt <= TRIM_ATTEMPTS && balanced == shown(startOffset, endOffset)
      invariant Trim(text, request, limit, shown, Span(startOffset, endOffset), TRIM_ATTEMPTS - attempt)
        == Trim(text, request, limit, shown, span, TRIM_ATTEMPTS)
      decreases TRIM_ATTEMPTS - attempt
    {
      var excess := balanced - limit + 16;
      TrimUnfolds(text, request, limit, shown, Span(startOffset, endOffset), TRIM_ATTEMPTS - attempt);
      if TrimsStart(request, Span(startOffset, endOffset)) {
        var nextStart := NextLineStart(text, Max(0, Min(endOffset, startOffset + excess)));
        startOffset := if nextStart >= endOffset then Min(endOffset - 1, startOffset + excess) else nextStart;
      } else {
        var previousEnd := PreviousLineEnd(text, Max(startOffset, endOffset - excess));
        endOffset := if previousEnd <= startOffset then Max(startOffset + 1, endOffset - excess) else previousEnd;
      }
      balanced := shown(startOffset, endOffset);
      attempt := attempt + 1;
    }
    TrimUnfolds(text, request, limit, shown, Span(startOffset, endOffset), TRIM_ATTEMPTS - attempt);
    if balanced > limit || endOffset <= startOffset {
      return None;
    }
    return Some(Window(startOffset, endOffset, startOffset > 0, endOffset < |text|));
  }

  /** A trimmed span lies in the one before and is not empty. */
  lemma TrimOnceShrinks(text: Text, request: Request, span: Span, excess: nat)
    requires Inside(text, span) && span.start < span.end && excess > 1
    ensures var s := TrimOnce(text, request, span, excess);
      span.start <= s.start < s.end <= span.end && (request.Forward? ==> s.start == span.start) &&
        (request.Backward? ==> s.end == span.end)
  {
  }

  lemma {:induction false} TrimShrinks(text: Text, request: Request, limit: nat, shown: Shown, span: Span,
      attempts: nat)
    requires Inside(text, span) && span.start < span.end
    ensures var s := Trim(text, request, limit, shown, span, attempts);
      span.start <= s.start < s.end <= span.end && (request.Forward? ==> s.start == span.start) &&
        (request.Backward? ==> s.end == span.end)
    decreases attempts
  {
    hide TrimOnce;
    var length := shown(span.start, span.end);
    if length > limit && attempts > 0 {
      var next := TrimOnce(text, request, span, length - limit + 16);
      TrimOnceShrinks(text, request, span, length - limit + 16);
      TrimShrinks(text, request, limit, shown, next, attempts - 1);
    }
  }

  // ---------- what a window is ----------

  /** Whatever is asked for: a window lies in the document, is not empty, shows no more than
      its limit, and says truthfully whether something comes before or after. */
  lemma WindowIsSound(text: Text, request: Request, limit: nat, shown: Shown)
    requires |text| > 0 && limit >= FENCE_BALANCE_RESERVE + 3
    ensures var w := WindowOf(text, request, limit, shown); w.Some? ==>
      && 0 <= w.value.start < w.value.end <= |text| && shown(w.value.start, w.value.end) <= limit
      && w.value.truncatedBefore == (w.value.start > 0) && w.value.truncatedAfter == (w.value.end < |text|)
  {
    PlaceBounds(text, request, limit);
    TrimShrinks(text, request, limit, shown, Place(text, request, limit), TRIM_ATTEMPTS);
  }

  /** A window fails only in an empty document, of which nothing can be shown, or because what
      it shows is still too long after the last attempt. */
  lemma WindowFailsExactly(text: Text, request: Request, limit: nat, shown: Shown)
    requires limit >= FENCE_BALANCE_RESERVE + 3 && (|text| == 0 ==> shown(0, 0) <= limit)
    ensures var s := Trim(text, request, limit, shown, Place(text, request, limit), 4);
      WindowOf(text, request, limit, shown).None? <==> |text| == 0 || shown(s.start, s.end) > limit
  {
    PlaceBounds(text, request, limit);
    if |text| > 0 {
      TrimShrinks(text, request, limit, shown, Place(text, request, limit), TRIM_ATTEMPTS);
    }
  }

  /** A forward window begins where it was asked to begin. */
  lemma ForwardWindow(text: Text, start: nat, limit: nat, shown: Shown)
    requires start < |text| && limit >= FENCE_BALANCE_RESERVE + 3
    ensures var w := WindowOf(text, Forward(start), limit, shown);
      w.Some? ==> w.value.start == start && start < w.value.end <= |text|
  {
    PreferredEndBounds(text, start, Min(|text|, start + ContentLimit(limit)));
    PlaceBounds(text, Forward(start), limit);
    TrimShrinks(text, Forward(start), limit, shown, Place(text, Forward(start), limit), TRIM_ATTEMPTS);
  }

  /** A backward window ends where it was asked to end. */
  lemma BackwardWindow(text: Text, end: nat, limit: nat, shown: Shown)
    requires 0 < end <= |text| && limit >= FENCE_BALANCE_RESERVE + 3
    ensures var w := WindowOf(text, Backward(end), limit, shown);
      w.Some? ==> w.value.end == end && 0 <= w.value.start < end
  {
    PreferredStartBounds(text, Max(0, end - ContentLimit(limit)), end);
    PlaceBounds(text, Backward(end), limit);
    TrimShrinks(text, Backward(end), limit, shown, Place(text, Backward(end), limit), TRIM_ATTEMPTS);
  }

  // ---------- following targets ----------

  /** The windows read by following next targets from `start`, unless one fails. */
  function Following(text: Text, start: nat, shown: Shown): Option<seq<Window>>
    requires start < |text|
    decreases |text| - start
  {
    ForwardWindow(text, start, READ_MARKDOWN_LIMIT, shown);
    var w := WindowOf(text, Forward(start), READ_MARKDOWN_LIMIT, shown);
    if w.None? then None
    else if !w.value.truncatedAfter then Some([w.value])
    else
      var rest := Following(text, w.value.end, shown);
      if rest.None? then None else Some([w.value] + rest.value)
  }

  /** The windows read by following previous targets up to `end`, in document order. */
  function Preceding(text: Text, end: nat, shown: Shown): Option<seq<Window>>
    requires 0 < end <= |text|
    decreases end
  {
    BackwardWindow(text, end, READ_MARKDOWN_LIMIT, shown);
    var w := WindowOf(text, Backward(end), READ_MARKDOWN_LIMIT, shown);
    if w.None? then None
    else if !w.value.truncatedBefore then Some([w.value])
    else
      var rest := Preceding(text, w.value.start, shown);
      if rest.None? then None else Some(rest.value + [w.value])
  }

  /** The source ranges of windows, one after the other. */
  function Ranges(text: Text, ws: seq<Window>): Text {
    if ws == [] then []
    else
      var w := ws[0];
      (if 0 <= w.start <= w.end <= |text| then text[w.start..w.end] else []) + Ranges(text, ws[1..])
  }

  /** Windows that follow each other without gap or overlap from `start` to `end`. */
  predicate Tiles(text: Text, ws: seq<Window>, start: int, end: int) {
    if ws == [] then start == end
    else ws[0].start == start && start < ws[0].end <= end <= |text| && Tiles(text, ws[1..], ws[0].end, end)
  }

  lemma {:induction false} TilesRead(text: Text, ws: seq<Window>, start: nat, end: nat)
    requires Tiles(text, ws, start, end) && start <= end <= |text|
    ensures Ranges(text, ws) == text[start..end]
  {
    if ws != [] {
      TilesRead(text, ws[1..], ws[0].end, end);
      assert text[start..end] == text[start..ws[0].end] + text[ws[0].end..end];
    }
  }

  lemma {:induction false} TilesJoin(text: Text, a: seq<Window>, b: seq<Window>, start: nat, middle: nat, end: nat)
    requires Tiles(text, a, start, middle) && Tiles(text, b, middle, end) && start <= middle <= end <= |text|
    ensures Tiles(text, a + b, start, end)
  {
    if a == [] {
      assert a + b == b;
    } else {
      TilesJoin(text, a[1..], b, a[0].end, middle, end);
      assert (a + b)[1..] == a[1..] + b;
    }
  }

  /** Next targets from any offset read the rest of the document exactly once, in order. */
  lemma {:induction false} FollowingTiles(text: Text, start: nat, shown: Shown)
    requires start < |text|
    ensures var ws := Following(text, start, shown); ws.Some? ==>
      Tiles(text, ws.value, start, |text|) && Ranges(text, ws.value) == text[start..]
    decreases |text| - start
  {
    hide WindowOf;
    ForwardWindow(text, start, READ_MARKDOWN_LIMIT, shown);
    WindowIsSound(text, Forward(start), READ_MARKDOWN_LIMIT, shown);
    var ws := Following(text, start, shown);
    if ws.Some? {
      var w := WindowOf(text, Forward(start), READ_MARKDOWN_LIMIT, shown).value;
      if w.truncatedAfter {
        FollowingTiles(text, w.end, shown);
        assert ws.value[1..] == Following(text, w.end, shown).value;
      } else {
        assert ws.value[1..] == [];
      }
      TilesRead(text, ws.value, start, |text|);
    }
  }

  /** Previous targets from any offset read everything before it exactly once, in order. */
  lemma {:induction false} PrecedingTiles(text: Text, end: nat, shown: Shown)
    requires 0 < end <= |text|
    ensures var ws := Preceding(text, end, shown); ws.Some? ==>
      Tiles(text, ws.value, 0, end) && Ranges(text, ws.value) == text[..end]
    decreases end
  {
    hide WindowOf;
    BackwardWindow(text, end, READ_MARKDOWN_LIMIT, shown);
    WindowIsSound(text, Backward(end), READ_MARKDOWN_LIMIT, shown);
    var ws := Preceding(text, end, shown);
    if ws.Some? {
      var w := WindowOf(text, Backward(end), READ_MARKDOWN_LIMIT, shown).value;
      assert Tiles(text, [w], w.start, end) by { assert [w][1..] == []; }
      if w.truncatedBefore {
        PrecedingTiles(text, w.start, shown);
        TilesJoin(text, Preceding(text, w.start, shown).value, [w], 0, w.start, end);
      }
      TilesRead(text, ws.value, 0, end);
    }
  }

  /** A window found in any way, with all its previous and all its next windows, is the
      document: from wherever a reader starts, both directions complete it. */
  lemma WindowCompletes(text: Text, request: Request, limit: nat, shown: Shown, before: seq<Window>, after: seq<Window>)
    requires |text| > 0 && limit >= FENCE_BALANCE_RESERVE + 3 && WindowOf(text, request, limit, shown).Some?
    requires var w := WindowOf(text, request, limit, shown).value;
      && (if w.truncatedBefore && 0 < w.start <= |text| then Preceding(text, w.start, shown) == Some(before)
        else before == [])
      && (if w.truncatedAfter && 0 <= w.end < |text| then Following(text, w.end, shown) == Some(after) else after == [])
    ensures var w := WindowOf(text, request, limit, shown).value;
      Tiles(text, before + [w] + after, 0, |text|) && Ranges(text, before + [w] + after) == text
  {
    hide WindowOf;
    WindowIsSound(text, request, limit, shown);
    var w := WindowOf(text, request, limit, shown).value;
    if w.truncatedBefore { PrecedingTiles(text, w.start, shown); }
    if w.truncatedAfter { FollowingTiles(text, w.end, shown); }
    assert Tiles(text, [w], w.start, w.end) by { assert [w][1..] == []; }
    TilesJoin(text, before, [w], 0, w.start, w.end);
    TilesJoin(text, before + [w], after, 0, w.end, |text|);
    TilesRead(text, before + [w] + after, 0, |text|);
    assert text[0..|text|] == text;
  }
}
