/** What a centred window shows of its focus: it is placed around the focus, and exactly which
    trimming rounds cut into it. Line feeds are counted directly, without the functions that place. */
module DocumentFocus {
  import opened Basics
  import opened DocumentWindows

  // ---------- breaks ----------

  predicate LineFeedAt(text: Text, k: int) {
    0 <= k < |text| && text[k] == 10
  }

  lemma LastBreaks(text: Text, from: int)
    ensures var p := LastParagraph(text, from);
      && (p >= 0 ==> BlankLineAt(text, p) && p <= from) && forall k :: BlankLineAt(text, k) && k <= from ==> k <= p
    ensures var l := LastNewline(text, from);
      && (l >= 0 ==> LineFeedAt(text, l) && l <= from) && forall k :: LineFeedAt(text, k) && k <= from ==> k <= l
  {
  }

  // ---------- placing ----------

  /** The focus of a centred request, within the document. */
  function FocusStart(text: Text, s: int): int {
    if s < 0 then 0 else if s > |text| then |text| else s
  }

  function FocusEnd(text: Text, s: int, e: int): int {
    if e < FocusStart(text, s) then FocusStart(text, s) else if e > |text| then |text| else e
  }

  lemma EndReach(text: Text, minimum: int, desired: int)
    requires 0 <= minimum <= desired
    ensures PreferredEnd(text, minimum, desired) <= desired + 2
  {
  }

  lemma StartReach(text: Text, desired: int, maximum: int)
    requires 0 <= desired && 0 <= maximum
    ensures PreferredStart(text, desired, maximum) <= desired + 2
  {
  }

  /** A preferred end for the text from `minimum` to `desired`: the end of the document if it comes
      first, else after the last blank line there if one is within 400 units, else after the last
      line feed there, else `desired`. */
  ghost predicate EndsWell(text: Text, minimum: int, desired: int, r: int) {
    if desired >= |text| then r == |text|
    else if exists k :: BlankLineAt(text, k) && Max(minimum, desired - 400) < k <= desired then
      BlankLineAt(text, r - 2) && r - 2 <= desired && forall k :: BlankLineAt(text, k) && k <= desired ==> k <= r - 2
    else if exists k :: LineFeedAt(text, k) && minimum < k <= desired then
      LineFeedAt(text, r - 1) && r - 1 <= desired && forall k :: LineFeedAt(text, k) && k <= desired ==> k <= r - 1
    else r == desired
  }

  /** The break before `desired`: after the last blank line if one is within 400 units, else after
      the last line feed, else the start of the document. */
  ghost predicate BreakBefore(text: Text, desired: int, b: int) {
    if desired <= 0 then b == 0
    else if exists k :: BlankLineAt(text, k) && Max(0, desired - 400) <= k <= desired then
      BlankLineAt(text, b - 2) && b - 2 <= desired && forall k :: BlankLineAt(text, k) && k <= desired ==> k <= b - 2
    else if exists k :: LineFeedAt(text, k) && k <= desired then
      LineFeedAt(text, b - 1) && b - 1 <= desired && forall k :: LineFeedAt(text, k) && k <= desired ==> k <= b - 1
    else b == 0
  }

  /** A preferred start: that break, but never after `maximum`. */
  ghost predicate StartsWell(text: Text, desired: int, maximum: int, r: int) {
    exists b :: BreakBefore(text, desired, b) && r == Min(maximum, b)
  }

  lemma PreferredEndsWell(text: Text, minimum: int, desired: int)
    requires 0 <= minimum <= desired
    ensures EndsWell(text, minimum, desired, PreferredEnd(text, minimum, desired))
  {
    LastBreaks(text, desired);
  }

  lemma PreferredStartsWell(text: Text, desired: int, maximum: int)
    requires 0 <= maximum
    ensures StartsWell(text, desired, maximum, PreferredStart(text, desired, maximum))
  {
    LastBreaks(text, desired);
    var p, l := LastParagraph(text, desired), LastNewline(text, desired);
    var b := if desired <= 0 then 0 else if p >= Max(0, desired - 400) then p + 2 else if l == -1 then 0 else l + 1;
    assert BreakBefore(text, desired, b);
  }

  /** The content in front of the end of the document. */
  ghost predicate ShowsTheEnd(text: Text, content: int, span: Span) {
    span.end == |text| && StartsWell(text, |text| - content, |text|, span.start)
  }

  /** A request is placed where it should be: a forward one from its offset to the last break within
      the content, a backward one from the break in front of the content to its offset; and beyond
      the end, or before the start, the last or the first content of the document is shown. */
  lemma PlacedExactly(text: Text, offset: int, limit: nat)
    requires limit >= FENCE_BALANCE_RESERVE + 3 && |text| > 0
    ensures var span, content := Place(text, Forward(offset), limit), limit - 200;
      if offset >= |text| then ShowsTheEnd(text, content, span)
      else
        var start := if offset < 0 then 0 else offset;
        span.start == start && EndsWell(text, start, Min(|text|, start + content), span.end)
    ensures var span, content := Place(text, Backward(offset), limit), limit - 200;
      if offset <= 0 then span.start == 0 && EndsWell(text, 0, Min(|text|, content), span.end)
      else
        var end := if offset > |text| then |text| else offset;
        span.end == end && StartsWell(text, end - content, end, span.start)
  {
    hide PreferredStart, PreferredEnd, EndsWell, StartsWell;
    var content, at := ContentLimit(limit), Clamp(offset, 0, |text|);
    PreferredEndsWell(text, at, Min(|text|, at + content));
    PreferredEndBounds(text, at, Min(|text|, at + content));
    PreferredStartsWell(text, Max(0, at - content), at);
    PreferredStartBounds(text, Max(0, at - content), at);
    EarlyStart(text, at - content, at);
    PreferredStartsWell(text, Max(0, |text| - content), |text|);
    EarlyStart(text, |text| - content, |text|);
    if at > 0 { StartIsEarlier(text, at, content); }
  }

  /** Before the document there is no break but its start. */
  lemma EarlyStart(text: Text, desired: int, maximum: int)
    ensures forall r :: StartsWell(text, Max(0, desired), maximum, r) <==> StartsWell(text, desired, maximum, r)
  {
    forall b ensures BreakBefore(text, Max(0, desired), b) <==> BreakBefore(text, desired, b) {}
  }

  lemma StartIsEarlier(text: Text, at: int, content: int)
    requires 0 < at <= |text| && content >= 3
    ensures PreferredStart(text, Max(0, at - content), at) < at
  {
    PreferredStartBounds(text, Max(0, at - content), at);
    assert at - content <= 0 ==> PreferredStart(text, 0, at) == 0;
  }

  /** Where a centred window is placed for a focus in the document. */
  ghost predicate Around(fs: int, fe: int, content: int, span: Span) {
    var third := if fe - fs >= content then 0 else (content - (fe - fs)) / 3;
    && span.start <= fs && fe <= span.end
    && (|| (span.start <= Max(0, fs - third) + 2 && span.end <= span.start + content + 2)
        || (span.start <= Max(0, span.end - content) + 2 && span.end <= fe + 1_000 + 2))
  }

  lemma CenterAround(text: Text, fs: int, fe: int, content: int)
    requires 0 <= fs <= fe <= |text| && content >= 3
    ensures Around(fs, fe, content, PlaceCenter(text, fs, fe, content))
  {
    hide PreferredStart, PreferredEnd;
    var before := Max(0, (content - Min(content, fe - fs)) / 3);
    StartReach(text, Max(0, fs - before), fs);
    PreferredStartBounds(text, Max(0, fs - before), fs);
    var start := PreferredStart(text, Max(0, fs - before), fs);
    EndReach(text, start, Min(|text|, start + content));
    EndReach(text, fe, Min(|text|, fe + 1_000));
    PreferredEndBounds(text, fe, Min(|text|, fe + 1_000));
    var later := PreferredEnd(text, fe, Min(|text|, fe + 1_000));
    StartReach(text, Max(0, later - content), fs);
    PreferredStartBounds(text, Max(0, later - content), fs);
  }

  lemma WidenAround(text: Text, fs: int, fe: int, span: Span, limit: nat)
    requires limit >= FENCE_BALANCE_RESERVE + 3 && Inside(text, span) && Around(fs, fe, limit - 200, span)
    requires 0 <= fs <= fe <= |text|
    ensures Around(fs, fe, limit - 200, Widen(text, span, limit))
  {
    hide PreferredStart, PreferredEnd;
    var content := ContentLimit(limit);
    StartReach(text, Max(0, span.start - content), span.start);
    PreferredStartBounds(text, Max(0, span.start - content), span.start);
    EndReach(text, span.start, Min(|text|, span.start + content));
    PreferredEndBounds(text, span.start, Min(|text|, span.start + content));
  }

  /** First the content is laid a third of its spare room before the focus, from break to break. If
      that does not reach the end of the focus, the end is laid within 1 000 units after the focus
      instead and the content reaches back from there, though never into the focus. */
  ghost predicate LaidAround(text: Text, fs: int, fe: int, content: int, first: Span, span: Span) {
    var third := if fe - fs >= content then 0 else (content - (fe - fs)) / 3;
    && StartsWell(text, fs - third, fs, first.start)
    && EndsWell(text, first.start, Min(|text|, first.start + content), first.end)
    && if fe <= first.end then (if fs == |text| == first.start then ShowsTheEnd(text, content, span) else span == first)
       else
         && EndsWell(text, fe, Min(|text|, fe + 1_000), span.end)
         && StartsWell(text, span.end - content, fs, span.start)
  }

  lemma FirstLaid(text: Text, fs: int, fe: int, content: int)
    requires 0 <= fs <= fe <= |text| && content >= 3
    ensures var third := if fe - fs >= content then 0 else (content - (fe - fs)) / 3;
      var start := PreferredStart(text, Max(0, fs - third), fs);
      var end := PreferredEnd(text, start, Min(|text|, start + content));
      && StartsWell(text, fs - third, fs, start) && EndsWell(text, start, Min(|text|, start + content), end)
      && 0 <= start <= fs && start <= end <= |text| && (start < |text| ==> start < end)
  {
    hide PreferredStart, PreferredEnd, EndsWell, StartsWell;
    var third := if fe - fs >= content then 0 else (content - (fe - fs)) / 3;
    PreferredStartsWell(text, Max(0, fs - third), fs);
    PreferredStartBounds(text, Max(0, fs - third), fs);
    EarlyStart(text, fs - third, fs);
    var start := PreferredStart(text, Max(0, fs - third), fs);
    PreferredEndsWell(text, start, Min(|text|, start + content));
    PreferredEndBounds(text, start, Min(|text|, start + content));
  }

  lemma LaterLaid(text: Text, fs: int, fe: int, content: int)
    requires 0 <= fs <= fe <= |text| && |text| > 0 && content >= 3
    ensures var later := PreferredEnd(text, fe, Min(|text|, fe + 1_000));
      var start := PreferredStart(text, Max(0, later - content), fs);
      && EndsWell(text, fe, Min(|text|, fe + 1_000), later) && StartsWell(text, later - content, fs, start)
      && start < later <= |text| && 0 <= start
  {
    hide PreferredStart, PreferredEnd, EndsWell, StartsWell;
    PreferredEndsWell(text, fe, Min(|text|, fe + 1_000));
    PreferredEndBounds(text, fe, Min(|text|, fe + 1_000));
    var later := PreferredEnd(text, fe, Min(|text|, fe + 1_000));
    PreferredStartsWell(text, Max(0, later - content), fs);
    PreferredStartBounds(text, Max(0, later - content), fs);
    EarlyStart(text, later - content, fs);
    if fs == later { StartIsEarlier(text, later, content); }
  }

  lemma CentreFirst(text: Text, fs: int, fe: int, content: int)
    requires 0 <= fs <= fe <= |text| && content >= 3
    ensures var third := if fe - fs >= content then 0 else (content - (fe - fs)) / 3;
      var start := PreferredStart(text, Max(0, fs - third), fs);
      var end := PreferredEnd(text, start, Min(|text|, start + content));
      var later := PreferredEnd(text, fe, Min(|text|, fe + 1_000));
      PlaceCenter(text, fs, fe, content) ==
        if end < fe then Span(PreferredStart(text, Max(0, later - content), fs), later) else Span(start, end)
  {
    hide PreferredStart, PreferredEnd;
    assert Max(0, (content - Min(content, fe - fs)) / 3) == if fe - fs >= content then 0 else (content - (fe - fs)) / 3;
  }

  lemma CentreClamps(text: Text, s: int, e: int, limit: nat)
    ensures PlaceFirst(text, Center(s, e), limit)
      == PlaceCenter(text, FocusStart(text, s), FocusEnd(text, s, e), limit - 200)
    ensures 0 <= FocusStart(text, s) <= FocusEnd(text, s, e) <= |text|
  {
    hide PlaceCenter;
  }

  lemma CentrePlaced(text: Text, s: int, e: int, limit: nat)
    requires limit >= FENCE_BALANCE_RESERVE + 3 && |text| > 0
    ensures var content, fs, fe := limit - 200, FocusStart(text, s), FocusEnd(text, s, e);
      var third := if fe - fs >= content then 0 else (content - (fe - fs)) / 3;
      var start := PreferredStart(text, Max(0, fs - third), fs);
      var end := PreferredEnd(text, start, Min(|text|, start + content));
      var later := PreferredEnd(text, fe, Min(|text|, fe + 1_000));
      Place(text, Center(s, e), limit) ==
        if end < fe then Span(PreferredStart(text, Max(0, later - content), fs), later)
        else if start == end then Span(PreferredStart(text, Max(0, |text| - content), |text|), |text|)
        else Span(start, end)
  {
    hide PreferredStart, PreferredEnd, EndsWell, StartsWell, PlaceCenter, PlaceFirst, FocusStart, FocusEnd;
    CentreClamps(text, s, e, limit);
    CentreFirst(text, FocusStart(text, s), FocusEnd(text, s, e), limit - 200);
    FirstLaid(text, FocusStart(text, s), FocusEnd(text, s, e), limit - 200);
    LaterLaid(text, FocusStart(text, s), FocusEnd(text, s, e), limit - 200);
  }

  /** A centred request is laid around its focus in exactly that way. */
  lemma CentrePlacedExactly(text: Text, s: int, e: int, limit: nat) returns (first: Span)
    requires limit >= FENCE_BALANCE_RESERVE + 3 && |text| > 0
    ensures LaidAround(
      text, FocusStart(text, s), FocusEnd(text, s, e), limit - 200, first, Place(text, Center(s, e), limit))
  {
    hide PreferredStart, PreferredEnd, EndsWell, StartsWell, Place;
    var content, fs, fe := limit - 200, FocusStart(text, s), FocusEnd(text, s, e);
    FirstLaid(text, fs, fe, content);
    LaterLaid(text, fs, fe, content);
    CentrePlaced(text, s, e, limit);
    var third := if fe - fs >= content then 0 else (content - (fe - fs)) / 3;
    var start := PreferredStart(text, Max(0, fs - third), fs);
    first := Span(start, PreferredEnd(text, start, Min(|text|, start + content)));
    PreferredStartsWell(text, Max(0, |text| - content), |text|);
    EarlyStart(text, |text| - content, |text|);
  }

  /** A centred request is placed around its focus. It leaves a third of the content that the focus does not
      need in front of it, and is no longer than its content; a focus that does not fit in this way is followed
      by at most 1 000 units, and the content reaches back from there. */
  lemma PlacedAroundFocus(text: Text, s: int, e: int, limit: nat)
    requires limit >= FENCE_BALANCE_RESERVE + 3
    ensures Around(FocusStart(text, s), FocusEnd(text, s, e), limit - 200, Place(text, Center(s, e), limit))
  {
    hide PlaceCenter, Widen, Around;
    var content, fs, fe := ContentLimit(limit), FocusStart(text, s), FocusEnd(text, s, e);
    CenterAround(text, fs, fe, content);
    PlaceCenterBounds(text, fs, fe, content);
    assert PlaceFirst(text, Center(s, e), limit) == PlaceCenter(text, fs, fe, content);
    WidenAround(text, fs, fe, PlaceFirst(text, Center(s, e), limit), limit);
  }

  // ---------- trimming ----------

  /** The first line feed from `from` on, if there is one before `end - 1`, ends the part that is cut off in
      front; otherwise exactly what is in excess is cut off, but for one unit. */
  predicate CutsFront(text: Text, span: Span, excess: nat, cut: int) {
    var from := if span.start + excess < span.end then span.start + excess else span.end;
    if exists k :: LineFeedAt(text, k) && from <= k < span.end - 1
    then LineFeedAt(text, cut - 1) && from <= cut - 1 && forall k :: LineFeedAt(text, k) && from <= k ==> cut - 1 <= k
    else cut == if span.start + excess < span.end - 1 then span.start + excess else span.end - 1
  }

  /** The last line feed up to `to`, if there is one after the span's start, begins what is cut off behind;
      otherwise exactly what is in excess is cut off, but for one unit. */
  predicate CutsBack(text: Text, span: Span, excess: nat, cut: int) {
    var to := if span.end - excess > span.start then span.end - excess else span.start;
    if exists k :: LineFeedAt(text, k) && span.start <= k <= to
    then LineFeedAt(text, cut - 1) && cut - 1 <= to && forall k :: LineFeedAt(text, k) && k <= to ==> k <= cut - 1
    else cut == if span.end - excess > span.start + 1 then span.end - excess else span.start + 1
  }

  /** A round cuts a backward window in front, a forward one behind, and a centred one on the side where more
      of it lies beyond the requested offsets, behind if both are equal. */
  lemma RoundCuts(text: Text, request: Request, span: Span, excess: nat)
    requires Inside(text, span) && span.start < span.end && excess > 0
    ensures var t := TrimOnce(text, request, span, excess);
      var front := request.Backward?
        || (request.Center? && request.focusStart - span.start > span.end - request.focusEnd);
      if front then CutsFront(text, span, excess, t.start) && t.end == span.end
      else CutsBack(text, span, excess, t.end) && t.start == span.start
  {
    hide CutsFront, CutsBack, NextLineStart, PreviousLineEnd;
    FrontCut(text, span, excess);
    BackCut(text, span, excess);
  }

  lemma FirstBreak(text: Text, from: nat)
    ensures var l := FirstNewline(text, from);
      && (l >= 0 ==> LineFeedAt(text, l) && from <= l)
      && forall k :: LineFeedAt(text, k) && from <= k ==> 0 <= l <= k
  {
  }

  lemma FrontCut(text: Text, span: Span, excess: nat)
    requires Inside(text, span) && span.start < span.end
    ensures var next := NextLineStart(text, Max(0, Min(span.end, span.start + excess)));
      CutsFront(text, span, excess, if next >= span.end then Min(span.end - 1, span.start + excess) else next)
  {
    FirstBreak(text, Max(0, Min(span.end, span.start + excess)));
  }

  lemma BackCut(text: Text, span: Span, excess: nat)
    requires Inside(text, span) && span.start < span.end
    ensures var previous := PreviousLineEnd(text, Max(span.start, span.end - excess));
      CutsBack(text, span, excess, if previous <= span.start then Max(span.start + 1, span.end - excess) else previous)
  {
    LastBreaks(text, Max(span.start, span.end - excess));
  }

  // ---------- when the focus is cut ----------

  predicate ShowsFocus(span: Span, fs: int, fe: int) {
    span.start <= fs && fe <= span.end
  }

  /** Cutting in front spares the focus: a line feed of the part to go through lies before it, or there is
      none at all and the excess ends before it. */
  ghost predicate FrontSpares(text: Text, span: Span, excess: nat, fs: int) {
    || (exists k :: LineFeedAt(text, k) && span.start + excess <= k < span.end - 1 && k < fs)
    || ((forall k :: LineFeedAt(text, k) && k < span.end - 1 ==> k < span.start + excess)
        && (span.start + excess <= fs || span.end - 1 <= fs))
  }

  ghost predicate BackSpares(text: Text, span: Span, excess: nat, fe: int) {
    var to := if span.end - excess > span.start then span.end - excess else span.start;
    || (exists k :: LineFeedAt(text, k) && span.start <= k <= to && fe <= k + 1)
    || ((forall k :: LineFeedAt(text, k) && span.start <= k ==> to < k)
        && (fe <= span.end - excess || fe <= span.start + 1))
  }

  ghost predicate RoundSpares(text: Text, s: int, e: int, span: Span, excess: nat) {
    if s - span.start > span.end - e then FrontSpares(text, span, excess, FocusStart(text, s))
    else BackSpares(text, span, excess, FocusEnd(text, s, e))
  }

  /** No round of trimming cuts into the focus. */
  ghost predicate RoundsSpare(text: Text, s: int, e: int, limit: nat, shown: Shown, span: Span, attempts: nat)
    decreases attempts
  {
    shown(span.start, span.end) <= limit || attempts == 0 ||
    var excess := shown(span.start, span.end) - limit + 16;
    RoundSpares(text, s, e, span, excess)
      && RoundsSpare(text, s, e, limit, shown, TrimOnce(text, Center(s, e), span, excess), attempts - 1)
  }

  lemma FocusOrdered(text: Text, s: int, e: int)
    ensures 0 <= FocusStart(text, s) <= FocusEnd(text, s, e) <= |text|
  {
  }

  lemma RoundSparesExactly(text: Text, s: int, e: int, span: Span, excess: nat)
    requires Inside(text, span) && span.start < span.end && excess > 0
    requires ShowsFocus(span, FocusStart(text, s), FocusEnd(text, s, e))
    ensures ShowsFocus(TrimOnce(text, Center(s, e), span, excess), FocusStart(text, s), FocusEnd(text, s, e))
      <==> RoundSpares(text, s, e, span, excess)
  {
    hide TrimOnce, CutsFront, CutsBack, FrontSpares, BackSpares, FocusStart, FocusEnd;
    var t := TrimOnce(text, Center(s, e), span, excess);
    RoundCuts(text, Center(s, e), span, excess);
    FocusOrdered(text, s, e);
    if s - span.start > span.end - e {
      FrontSparesExactly(text, span, excess, t.start, FocusStart(text, s));
    } else {
      BackSparesExactly(text, span, excess, t.end, FocusEnd(text, s, e));
    }
  }

  lemma FrontSparesExactly(text: Text, span: Span, excess: nat, cut: int, fs: int)
    requires Inside(text, span) && span.start < span.end && CutsFront(text, span, excess, cut) && fs <= span.end
    ensures cut <= fs <==> FrontSpares(text, span, excess, fs)
  {
    assert LineFeedAt(text, cut - 1) ==> cut - 1 < |text|;
  }

  lemma BackSparesExactly(text: Text, span: Span, excess: nat, cut: int, fe: int)
    requires Inside(text, span) && span.start < span.end && CutsBack(text, span, excess, cut)
    ensures fe <= cut <==> BackSpares(text, span, excess, fe)
  {
  }

  lemma {:induction false} TrimSparesExactly(text: Text, s: int, e: int, limit: nat, shown: Shown, span: Span,
      attempts: nat)
    requires Inside(text, span) && span.start < span.end
    requires ShowsFocus(span, FocusStart(text, s), FocusEnd(text, s, e))
    ensures var t := Trim(text, Center(s, e), limit, shown, span, attempts);
      ShowsFocus(t, FocusStart(text, s), FocusEnd(text, s, e))
      <==> RoundsSpare(text, s, e, limit, shown, span, attempts)
    decreases attempts
  {
    hide TrimOnce, RoundSpares, FocusStart, FocusEnd;
    var length := shown(span.start, span.end);
    if length > limit && attempts > 0 {
      var next := TrimOnce(text, Center(s, e), span, length - limit + 16);
      TrimOnceShrinks(text, Center(s, e), span, length - limit + 16);
      RoundSparesExactly(text, s, e, span, length - limit + 16);
      if ShowsFocus(next, FocusStart(text, s), FocusEnd(text, s, e)) {
        TrimSparesExactly(text, s, e, limit, shown, next, attempts - 1);
      } else {
        TrimShrinks(text, Center(s, e), limit, shown, next, attempts - 1);
      }
    }
  }

  /** The window of a search hit shows the whole hit exactly when none of the up to four rounds of trimming
      cuts into it. In particular it does when nothing needs to be trimmed. */
  lemma FocusIsShownExactly(text: Text, s: int, e: int, limit: nat, shown: Shown)
    requires limit >= FENCE_BALANCE_RESERVE + 3 && |text| > 0
    ensures var w := WindowOf(text, Center(s, e), limit, shown); var span := Place(text, Center(s, e), limit);
      && (w.Some? ==>
          ((w.value.start <= FocusStart(text, s) && FocusEnd(text, s, e) <= w.value.end)
            <==> RoundsSpare(text, s, e, limit, shown, span, 4)))
      && (shown(span.start, span.end) <= limit ==>
          w == Some(Window(span.start, span.end, span.start > 0, span.end < |text|)))
  {
    hide Place, FocusStart, FocusEnd, RoundsSpare;
    PlaceBounds(text, Center(s, e), limit);
    PlacedAroundFocus(text, s, e, limit);
    TrimSparesExactly(text, s, e, limit, shown, Place(text, Center(s, e), limit), 4);
  }
}
