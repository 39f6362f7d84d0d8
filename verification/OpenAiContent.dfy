/** What a chat completion shows and exactly when it completes, read off the list of reply
    events alone: nothing here speaks of the sink's own state. */
module OpenAiContent {
  import opened Basics
  import opened OpenAiReply

  // ---------- what the events say ----------

  function Init(events: seq<Event>): seq<Event>
    requires events != []
  {
    events[..|events| - 1]
  }

  function Last(events: seq<Event>): Event
    requires events != []
  {
    events[|events| - 1]
  }

  /** The assistant's text: deltas are appended, a replacement takes its place. */
  function SaidNext(said: Text, e: Event): Text {
    match e
    case TextDelta(delta) => said + delta
    case TextReplace(text) => text
    case _ => said
  }

  function Said(events: seq<Event>): Text {
    if events == [] then [] else SaidNext(Said(Init(events)), Last(events))
  }

  /** Its size as the sink adds it up, deltas one by one. */
  function BytesNext(c: Config, bytes: nat, e: Event): nat {
    match e
    case TextDelta(delta) => bytes + c.bytes(delta)
    case TextReplace(text) => c.bytes(text)
    case _ => bytes
  }

  function SaidBytes(c: Config, events: seq<Event>): nat {
    if events == [] then 0 else BytesNext(c, SaidBytes(c, Init(events)), Last(events))
  }

  function Called(events: seq<Event>): set<string> {
    set e | e in events && e.ToolCall? :: e.id
  }

  function Answered(events: seq<Event>): set<string> {
    set e | e in events && e.ToolResult? :: e.callId
  }

  function RenderedBytes(c: Config, events: seq<Event>): nat {
    if events == [] then 0
    else RenderedBytes(c, Init(events)) + if Last(events).ToolResult? then c.bytes(Last(events).rendered) else 0
  }

  /** Each tool detail with the length of the text at the time. */
  function Details(events: seq<Event>): seq<Detail> {
    if events == [] then []
    else
      Details(Init(events))
      + if Last(events).ToolResult? then [Detail(|Said(Init(events))|, Last(events).rendered)] else []
  }

  function Rest(said: Text, text: Text): Text {
    if |said| <= |text| then text[|said|..] else []
  }

  function NonEmpty(piece: Text): seq<Text> {
    if piece == [] then [] else [piece]
  }

  /** The content an event brings after the events `before`: what is new in the text, or a
      tool detail. */
  function Brought(before: seq<Event>, e: Event): seq<Text> {
    match e
    case TextDelta(delta) => NonEmpty(delta)
    case TextReplace(text) => NonEmpty(Rest(Said(before), text))
    case ToolResult(_, rendered) => [rendered]
    case _ => []
  }

  function Pieces(events: seq<Event>): seq<Text> {
    if events == [] then [] else Pieces(Init(events)) + Brought(Init(events), Last(events))
  }

  function Joined(pieces: seq<Text>): Text {
    if pieces == [] then [] else Joined(pieces[..|pieces| - 1]) + pieces[|pieces| - 1]
  }

  /** What it costs to stream them: one frame each, and the role frame before the first. */
  function Cost(c: Config, pieces: seq<Text>): nat {
    if pieces == [] then 0
    else
      Cost(c, pieces[..|pieces| - 1]) + c.frame(pieces[|pieces| - 1]) + if |pieces| == 1 then c.roleFrame else 0
  }

  // ---------- which events are accepted ----------

  /** The reserve for the terminal frames stays. */
  predicate Affordable(c: Config, pieces: seq<Text>) {
    Cost(c, pieces) + 2_048 <= c.maxResponseBytes
  }

  /** Sizes within the limit, no text taken back from a stream, calls new and few, and
      results only for calls that wait for one. */
  predicate Fitting(c: Config, before: seq<Event>, e: Event) {
    match e
    case TextDelta(delta) => SaidBytes(c, before) + c.bytes(delta) <= c.maxResponseBytes
    case TextReplace(text) => c.bytes(text) <= c.maxResponseBytes && (c.stream ==> Said(before) <= text)
    case Usage(valid) => valid
    case Ignored => true
    case ToolCall(id) => id !in Called(before) && |Called(before)| < 256
    case ToolResult(id, rendered) =>
      && id in Called(before) && id !in Answered(before)
      && RenderedBytes(c, before) + c.bytes(rendered) <= c.maxResponseBytes
    case Unsupported => false
  }

  /** The event `e` after the events `before`: fitting, and within a stream's budget. */
  predicate Accepts(c: Config, before: seq<Event>, e: Event) {
    && Fitting(c, before, e)
    && (c.stream && Brought(before, e) != [] ==> Affordable(c, Pieces(before) + Brought(before, e)))
  }

  predicate AllAccepted(c: Config, events: seq<Event>) {
    forall i :: 0 <= i < |events| ==> Accepts(c, events[..i], events[i])
  }

  // ---------- the sink records them ----------

  ghost predicate WireRecords(c: Config, w: Wire, streamed: Text, pieces: seq<Text>) {
    && w.streamed == streamed && w.content == Joined(pieces) && (w.started <==> pieces != [])
    && w.remaining == c.maxResponseBytes - Cost(c, pieces)
  }

  ghost predicate Records(c: Config, r: Reply, events: seq<Event>) {
    && r.text == Said(events) && r.textBytes == SaidBytes(c, events)
    && r.tools.seen == Called(events) && r.tools.pending == Called(events) - Answered(events)
    && r.tools.bytes == RenderedBytes(c, events)
    && if c.stream then r.tools.details == [] && WireRecords(c, r.wire, Said(events), Pieces(events))
       else r.tools.details == Details(events)
  }

  lemma PiecesMore(c: Config, pieces: seq<Text>, piece: Text)
    ensures Joined(pieces + [piece]) == Joined(pieces) + piece
    ensures Cost(c, pieces + [piece])
      == Cost(c, pieces) + c.frame(piece) + if pieces == [] then c.roleFrame else 0
  {
    assert (pieces + [piece])[..|pieces|] == pieces;
  }

  /** A piece is written exactly when the reserve stays, the role frame included. */
  lemma ContentRecords(c: Config, w: Wire, streamed: Text, pieces: seq<Text>, piece: Text)
    requires WireRecords(c, w, streamed, pieces)
    ensures var sent := WriteContent(c, w, piece);
      && (sent.ok <==> Affordable(c, pieces + [piece]))
      && (sent.ok ==> WireRecords(c, sent.state, streamed, pieces + [piece]))
  {
    hide Joined, Cost;
    PiecesMore(c, pieces, piece);
  }

  lemma TextRecords(c: Config, w: Wire, streamed: Text, pieces: seq<Text>, value: Text)
    requires WireRecords(c, w, streamed, pieces)
    ensures var sent := StreamContent(c, w, value);
      && (sent.ok <==> value == [] || Affordable(c, pieces + NonEmpty(value)))
      && (sent.ok ==> WireRecords(c, sent.state, streamed + value, pieces + NonEmpty(value)))
  {
    hide WriteContent, Joined, Cost, Affordable;
    if value == [] {
      assert streamed + value == streamed && pieces + NonEmpty(value) == pieces;
    } else {
      ContentRecords(c, w, streamed, pieces, value);
    }
  }

  lemma Recent(c: Config, events: seq<Event>, e: Event)
    ensures Said(events + [e]) == SaidNext(Said(events), e)
    ensures SaidBytes(c, events + [e]) == BytesNext(c, SaidBytes(c, events), e)
    ensures RenderedBytes(c, events + [e])
      == RenderedBytes(c, events) + if e.ToolResult? then c.bytes(e.rendered) else 0
    ensures Details(events + [e])
      == Details(events) + if e.ToolResult? then [Detail(|Said(events)|, e.rendered)] else []
    ensures Pieces(events + [e]) == Pieces(events) + Brought(events, e)
  {
    hide Brought;
    assert Init(events + [e]) == events && Last(events + [e]) == e;
  }

  lemma RecentCalls(events: seq<Event>, e: Event)
    ensures Called(events + [e]) == Called(events) + if e.ToolCall? then {e.id} else {}
    ensures Answered(events + [e]) == Answered(events) + if e.ToolResult? then {e.callId} else {}
  {
    assert forall x :: x in events + [e] <==> x in events || x == e;
    assert e in events + [e];
  }

  lemma DeltaRecords(c: Config, r: Reply, events: seq<Event>, delta: Text)
    requires !r.failed && Records(c, r, events)
    ensures var s, e := EmitDelta(c, r, delta), TextDelta(delta);
      && (s.failed <==> !Accepts(c, events, e)) && (!s.failed ==> Records(c, s, events + [e]))
  {
    hide Said, SaidBytes, RenderedBytes, Details, Pieces, Called, Answered, Affordable, WireRecords, StreamContent;
    Recent(c, events, TextDelta(delta));
    RecentCalls(events, TextDelta(delta));
    if c.stream { TextRecords(c, r.wire, Said(events), Pieces(events), delta); }
  }

  lemma ReplaceRecords(c: Config, r: Reply, events: seq<Event>, text: Text)
    requires !r.failed && Records(c, r, events)
    ensures var s, e := EmitReplace(c, r, text), TextReplace(text);
      && (s.failed <==> !Accepts(c, events, e)) && (!s.failed ==> Records(c, s, events + [e]))
  {
    hide Said, SaidBytes, RenderedBytes, Details, Pieces, Called, Answered, Affordable, StreamContent;
    Recent(c, events, TextReplace(text));
    RecentCalls(events, TextReplace(text));
    if c.stream && Said(events) <= text {
      var rest := text[|Said(events)|..];
      assert text == Said(events) + rest;
      TextRecords(c, r.wire, Said(events), Pieces(events), rest);
    }
  }

  lemma ResultRecords(c: Config, r: Reply, events: seq<Event>, id: string, rendered: Text)
    requires !r.failed && Records(c, r, events)
    ensures var s, e := EmitToolResult(c, r, id, rendered), ToolResult(id, rendered);
      && (s.failed <==> !Accepts(c, events, e)) && (!s.failed ==> Records(c, s, events + [e]))
  {
    hide Said, SaidBytes, RenderedBytes, Details, Pieces, Called, Answered, Affordable, WireRecords, WriteContent;
    Recent(c, events, ToolResult(id, rendered));
    RecentCalls(events, ToolResult(id, rendered));
    if c.stream { ContentRecords(c, r.wire, Said(events), Pieces(events), rendered); }
  }

  /** Neither text nor a detail. */
  predicate Silent(e: Event) {
    !e.TextDelta? && !e.TextReplace? && !e.ToolResult?
  }

  lemma NothingSaid(c: Config, events: seq<Event>, e: Event)
    requires Silent(e)
    ensures Said(events + [e]) == Said(events) && SaidBytes(c, events + [e]) == SaidBytes(c, events)
    ensures RenderedBytes(c, events + [e]) == RenderedBytes(c, events)
    ensures Details(events + [e]) == Details(events) && Pieces(events + [e]) == Pieces(events)
  {
    hide Said, SaidBytes, RenderedBytes, Details, Pieces;
    Recent(c, events, e);
    assert Pieces(events) + [] == Pieces(events) && Details(events) + [] == Details(events);
  }

  lemma OtherRecords(c: Config, r: Reply, events: seq<Event>, e: Event)
    requires !r.failed && Records(c, r, events) && Answered(events) <= Called(events) && Silent(e)
    ensures var s := Emitted(c, r, e);
      && (s.failed <==> !Accepts(c, events, e)) && (!s.failed ==> Records(c, s, events + [e]))
  {
    hide Said, SaidBytes, RenderedBytes, Details, Pieces, Called, Answered, Affordable, WireRecords, EmitDelta,
      EmitReplace, EmitToolResult;
    NothingSaid(c, events, e);
    RecentCalls(events, e);
  }

  /** One event: the sink fails exactly when it is not accepted, and records it otherwise. */
  lemma EmittedRecords(c: Config, r: Reply, events: seq<Event>, e: Event)
    requires !r.failed && Records(c, r, events) && Answered(events) <= Called(events)
    ensures var s := Emitted(c, r, e);
      && (s.failed <==> !Accepts(c, events, e))
      && (!s.failed ==> Records(c, s, events + [e]) && Answered(events + [e]) <= Called(events + [e]))
  {
    hide Records, Affordable, Pieces, Said, SaidBytes, RenderedBytes, Called, Answered, EmitDelta, EmitReplace,
      EmitToolResult;
    RecentCalls(events, e);
    match e {
      case TextDelta(delta) => DeltaRecords(c, r, events, delta);
      case TextReplace(text) => ReplaceRecords(c, r, events, text);
      case ToolResult(id, rendered) => ResultRecords(c, r, events, id, rendered);
      case _ => OtherRecords(c, r, events, e);
    }
  }

  /** The sink survives a list of events exactly when each is accepted after those before it,
      and then it has recorded what they say. */
  lemma {:induction false} SinkAcceptsExactly(c: Config, events: seq<Event>)
    ensures !Run(c, events).failed <==> AllAccepted(c, events)
    ensures AllAccepted(c, events) ==> Records(c, Run(c, events), events) && Answered(events) <= Called(events)
  {
    hide Emitted, Accepts;
    if events == [] {
    } else {
      var before, e := Init(events), Last(events);
      assert events == before + [e];
      SinkAcceptsExactly(c, before);
      assert AllAccepted(c, events) <==> AllAccepted(c, before) && Accepts(c, before, e) by {
        assert forall i :: 0 <= i < |before| ==> events[..i] == before[..i];
      }
      FailureSticks(c, Run(c, before), e);
      if AllAccepted(c, before) { EmittedRecords(c, Run(c, before), before, e); }
    }
  }

  // ---------- what a completed reply shows ----------

  /** What streaming has cost once the role frame is out. */
  function StreamCost(c: Config, pieces: seq<Text>): nat {
    if pieces == [] then c.roleFrame else Cost(c, pieces)
  }

  /** The pieces of a stream that ends with the text `final`. */
  function AllPieces(events: seq<Event>, final: Text): seq<Text> {
    Pieces(events) + NonEmpty(Rest(Said(events), final))
  }

  /** The end of a stream: nothing is taken back, what is still written leaves the reserve,
      and the terminal frames fit. */
  predicate StreamEnds(c: Config, events: seq<Event>, final: Text) {
    && Said(events) <= final
    && (AllPieces(events, final) != Pieces(events) || Pieces(events) == [] ==>
      StreamCost(c, AllPieces(events, final)) + 2_048 <= c.maxResponseBytes)
    && StreamCost(c, AllPieces(events, final)) + c.terminal <= c.maxResponseBytes
  }

  /** The end of a buffered reply. */
  predicate MessageFits(c: Config, events: seq<Event>, final: Text) {
    && (Details(events) != [] && Said(events) != [] ==> Said(events) <= final)
    && c.message(InsertToolDetails(final, Details(events))) <= c.maxResponseBytes
  }

  /** Every accepted tool call has its result, the text fits, and so does what is sent. */
  predicate Completes(c: Config, events: seq<Event>, final: Text) {
    && AllAccepted(c, events) && Called(events) <= Answered(events) && c.bytes(final) <= c.maxResponseBytes
    && if c.stream then StreamEnds(c, events, final) else MessageFits(c, events, final)
  }

  lemma StreamEndsExactly(c: Config, w: Wire, events: seq<Event>, final: Text)
    requires WireRecords(c, w, Said(events), Pieces(events))
    ensures CompletedStream(c, w, final).Some? <==> StreamEnds(c, events, final)
    ensures StreamEnds(c, events, final) ==>
      CompletedStream(c, w, final).value == Joined(AllPieces(events, final))
  {
    hide StreamContent, Joined, Said, Pieces;
    if Said(events) <= final {
      var rest := final[|Said(events)|..];
      TextRecords(c, w, Said(events), Pieces(events), rest);
      assert Pieces(events) + [] == Pieces(events);
    }
  }

  lemma NoneLeft(called: set<string>, answered: set<string>)
    ensures called - answered == {} <==> called <= answered
  {
    if called - answered == {} {
      forall id | id in called ensures id in answered { assert id !in called - answered; }
    }
  }

  /** For every list of events and either kind of reply: the reply completes exactly under the
      conditions above, and then a stream's content is the join of all pieces in order, a
      buffered message the text with each detail where the text was when it came. */
  lemma CompletesExactly(c: Config, events: seq<Event>, result: Option<Text>)
    ensures var final := if result.Some? then result.value else Said(events);
      && (Completed(c, Run(c, events), result).Some? <==> Completes(c, events, final))
      && (Completes(c, events, final) ==>
        Completed(c, Run(c, events), result).value ==
        if c.stream then Joined(AllPieces(events, final)) else InsertToolDetails(final, Details(events)))
  {
    hide Run, CompletedStream, StreamEnds, AllAccepted, Said, Pieces, Joined, Details, InsertToolDetails, Called,
      Answered;
    SinkAcceptsExactly(c, events);
    var final := if result.Some? then result.value else Said(events);
    if AllAccepted(c, events) {
      if c.stream { StreamEndsExactly(c, Run(c, events).wire, events, final); }
      NoneLeft(Called(events), Answered(events));
    }
  }

  // ---------- where the details stand ----------

  function Cut(text: Text, detail: Detail): nat {
    if detail.textOffset < |text| then detail.textOffset else |text|
  }

  /** One step of the loop, seen from the text and from its part up to `p`. */
  lemma InsertFirst(text: Text, details: seq<Detail>, first: Detail, cursor: nat, p: nat)
    requires cursor <= p <= |text| && Cut(text, first) <= p
    ensures var position := Position(text, first, cursor);
      && position == (if cursor < Cut(text, first) then Cut(text, first) else cursor) <= p
      && InsertFrom(text, [first] + details, cursor)
        == text[cursor..position] + first.rendered + InsertFrom(text, details, position)
      && InsertFrom(text[..p], [first] + details, cursor)
        == text[cursor..position] + first.rendered + InsertFrom(text[..p], details, position)
  {
    assert ([first] + details)[1..] == details;
    var position := Position(text, first, cursor);
    assert Position(text[..p], first, cursor) == position && text[..p][cursor..position] == text[cursor..position];
  }

  lemma InsertOnly(text: Text, last: Detail, cursor: nat, p: nat)
    requires cursor <= p <= |text| && Cut(text, last) <= p && (p == cursor || p == Cut(text, last))
    ensures InsertFrom(text, [last], cursor) == InsertFrom(text[..p], [], cursor) + last.rendered + text[p..]
  {
    InsertFirst(text, [], last, cursor, p);
    assert [last] + [] == [last] && text[..p][cursor..] == text[cursor..p];
  }

  predicate Within(text: Text, details: seq<Detail>, p: nat) {
    forall i :: 0 <= i < |details| ==> Cut(text, details[i]) <= p
  }

  predicate Reached(text: Text, details: seq<Detail>, p: nat) {
    exists i :: 0 <= i < |details| && Cut(text, details[i]) == p
  }

  lemma WithoutFirst(text: Text, details: seq<Detail>, p: nat)
    requires details != []
    ensures Within(text, details, p) ==> Cut(text, details[0]) <= p && Within(text, details[1..], p)
    ensures Reached(text, details, p) ==> Cut(text, details[0]) == p || Reached(text, details[1..], p)
  {
    if Within(text, details, p) {
      forall i | 0 <= i < |details[1..]| ensures Cut(text, details[1..][i]) <= p {
        assert details[1..][i] == details[i + 1];
      }
    }
    if Reached(text, details, p) && Cut(text, details[0]) != p {
      var i :| 0 <= i < |details| && Cut(text, details[i]) == p;
      assert details[1..][i - 1] == details[i];
    }
  }

  lemma {:induction false} InsertLastAt(text: Text, details: seq<Detail>, last: Detail, cursor: nat, p: nat)
    requires cursor <= p <= |text| && Cut(text, last) <= p && Within(text, details, p)
    requires p == cursor || p == Cut(text, last) || Reached(text, details, p)
    ensures InsertFrom(text, details + [last], cursor)
      == InsertFrom(text[..p], details, cursor) + last.rendered + text[p..]
    decreases |details|
  {
    hide InsertFrom, Position, Cut, Within, Reached;
    if details == [] {
      assert details + [last] == [last] && !Reached(text, details, p) by { NothingReached(text, p); }
      InsertOnly(text, last, cursor, p);
    } else {
      var first, rest := details[0], details[1..];
      WithoutFirst(text, details, p);
      InsertFirst(text, rest, first, cursor, p);
      InsertFirst(text, rest + [last], first, cursor, p);
      var position := Position(text, first, cursor);
      InsertLastAt(text, rest, last, position, p);
      assert details == [first] + rest && details + [last] == [first] + (rest + [last]);
      Associate(
        text[cursor..position] + first.rendered, InsertFrom(text[..p], rest, position), last.rendered, text[p..]);
    }
  }

  lemma NothingReached(text: Text, p: nat)
    ensures !Reached(text, [], p)
  {
  }

  lemma Associate(a: Text, b: Text, c: Text, d: Text)
    ensures a + (b + c + d) == a + b + c + d
  {
  }

  /** Whatever the offsets, in order or not and beyond the text or not: the last detail stands
      at the furthest place of any, the others stand in the text before it as they would in
      that text alone, and without details the text is left as it is. */
  lemma DetailsStandInOrder(text: Text, details: seq<Detail>, last: Detail, p: nat)
    requires Within(text, details + [last], p) && Reached(text, details + [last], p)
    ensures p <= |text|
    ensures InsertToolDetails(text, details + [last])
      == InsertToolDetails(text[..p], details) + last.rendered + text[p..]
    ensures InsertToolDetails(text, []) == text
  {
    hide InsertFrom;
    assert InsertFrom(text, [], 0) == text[0..] == text by { NothingInserts(text); }
    var all := details + [last];
    assert Cut(text, all[|details|]) <= p;
    forall i | 0 <= i < |details| ensures Cut(text, details[i]) <= p { assert all[i] == details[i]; }
    var k :| 0 <= k < |all| && Cut(text, all[k]) == p;
    assert k < |details| ==> details[k] == all[k];
    InsertLastAt(text, details, last, 0, p);
  }

  lemma NothingInserts(text: Text)
    ensures InsertFrom(text, [], 0) == text[0..]
  {
  }
}
