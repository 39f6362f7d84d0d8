/** One chat completion: reply events become streamed chunks or one buffered message, within
    a byte budget that keeps a reserve for the terminal frames. */
module OpenAiReply {
  import opened Basics

  /** One UTF-16 code unit. */
  type CodeUnit = x: int | 0 <= x < 0x1_0000

  type Text = seq<CodeUnit>

  const SSE_TERMINAL_RESERVE_BYTES := 2_048
  const MAX_TOOL_CALLS_PER_TURN := 256

  /** What the request fixes. The sizes are arbitrary functions of what is sent: the UTF-8
      length of a text, of the frame or the message around it, of the role frame and of the
      terminal frames. */
  datatype Config = Config(
    stream: bool, maxResponseBytes: nat, bytes: Text -> nat, frame: Text -> nat, message: Text -> nat,
    roleFrame: nat, terminal: nat)

  datatype Event =
    | TextDelta(delta: Text)
    | TextReplace(text: Text)
    | Usage(valid: bool)
    | Ignored
    | ToolCall(id: string)
    | ToolResult(callId: string, rendered: Text)
    | Unsupported

  datatype Detail = Detail(textOffset: nat, rendered: Text)

  datatype Tools = Tools(seen: set<string>, pending: set<string>, bytes: nat, details: seq<Detail>)

  /** What has gone out: the content of the chunks, the size of every frame, what is left. */
  datatype Wire = Wire(started: bool, streamed: Text, content: Text, frames: seq<nat>, remaining: int)

  datatype Reply = Reply(text: Text, textBytes: nat, tools: Tools, wire: Wire, failed: bool)

  /** What a call leaves behind, and whether it threw. */
  datatype Outcome<T> = Outcome(state: T, ok: bool)

  function Fresh(c: Config): Reply {
    Reply([], 0, Tools({}, {}, 0, []), Wire(false, [], [], [], c.maxResponseBytes), false)
  }

  // ---------- writing ----------

  function WriteBudgeted(w: Wire, size: nat, reserve: nat): Outcome<Wire> {
    if size > w.remaining - reserve then Outcome(w, false)
    else Outcome(w.(remaining := w.remaining - size, frames := w.frames + [size]), true)
  }

  function StartStream(c: Config, w: Wire): Outcome<Wire> {
    if w.started then Outcome(w, true) else WriteBudgeted(w.(started := true), c.roleFrame, SSE_TERMINAL_RESERVE_BYTES)
  }

  function WriteContent(c: Config, w: Wire, value: Text): Outcome<Wire> {
    var begun := StartStream(c, w);
    if !begun.ok then begun
    else
      var sent := WriteBudgeted(begun.state, c.frame(value), SSE_TERMINAL_RESERVE_BYTES);
      if sent.ok then Outcome(sent.state.(content := sent.state.content + value), true) else sent
  }

  function StreamContent(c: Config, w: Wire, value: Text): Outcome<Wire> {
    if value == [] then Outcome(w, true)
    else
      var sent := WriteContent(c, w, value);
      if sent.ok then Outcome(sent.state.(streamed := sent.state.streamed + value), true) else sent
  }

  // ---------- events ----------

  function Fail(r: Reply): Reply {
    r.(failed := true)
  }

  /** The reply with a new wire, failed when the call that wrote threw. */
  function Wired(r: Reply, sent: Outcome<Wire>): Reply {
    r.(wire := sent.state, failed := r.failed || !sent.ok)
  }

  function EmitDelta(c: Config, r: Reply, delta: Text): Reply {
    var next := r.textBytes + c.bytes(delta);
    if next > c.maxResponseBytes then Fail(r)
    else
      var s := r.(text := r.text + delta, textBytes := next);
      if c.stream then Wired(s, StreamContent(c, s.wire, delta)) else s
  }

  function EmitReplace(c: Config, r: Reply, text: Text): Reply {
    if c.bytes(text) > c.maxResponseBytes then Fail(r)
    else if !c.stream then r.(text := text, textBytes := c.bytes(text))
    else if !(r.wire.streamed <= text) then Fail(r)
    else
      var sent := StreamContent(c, r.wire, text[|r.wire.streamed|..]);
      if sent.ok then Wired(r, sent).(text := text, textBytes := c.bytes(text)) else Wired(r, sent)
  }

  function EmitToolResult(c: Config, r: Reply, id: string, rendered: Text): Reply {
    if id !in r.tools.pending then Fail(r)
    else
      var tools := r.tools.(pending := r.tools.pending - {id}, bytes := r.tools.bytes + c.bytes(rendered));
      var s := r.(tools := tools);
      if tools.bytes > c.maxResponseBytes then Fail(s)
      else if c.stream then Wired(s, WriteContent(c, s.wire, rendered))
      else s.(tools := tools.(details := tools.details + [Detail(|r.text|, rendered)]))
  }

  function Emitted(c: Config, r: Reply, e: Event): Reply {
    match e
    case TextDelta(delta) => EmitDelta(c, r, delta)
    case TextReplace(text) => EmitReplace(c, r, text)
    case Usage(valid) => if valid then r else Fail(r)
    case Ignored => r
    case ToolCall(id) =>
      if id in r.tools.seen || |r.tools.seen| >= MAX_TOOL_CALLS_PER_TURN then Fail(r)
      else r.(tools := r.tools.(seen := r.tools.seen + {id}, pending := r.tools.pending + {id}))
    case ToolResult(id, rendered) => EmitToolResult(c, r, id, rendered)
    case Unsupported => Fail(r)
  }

  function Run(c: Config, events: seq<Event>): Reply {
    if events == [] then Fresh(c) else Emitted(c, Run(c, events[..|events| - 1]), events[|events| - 1])
  }

  // ---------- the end of the turn ----------

  /** Where a detail goes: at its offset, but within the text and not before the cursor. */
  function Position(text: Text, detail: Detail, cursor: nat): (p: nat)
    requires cursor <= |text|
    ensures cursor <= p <= |text|
  {
    var offset := if detail.textOffset < |text| then detail.textOffset else |text|;
    if cursor < offset then offset else cursor
  }

  function InsertFrom(text: Text, details: seq<Detail>, cursor: nat): Text
    requires cursor <= |text|
    decreases |details|
  {
    if details == [] then text[cursor..]
    else
      var position := Position(text, details[0], cursor);
      text[cursor..position] + details[0].rendered + InsertFrom(text, details[1..], position)
  }

  function InsertToolDetails(text: Text, details: seq<Detail>): Text {
    InsertFrom(text, details, 0)
  }

  lemma InsertOne(text: Text, details: seq<Detail>, i: nat, cursor: nat)
    requires i < |details| && cursor <= |text|
    ensures var position := Position(text, details[i], cursor);
      InsertFrom(text, details[i..], cursor)
      == text[cursor..position] + details[i].rendered + InsertFrom(text, details[i + 1..], position)
  {
    assert details[i..][1..] == details[i + 1..] && details[i..][0] == details[i];
  }

  lemma NothingInserted(text: Text, details: seq<Detail>)
    ensures [] + InsertFrom(text, details[0..], 0) == InsertToolDetails(text, details)
  {
    assert details[0..] == details;
  }

  lemma NoneLeft(text: Text, details: seq<Detail>, cursor: nat)
    requires cursor <= |text|
    ensures InsertFrom(text, details[|details|..], cursor) == text[cursor..]
  {
  }

  lemma Regroup(a: Text, b: Text, c: Text, d: Text)
    ensures a + (b + c + d) == a + b + c + d
  {
  }

  method InsertToolDetailsInOrder(text: Text, details: seq<Detail>) returns (output: Text)
    ensures output == InsertToolDetails(text, details)
  {
    output := [];
    var cursor, i := 0, 0;
    NothingInserted(text, details);
    hide InsertFrom, Position;
    while i < |details|
      invariant i <= |details| && cursor <= |text|
      invariant output + InsertFrom(text, details[i..], cursor) == InsertToolDetails(text, details)
    {
      var detail := details[i];
      var position := Position(text, detail, cursor);
      InsertOne(text, details, i, cursor);
      Regroup(output, text[cursor..position], detail.rendered, InsertFrom(text, details[i + 1..], position));
      output := output + text[cursor..position];
      output := output + detail.rendered;
      cursor := position;
      i := i + 1;
    }
    NoneLeft(text, details, cursor);
    output := output + text[cursor..];
  }

  /** The content of a completed reply. */
  function Completed(c: Config, r: Reply, result: Option<Text>): Option<Text> {
    var final := if result.Some? then result.value else r.text;
    if r.failed || r.tools.pending != {} || c.bytes(final) > c.maxResponseBytes then None
    else if c.stream then CompletedStream(c, r.wire, final)
    else if r.tools.details != [] && r.text != [] && !(r.text <= final) then None
    else
      var content := InsertToolDetails(final, r.tools.details);
      if c.message(content) > c.maxResponseBytes then None else Some(content)
  }

  function CompletedStream(c: Config, w: Wire, final: Text): Option<Text> {
    if !(w.streamed <= final) then None
    else
      var sent := StreamContent(c, w, final[|w.streamed|..]);
      if !sent.ok then None
      else
        var begun := StartStream(c, sent.state);
        if !begun.ok || !WriteBudgeted(begun.state, c.terminal, 0).ok then None
        else Some(begun.state.content)
  }

  // ---------- the reply sink ----------

  class ReplySink {
    const config: Config
    var text: Text
    var textBytes: nat
    var tools: Tools
    var wire: Wire
    var failed: bool

    ghost function AsReply(): Reply
      reads this
    {
      Reply(text, textBytes, tools, wire, failed)
    }

    constructor (c: Config)
      ensures config == c && AsReply() == Fresh(c)
    {
      config := c;
      text, textBytes, tools := [], 0, Tools({}, {}, 0, []);
      wire, failed := Wire(false, [], [], [], c.maxResponseBytes), false;
    }

    method Write(size: nat, reserve: nat) returns (ok: bool)
      modifies this`wire
      ensures Outcome(wire, ok) == WriteBudgeted(old(wire), size, reserve)
    {
      ok := size <= wire.remaining - reserve;
      if ok {
        wire := wire.(remaining := wire.remaining - size, frames := wire.frames + [size]);
      }
    }

    method Start() returns (ok: bool)
      modifies this`wire
      ensures Outcome(wire, ok) == StartStream(config, old(wire))
    {
      ok := true;
      if !wire.started {
        wire := wire.(started := true);
        ok := Write(config.roleFrame, SSE_TERMINAL_RESERVE_BYTES);
      }
    }

    method StreamToolDetail(value: Text) returns (ok: bool)
      modifies this`wire
      ensures Outcome(wire, ok) == WriteContent(config, old(wire), value)
    {
      ok := Start();
      if ok {
        ok := Write(config.frame(value), SSE_TERMINAL_RESERVE_BYTES);
        if ok {
          wire := wire.(content := wire.content + value);
        }
      }
    }

    method StreamText(value: Text) returns (ok: bool)
      modifies this`wire
      ensures Outcome(wire, ok) == StreamContent(config, old(wire), value)
    {
      ok := true;
      if value != [] {
        ok := StreamToolDetail(value);
        if ok {
          wire := wire.(streamed := wire.streamed + value);
        }
      }
    }

    method Emit(e: Event)
      modifies this
      ensures AsReply() == Emitted(config, old(AsReply()), e)
    {
      hide StreamContent, WriteContent;
      var ok := true;
      match e {
        case TextDelta(delta) =>
          var nextBytes := textBytes + config.bytes(delta);
          if nextBytes > config.maxResponseBytes {
            ok := false;
          } else {
            text, textBytes := text + delta, nextBytes;
            if config.stream {
              ok := StreamText(delta);
            }
          }
        case TextReplace(replacement) =>
          if config.bytes(replacement) > config.maxResponseBytes {
            ok := false;
          } else if config.stream && !(wire.streamed <= replacement) {
            ok := false;
          } else {
            if config.stream {
              ok := StreamText(replacement[|wire.streamed|..]);
            }
            if ok {
              text, textBytes := replacement, config.bytes(replacement);
            }
          }
        case Usage(valid) => ok := valid;
        case Ignored =>
        case ToolCall(id) =>
          if id in tools.seen || |tools.seen| >= MAX_TOOL_CALLS_PER_TURN {
            ok := false;
          } else {
            tools := tools.(seen := tools.seen + {id}, pending := tools.pending + {id});
          }
        case ToolResult(id, rendered) =>
          if id !in tools.pending {
            ok := false;
          } else {
            tools := tools.(pending := tools.pending - {id}, bytes := tools.bytes + config.bytes(rendered));
            if tools.bytes > config.maxResponseBytes {
              ok := false;
            } else if config.stream {
              ok := StreamToolDetail(rendered);
            } else {
              tools := tools.(details := tools.details + [Detail(|text|, rendered)]);
            }
          }
        case Unsupported => ok := false;
      }
      failed := failed || !ok;
    }
  }

  // ---------- inserting in order ----------

  /** Details recorded while the text grew: offsets never fall and stay within the text. */
  predicate Ordered(details: seq<Detail>, low: nat, high: nat)
  {
    if details == [] then low <= high
    else low <= details[0].textOffset && Ordered(details[1..], details[0].textOffset, high)
  }

  lemma {:induction false} OrderedBound(details: seq<Detail>, low: nat, high: nat)
    requires Ordered(details, low, high)
    ensures low <= high
  {
    if details != [] {
      OrderedBound(details[1..], details[0].textOffset, high);
    }
  }

  /** Text that comes after every detail comes after them in the message. */
  lemma {:induction false} InsertAppend(text: Text, more: Text, details: seq<Detail>, cursor: nat)
    requires Ordered(details, cursor, |text|) && cursor <= |text|
    ensures InsertFrom(text + more, details, cursor) == InsertFrom(text, details, cursor) + more
    decreases |details|
  {
    if details == [] {
      assert (text + more)[cursor..] == text[cursor..] + more;
    } else {
      var position := details[0].textOffset;
      OrderedBound(details[1..], position, |text|);
      InsertAppend(text, more, details[1..], position);
      assert Position(text, details[0], cursor) == position == Position(text + more, details[0], cursor);
      var head := text[cursor..position] + details[0].rendered;
      assert (text + more)[cursor..position] == text[cursor..position];
      assert InsertFrom(text + more, details, cursor) == head + InsertFrom(text + more, details[1..], position);
      var rest := InsertFrom(text, details[1..], position);
      assert head + (rest + more) == head + rest + more;
    }
  }

  /** A detail recorded at the end of the text comes last. */
  lemma {:induction false} InsertLast(text: Text, details: seq<Detail>, rendered: Text, cursor: nat)
    requires Ordered(details, cursor, |text|) && cursor <= |text|
    ensures InsertFrom(text, details + [Detail(|text|, rendered)], cursor)
      == InsertFrom(text, details, cursor) + rendered
    decreases |details|
  {
    var last := [Detail(|text|, rendered)];
    var all := details + last;
    if details == [] {
      assert all == last && last[1..] == [] && text[|text|..] == [];
      assert Position(text, last[0], cursor) == |text|;
      assert InsertFrom(text, [], |text|) == [];
    } else {
      OrderedBound(details[1..], details[0].textOffset, |text|);
      var position := Position(text, details[0], cursor);
      InsertLast(text, details[1..], rendered, position);
      assert all[1..] == details[1..] + last && all[0] == details[0];
      assert InsertFrom(text, all, cursor) == text[cursor..position] + details[0].rendered +
        InsertFrom(text, all[1..], position);
    }
  }

  lemma {:induction false} OrderedLast(details: seq<Detail>, low: nat, last: Detail)
    requires Ordered(details, low, last.textOffset)
    ensures Ordered(details + [last], low, last.textOffset)
  {
    if details == [] {
      assert (details + [last])[1..] == [];
    } else {
      OrderedLast(details[1..], details[0].textOffset, last);
      assert (details + [last])[1..] == details[1..] + [last];
    }
  }

  lemma {:induction false} OrderedWider(details: seq<Detail>, low: nat, high: nat, wider: nat)
    requires Ordered(details, low, high) && high <= wider
    ensures Ordered(details, low, wider)
  {
    if details != [] {
      OrderedWider(details[1..], details[0].textOffset, high, wider);
    }
  }

  // ---------- streaming equals buffering ----------

  /** The buffered reply to the same events: it sees the same text and tool calls, and its
      details, put into the text so far, are what the stream has shown. */
  ghost predicate Mirrors(st: Reply, bu: Reply) {
    && !bu.failed && bu.text == st.text && bu.textBytes == st.textBytes && st.wire.streamed == st.text
    && bu.tools.seen == st.tools.seen && bu.tools.pending == st.tools.pending && bu.tools.bytes == st.tools.bytes
    && Ordered(bu.tools.details, 0, |bu.text|)
    && st.wire.content == InsertToolDetails(bu.text, bu.tools.details)
  }

  lemma StreamedText(c: Config, w: Wire, value: Text)
    ensures var sent := StreamContent(c, w, value);
      sent.ok ==> sent.state.streamed == w.streamed + value && sent.state.content == w.content + value
  {
    if value == [] {
      assert w.streamed + value == w.streamed && w.content + value == w.content;
    }
  }

  lemma DeltaMirrors(c: Config, d: Config, st: Reply, bu: Reply, delta: Text)
    requires SameLimits(c, d) && Mirrors(st, bu) && !EmitDelta(c, st, delta).failed
    ensures Mirrors(EmitDelta(c, st, delta), EmitDelta(d, bu, delta))
  {
    hide StreamContent, InsertFrom;
    StreamedText(c, st.wire, delta);
    InsertAppend(bu.text, delta, bu.tools.details, 0);
    OrderedWider(bu.tools.details, 0, |bu.text|, |bu.text + delta|);
  }

  lemma ReplaceMirrors(c: Config, d: Config, st: Reply, bu: Reply, text: Text)
    requires SameLimits(c, d) && Mirrors(st, bu) && !EmitReplace(c, st, text).failed
    ensures Mirrors(EmitReplace(c, st, text), EmitReplace(d, bu, text))
  {
    hide StreamContent, InsertFrom;
    var more := text[|st.wire.streamed|..];
    assert text == st.wire.streamed + more;
    StreamedText(c, st.wire, more);
    InsertAppend(bu.text, more, bu.tools.details, 0);
    OrderedWider(bu.tools.details, 0, |bu.text|, |text|);
  }

  lemma ResultMirrors(c: Config, d: Config, st: Reply, bu: Reply, id: string, rendered: Text)
    requires SameLimits(c, d) && Mirrors(st, bu) && !EmitToolResult(c, st, id, rendered).failed
    ensures Mirrors(EmitToolResult(c, st, id, rendered), EmitToolResult(d, bu, id, rendered))
  {
    hide InsertFrom, StartStream;
    InsertLast(bu.text, bu.tools.details, rendered, 0);
    OrderedLast(bu.tools.details, 0, Detail(|bu.text|, rendered));
    StartKeepsContent(c, st.wire);
  }

  lemma StartKeepsContent(c: Config, w: Wire)
    ensures StartStream(c, w).state.content == w.content && StartStream(c, w).state.streamed == w.streamed
  {
  }

  /** The streaming and the buffering configuration of one request. */
  ghost predicate SameLimits(c: Config, d: Config) {
    c.stream && !d.stream && d.maxResponseBytes == c.maxResponseBytes && d.bytes == c.bytes
  }

  lemma EmittedMirrors(c: Config, d: Config, st: Reply, bu: Reply, e: Event)
    requires SameLimits(c, d) && !Emitted(c, st, e).failed && Mirrors(st, bu)
    ensures Mirrors(Emitted(c, st, e), Emitted(d, bu, e))
  {
    hide EmitDelta, EmitReplace, EmitToolResult, InsertToolDetails;
    match e {
      case TextDelta(delta) => DeltaMirrors(c, d, st, bu, delta);
      case TextReplace(text) => ReplaceMirrors(c, d, st, bu, text);
      case ToolResult(id, rendered) => ResultMirrors(c, d, st, bu, id, rendered);
      case _ =>
    }
  }

  lemma FailureSticks(c: Config, r: Reply, e: Event)
    ensures r.failed ==> Emitted(c, r, e).failed
  {
    hide StreamContent, WriteContent;
  }

  lemma {:induction false} RunsMirror(c: Config, d: Config, events: seq<Event>)
    requires SameLimits(c, d) && !Run(c, events).failed
    ensures Mirrors(Run(c, events), Run(d, events))
  {
    hide Emitted;
    if events == [] {
      assert InsertToolDetails([], []) == [];
    } else {
      var prefix, last := events[..|events| - 1], events[|events| - 1];
      FailureSticks(c, Run(c, prefix), last);
      RunsMirror(c, d, prefix);
      EmittedMirrors(c, d, Run(c, prefix), Run(d, prefix), last);
    }
  }

  lemma StreamEnd(c: Config, w: Wire, final: Text)
    requires CompletedStream(c, w, final).Some?
    ensures w.streamed <= final && CompletedStream(c, w, final).value == w.content + final[|w.streamed|..]
  {
    hide StreamContent;
    StreamedText(c, w, final[|w.streamed|..]);
    StartKeepsContent(c, StreamContent(c, w, final[|w.streamed|..]).state);
  }

  /** Whenever the streamed reply to a sequence of events completes, its concatenated content
      is the message of the buffered reply to the same events; the buffered reply can only
      fail on the size of that message. */
  lemma StreamingEqualsBuffering(c: Config, d: Config, events: seq<Event>, result: Option<Text>)
    requires SameLimits(c, d) && Completed(c, Run(c, events), result).Some?
    ensures var final := if result.Some? then result.value else Run(d, events).text;
      Completed(c, Run(c, events), result).value == InsertToolDetails(final, Run(d, events).tools.details)
    ensures var content := Completed(c, Run(c, events), result).value;
      Completed(d, Run(d, events), result) == if d.message(content) > d.maxResponseBytes then None else Some(content)
  {
    hide Emitted, Run, InsertFrom, CompletedStream;
    RunsMirror(c, d, events);
    var st, bu := Run(c, events), Run(d, events);
    var final := if result.Some? then result.value else st.text;
    StreamEnd(c, st.wire, final);
    var more := final[|st.wire.streamed|..];
    assert final == bu.text + more;
    InsertAppend(bu.text, more, bu.tools.details, 0);
  }

  // ---------- the byte budget ----------

  function Sum(frames: seq<nat>): nat {
    if frames == [] then 0 else Sum(frames[..|frames| - 1]) + frames[|frames| - 1]
  }

  /** Bytes written and bytes left always make up the limit, and the terminal reserve is
      still there once anything has been written. */
  ghost predicate Budgeted(c: Config, w: Wire) {
    && Sum(w.frames) + w.remaining == c.maxResponseBytes && w.remaining >= 0
    && (w.frames != [] ==> w.remaining >= SSE_TERMINAL_RESERVE_BYTES)
  }

  lemma WriteKeepsBudget(c: Config, w: Wire, size: nat)
    requires Budgeted(c, w)
    ensures Budgeted(c, WriteBudgeted(w, size, SSE_TERMINAL_RESERVE_BYTES).state)
  {
    var frames := w.frames + [size];
    assert frames[..|frames| - 1] == w.frames;
  }

  lemma StartKeepsBudget(c: Config, w: Wire)
    requires Budgeted(c, w)
    ensures Budgeted(c, StartStream(c, w).state)
  {
    hide Sum, WriteBudgeted;
    if !w.started { WriteKeepsBudget(c, w.(started := true), c.roleFrame); }
  }

  lemma ContentKeepsBudget(c: Config, w: Wire, value: Text)
    requires Budgeted(c, w)
    ensures Budgeted(c, WriteContent(c, w, value).state) && Budgeted(c, StreamContent(c, w, value).state)
  {
    hide Sum, WriteBudgeted, StartStream;
    StartKeepsBudget(c, w);
    WriteKeepsBudget(c, StartStream(c, w).state, c.frame(value));
  }

  lemma EmittedKeepsBudget(c: Config, r: Reply, e: Event)
    requires Budgeted(c, r.wire)
    ensures Budgeted(c, Emitted(c, r, e).wire)
  {
    hide Budgeted, StreamContent, WriteContent;
    match e {
      case TextDelta(delta) => ContentKeepsBudget(c, r.wire, delta);
      case TextReplace(text) =>
        if r.wire.streamed <= text { ContentKeepsBudget(c, r.wire, text[|r.wire.streamed|..]); }
      case ToolResult(id, rendered) => ContentKeepsBudget(c, r.wire, rendered);
      case _ =>
    }
  }

  /** After any events, also failing ones: written plus remaining is the limit, no frame has
      touched the reserve, and terminal frames of at most the reserve still fit. */
  lemma {:induction false} BudgetHolds(c: Config, events: seq<Event>, terminal: nat)
    ensures var w := Run(c, events).wire;
      && Budgeted(c, w)
      && (w.frames != [] && terminal <= SSE_TERMINAL_RESERVE_BYTES ==> WriteBudgeted(w, terminal, 0).ok)
  {
    hide Emitted;
    if events != [] {
      BudgetHolds(c, events[..|events| - 1], terminal);
      EmittedKeepsBudget(c, Run(c, events[..|events| - 1]), events[|events| - 1]);
    }
  }
}
