/** The Telegram ledger against the Bot API server. The server holds an ascending
    stream of updates; a poll at an offset forgets everything below it and returns a
    prefix of the rest. Order, once-only processing and frontier safety over every run. */
module TelegramPolling {
  import opened Basics
  import opened TelegramLedger

  datatype Poll = Poll(requested: int, interrupted: bool)

  datatype Event = Started(id: int, lane: Lane) | Settles(id: int) | GoesBack(id: int)

  /** `polled` lists every offset sent to the server; `log` is history. */
  datatype World = World(ledger: Ledger, poll: Option<Poll>, issued: seq<int>, polled: seq<int>, log: seq<Event>)

  datatype Action =
    | Issue(id: int)
    | SendPoll
    | ReplyPoll(count: nat, sched: Scheduling)
    | FailPoll
    | FinishUpdate(lane: Lane, settled: bool, sched: Scheduling)
    | Reschedule(sched: Scheduling)
    | ConfirmOffset

  const INITIAL := World(Ledger(0, map[], [], None, None), None, [], [], [])

  function AtOrAbove(issued: seq<int>, offset: int): seq<int> {
    if issued == [] then []
    else if issued[0] >= offset then [issued[0]] + AtOrAbove(issued[1..], offset)
    else AtOrAbove(issued[1..], offset)
  }

  /** What the server may answer: any prefix, of at most 100, of what it still holds. */
  function Response(issued: seq<int>, offset: int, count: nat): seq<int> {
    var held := AtOrAbove(issued, offset);
    held[..if count < |held| && count < MAX_TRACKED_UPDATES then count
           else if |held| < MAX_TRACKED_UPDATES then |held| else MAX_TRACKED_UPDATES]
  }

  function StartsOf(l: Ledger, sched: Scheduling): seq<Event> {
    var p := PrimaryToStart(l, sched);
    var c := ControlToStart(AfterPrimary(l, sched), sched);
    (if p.Some? then [Started(p.value, Primary)] else []) + (if c.Some? then [Started(c.value, Control)] else [])
  }

  function Scheduled(w: World, l: Ledger, sched: Scheduling, event: seq<Event>): World {
    w.(ledger := Schedule(l, sched),
       poll := if w.poll.Some? && l.offset != w.ledger.offset then Some(w.poll.value.(interrupted := true)) else w.poll,
       log := w.log + event + StartsOf(l, sched))
  }

  function Step(w: World, a: Action): World {
    match a
    case Issue(id) =>
      if id >= 0 && (w.issued == [] || w.issued[|w.issued| - 1] < id) then w.(issued := w.issued + [id]) else w
    case SendPoll =>
      if w.poll.Some? then w
      else w.(poll := Some(Poll(w.ledger.offset, false)), polled := w.polled + [w.ledger.offset])
    case ReplyPoll(count, sched) =>
      if w.poll.None? then w
      else if w.poll.value.interrupted then w.(poll := None)
      else Scheduled(w.(poll := None), Ingest(w.ledger, Response(w.issued, w.poll.value.requested, count)), sched, [])
    case FailPoll => w.(poll := None)
    case FinishUpdate(lane, settled, sched) =>
      var holder := LaneHolder(w.ledger, lane);
      if holder.None? then w
      else Scheduled(w, Returned(w.ledger, holder.value, lane, settled), sched,
                     [if settled then Settles(holder.value) else GoesBack(holder.value)])
    case Reschedule(sched) => Scheduled(w, w.ledger, sched, [])
    case ConfirmOffset => w.(polled := w.polled + [w.ledger.offset])
  }

  function Exec(actions: seq<Action>): World {
    if actions == [] then INITIAL else Step(Exec(actions[..|actions| - 1]), actions[|actions| - 1])
  }

  // ---------- the ledger stays valid ----------

  /** Valid except that the frontier may not have been advanced yet. */
  ghost predicate Pending(l: Ledger) {
    && Ascending(l.received)
    && Elements(l.received) == l.tracked.Keys
    && |l.received| <= MAX_TRACKED_UPDATES
    && (forall id <- l.tracked :: l.offset <= id)
    && LanesAgree(l)
  }

  lemma ValidIsPending(l: Ledger)
    requires Valid(l)
    ensures Pending(l)
  {
    forall id | id in l.tracked ensures l.offset <= id {
      assert id in Elements(l.received);
    }
  }

  lemma ConsumedBelow(l: Ledger, i: nat)
    requires Pending(l) && i < SettledPrefix(l.received, l.tracked)
    ensures l.received[i] !in Advance(l).tracked && l.received[i] < Advance(l).offset
    ensures l.received[i] !in Advance(l).received && l.tracked[l.received[i]] == Settled
  {
    var k := SettledPrefix(l.received, l.tracked);
    assert l.received[..k][i] == l.received[i];
    if k < |l.received| {
      assert l.received[k..][0] == l.received[k];
    }
  }

  lemma KeptAbove(l: Ledger, i: nat)
    requires Pending(l) && SettledPrefix(l.received, l.tracked) <= i < |l.received|
    ensures l.received[i] in Advance(l).tracked && Advance(l).offset <= l.received[i]
    ensures l.received[i] in Advance(l).received
  {
    var k := SettledPrefix(l.received, l.tracked);
    assert l.received[k..][i - k] == l.received[i] && l.received[k..][0] == l.received[k];
    assert l.received[i] in Elements(l.received) && l.received[k] in Elements(l.received);
  }

  /** Advancing consumes a tracked update exactly if it lies below the new frontier,
      and then it has settled. */
  lemma AdvanceSplits(l: Ledger, id: int)
    requires Pending(l) && id in l.tracked
    ensures id in Advance(l).tracked <==> Advance(l).offset <= id
    ensures id in Advance(l).received <==> Advance(l).offset <= id
    ensures id < Advance(l).offset ==> l.tracked[id] == Settled
  {
    hide Advance;
    assert id in Elements(l.received);
    var i :| 0 <= i < |l.received| && l.received[i] == id;
    if i < SettledPrefix(l.received, l.tracked) {
      ConsumedBelow(l, i);
    } else {
      KeptAbove(l, i);
    }
  }

  lemma SuffixShape(s: seq<int>, k: nat)
    requires Ascending(s) && k <= |s|
    ensures Ascending(s[k..]) && Elements(s[k..]) <= Elements(s)
  {
    assert forall i :: 0 <= i < |s[k..]| ==> s[k..][i] == s[k + i];
  }

  lemma AdvanceKeepsShape(l: Ledger)
    requires Pending(l)
    ensures Ascending(Advance(l).received) && |Advance(l).received| <= |l.received|
    ensures Elements(Advance(l).received) <= Elements(l.received)
    ensures l.offset <= Advance(l).offset
  {
    hide LanesAgree, Ascending, Elements, SettledPrefix;
    SuffixShape(l.received, SettledPrefix(l.received, l.tracked));
  }

  lemma AdvanceFront(l: Ledger)
    requires Pending(l) && Advance(l).received != []
    ensures Advance(l).offset == Advance(l).received[0] && Advance(l).received[0] in l.tracked
    ensures l.tracked[Advance(l).received[0]] != Settled
  {
    var k := SettledPrefix(l.received, l.tracked);
    assert l.received[k..][0] == l.received[k];
    assert l.received[k] in Elements(l.received);
  }

  lemma AdvanceMakesValid(l: Ledger)
    requires Pending(l)
    ensures Valid(Advance(l)) && l.offset <= Advance(l).offset
  {
    hide Advance, Ascending, LanesAgree;
    AdvanceKeepsShape(l);
    AdvanceFrame(l);
    forall id | id in Elements(Advance(l).received) ensures id in Advance(l).tracked.Keys {
      assert id in Elements(l.received);
      AdvanceSplits(l, id);
    }
    forall id | id in Advance(l).tracked.Keys ensures id in Elements(Advance(l).received) {
      AdvanceSplits(l, id);
    }
    assert Elements(Advance(l).received) == Advance(l).tracked.Keys;
    if Advance(l).received != [] {
      AdvanceFront(l);
      assert Advance(l).received[0] in Elements(Advance(l).received);
    }
    LanesSurviveAdvance(l);
  }

  lemma LanesSurviveAdvance(l: Ledger)
    requires Pending(l)
    ensures LanesAgree(Advance(l))
  {
    hide Advance;
    forall id | id in l.tracked && l.tracked[id] != Settled ensures id in Advance(l).tracked {
      AdvanceSplits(l, id);
    }
    AdvanceFrame(l);
  }

  lemma AdvanceFrame(l: Ledger)
    ensures Advance(l).primary == l.primary && Advance(l).control == l.control
    ensures forall id <- Advance(l).tracked :: id in l.tracked && Advance(l).tracked[id] == l.tracked[id]
  {
  }

  lemma StartKeepsValid(l: Ledger, id: int, lane: Lane)
    requires Valid(l) && id in l.tracked && l.tracked[id] == Queued && LaneHolder(l, lane).None?
    ensures Valid(Start(l, id, lane)) && Start(l, id, lane).tracked.Keys == l.tracked.Keys
  {
    hide Ascending, Elements;
  }

  /** When a primary is chosen every smaller tracked update has settled. */
  lemma OlderHaveSettled(l: Ledger, sched: Scheduling, i: nat)
    requires Ascending(l.received) && Elements(l.received) == l.tracked.Keys && LanesAgree(l)
    requires i < |l.received| && PrimaryToStart(l, sched).Some? && l.received[i] < PrimaryToStart(l, sched).value
    ensures l.tracked[l.received[i]] == Settled
  {
    var n := FirstQueued(l, l.received, sched.controlFirst, false);
    var id := l.received[i];
    assert id in Elements(l.received);
    assert i < n && !QueuedIn(l, id, sched.controlFirst, false);
    assert l.tracked[id] != InControl && !QueuedIn(l, id, sched.controlFirst, true);
  }

  /** Between two segments of the channel, a starting primary is the frontier itself. */
  lemma PrimaryStartsAtFrontier(l: Ledger, sched: Scheduling)
    requires Valid(l) && PrimaryToStart(l, sched).Some?
    ensures l.received != [] && PrimaryToStart(l, sched) == Some(l.received[0]) && l.received[0] == l.offset
    ensures l.offset in l.tracked && l.tracked[l.offset] == Queued && forall id <- l.tracked :: l.offset <= id
  {
    ValidIsPending(l);
    assert l.received[0] in Elements(l.received);
    if l.received[0] < PrimaryToStart(l, sched).value {
      OlderHaveSettled(l, sched, 0);
    }
  }

  lemma ControlStartsQueued(l: Ledger, sched: Scheduling)
    requires Valid(l) && ControlToStart(l, sched).Some?
    ensures var id := ControlToStart(l, sched).value;
      id in l.tracked && l.tracked[id] == Queued && id in sched.controlThen
    ensures l.control.None?
  {
  }

  lemma ScheduleKeepsValid(l: Ledger, sched: Scheduling)
    requires Valid(l)
    ensures Valid(AfterPrimary(l, sched)) && Valid(Schedule(l, sched))
    ensures Schedule(l, sched).offset == l.offset && Schedule(l, sched).received == l.received
    ensures Schedule(l, sched).tracked.Keys == l.tracked.Keys
    ensures forall id <- l.tracked :: Schedule(l, sched).tracked[id] == Settled <==> l.tracked[id] == Settled
  {
    hide Valid;
    var middle := AfterPrimary(l, sched);
    if PrimaryToStart(l, sched).Some? {
      PrimaryStartsAtFrontier(l, sched);
      StartKeepsValid(l, PrimaryToStart(l, sched).value, Primary);
    }
    if ControlToStart(middle, sched).Some? {
      ControlStartsQueued(middle, sched);
      StartKeepsValid(middle, ControlToStart(middle, sched).value, Control);
    }
  }

  // ---------- every run ----------

  function Last(s: seq<int>): int
    requires s != []
  {
    s[|s| - 1]
  }

  /** Up to the newest tracked update, everything the server issued at or above the
      frontier is tracked. */
  ghost predicate NoGap(issued: seq<int>, l: Ledger) {
    && l.tracked.Keys <= Elements(issued)
    && (forall id <- issued, t <- l.tracked :: l.offset <= id <= t ==> id in l.tracked)
  }

  ghost predicate StreamInv(issued: seq<int>, l: Ledger) {
    && Ascending(issued) && (forall id <- issued :: id >= 0)
    && (if issued == [] then l.offset <= 0 else l.offset <= Last(issued) + 1)
    && NoGap(issued, l)
  }

  /** Settlement events and the ledger agree, and everything below the frontier has
      settled. */
  ghost predicate SettledInv(issued: seq<int>, l: Ledger, log: seq<Event>) {
    && (forall id <- l.tracked :: l.tracked[id] == Settled <==> Settles(id) in log)
    && (forall e <- log :: e.Settles? && e.id !in l.tracked ==> e.id < l.offset)
    && (forall id <- issued :: id < l.offset ==> Settles(id) in log)
  }

  predicate EventInOrder(before: seq<Event>, e: Event) {
    e.Started? ==>
      && Settles(e.id) !in before
      && (e.lane == Primary ==> forall x <- before :: x.Started? && x.lane == Primary ==> x.id <= e.id)
  }

  ghost predicate OrderInv(l: Ledger, log: seq<Event>) {
    && (forall k :: 0 <= k < |log| ==> EventInOrder(log[..k], log[k]))
    && (forall e <- log :: e.Started? && e.lane == Primary ==> e.id <= l.offset)
  }

  ghost predicate PollInv(w: World) {
    && (forall o <- w.polled :: o <= w.ledger.offset)
    && (w.poll.Some? && !w.poll.value.interrupted ==> w.poll.value.requested == w.ledger.offset)
  }

  ghost predicate Inv(w: World) {
    && Valid(w.ledger)
    && StreamInv(w.issued, w.ledger)
    && SettledInv(w.issued, w.ledger, w.log)
    && OrderInv(w.ledger, w.log)
    && PollInv(w)
  }

  lemma OrderSnoc(log: seq<Event>, e: Event)
    requires forall k :: 0 <= k < |log| ==> EventInOrder(log[..k], log[k])
    requires EventInOrder(log, e)
    ensures forall k :: 0 <= k < |log + [e]| ==> EventInOrder((log + [e])[..k], (log + [e])[k])
  {
    var all := log + [e];
    forall k | 0 <= k < |all| ensures EventInOrder(all[..k], all[k]) {
      assert k < |log| ==> all[..k] == log[..k];
      assert k == |log| ==> all[..k] == log;
    }
  }

  // Advancing and scheduling, seen from the stream and the log.

  lemma AdvanceKeepsStream(issued: seq<int>, l: Ledger, log: seq<Event>)
    requires Pending(l) && StreamInv(issued, l) && SettledInv(issued, l, log)
    ensures StreamInv(issued, Advance(l)) && SettledInv(issued, Advance(l), log)
  {
    hide Advance, LanesAgree, Ascending;
    var a := Advance(l);
    AdvanceKeepsShape(l);
    AdvanceFrame(l);
    AdvanceReach(l);
    forall id | id in l.tracked
      ensures id in a.tracked <==> a.offset <= id
      ensures id < a.offset ==> l.tracked[id] == Settled
    {
      AdvanceSplits(l, id);
    }
    if a.offset > l.offset {
      var t :| t in l.tracked && a.offset <= t + 1;
      assert t in Elements(issued);
      LastIsGreatest(issued, t);
      forall id | id in issued && l.offset <= id < a.offset ensures Settles(id) in log {
        assert id <= t && id in l.tracked;
      }
    }
    forall e | e in log && e.Settles? && e.id !in a.tracked ensures e.id < a.offset {
      assert e.id in l.tracked ==> e.id < a.offset;
    }
    forall id | id in a.tracked.Keys ensures id in Elements(issued) {
      assert id in l.tracked.Keys;
    }
  }

  // The four kinds of step.

  /** The ledger right after the update has left its lane. */
  function Freed(l: Ledger, id: int, lane: Lane, settled: bool): Ledger {
    var marked := l.(tracked := l.tracked[id := if settled then Settled else Queued]);
    if lane == Primary then marked.(primary := None) else marked.(control := None)
  }

  lemma FreedIsPending(l: Ledger, lane: Lane, settled: bool)
    requires Valid(l) && LaneHolder(l, lane).Some?
    ensures var id := LaneHolder(l, lane).value; id in l.tracked && Pending(Freed(l, id, lane, settled))
    ensures Freed(l, LaneHolder(l, lane).value, lane, settled).tracked.Keys == l.tracked.Keys
  {
    hide Ascending, Elements;
    ValidIsPending(l);
    assert Freed(l, LaneHolder(l, lane).value, lane, settled).tracked.Keys == l.tracked.Keys;
  }

  lemma FreedKeepsStream(issued: seq<int>, l: Ledger, log: seq<Event>, lane: Lane, settled: bool)
    requires Valid(l) && StreamInv(issued, l) && SettledInv(issued, l, log) && LaneHolder(l, lane).Some?
    ensures var id := LaneHolder(l, lane).value; var f := Freed(l, id, lane, settled);
      StreamInv(issued, f) && SettledInv(issued, f, log + [if settled then Settles(id) else GoesBack(id)])
  {
    hide Ascending, Elements, Pending;
    FreedIsPending(l, lane, settled);
  }

  lemma ReturnedKeepsHistory(issued: seq<int>, l: Ledger, log: seq<Event>, lane: Lane, settled: bool)
    requires Valid(l) && StreamInv(issued, l) && SettledInv(issued, l, log) && LaneHolder(l, lane).Some?
    ensures var id := LaneHolder(l, lane).value;
      var e := if settled then Settles(id) else GoesBack(id);
      var r := Returned(l, id, lane, settled);
      Valid(r) && l.offset <= r.offset && StreamInv(issued, r) && SettledInv(issued, r, log + [e])
  {
    var id := LaneHolder(l, lane).value;
    var f := Freed(l, id, lane, settled);
    assert Returned(l, id, lane, settled) == Advance(f) && f.offset == l.offset;
    hide Advance, Ascending, Pending, Valid, StreamInv, SettledInv, Freed, Returned;
    FreedIsPending(l, lane, settled);
    FreedKeepsStream(issued, l, log, lane, settled);
    AdvanceMakesValid(f);
    AdvanceKeepsStream(issued, f, log + [if settled then Settles(id) else GoesBack(id)]);
  }

  lemma {:induction false} ResponseIsPrefix(issued: seq<int>, offset: int)
    requires Ascending(issued)
    ensures var held := AtOrAbove(issued, offset);
      && Ascending(held) && (forall id :: id in held <==> id in issued && offset <= id)
  {
    if issued != [] {
      ResponseIsPrefix(issued[1..], offset);
      assert issued == [issued[0]] + issued[1..];
      var tail := AtOrAbove(issued[1..], offset);
      forall i | 0 <= i < |tail| ensures issued[0] < tail[i] {
        assert tail[i] in tail && tail[i] in issued[1..];
      }
    }
  }

  /** The answer has no gaps: what is issued between the offset and an answered id is
      answered too. */
  lemma ResponseHasNoGap(issued: seq<int>, offset: int, count: nat, id: int, t: int)
    requires Ascending(issued) && t in Response(issued, offset, count)
    ensures t in issued && offset <= t
    ensures id in issued && offset <= id <= t ==> id in Response(issued, offset, count)
  {
    ResponseIsPrefix(issued, offset);
    var held := AtOrAbove(issued, offset);
    var r := Response(issued, offset, count);
    var k :| 0 <= k < |r| && r[k] == t;
    assert held[k] == t;
    if id in issued && offset <= id <= t {
      var m :| 0 <= m < |held| && held[m] == id;
      assert m <= k && r[m] == id;
    }
  }

  lemma IngestKeepsHistory(issued: seq<int>, l: Ledger, log: seq<Event>, count: nat)
    requires Valid(l) && StreamInv(issued, l) && SettledInv(issued, l, log)
    ensures var r := Ingest(l, Response(issued, l.offset, count));
      Valid(r) && l.offset <= r.offset && StreamInv(issued, r) && SettledInv(issued, r, log)
  {
    hide Advance, Ascending, Response, Valid, LanesAgree;
    var updates := Response(issued, l.offset, count);
    if !Saturated(l, updates) {
      AddedIsPending(l, updates);
      AddedKeepsStream(issued, l, log, count);
      var added := Added(l, Additions(l, updates));
      AdvanceMakesValid(added);
      AdvanceKeepsStream(issued, added, log);
    }
  }

  lemma AddedIsPending(l: Ledger, updates: seq<int>)
    requires Valid(l) && !Saturated(l, updates)
    ensures Pending(Added(l, Additions(l, updates)))
    ensures Added(l, Additions(l, updates)).offset == l.offset
  {
    hide Added, Additions, Ascending, LanesAgree;
    ValidIsPending(l);
    var a := Additions(l, updates);
    AddedFacts(l, updates);
    var added := Added(l, a);
    forall id | id in added.tracked ensures l.offset <= id && (id in l.tracked || added.tracked[id] == Queued) {
      assert id in l.tracked.Keys + Elements(a);
    }
    SizeOfKeys(l);
    QueuedExtensionAgrees(l, added);
  }

  lemma QueuedExtensionAgrees(l: Ledger, added: Ledger)
    requires LanesAgree(l) && added.primary == l.primary && added.control == l.control
    requires l.tracked.Keys <= added.tracked.Keys
    requires forall id <- l.tracked :: added.tracked[id] == l.tracked[id]
    requires forall id <- added.tracked :: id in l.tracked || added.tracked[id] == Queued
    ensures LanesAgree(added)
  {
  }

  lemma SizeOfKeys(l: Ledger)
    requires Ascending(l.received) && Elements(l.received) == l.tracked.Keys
    ensures |l.received| == |l.tracked|
  {
    AscendingSize(l.received);
    assert |l.tracked.Keys| == |l.tracked|;
  }

  lemma {:induction false} AscendingSize(s: seq<int>)
    requires Ascending(s)
    ensures |Elements(s)| == |s|
  {
    if s != [] {
      AscendingSize(s[1..]);
      assert s == [s[0]] + s[1..];
      assert Elements(s) == {s[0]} + Elements(s[1..]);
    }
  }

  lemma AddedFacts(l: Ledger, updates: seq<int>)
    requires Ascending(l.received) && Elements(l.received) == l.tracked.Keys
    ensures var a := Additions(l, updates); AddedTo(l, a, Added(l, a)) && NewOf(l, updates, a)
  {
    hide AddedTo, NewOf, Added, Additions;
    var a := Additions(l, updates);
    AdditionsAreNew(l, updates);
    assert a[..|a|] == a;
    AddedAscending(l, updates, |a|);
  }

  lemma AddedKeepsNoGap(issued: seq<int>, l: Ledger, a: seq<int>, added: Ledger, count: nat)
    requires StreamInv(issued, l) && AddedTo(l, a, added) && NewOf(l, Response(issued, l.offset, count), a)
    ensures StreamInv(issued, added)
  {
    hide Response, Ascending;
    forall t | t in added.tracked ensures t in issued {
      assert t in l.tracked.Keys + Elements(a);
      if t !in l.tracked { ResponseHasNoGap(issued, l.offset, count, t, t); }
    }
    forall id, t | id in issued && t in added.tracked && l.offset <= id <= t ensures id in added.tracked {
      assert t in l.tracked.Keys + Elements(a);
      if t !in l.tracked {
        ResponseHasNoGap(issued, l.offset, count, id, t);
        assert id in l.tracked || id in Elements(a);
      }
    }
  }

  lemma AddedKeepsSettled(issued: seq<int>, l: Ledger, a: seq<int>, added: Ledger, log: seq<Event>, updates: seq<int>)
    requires SettledInv(issued, l, log) && AddedTo(l, a, added) && NewOf(l, updates, a)
    ensures SettledInv(issued, added, log)
  {
    hide Ascending;
    forall id | id in added.tracked ensures added.tracked[id] == Settled <==> Settles(id) in log {
      assert id in l.tracked.Keys + Elements(a);
      if id !in l.tracked {
        var e := Settles(id);
        assert e in log ==> e.id in l.tracked || e.id < l.offset;
      }
    }
  }

  lemma AddedKeepsStream(issued: seq<int>, l: Ledger, log: seq<Event>, count: nat)
    requires Valid(l) && StreamInv(issued, l) && SettledInv(issued, l, log)
    ensures var added := Added(l, Additions(l, Response(issued, l.offset, count)));
      StreamInv(issued, added) && SettledInv(issued, added, log)
  {
    hide Added, Additions, Ascending, Response, StreamInv, SettledInv, NewOf;
    var updates := Response(issued, l.offset, count);
    var a := Additions(l, updates);
    AddedFacts(l, updates);
    AddedKeepsNoGap(issued, l, a, Added(l, a), count);
    AddedKeepsSettled(issued, l, a, Added(l, a), log, updates);
  }

  lemma StepKeepsInv(w: World, a: Action)
    requires Inv(w)
    ensures Inv(Step(w, a))
  {
    hide Valid, StreamInv, SettledInv, OrderInv, Schedule, StartsOf, Returned, Ingest, Response, LaneHolder;
    match a {
      case Issue(id) => IssueKeepsInv(w, id);
      case SendPoll =>
      case ReplyPoll(count, sched) =>
        if w.poll.Some? && !w.poll.value.interrupted {
          IngestKeepsHistory(w.issued, w.ledger, w.log, count);
          var l := Ingest(w.ledger, Response(w.issued, w.ledger.offset, count));
          ScheduledKeepsInv(w.(poll := None), l, sched, [], w.log);
        }
      case FailPoll =>
      case FinishUpdate(lane, settled, sched) =>
        if LaneHolder(w.ledger, lane).Some? {
          var id := LaneHolder(w.ledger, lane).value;
          var e := if settled then Settles(id) else GoesBack(id);
          ReturnedKeepsHistory(w.issued, w.ledger, w.log, lane, settled);
          OrderOfReturn(w, id, settled);
          ScheduledKeepsInv(w, Returned(w.ledger, id, lane, settled), sched, [e], w.log + [e]);
        }
      case Reschedule(sched) =>
        ScheduledKeepsInv(w, w.ledger, sched, [], w.log);
      case ConfirmOffset =>
    }
  }

  lemma OrderOfReturn(w: World, id: int, settled: bool)
    requires OrderInv(w.ledger, w.log)
    ensures OrderInv(w.ledger, w.log + [if settled then Settles(id) else GoesBack(id)])
  {
    OrderSnoc(w.log, if settled then Settles(id) else GoesBack(id));
  }

  lemma IssueKeepsInv(w: World, id: int)
    requires Inv(w)
    ensures Inv(Step(w, Issue(id)))
  {
    hide Valid, OrderInv;
    var t := Step(w, Issue(id));
    if t != w {
      forall x | x in w.issued ensures x < id {
        LastIsGreatest(w.issued, x);
      }
      assert Elements(t.issued) == Elements(w.issued) + {id};
      forall x | x in w.ledger.tracked ensures x in w.issued {
        assert x in w.ledger.tracked.Keys;
      }
    }
  }

  lemma ScheduledKeepsInv(w: World, l: Ledger, sched: Scheduling, event: seq<Event>, log: seq<Event>)
    requires PollInv(w) && OrderInv(w.ledger, log) && log == w.log + event
    requires Valid(l) && w.ledger.offset <= l.offset && StreamInv(w.issued, l) && SettledInv(w.issued, l, log)
    ensures Inv(Scheduled(w, l, sched, event))
  {
    hide Valid, StreamInv, SettledInv, Schedule, StartsOf;
    ScheduleKeepsHistory(w.issued, l, log, sched);
    ScheduleKeepsValid(l, sched);
  }

  lemma {:induction false} RunKeepsInv(actions: seq<Action>)
    ensures Inv(Exec(actions))
  {
    if actions != [] {
      RunKeepsInv(actions[..|actions| - 1]);
      StepKeepsInv(Exec(actions[..|actions| - 1]), actions[|actions| - 1]);
    }
  }

  // ---------- facts used above ----------

  /** The frontier never passes the newest tracked update by more than one. */
  lemma AdvanceReach(l: Ledger)
    requires Pending(l)
    ensures Advance(l).offset > l.offset ==> exists t <- l.tracked :: Advance(l).offset <= t + 1
  {
    var k := SettledPrefix(l.received, l.tracked);
    if k < |l.received| {
      assert l.received[k..][0] == l.received[k] && l.received[k] in Elements(l.received);
    } else if k > 0 {
      assert l.received[k - 1] in Elements(l.received);
    }
  }

  lemma LastIsGreatest(s: seq<int>, id: int)
    requires Ascending(s) && id in s
    ensures s != [] && id <= Last(s)
  {
  }

  lemma ScheduleKeepsHistory(issued: seq<int>, l: Ledger, log: seq<Event>, sched: Scheduling)
    requires Valid(l) && StreamInv(issued, l) && SettledInv(issued, l, log) && OrderInv(l, log)
    ensures Valid(Schedule(l, sched)) && StreamInv(issued, Schedule(l, sched))
    ensures SettledInv(issued, Schedule(l, sched), log + StartsOf(l, sched))
    ensures OrderInv(Schedule(l, sched), log + StartsOf(l, sched))
  {
    hide Valid, Schedule, PrimaryToStart, ControlToStart, Ascending, AfterPrimary;
    ScheduleKeepsValid(l, sched);
    var p := PrimaryToStart(l, sched);
    var middle := AfterPrimary(l, sched);
    var c := ControlToStart(middle, sched);
    var first := if p.Some? then [Started(p.value, Primary)] else [];
    var second := if c.Some? then [Started(c.value, Control)] else [];
    assert log + StartsOf(l, sched) == log + first + second;
    MiddleIsQueued(l, sched);
    if p.Some? {
      PrimaryStartsAtFrontier(l, sched);
      OrderSnoc(log, Started(p.value, Primary));
    } else {
      assert log + first == log;
    }
    if c.Some? {
      OrderSnoc(log + first, Started(c.value, Control));
    } else {
      assert log + first + second == log + first;
    }
  }

  lemma MiddleIsQueued(l: Ledger, sched: Scheduling)
    requires Valid(l)
    ensures Valid(AfterPrimary(l, sched))
    ensures ControlToStart(AfterPrimary(l, sched), sched).Some? ==>
      var id := ControlToStart(AfterPrimary(l, sched), sched).value;
      id in l.tracked && l.tracked[id] == Queued
  {
    hide Valid;
    ScheduleKeepsValid(l, sched);
    var middle := AfterPrimary(l, sched);
    if ControlToStart(middle, sched).Some? {
      ControlStartsQueued(middle, sched);
    }
  }
}
