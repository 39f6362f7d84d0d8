/** What the Telegram channel promises, over every run against the server. */
module TelegramPromises {
  import opened Basics
  import opened TelegramLedger
  import opened TelegramPolling

  /** Every offset ever sent to the server is at most every update that has not
      settled, so the server forgets nothing unprocessed. */
  lemma FrontierSafety(actions: seq<Action>, o: int, id: int)
    requires var w := Exec(actions); o in w.polled && id in w.issued && Settles(id) !in w.log
    ensures o <= id
  {
    hide Exec;
    RunKeepsInv(actions);
  }

  lemma ScheduledAtFrontier(w: World, l: Ledger, sched: Scheduling, event: seq<Event>, k: nat)
    requires Valid(l) && |w.log| <= k < |Scheduled(w, l, sched, event).log|
    requires forall i :: 0 <= i < |event| ==> !event[i].Started?
    ensures var v := Scheduled(w, l, sched, event);
      v.log[k].Started? && v.log[k].lane == Primary ==>
        v.log[k].id == v.ledger.offset && v.ledger.offset in v.ledger.tracked
  {
    hide Valid, Schedule, PrimaryToStart, ControlToStart, AfterPrimary;
    ScheduleKeepsValid(l, sched);
    var v := Scheduled(w, l, sched, event);
    if PrimaryToStart(l, sched).Some? { PrimaryStartsAtFrontier(l, sched); }
    if k < |w.log| + |event| {
      assert v.log[k] == event[k - |w.log|];
    } else {
      assert v.log[k] == StartsOf(l, sched)[k - |w.log| - |event|];
    }
  }

  /** Whenever a primary starts its id is the offset, and every other tracked update is
      younger: whatever was older has settled and been consumed. */
  lemma PrimaryIsFrontier(actions: seq<Action>, a: Action, k: nat)
    requires |Exec(actions).log| <= k < |Step(Exec(actions), a).log|
    ensures var v := Step(Exec(actions), a);
      v.log[k].Started? && v.log[k].lane == Primary ==>
      v.log[k].id == v.ledger.offset && v.ledger.offset in v.ledger.tracked &&
        forall x <- v.ledger.tracked :: v.ledger.offset <= x
  {
    hide Exec, Valid, StreamInv, SettledInv, OrderInv, Scheduled, Returned, Ingest, Response;
    var w := Exec(actions);
    RunKeepsInv(actions);
    StepKeepsInv(w, a);
    TrackedAtOrAbove(Step(w, a).ledger);
    match a {
      case ReplyPoll(count, sched) =>
        if w.poll.Some? && !w.poll.value.interrupted {
          IngestKeepsHistory(w.issued, w.ledger, w.log, count);
          ScheduledAtFrontier(w.(poll := None), Ingest(w.ledger, Response(w.issued, w.ledger.offset, count)), sched,
            [], k);
        }
      case FinishUpdate(lane, settled, sched) =>
        if LaneHolder(w.ledger, lane).Some? {
          var id := LaneHolder(w.ledger, lane).value;
          ReturnedKeepsHistory(w.issued, w.ledger, w.log, lane, settled);
          ScheduledAtFrontier(w, Returned(w.ledger, id, lane, settled), sched,
            [if settled then Settles(id) else GoesBack(id)], k);
        }
      case Reschedule(sched) => ScheduledAtFrontier(w, w.ledger, sched, [], k);
      case _ =>
    }
  }

  lemma TrackedAtOrAbove(l: Ledger)
    requires Valid(l)
    ensures forall x <- l.tracked :: l.offset <= x
  {
    ValidIsPending(l);
    forall x | x in l.tracked ensures l.offset <= x {
      assert x in Elements(l.received);
    }
  }

  /** Primary starts never go backwards, and an update that has settled is never
      started again on either lane. */
  lemma StartsInOrder(actions: seq<Action>, i: nat, j: nat)
    requires var log := Exec(actions).log; i < j < |log| && log[j].Started?
    ensures var log := Exec(actions).log;
      && log[i] != Settles(log[j].id)
      && (log[i].Started? && log[i].lane == log[j].lane == Primary ==> log[i].id <= log[j].id)
  {
    hide Exec;
    RunKeepsInv(actions);
    var log := Exec(actions).log;
    assert EventInOrder(log[..j], log[j]);
    assert log[..j][i] == log[i];
  }

  /** At most one update per lane, at most 100 tracked, and the frontier is the oldest
      tracked update, which has not settled. */
  lemma WindowBounded(actions: seq<Action>)
    ensures var l := Exec(actions).ledger;
      && |l.tracked| <= MAX_TRACKED_UPDATES
      && (forall x <- l.tracked, y <- l.tracked ::
          l.tracked[x] == l.tracked[y] && l.tracked[x] in {InPrimary, InControl} ==> x == y)
      && (forall x <- l.tracked :: l.offset <= x)
      && (l.tracked != map[] ==> l.offset in l.tracked && l.tracked[l.offset] != Settled)
  {
    hide Exec;
    RunKeepsInv(actions);
    var l := Exec(actions).ledger;
    SizeOfKeys(l);
    ValidIsPending(l);
    if l.received == [] {
      assert l.tracked.Keys == {};
    } else {
      assert l.received[0] in Elements(l.received);
    }
  }

  /** Against the server an answer never overflows the ledger: it is refused only when
      the window is full and the answer repeats it. */
  lemma AnswerNeverOverflows(actions: seq<Action>, count: nat)
    ensures var w := Exec(actions);
      var updates := Response(w.issued, w.ledger.offset, count);
      && |w.ledger.tracked| + |Additions(w.ledger, updates)| <= MAX_TRACKED_UPDATES
      && (Saturated(w.ledger, updates) ==>
          |w.ledger.tracked| == MAX_TRACKED_UPDATES && Additions(w.ledger, updates) == [])
  {
    hide Exec, Additions, Response, LanesAgree, SettledInv, OrderInv, PollInv, Ascending;
    RunKeepsInv(actions);
    var w := Exec(actions);
    var l, updates := w.ledger, Response(w.issued, w.ledger.offset, count);
    var a := Additions(l, updates);
    AdditionsAreNew(l, updates);
    SizeOfKeys(l);
    ValidIsPending(l);
    if a != [] {
      var u := a[0];
      assert u in a;
      forall t | t in l.tracked ensures t in updates {
        assert t in w.issued by { assert t in l.tracked.Keys; }
        ResponseHasNoGap(w.issued, l.offset, count, t, u);
      }
      SizeOfResponse(w.issued, l.offset, count);
      DistinctSize(a);
      assert l.tracked.Keys !! Elements(a);
      assert |l.tracked.Keys + Elements(a)| == |l.tracked| + |a|;
      SubsetSize(l.tracked.Keys + Elements(a), Elements(updates));
    }
  }

  lemma {:induction false} DistinctSize(a: seq<int>)
    requires forall i, j :: 0 <= i < j < |a| ==> a[i] != a[j]
    ensures |Elements(a)| == |a|
  {
    if a != [] {
      var rest := a[1..];
      assert forall i :: 0 <= i < |rest| ==> rest[i] == a[i + 1];
      DistinctSize(rest);
      assert a == [a[0]] + rest;
      assert Elements(a) == {a[0]} + Elements(rest);
    }
  }

  lemma {:induction false} ElementsBound(s: seq<int>)
    ensures |Elements(s)| <= |s|
  {
    if s != [] {
      ElementsBound(s[1..]);
      assert s == [s[0]] + s[1..];
      assert Elements(s) == {s[0]} + Elements(s[1..]);
    }
  }

  lemma SizeOfResponse(issued: seq<int>, offset: int, count: nat)
    ensures |Elements(Response(issued, offset, count))| <= MAX_TRACKED_UPDATES
  {
    ElementsBound(Response(issued, offset, count));
  }
}
